/**
  Turnstile in xserver-renew.py: the widget is clicked and its response field watched for
  `max_wait` rounds; only when that fails is the YesCaptcha service asked for a token,
  through one `createTask` request and up to sixty `getTaskResult` polls.
  The service's replies and the page's response field are inputs; the three-second
  pauses between polls and the injection of the token into the page are left to the page.
 */
module XServerTurnstile {
  import opened Wrappers
  import opened PyStr
  import opened Signals

  /** Most `getTaskResult` polls made for one task. */
  const MaxPolls: nat := 60

  /**
    The reply to `createTask`: its `errorId` (0 when absent) and `taskId`, or a request
    that failed or did not return JSON.
   */
  datatype CreateReply = CreateFailed | Created(errorId: int, taskId: Option<string>)

  /**
    The reply to one `getTaskResult` poll: its `status`, `errorId` (0 when absent) and the
    `solution.token` (absent when the reply has no such field), or a failed request.
   */
  datatype PollReply = PollFailed | Polled(status: Option<string>, errorId: int, token: Option<string>)

  /** A poll that lets the loop go on: the task is neither ready nor in error. */
  predicate Pending(reply: PollReply) {
    reply.Polled? && reply.status != Some("ready") && reply.errorId == 0
  }

  /** A poll reporting the task ready with token `t`. */
  predicate ReadyWith(reply: PollReply, t: string) {
    reply.Polled? && reply.status == Some("ready") && reply.token == Some(t)
  }

  /**
    The polls from number `i` on: the token the loop returns and how many polls have then
    been made in all. A ready status is looked at before the error id; a ready reply
    without a token ends in the exception handler, so gives nothing.
   */
  function PollFrom(poll: nat -> PollReply, i: nat): (r: (Option<string>, nat))
    requires i <= MaxPolls
    ensures i <= r.1 <= MaxPolls
    ensures i < MaxPolls ==> i < r.1
    decreases MaxPolls - i
  {
    if i == MaxPolls then (None, i)
    else
      match poll(i)
      case PollFailed => (None, i + 1)
      case Polled(status, errorId, token) =>
        if status == Some("ready") then (token, i + 1)
        else if errorId != 0 then (None, i + 1)
        else PollFrom(poll, i + 1)
  }

  /**
    `solve_turnstile_yescaptcha`: the token, and how many requests were sent. Nothing is
    sent without a client key; a failed or refused `createTask` ends after one request.
   */
  function Solve(clientKey: string, create: CreateReply, poll: nat -> PollReply): (r: (Option<string>, nat))
    ensures r.1 <= 1 + MaxPolls
    ensures clientKey == "" ==> r == (None, 0)
    ensures r.0.Some? ==> clientKey != "" && create.Created? && create.errorId == 0
  {
    if clientKey == "" then (None, 0)
    else
      match create
      case CreateFailed => (None, 1)
      case Created(errorId, _) =>
        if errorId != 0 then (None, 1)
        else
          var p := PollFrom(poll, 0);
          (p.0, 1 + p.1)
  }

  /** The request loop of `solve_turnstile_yescaptcha`. */
  method SolveTurnstile(clientKey: string, create: CreateReply, poll: nat -> PollReply)
    returns (token: Option<string>, requests: nat)
    ensures (token, requests) == Solve(clientKey, create, poll)
  {
    token, requests := None, 0;
    if clientKey == "" {
      return;
    }
    requests := 1;
    if create.CreateFailed? || create.errorId != 0 {
      return;
    }
    var i := 0;
    while i < MaxPolls
      invariant 0 <= i <= MaxPolls
      invariant requests == 1 + i
      invariant PollFrom(poll, i) == PollFrom(poll, 0)
    {
      var reply := poll(i);
      requests := requests + 1;
      if reply.PollFailed? {
        return;
      }
      if reply.status == Some("ready") {
        token := reply.token;
        return;
      }
      if reply.errorId != 0 {
        return;
      }
      i := i + 1;
    }
  }

  /** Poll `n` is the first from `i` on that is not pending, and it is ready with `t`. */
  ghost predicate ReadyFirstAt(poll: nat -> PollReply, i: nat, n: nat, t: string) {
    i <= n < MaxPolls && ReadyWith(poll(n), t) && forall m: nat :: i <= m < n ==> Pending(poll(m))
  }

  /**
    The polls from `i` give token `t` exactly when the first of them that is not pending
    reports the task ready with `t`.
   */
  lemma {:induction false} PollTokenIff(poll: nat -> PollReply, i: nat, t: string)
    requires i <= MaxPolls
    ensures PollFrom(poll, i).0 == Some(t) <==> exists n: nat :: ReadyFirstAt(poll, i, n, t)
    decreases MaxPolls - i
  {
    if i < MaxPolls {
      PollTokenIff(poll, i + 1, t);
      if PollFrom(poll, i).0 == Some(t) {
        if ReadyWith(poll(i), t) {
          assert ReadyFirstAt(poll, i, i, t);
        } else {
          assert Pending(poll(i));
          var n: nat :| ReadyFirstAt(poll, i + 1, n, t);
          assert ReadyFirstAt(poll, i, n, t);
        }
      }
      if exists n: nat :: ReadyFirstAt(poll, i, n, t) {
        var n: nat :| ReadyFirstAt(poll, i, n, t);
        if n > i {
          assert Pending(poll(i));
          assert ReadyFirstAt(poll, i + 1, n, t);
        }
      }
    }
  }

  /** When every poll from `i` is pending, the loop runs out and gives nothing. */
  lemma {:induction false} PollTimeout(poll: nat -> PollReply, i: nat)
    requires i <= MaxPolls
    requires forall m: nat :: i <= m < MaxPolls ==> Pending(poll(m))
    ensures PollFrom(poll, i) == (None, MaxPolls)
    decreases MaxPolls - i
  {
    if i < MaxPolls {
      assert Pending(poll(i));
      PollTimeout(poll, i + 1);
    }
  }

  /**
    The solver gives token `t` exactly when a key is set, the task was created without
    error, and the first poll that is not pending reports it ready with `t`.
   */
  lemma SolveTokenIff(clientKey: string, create: CreateReply, poll: nat -> PollReply, t: string)
    ensures Solve(clientKey, create, poll).0 == Some(t) <==>
      clientKey != "" && create.Created? && create.errorId == 0
      && (exists n: nat :: n < MaxPolls && ReadyWith(poll(n), t)
            && forall m: nat :: m < n ==> Pending(poll(m)))
  {
    PollTokenIff(poll, 0, t);
    if exists n: nat :: n < MaxPolls && ReadyWith(poll(n), t) && forall m: nat :: m < n ==> Pending(poll(m)) {
      var n: nat :| n < MaxPolls && ReadyWith(poll(n), t) && forall m: nat :: m < n ==> Pending(poll(m));
      assert ReadyFirstAt(poll, 0, n, t);
    }
  }

  /** A task stuck in the pending state costs the full sixty polls and gives nothing. */
  lemma SolveTimeout(clientKey: string, create: CreateReply, poll: nat -> PollReply)
    requires clientKey != "" && create.Created? && create.errorId == 0
    requires forall m: nat :: m < MaxPolls ==> Pending(poll(m))
    ensures Solve(clientKey, create, poll) == (None, 1 + MaxPolls)
  {
    PollTimeout(poll, 0);
  }

  /**
    What `handle_turnstile` observes: whether the widget is on the page, the response field
    after each second of waiting, and the solver's configuration and replies.
   */
  datatype TurnstileEnv = TurnstileEnv(widgetFound: bool, response: nat -> string,
                                       clientKey: string, create: CreateReply, poll: nat -> PollReply)

  /** Some check within `maxWait` rounds sees a solved response. */
  ghost predicate SolvedWithin(response: nat -> string, maxWait: int) {
    exists i: nat :: i < maxWait && Solved(response(i))
  }

  /**
    The challenge counts as passed when there is no widget, when a check sees it solved, or
    when the solver hands over a non-empty token (whatever its length).
   */
  ghost predicate TurnstilePasses(env: TurnstileEnv, maxWait: int) {
    || !env.widgetFound
    || SolvedWithin(env.response, maxWait)
    || Truthy(Solve(env.clientKey, env.create, env.poll).0)
  }

  /**
    `handle_turnstile`: the verdict, how many times the response field was read, and how
    many requests went to the solver, which is asked only after every check failed.
   */
  method HandleTurnstile(env: TurnstileEnv, maxWait: int) returns (ok: bool, checks: nat, requests: nat)
    ensures ok <==> TurnstilePasses(env, maxWait)
    ensures !env.widgetFound ==> checks == 0 && requests == 0
    ensures checks <= (if maxWait > 0 then maxWait else 0)
    ensures forall i: nat :: i < checks - 1 ==> !Solved(env.response(i))
    ensures env.widgetFound && SolvedWithin(env.response, maxWait) ==>
      requests == 0 && 0 < checks && Solved(env.response(checks - 1))
    ensures env.widgetFound && !SolvedWithin(env.response, maxWait) ==>
      checks == (if maxWait > 0 then maxWait else 0)
      && requests == Solve(env.clientKey, env.create, env.poll).1
  {
    ok, checks, requests := true, 0, 0;
    if !env.widgetFound {
      return;
    }
    var i := 0;
    while i < maxWait
      invariant 0 <= i <= (if maxWait > 0 then maxWait else 0)
      invariant checks == i
      invariant forall j: nat :: j < i ==> !Solved(env.response(j))
    {
      checks := checks + 1;
      if Solved(env.response(i)) {
        return;
      }
      i := i + 1;
    }
    var token;
    token, requests := SolveTurnstile(env.clientKey, env.create, env.poll);
    ok := Truthy(token);
  }
}
