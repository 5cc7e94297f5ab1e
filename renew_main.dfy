/**
  renew.py's `main`: the accounts parsed from `ACCOUNTS`, one run of the renewer per
  account in order, then the counters, the report and the returned value. What each
  account's run sees is the input, indexed by the account's position.
 */
module RenewMain {
  import opened Wrappers
  import opened PyStr
  import opened Accounts
  import opened RenewConfig
  import opened RenewPages
  import opened RenewReport

  /** Some entry of a run reports success. */
  predicate AnySuccess(rs: seq<Outcome>) {
    exists j :: 0 <= j < |rs| && rs[j].success
  }

  /** The run listed the VPSes and some VPS it went through was renewed. */
  ghost predicate AnyRenewed(s: Session) {
    Listed(s) && exists j :: 0 <= j < Renewed(s) && RenewVpsSucceeds(s.visits(j))
  }

  /**
    The loop of `main` that fills `all_results`: each account's email with the entries its
    run returned, in account order. Every run returns at least one entry.
   */
  method RunAccounts(accounts: seq<Account>, sessions: nat -> Session) returns (all: seq<AccountResult>)
    ensures |all| == |accounts|
    ensures forall k :: 0 <= k < |accounts| ==> all[k].email == accounts[k].email && all[k].results != []
    ensures forall k :: 0 <= k < |accounts| ==> (AnySuccess(all[k].results) <==> AnyRenewed(sessions(k)))
  {
    all := [];
    var k := 0;
    while k < |accounts|
      invariant 0 <= k <= |accounts| && |all| == k
      invariant forall j :: 0 <= j < k ==> all[j].email == accounts[j].email && all[j].results != []
      invariant forall j :: 0 <= j < k ==> (AnySuccess(all[j].results) <==> AnyRenewed(sessions(j)))
    {
      var results := RunRenewer(sessions(k));
      all := all + [AccountResult(accounts[k].email, results)];
      k := k + 1;
    }
  }

  /** When every account returned an entry, there are entries as soon as there is an account. */
  lemma {:induction false} EntriesNonEmpty(all: seq<AccountResult>)
    requires forall k :: 0 <= k < |all| ==> all[k].results != []
    ensures Entries(all) != [] <==> all != []
  {
    if all != [] {
      assert Entries(all) == Entries(all[..|all| - 1]) + all[|all| - 1].results;
    }
  }

  /**
    `main` up to its return: no account configured means the exit without a run and
    nothing returned true; otherwise every account is run and summarised. The value
    returned is true exactly when some account is configured, whatever the runs gave.
   */
  method RunMain(accountsStr: string, sessions: nat -> Session, botToken: string, chatId: string, now: string)
    returns (all: seq<AccountResult>, ok: bool, message: Option<string>)
    ensures |all| == |AccountsOf(Split(accountsStr, ','))|
    ensures forall k :: 0 <= k < |all| ==>
      (all[k].email == AccountsOf(Split(accountsStr, ','))[k].email
       && (AnySuccess(all[k].results) <==> AnyRenewed(sessions(k))))
    ensures ok <==> AccountsOf(Split(accountsStr, ',')) != []
    ensures message.Some? <==> AccountsOf(Split(accountsStr, ',')) != [] && TelegramEnabled(botToken, chatId)
    ensures message.Some? ==>
      message.value == Join(ReportLines(all, CountSuccesses(Entries(all)), |Entries(all)|, now), '\n')
  {
    var accounts := RenewConfig.ParseAccounts(accountsStr);
    if accounts == [] {
      return [], false, None;
    }
    all := RunAccounts(accounts, sessions);
    var successCount, totalVps;
    ok, successCount, totalVps, message := Summarise(all, botToken, chatId, now);
    EntriesNonEmpty(all);
  }
}
