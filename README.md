# XServer free-VPS renewal, modelled in Dafny

This project models `xserver-renew`: two Playwright scripts that keep a free XServer VPS
alive by renewing it through the XServer panel, and proves properties of that model.
`renew.py` reads a `.env` file, signs in, lists the VPSes, renews each one and sends a
Telegram report. `xserver-renew.py` does the same with environment variables; it adds a
YesCaptcha fallback for the Cloudflare Turnstile challenge.

Anything the browser or an HTTP service would report is an input to the model:
- page URLs and page texts;
- the value of the Turnstile response field in each round;
- button captions and link `href`s;
- YesCaptcha replies;
- the exception a step raises.

With those fixed, the scripts' decisions are deterministic, and the model states them.

Modules (one file each):

- `Wrappers`: the `Option` type.
- `PyStr`: the Python `str` operations the scripts use, written out:
  - `strip`, `split`, `split(sep, 1)` and `in`;
  - `startswith`, one-character `replace`, `lower`;
  - `str(n)` and `"\n".join`;
  - truthiness of an optional string.
- `Accounts`: the `email:password` list rule both scripts share.
- `Signals`: the two page signals both scripts read:
  - a Turnstile response longer than ten characters counts as solved;
  - the success words `完了`, `更新` and `継続`.
- For `renew.py`:
  - `RenewConfig`: `.env` lines, the account string, session file names.
  - `RenewPages`: the Turnstile loop, the login URL tests, VPS de-duplication, the renewal page and the run over one account's VPSes.
  - `RenewReport`: the counters, the Telegram report and the return value of `main`.
  - `RenewMain`: `main` itself, the per-account loop between the parsing and the summary.
- For `xserver-renew.py`:
  - `XServerTurnstile`: the YesCaptcha create-and-poll protocol and the Turnstile fallback order.
  - `XServerRenew`: the account string, the per-account renewal flow, the run over all accounts and the summary.

Loops in the scripts are `method`s with loop invariants. Each method is proved equal to a
specification function, or to a declarative property such as "the first round that ...".
The properties the scripts promise are proved as lemmas about those functions.

Three facts about the code shape the model:
- **Renewal verdict.** Neither script compares expiry dates before and after submitting.
  Both look for substrings in the page text after submitting, and the model uses those
  tests. `継続`, the caption of the renew button itself, is one of the success words
  (`Signals.RenewCaptionIsSuccessWord`).
- **Session files.** `renew.py` names a session file after the email, with `@` replaced by
  `_at_` and `.` by `_`. That mapping is not injective: `RenewConfig.SafeNameCollides`
  exhibits two emails that share a file.
- **Return value of `main`.** Every run of `XServerVPSRenewer` returns at least one entry,
  a failed login included, and `main` returns `success_count > 0 or total_vps > 0`. So
  `main` of `renew.py` returns true, and the process exits with 0, exactly when an account
  is configured, even when no account signed in (`RenewMain.RunMain`).

## Model

| member | source | states |
|---|---|---|
| Accounts.ParseItem | renew.py:66-69 | an item yields an account exactly when its stripped form holds `:`; email and password carry no surrounding whitespace |
| Accounts.ParseItemCut | renew.py:68-69 | the account is the stripped text before and after the first `:` of the stripped item |
| Accounts.Present | renew.py:65-69 | the kept accounts are never more than the pieces |
| Accounts.AccountsOfAppend | renew.py:65-69 | parsing is piecewise and keeps input order: pieces `a + b` give the accounts of `a` followed by those of `b` |
| Accounts.AccountsOfFromPieces | renew.py:65-69 | every account comes from a piece that parses to it |
| Accounts.AccountsOfAllKept | renew.py:65-69 | when every piece holds `:`, none is dropped and account `j` is the parse of piece `j` |
| Accounts.RoundTrip | renew.py:65-69 | accounts without the separator, whitespace ends or `:` in the email survive render, split and parse unchanged and in order |
| RenewConfig.EnvBinding | renew.py:37-40 | a line binds exactly when, after stripping, it is non-empty, does not start with `#` and holds `=`; key and value are stripped |
| RenewConfig.EnvBindingCut | renew.py:39-40 | the key is the stripped text before the first `=`, the value the stripped text after it |
| RenewConfig.LoadEnv | renew.py:35-40 | the loop builds the dictionary of the bindings stored in line order |
| RenewConfig.EnvKeys | renew.py:36-40 | a key is in the dictionary if and only if some line binds it |
| RenewConfig.EnvLatest | renew.py:40 | the stored value is the one of the last line binding the key: later duplicates overwrite |
| RenewConfig.ParseAccounts | renew.py:59-71 | the accounts of the `,`-separated pieces, and none for an empty string |
| RenewConfig.SafeName | renew.py:77 | the session name holds no `@` and no `.` |
| RenewConfig.SessionFileName | renew.py:74-78 | the file name ends in `.json` and has no `@` or `.` before it |
| RenewConfig.SafeNameAppend | renew.py:77 | the name is built character by character, in order |
| RenewConfig.SafeNameChar | renew.py:77 | `@` becomes `_at_`, `.` becomes `_`, every other character stays |
| RenewConfig.SafeNameKeeps | renew.py:77 | an email with no `@` and no `.` is its own session name |
| RenewConfig.SafeNameCollides | renew.py:77 | `a.b` and `a_b` share a session name: the mapping is not injective |
| RenewPages.Clicks | renew.py:140-167 | no more clicks than rounds |
| RenewPages.HandleTurnstile | renew.py:123-180 | at most `timeout` rounds; true exactly when some round within `timeout` reads a response longer than 10 characters, and then at the first such round; false only after all rounds |
| RenewPages.IsAlreadyLoggedIn | renew.py:189 | a landing URL taken for "already logged in" (it names `xvps/index` and not `login`) also passes the after-submit test |
| RenewPages.LoginSucceeded | renew.py:213-217 | after submitting, a URL naming `customer` or `xvps` anywhere counts as signed in even when it also names `login`; only a URL naming `login` in some letter case counts as a failure |
| RenewPages.VpsIndexIsLoggedIn | renew.py:185-191 | the VPS panel address counts as already logged in |
| RenewPages.LoginPageAccepted | renew.py:214-217 | as written, the login page address itself passes the after-submit test |
| RenewPages.FixedIsStricter | renew.py:215 | the corrected after-submit test accepts no URL the original rejects |
| RenewPages.FixedRejectsLoginPath | renew.py:215 | under the corrected test, a login path fails whatever its query string holds |
| RenewPages.LoginPathHasLogin | renew.py:54 | the path of `LOGIN_URL` holds `login`, has no `customer` and no `?` |
| RenewPages.LoginPathNoXv | renew.py:54 | no `x` in the path of `LOGIN_URL` is followed by `v`, so it holds no `xvps` |
| RenewPages.FixedRejectsLoginPage | renew.py:214-217 | the corrected test rejects `LOGIN_URL` |
| RenewPages.FixedAcceptsVpsIndex | renew.py:55 | the corrected test accepts `VPS_INDEX_URL` |
| RenewPages.Login | renew.py:182-220 | already logged in gives true; a form fill that raised gives false; otherwise the result is exactly the after-submit test as written |
| RenewPages.LoginFixed | renew.py:182-220 | the same decision with `customer` and `xvps` looked for in the path only; it signs in only when `login` does |
| RenewPages.LoginStuckOnForm | renew.py:213-217 | a submit that leaves the browser on `LOGIN_URL` signs in as written and fails with the corrected test |
| RenewPages.Dedup | renew.py:248-254 | the `seen`-set filter loop equals `Keep`, the first link of each id in page order |
| RenewPages.KeepDistinct | renew.py:248-254 | kept ids are pairwise distinct and none was already seen |
| RenewPages.KeepIds | renew.py:248-254 | the kept ids are exactly the page's ids not already seen |
| RenewPages.KeepFirst | renew.py:248-254 | each kept link is the first link on the page with its id |
| RenewPages.FindRenewButton | renew.py:320-331 | the first button captioned `継続` or `引き続き`, or none when no caption has either |
| RenewPages.DigitRunEnd | renew.py:308 | the greedy `\d+`: the run ends at the end of the text or at a non-digit |
| RenewPages.DigitRunEndAt | renew.py:308 | a digit run that a non-digit follows is the one the greedy match takes |
| RenewPages.MatchDateAt | renew.py:308 | a match at `i` ends after `i`, inside the text |
| RenewPages.MatchDateSound | renew.py:308 | a match found at `i` is an occurrence of `(\d+年\d+月\d+日)以降` with the group ending before `以降` |
| RenewPages.MatchDateComplete | renew.py:308 | every occurrence of the pattern at `i` is found, with its group |
| RenewPages.FindDate | renew.py:308 | `re.search`: the leftmost match position, or none when no position matches |
| RenewPages.RenewalDateFound | renew.py:308-309 | the reported date is the group of the leftmost occurrence |
| RenewPages.RenewalDateMissing | renew.py:308-309 | without an occurrence the reported date is `未知` |
| RenewPages.RenewalDateSound | renew.py:307-309 | the reported date is `未知` or the group of some occurrence of the pattern |
| RenewPages.RenewVps | renew.py:280-359 | the notice pair gives the wait message with no Turnstile round and no click; otherwise success exactly when a renew button exists and the result text has a success word but not the pair; each message in its case |
| RenewPages.RenewButtonStillShownRenews | renew.py:320-353 | outside the notice pair, a page after the click that still shows the text of a `継続` button is reported renewed |
| RenewPages.RunRenewer | renew.py:381-437 | never an empty list: one failure entry when `login` raises or fails (`登录失败`), or when listing raises or finds nothing (`未找到 VPS`); otherwise one entry per listed VPS in list order with its id, name, expiry and verdict, cut short by an exception in the loop, followed by an entry with the exception text when the loop or the session saving raised; some entry succeeds exactly when a VPS renewed before any exception succeeded |
| RenewReport.CountSuccesses | renew.py:484-492 | the successes are never more than the entries |
| RenewReport.CountSuccessesAppend | renew.py:479-492 | the success count adds up account by account |
| RenewReport.Tally | renew.py:476-498 | `total_vps` is the number of all entries, `success_count` the successful ones, and `success_count <= total_vps` |
| RenewReport.ExitOk | renew.py:538 | the value returned is true exactly when there was an entry, given the counters' bound |
| RenewReport.StatusLineMarked | renew.py:519-524 | the status line of an entry starts with `  ✅` exactly when the entry succeeded |
| RenewReport.AppendEntryLines | renew.py:518-528 | the inner loop appends the lines of each entry in order |
| RenewReport.AppendAccountLines | renew.py:513-528 | the outer loop appends each account's email line and then its entries' lines, in order |
| RenewReport.BuildReport | renew.py:511-532 | the report is the heading, then each account's email and entry lines in order, then the footer with the counters and the time |
| RenewReport.EntryLinesCount | renew.py:519-528 | an entry contributes one `✅` line when it succeeded and none otherwise |
| RenewReport.EntriesLinesCount | renew.py:518-528 | an account's entry lines hold as many `✅` lines as successful entries |
| RenewReport.BodyLinesCount | renew.py:513-528 | the accounts' blocks hold as many `✅` lines as successful entries |
| RenewReport.ReportCountsSuccesses | renew.py:511-532 | the report holds exactly `success_count` lines marked `✅` |
| RenewReport.Summarise | renew.py:476-538 | the counters, the report joined with newlines exactly when a bot token and a chat id are both set, and the return value |
| RenewMain.RunAccounts | renew.py:460-468 | one element per account, in account order, with its email and at least one entry; an element has a successful entry exactly when that account's run listed its VPSes and renewed one before any exception |
| RenewMain.EntriesNonEmpty | renew.py:476-481 | when every run returned an entry, the entries are non-empty exactly when there is an account |
| RenewMain.RunMain | renew.py:438-538 | the accounts of `ACCOUNTS` are run in order; the value returned is true exactly when an account is configured, whatever the runs gave; a report exactly when an account is configured and Telegram is enabled |
| XServerTurnstile.PollFrom | xserver-renew.py:102-120 | the polls made never exceed 60, and there is at least one more while polls remain |
| XServerTurnstile.Solve | xserver-renew.py:77-123 | at most 61 requests; none and no token without a key; a token only after a task created with no error |
| XServerTurnstile.SolveTurnstile | xserver-renew.py:77-123 | the request loop returns the token and request count `Solve` gives |
| XServerTurnstile.PollTokenIff | xserver-renew.py:102-117 | the polls give token `t` exactly when the first poll that is not pending is ready with `t`; `ready` wins over `errorId` |
| XServerTurnstile.PollTimeout | xserver-renew.py:102-120 | with every poll pending, the loop makes all 60 polls and returns nothing |
| XServerTurnstile.SolveTokenIff | xserver-renew.py:77-123 | token `t` exactly when the key is set, the task is created with no error and the first poll that is not pending is ready with `t` |
| XServerTurnstile.SolveTimeout | xserver-renew.py:102-120 | a task that stays pending costs 61 requests and gives nothing |
| XServerTurnstile.HandleTurnstile | xserver-renew.py:125-166 | true exactly when there is no widget, a check within `max_wait` sees a solved response, or the solver gives a non-empty token; no checks and no requests without a widget; the solver only after all checks failed |
| XServerRenew.ParseAccounts | xserver-renew.py:47-54 | the accounts of the `&`-separated pieces; none for an unset or empty value |
| XServerRenew.RenewAccount | xserver-renew.py:181-312 | success exactly when no step raises, every check passes and the final text has a success word; each early-exit message in its case; a failed Turnstile returns before submitting; an exception gives its message |
| XServerRenew.SubmitButtonStillShownRenews | xserver-renew.py:284-298 | with no step raising and every check passed, a page after submitting that still shows the text of the `継続` submit button is reported renewed |
| XServerRenew.RenewAll | xserver-renew.py:331-336 | one outcome per account, in account order, with its email and its verdict |
| XServerRenew.CountSuccess | xserver-renew.py:339 | the successes are never more than the results; the same count as `RenewReport.CountSuccesses`, over this script's own result record |
| XServerRenew.ResultLineMarked | xserver-renew.py:348-349 | an account's line starts with `✅` exactly when it succeeded, names the email and ends in the message |
| XServerRenew.ResultLinesAt | xserver-renew.py:346-349 | one line per result, in order, mark, email and message |
| XServerRenew.ResultLinesCount | xserver-renew.py:346-349 | as many lines start with `✅` as results succeeded |
| XServerRenew.Summarise | xserver-renew.py:339-349 | `success + fail == len(results)`; the heading and one line per result in order; exactly `success` lines marked `✅` |
| XServerRenew.Run | xserver-renew.py:314-353 | no accounts means nothing renewed and nothing reported; otherwise result `k` carries account `k`'s email and succeeds exactly when its visit renews, and the summary is the heading followed by result `k`'s line at position `k`, with exactly as many `✅` lines as successes, sent exactly when token and chat id are set |

## Left out

- Browser plumbing (Playwright launch, `goto`, `fill`, `click`, CDP mouse events, pixel offsets) and the `asyncio.sleep`/`time.sleep` pauses: browser I/O and timing, replaced by the observed URLs, texts and field values.
- HTTP calls to Telegram, the OCR endpoint and YesCaptcha: network I/O. Their replies are inputs (`PollReply`, `CreateReply`); `TelegramNotifier.send` and `send_telegram` are left out beyond the enabled test.
- Reading the `.env` file and the session JSON files, cookie loading and saving, the `sessions` directory: file I/O. Only the line rule and the name mapping are modelled. The raw `{email}.json` name that `xserver-renew.py` uses is not modelled.
- `Logger`, console printing and `datetime.now()`: output and wall-clock time. The report's time stamp is a parameter.
- `XServerVPSRenewer.run` in `renew.py`: browser launch and closing, and exceptions they raise, are left out; `load_session` catches its own errors. An exception is one per run and belongs to one step of the `try` block (`RenewPages.RunStep`).
- The page-side JavaScript of `get_vps_list` that finds VPS links by the `vps-\d{4}-\d{2}-\d{2}` caption and the `id_vps=` / `id=` query, and the `利用期限` regex of `get_vps_expiry`: the links and the expiry are inputs. The de-duplication of the links is modelled.
- The `無料VPS` button and the OCR captcha step of `xserver-renew.py`: they only act on the page and do not feed any verdict.
- The JavaScript injection of the solver token into the page, and the page URL sent to YesCaptcha: foreign page-side effects. The `taskId` that every `getTaskResult` poll sends is not tracked: the poll replies are inputs.
- Process exit codes and the `asyncio.run` wrappers. `exit(1)` on a missing `.env` is left out; `exit(1)` on an empty account list is `RenewMain.RunMain` returning false.
- PyStr.Lower: ASCII letters only; enough for the `login` test, whose pattern is ASCII, but not Python's full Unicode `lower`.
- RenewPages.IsDigit: Python's `\d` is taken as ASCII and full-width digits only, not every Unicode decimal digit.
- RenewPages.Login: whether a form fill raised is an input. RenewPages.RunRenewer uses this as-written decision, not RenewPages.LoginFixed, so that it follows the code.
- RenewPages.RenewVps: the button click is the index of the first matching caption; the outcome of the Turnstile rounds is ignored, as in the code.
- XServerRenew.RenewAccount: an exception is one per visit, belongs to one step and overrides that step's own verdict. Exceptions that the session loading swallows are not modelled.
- XServerTurnstile.HandleTurnstile: the initial click on the widget is not observed; only the response-field reads are.

## Findings

| source | as written | input that shows it | evidently intended | confidence | as-written member | corrected member |
|---|---|---|---|---|---|---|
| renew.py:215 | after submitting, a URL counts as signed in when it contains `xvps` anywhere, including in the query string | `https://secure.xserver.ne.jp/xapanel/login/xserver/?request_page=xvps%2Findex`, the login page itself, whose query names the VPS panel (`RenewPages.LoginPageAccepted`, `RenewPages.LoginStuckOnForm`) | a browser left on the login form counts as a failed login; `customer` and `xvps` are looked for in the path only | not executed; medium | RenewPages.Login | RenewPages.LoginFixed |
