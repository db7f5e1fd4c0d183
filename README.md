# Dead-man's-switch Telegram bot: the control state machines

This project models the core of `telegram_bot.py`, the Telegram control channel of a
dead-man's-switch that can shut down a fleet of SSH and API-managed hosts. The
model covers:

- **Authorization.** Only the configured chat identity may act.
- **The login state machine (`_pending_auth`).** A static token is followed by a
  time-based one-time code, and an accepted code starts a session.
- **The pending-operation state machine (`_pending_operations`).** Every destructive
  or registry-changing operation waits here for a fresh one-time code. A selective
  shutdown first waits for a host selection.
- **The selection parser.** It reads `1,3,5`, `1-4` and `all` against the numbered
  host menu.
- **The text-command classifier.** It covers `ssh:` add, `api:`/`api|` add,
  `host:user` removal and bare-host removal.
- **Execution of a confirmed operation.**
  - The full hard power-off.
  - A selective shutdown: host identifiers resolve against the enabled rows at
    execution time.
  - Registry inserts, probes and deletes.
- **Outcome aggregation.** The "success/total hosts executed" summary.
- **The status counters.** Both the status panel and `/status`.

Modules:

- `Text` models the Python string primitives the handlers rely on: `str.strip`
  (the full `str.isspace` set), `str.lower` (ASCII), `str.split` with and without
  `maxsplit`, `int()` on an optionally signed digit string, and `str()` of an
  integer.
- `Registry` models host rows, menu identifiers, identifier cutting, lookups and
  the status counters.
- `Selection` is the selection parser: a specification plus the two loops that
  compute it.
- `Shutdown` covers outcome tallies and selective target resolution and execution, with the identifier lookup both as written and corrected (see Findings).
- `Commands` is the text-command classifier.
- `Machine` holds the two state machines as pure transitions over
  `State(auth, ops)`. A handler call maps a state to a new state, a reply, and the
  ordered list of effects on the outside world. Everything the handlers learn from
  collaborators is a `World` parameter:
  - session validity;
  - the verdicts of the token and code checks (accept, reject or raised);
  - the plugin list;
  - connection tests;
  - the registry tables;
  - power-off and per-host shutdown outcomes;
  - whether the registry accepted a change.
- `Handlers` holds the class `Bot`, whose fields `pendingAuth` and `pendingOps` are
  the two dictionaries. Its methods update them in place and are proved to reach
  the state `Machine` prescribes while keeping the invariant `Valid`. Under
  `Valid`, only the authorized identity has entries, and every stored host
  identifier cuts into three fields. That makes the confirmation renderer's
  `parts[2]` safe.

## Model

| member | source | states |
|---|---|---|
| `Text.StripTrims` | telegram_bot.py:525 | `strip()` removes only white space, and only from the two ends; the result has no white space at either end |
| `Text.StripIsTrimmed` | telegram_bot.py:525 | the stripped message starts and ends with a non-space character |
| `Text.StripIdempotent` | telegram_bot.py:587 | stripping the already stripped message again for the selection changes nothing |
| `Text.LowerUnchanged` | telegram_bot.py:587 | `lower()` leaves text without capital letters unchanged |
| `Text.SplitJoin` | telegram_bot.py:599 | joining the pieces of `split(",")` with the separator gives the text back |
| `Text.JoinSplit` | telegram_bot.py:599 | splitting a join of separator-free pieces gives the pieces back |
| `Text.SplitNParts` | telegram_bot.py:860 | `split(sep, n)` gives at most n+1 pieces, and all but the last are separator-free |
| `Text.SplitNLength` | telegram_bot.py:860 | `split(sep, n)` gives one more piece than the smaller of n and the number of separators |
| `Text.JoinSplitN` | telegram_bot.py:860 | `split(sep, n)` of a join of at most n+1 separator-free pieces gives the pieces back |
| `Text.ParseInt` | telegram_bot.py:611 | `int()` accepts only an optionally signed digit string, and a digit string parses to its value |
| `Text.ParseDecimal` | telegram_bot.py:522 | `int(str(i)) == i` for every integer |
| `Text.DecimalInjective` | telegram_bot.py:522 | distinct identities have distinct decimal writings, so the `str(user_id)` comparison admits one identity |
| `Registry.EnabledShellMembers` | telegram_bot.py:464 | a row is in the enabled-only SSH list iff it is in the table and enabled |
| `Registry.EnabledApiMembers` | telegram_bot.py:465 | a row is in the enabled-only API list iff it is in the table and enabled |
| `Registry.HostListWellFormed` | telegram_bot.py:483-493 | every menu entry, by position, cuts into exactly three fields with `split(":", 2)`, whatever the host name holds |
| `Registry.CutIdRoundTrip` | telegram_bot.py:483-493 | the second cut (kind before the first colon, user or type after the last) gives back the three fields of every menu identifier whose user or type has no colon, whatever the host name holds |
| `Registry.IdFieldsRoundTrip` | telegram_bot.py:739 | when the host has no colon, the cut returns kind, host and user (or type) |
| `Registry.FindShell` | telegram_bot.py:743 | the lookup finds a row of the table with that host and user, or none exactly when no row matches |
| `Registry.FindApi` | telegram_bot.py:750 | the lookup finds a row with that host and type, or none exactly when no row matches |
| `Registry.FindShellFirst` | telegram_bot.py:743 | `next(...)` returns the first matching row: no earlier row matches |
| `Registry.FindApiFirst` | telegram_bot.py:750 | the same for the API lookup |
| `Registry.StatusPartition` | telegram_bot.py:238-244 | online + offline + disabled counts every row exactly once |
| `Registry.EnabledIsOnlinePlusOffline` | telegram_bot.py:150-154 | the `/status` total is the enabled rows, i.e. online + offline, and online is at most that total |
| `Selection.Range` | telegram_bot.py:596 | `range(lo, hi)` has hi - lo elements, and none when hi <= lo |
| `Selection.RangeElements` | telegram_bot.py:596 | the k-th element of `range(lo, hi)` is lo + k |
| `Selection.ParseSelection` | telegram_bot.py:586-618 | the parsing loops pick exactly the hosts of the selection specification `Selected` |
| `Selection.CollectIndices` | telegram_bot.py:598-612 | the token loop collects the concatenated indices of every comma-separated token, in order |
| `Selection.PickHosts` | telegram_bot.py:614-618 | the validation loop keeps, in order, the hosts at the in-range indices |
| `Selection.SelectMembers` | telegram_bot.py:614-618 | only menu hosts are picked, never more than indices were named |
| `Selection.SelectInRange` | telegram_bot.py:614-618 | with all indices in range, the k-th pick is the menu entry at the k-th index |
| `Selection.SelectEmptyIff` | telegram_bot.py:620-622 | nothing is picked iff no index is in range |
| `Selection.SelectedEmptyIff` | telegram_bot.py:620-622 | a selection is rejected for retry iff none of its indices falls in the menu |
| `Selection.SelectedAll` | telegram_bot.py:595-596 | `all` picks the whole menu in order |
| `Selection.SelectedNormalised` | telegram_bot.py:587 | two answers that agree once stripped and lower-cased pick the same hosts |
| `Selection.SelectedAllCaps` | telegram_bot.py:587-596 | `" ALL "` also picks the whole menu: the selection is stripped and lower-cased first |
| `Selection.TokenOfNumber` | telegram_bot.py:609-612 | the token `n` names index n-1 |
| `Selection.TokenOfNegative` | telegram_bot.py:602-607 | a negative number is read as a range with an empty start and names nothing |
| `Selection.TokenOfRange` | telegram_bot.py:602-606 | the token `a-b` names indices a-1 through b-1 |
| `Selection.SelectedNumbers` | telegram_bot.py:594-618 | a comma list of in-range numbers picks exactly those menu entries, in the order and multiplicity given |
| `Selection.SelectedRange` | telegram_bot.py:602-618 | the range `a-b` within the menu picks exactly entries a through b |
| `Shutdown.Tally` | telegram_bot.py:681-708 | the report loop counts every outcome of every phase as a host, and as a success exactly the executed, initiated or timed-out ones |
| `Shutdown.TotalIsOutcomes` | telegram_bot.py:685-689 | the host total is the number of outcomes across phases |
| `Shutdown.FlattenMembers` | telegram_bot.py:685-688 | an outcome is reported iff some phase holds it |
| `Shutdown.CountExecutedBounds` | telegram_bot.py:694-699 | successes are at most the outcomes; all hosts succeed iff every status is a success status; none succeed iff no status is |
| `Shutdown.CountExecutedAppend` | telegram_bot.py:760-774 | the SSH bucket and the API bucket contribute their successes independently |
| `Shutdown.SummaryBounds` | telegram_bot.py:708 | a summary never claims more successes than hosts |
| `Shutdown.ResolveId` | telegram_bot.py:739-753 | the corrected lookup (the handler's cut, then the second cut when that finds nothing): a resolved identifier names an enabled row of the matching table with that very identifier |
| `Shutdown.ResolveCut` | telegram_bot.py:739-753 | the lookup after the second cut: a target it finds is an enabled row of the matching table carrying the identifier |
| `Shutdown.ResolveIdExtendsAsWritten` | telegram_bot.py:739-753 | every identifier the handler's own cut resolves is resolved to the same target, and an identifier left unresolved is found by neither cut |
| `Shutdown.ResolveIdAsWritten` | telegram_bot.py:739-753 | the lookup as written, cutting with `split(":", 2)`: a target it finds is an enabled row of the matching table and still carries the selected identifier |
| `Shutdown.Targets` | telegram_bot.py:738-753 | each selected identifier yields at most one target |
| `Shutdown.RunSelected` | telegram_bot.py:736-753 | the execution loop shuts down the resolved targets in order, appending their outcomes to the SSH or API bucket |
| `Shutdown.TargetsSelected` | telegram_bot.py:738-753 | only selected, enabled, registered hosts are ever shut down |
| `Shutdown.ResolveShell` | telegram_bot.py:740-746 | an enabled SSH host whose host name or user name has no colon is found again at execution time |
| `Shutdown.ResolveApi` | telegram_bot.py:747-753 | an enabled API host whose address or type has no colon is found again at execution time, including an address with a port |
| `Shutdown.ResolveGone` | telegram_bot.py:742-753 | a host removed or disabled since the selection is silently skipped |
| `Shutdown.PortInApiHostUnresolved` | telegram_bot.py:739-753 | as written, an API host whose address holds a colon (`address:port`) is never the target of its own identifier, whatever the tables hold |
| `Shutdown.ColonInShellHostUnresolved` | telegram_bot.py:739-746 | as written, the same holds for an SSH host whose name holds a colon, such as an IPv6 address |
| `Commands.ShellCommand` | telegram_bot.py:858-867 | an `ssh:` text is an add-host command or a format error |
| `Commands.ApiCommand` | telegram_bot.py:896-906 | an `api:` or pipe-separated `api` text is an add-host command or a format error |
| `Commands.ApiAddIff` | telegram_bot.py:896-901 | an `api` text adds a host iff it holds at least three of its separators (four fields); otherwise it is a format error |
| `Commands.ApiTooShort` | telegram_bot.py:899-901 | a pipe-separated `api` text with type and host but no key is a format error |
| `Commands.ApiFieldsTrimmed` | telegram_bot.py:908-913 | every field of an API add command is free of surrounding white space |
| `Commands.Classify` | telegram_bot.py:858-984 | the `ssh:` prefix chooses shell add; otherwise `api:` or the pipe-separated `api` prefix chooses API add; a single colon between two colon-free parts chooses shell removal; a colon-free text longer than three characters chooses API removal (iff) |
| `Commands.AddShellRoundTrip` | telegram_bot.py:858-867 | `ssh:host:user::description` gives back host, user and description |
| `Commands.AddShellShortRoundTrip` | telegram_bot.py:865-867 | `ssh:host:user` gives an empty description |
| `Commands.AddShellFourFieldRoundTrip` | telegram_bot.py:864-867 | `ssh:host:user:description` takes the fourth field as the description |
| `Commands.ShellAddIff` | telegram_bot.py:858-863 | an `ssh:` text adds a host iff it has at least two colons (three fields); otherwise it is a format error |
| `Commands.ShellTooShort` | telegram_bot.py:861-863 | `ssh:host` is a format error |
| `Commands.ApiColonCommand` | telegram_bot.py:896-913 | the six-field `api:` form yields its five fields, each stripped |
| `Commands.ApiPipeCommand` | telegram_bot.py:896-913 | the four-field pipe-separated `api` form yields its three fields stripped, with empty endpoint and description |
| `Commands.AddApiRoundTrip` | telegram_bot.py:896-913 | `api:type:host:key:endpoint:description` gives back its five trimmed fields |
| `Commands.AddApiPipeRoundTrip` | telegram_bot.py:898-906 | the pipe-separated `api`, type, host, key text gives back its fields with empty endpoint and description |
| `Commands.RemoveShellRoundTrip` | telegram_bot.py:947-960 | `host:user` (not an add prefix) is a removal of that host and user |
| `Commands.RemoveApiRoundTrip` | telegram_bot.py:968-978 | a colon-free host longer than three characters is a removal of that host |
| `Commands.NotACommand` | telegram_bot.py:947-984 | a short colon-free text, or one with two or more colons, is ignored |
| `Machine.StartKeepsSelectionAsWritten` | telegram_bot.py:112-124 | as written, `/start` leaves a pending selection in place, so the next text is still read as a selection and one that picks nothing is refused again |
| `Machine.StartCancels` | telegram_bot.py:112-124 | `/start` as the prompt at line 623 describes it: anyone else is refused; the sender's pending operation is dropped, nothing else changes, the state stays valid, and the next text outside a login is read as a command |
| `Machine.StatusCommand` | telegram_bot.py:126-157 | `/status` answers "Unauthorized" exactly to others, and needs no session |
| `Machine.StatusLineCounts` | telegram_bot.py:147-157 | `/status` reports per kind the online enabled rows out of the enabled rows (online + offline) |
| `Machine.StatusPanelCountsAll` | telegram_bot.py:235-244 | the status panel's three counters per kind add up to the table size |
| `Machine.OneAuthorizedIdentity` | telegram_bot.py:187-189 | at most one numeric identity matches the configured chat identifier |
| `Machine.ValidHoldsOneEntry` | telegram_bot.py:25-26 | a valid state holds at most one login and at most one pending operation |
| `Machine.UnauthorizedIgnored` | telegram_bot.py:187-189 | another identity gets "Unauthorized" on a button, silence on a message (lines 522-523), and changes nothing |
| `Machine.ButtonEffects` | telegram_bot.py:196-218 | buttons never shut down or change the registry; only login touches the login state (last write wins); only the two shutdown buttons touch the pending operation, replacing what was there; without a session, nothing past logout changes |
| `Machine.SelectiveButtonOffersEnabled` | telegram_bot.py:461-508 | with no enabled host nothing is stored; otherwise the stored menu is exactly the enabled SSH then API identifiers, all well formed |
| `Machine.MessageRoutes` | telegram_bot.py:525-856 | a login in progress takes the stripped message first, then a pending operation, and only then, with a valid session, the text commands |
| `Machine.LoginFlow` | telegram_bot.py:527-579 | an accepted token advances to the code step, anything else ends the login; the code step always ends it and starts a session iff the code is accepted; pending operations are untouched |
| `Machine.ShellMenuNumberPicks` | telegram_bot.py:482-486 | the number printed next to the i-th SSH host (counting from 1) picks exactly that host |
| `Machine.ApiMenuNumberPicks` | telegram_bot.py:488-493 | the API hosts are numbered on after the SSH hosts, and each printed number picks exactly its host |
| `Machine.SelectionOutcome` | telegram_bot.py:583-652 | an empty menu ends the operation; an empty pick keeps it for a retry; otherwise the picked hosts, all from the menu, replace the menu and wait for a code |
| `Machine.SelectedWellFormed` | telegram_bot.py:614-643 | picked identifiers are menu identifiers, so the confirmation renderer can cut every one into three fields |
| `Machine.CodeDecides` | telegram_bot.py:654-851 | after a code request the next message always removes the operation; a rejected or failing check does nothing else; an accepted one runs the operation |
| `Machine.ConfirmNeedsNoSession` | telegram_bot.py:654-675 | an accepted code runs a queued full shutdown even when the session has since expired |
| `Machine.DestructiveNeedsCode` | telegram_bot.py:654-844 | every shutdown or registry change comes from an accepted code for an operation the authorized identity queued earlier, never during a login |
| `Machine.MessageTouchesOnlySender` | telegram_bot.py:518-984 | a message changes no other identity's entries |
| `Machine.CommandsOnlyProbe` | telegram_bot.py:858-984 | text commands only test connections and only queue code-confirmed operations; an unknown API type is refused before any test; an accepted SSH or API add tests exactly its connection and, when the test passes, queues exactly its fields; removals queue exactly their host; malformed and unrecognised texts change nothing |
| `Machine.SelectiveRunsSelection` | telegram_bot.py:721-794 | a confirmed selective shutdown shuts down, in order, exactly the resolved targets of the picked identifiers, and its report is bounded |
| `Machine.SelectionStoredAtTopLevel` | telegram_bot.py:642-660 | the picked hosts are stored at the top level of the operation, which has no `data` entry, so the read through `op.get("data", {})` finds none of them |
| `Machine.FieldsUnderData` | telegram_bot.py:882-978 | every add and remove operation keeps its fields under `data`, where the confirm path looks |
| `Machine.SelectionLostAsWritten` | telegram_bot.py:721-725 | read as written, a confirmed pick of one enabled host shuts nothing down and answers "No hosts selected"; the intended reading shuts that host down |
| `Machine.DispatchBounded` | telegram_bot.py:668-844 | a confirmed operation produces a bounded report; the hard power-off happens iff it was a full shutdown; per-host shutdowns only for a selective one |
| `Machine.SessionButtonOnlyUser` | telegram_bot.py:446-508 | the buttons behind the session check change at most the sender's pending operation, and store only well-formed menus |
| `Machine.ButtonKeepsValid` | telegram_bot.py:177-515 | a button keeps entries to the authorized identity and the stored menus well formed |
| `Machine.MessageKeepsValid` | telegram_bot.py:518-984 | a message keeps entries to the authorized identity and the stored identifiers well formed |
| `Handlers.BuildHostList` | telegram_bot.py:480-494 | the two appending loops build exactly the numbered menu `HostList` |
| `Handlers.Execute` | telegram_bot.py:668-844 | running a confirmed operation, with the tally and selective loops, replies and acts as `Dispatch` prescribes |
| `Handlers.Bot.constructor` | telegram_bot.py:25-26 | both dictionaries start empty, which is valid |
| `Handlers.Bot.Start` | telegram_bot.py:112-124 | the `/start` handler updates `pendingOps` as `StartStep` prescribes and keeps `Valid` |
| `Handlers.Bot.ButtonCallback` | telegram_bot.py:177-515 | the button handler updates the dictionaries as `ButtonStep` prescribes and keeps `Valid` |
| `Handlers.Bot.HandleMessage` | telegram_bot.py:518-984 | the message handler updates the dictionaries as `MessageStep` prescribes and keeps `Valid` |
| `Handlers.Bot.ContinueLogin` | telegram_bot.py:527-579 | the login steps update `pendingAuth` as `LoginStep` prescribes |
| `Handlers.Bot.ContinueSelection` | telegram_bot.py:583-652 | the selection step updates `pendingOps` as `OpStep` prescribes |
| `Handlers.Bot.ContinueConfirmation` | telegram_bot.py:654-851 | the code step removes the operation before running it, as `OpStep` prescribes |
| `Handlers.Bot.RunCommand` | telegram_bot.py:858-984 | the text commands update `pendingOps` as `CommandStep` prescribes |

## Left out

- Telegram I/O is not modelled: rendering of menus and messages, Markdown, deleting the triggering message, `query.answer()`, and their failures.
- Replies are abstract values, not message text.
- Polling, the background thread, start-up, `_send_message` and the `notify_*` functions are not part of this model.
- `_cmd_logout` is not modelled: it only ends a session. `/logout` (lines 164-174) checks no identity, unlike the logout button (lines 187-189); this is harmless only because sessions exist for the authorized identity alone.
- The list, add-help and remove-list buttons only render registry rows. They are modelled as a `Listing` reply with no state change.
- Collaborators are `World` parameters: the database, the token and code checks, the session table, the connection tests, the plugin list, power-off and per-host shutdown. Their internals are not part of this model.
- One `World` value stands for one handler call. A registry that changes between the reads of a single call is not modelled, and neither is a per-host re-read inside the selective loop.
- Exceptions from the token and code checks are modelled as the `Raised` verdict. Other exceptions are not modelled:
  - an exception from the registry or a plugin;
  - an exception inside a command branch, which in the source only replies "Error";
  - the second `del` in the confirm path's exception handler.
- `Handlers.Execute`: a post-insert probe is always recorded after an accepted insert. The source probes only if the re-read table holds the new row.
- `Text.ParseInt`: Python's `int()` also accepts underscores between digits, surrounding white space and non-ASCII digits. None of these can reach the parser after stripping, except underscores and non-ASCII digits, which the model rejects.
- `Text.LowerUnchanged`: `lower()` is modelled for ASCII letters only.
- `Commands.ShellCommand`: the source splits with at most five cuts and reads the description from the fifth field, so anything after a fifth colon is dropped (`ssh:h:u::Prod:web` has the description `Prod`). The model does the same; the round-trip lemmas assume colon-free fields.
- `Commands.ApiCommand`: its contract gives only the command kind. The field values are stated by `Commands.AddApiRoundTrip`, `Commands.AddApiPipeRoundTrip` and `Commands.ApiFieldsTrimmed`, and when a text is a format error by `Commands.ApiAddIff`. Anything after a sixth separator is dropped, as in the source.
- Per-host shutdowns are pure functions of the host (`execShell`, `execApi`). A host picked twice (`1,1` keeps the duplicate) is shut down twice, as in the source, but both runs report the same outcome, while the second run in the source may report differently.
- The confirmation text (lines 632-640) still cuts identifiers with `split(":", 2)` for display; rendering is not modelled.
- `Registry.CutIdRoundTrip`: it needs a user or API type without a colon; a user or type with a colon is covered by `Registry.IdFieldsRoundTrip` when the host name has none, and `Shutdown.ResolveId` tries that cut first.
- `Shutdown.ResolveShell`, `Shutdown.ResolveApi`: a host whose name and user (or type) both hold a colon has an ambiguous identifier. Neither cut finds it, as written or corrected, and no lemma claims it is found.
- Integer widths are not modelled: identities and counters are unbounded, as Python integers are.

## Findings

The confirm path evidently means to shut down the hosts the operator picked:
- lines 632-640 list the picked hosts under "Confirm Selective Shutdown" and ask for the code;
- lines 727-753 are written to resolve each of `selected_hosts` and shut it down.

The code, however, stores the picked hosts at the top level of the operation (lines 642-646). At confirmation it reads them from the operation's `data` dictionary instead (lines 660 and 722). `Stored` models the dictionary each operation keeps. `SelectionReadAsWritten` is the lookup as written, and `SelectionToRun` is the intended one, which the bot's dispatch uses.

The same loop looks each identifier up after cutting it with `split(":", 2)` (line 739). A host name that holds a colon is therefore looked up under its first part and silently skipped. Examples are an API address with a port, which the `api|` form can register, or an IPv6 address. This defect is latent behind the first one: as written, line 722 always reads an empty list and lines 723-725 return before the loop, so line 739 is reached only once line 722 reads `op["selected_hosts"]`. `ResolveIdAsWritten` is the lookup as written. `ResolveId`, which the rest of the model uses, first cuts as the handler does and, when that finds no row, cuts the kind at the first colon and the user or type at the last; it resolves every identifier the handler's cut resolves, to the same target.

`/start` does not cancel a pending operation (lines 112-124), although the selection prompt at line 623 tells the operator to send `/start` to cancel. The pending selection survives, and the next plain text is still read as a selection. `StartAsWritten` is the command as written, and `StartStep`, which the bot's `Start` method uses, drops the sender's pending operation.

| source | as written | input that shows it | evidently intended | confidence | as-written member | corrected member |
|---|---|---|---|---|---|---|
| telegram_bot.py:722 | `data.get("selected_hosts", [])`, but the selective operation stored at lines 642-646 has no `data` key, so the list is always empty and the code step answers "No hosts selected" after deleting the operation | one enabled SSH host `web1`/`root`, select `1`, then send a valid code: nothing is shut down | read `op["selected_hosts"]` and shut down the picked hosts | not executed | `Machine.SelectionLostAsWritten` | `Machine.SelectiveRunsSelection` |
| telegram_bot.py:739 | `host_id.split(":", 2)` takes the text after the second colon as the API type, so an address with a port never matches its own row | only with line 722 corrected to read `op["selected_hosts"]`: enabled API host `10.0.0.1:8006` of type `proxmox`, select it and confirm; its identifier is looked up as host `10.0.0.1`, type `8006:proxmox`, and the host is skipped | when the handler's cut finds no row, cut the kind at the first colon and the type at the last, so the selected host is found | not executed | `Shutdown.PortInApiHostUnresolved` | `Shutdown.ResolveApi` |
| telegram_bot.py:112-124 | `_cmd_start` renders the main menu and leaves `_pending_operations` untouched, although line 623 says "send /start to cancel" | open the selective shutdown, send `abc` (refused with that hint), send `/start`, then send `hello`: it is read as a selection and refused again | drop the sender's pending operation on `/start` | not executed | `Machine.StartKeepsSelectionAsWritten` | `Machine.StartCancels` |
