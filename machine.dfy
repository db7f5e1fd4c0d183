/** The bot's two per-identity state machines, as pure transitions.

    `auth` is the login in progress (a static token, then a one-time code);
    `ops` is the operation waiting for the operator's next message (a host
    selection or a one-time code). A button press or a text message takes a state
    to a new state, a reply, and the list of effects the handler has on the outside
    world, in the order it has them. Everything the handlers learn from the outside
    world (session validity, the verdicts of the token and code checks, the registry
    tables, connection tests, the power-off layer) is a `World` value. */
module Machine {
  import opened Text
  import opened Registry
  import opened Selection
  import opened Shutdown
  import opened Commands

  datatype AuthStage = AwaitingToken | AwaitingCode

  /** The pending operation of an identity, one alternative per shape the handlers
      store. Every alternative but `SelectHosts` waits for a one-time code. */
  datatype PendingOp =
    | ShutdownAll
    | SelectHosts(hostList: seq<HostId>)
    | ConfirmSelected(selectedHosts: seq<HostId>)
    | ConfirmAddShell(host: string, user: string, description: string)
    | ConfirmAddApi(apiType: string, host: string, apiKey: string, apiEndpoint: string, description: string)
    | ConfirmRemoveShell(host: string, user: string)
    | ConfirmRemoveApi(host: string)

  /** What a check answered: yes, no, or an exception. */
  datatype Verdict = Accept | Reject | Raised

  datatype Button =
    | LoginButton | BackButton | LogoutButton | StatusButton
    | ListShellButton | ListApiButton | AddShellButton | AddApiButton
    | RemoveShellButton | RemoveApiButton
    | ShutdownButton | SelectiveShutdownButton
    | UnknownButton

  /** What a handler does to the world beyond its reply. */
  datatype Effect =
    | StartSession
    | EndSession
    | ConnectShell(host: string, user: string)
    | ConnectApi(host: string, apiType: string, apiKey: string, apiEndpoint: string)
    | HardPoweroff
    | ShutdownHost(target: Target)
    | InsertShell(host: string, user: string, description: string)
    | ProbeShell(host: string, user: string)
    | InsertApi(host: string, apiType: string, apiKey: string, apiEndpoint: string, description: string)
    | ProbeApi(host: string)
    | DeleteShell(host: string, user: string)
    | DeleteApi(host: string)

  /** The effects that shut hosts down or change the registry. */
  predicate Destructive(e: Effect) {
    e.HardPoweroff? || e.ShutdownHost? || e.InsertShell? || e.InsertApi? || e.DeleteShell? || e.DeleteApi?
  }

  /** No effect of the list shuts a host down or changes the registry. */
  predicate Harmless(es: seq<Effect>) {
    forall e :: e in es ==> !Destructive(e)
  }

  datatype Reply =
    | Silent
    | Unauthorized
    | TokenPrompt
    | Menu(authenticated: bool)
    | PleaseLogin
    | StatusPanel(shell: Counts, api: Counts)
    | StatusLine(shellOnline: nat, shellTotal: nat, apiOnline: nat, apiTotal: nat)
    | Listing
    | ShutdownPrompt
    | NoHostsForShutdown
    | SelectionMenu(hostList: seq<HostId>)
    | TokenAccepted
    | InvalidToken
    | Authenticated
    | InvalidCode
    | Failed
    | NoHostsAvailable
    | InvalidSelection
    | ConfirmSelection(selected: seq<HostId>)
    | NoHostsSelected
    | ShutdownReport(summary: Summary)
    | HostAdded
    | AddFailed
    | HostRemoved
    | HostNotFound
    | FormatHelp
    | UnknownType
    | ConnectionFailed
    | ConfirmPrompt

  /** The outside world as one handler call sees it. */
  datatype World = World(
    sessionValid: bool,
    tokenOk: string -> Verdict,
    codeOk: string -> Verdict,
    plugins: seq<string>,
    shellTest: (string, string) -> bool,
    apiTest: (string, string, string, string) -> bool,
    shellHosts: seq<ShellHost>,
    apiHosts: seq<ApiHost>,
    poweroff: seq<seq<Outcome>>,
    execShell: ShellHost -> seq<Outcome>,
    execApi: ApiHost -> seq<Outcome>,
    registryAccepts: bool)

  datatype State = State(auth: map<int, AuthStage>, ops: map<int, PendingOp>)

  datatype Step = Step(state: State, reply: Reply, effects: seq<Effect>)

  /** Only the configured chat may drive the bot: its numeric identity, written in
      decimal, must be the configured chat identifier. */
  predicate Authorized(chatId: string, user: int) {
    Decimal(user) == chatId
  }

  /** The identifiers a pending operation holds were all built by the host menu. */
  predicate OpWellFormed(op: PendingOp) {
    match op
    case SelectHosts(l) => AllWellFormed(l)
    case ConfirmSelected(sel) => AllWellFormed(sel)
    case _ => true
  }

  /** Only the authorized identity has entries, and its operations are well formed. */
  predicate Valid(chatId: string, s: State) {
    && (forall u :: u in s.auth ==> Authorized(chatId, u))
    && (forall u :: u in s.ops ==> Authorized(chatId, u) && OpWellFormed(s.ops[u]))
  }

  function Summarize(phases: seq<seq<Outcome>>): Summary {
    Summary(CountExecuted(Flatten(phases)), TotalHosts(phases))
  }

  // ---------------------------------------------------------------------------
  // Buttons

  function ButtonStep(chatId: string, s: State, user: int, b: Button, w: World): Step {
    if !Authorized(chatId, user) then Step(s, Unauthorized, [])
    else if b == LoginButton then Step(s.(auth := s.auth[user := AwaitingToken]), TokenPrompt, [])
    else if b == BackButton then Step(s, Menu(true), [])
    else if b == LogoutButton then Step(s, Menu(false), if w.sessionValid then [EndSession] else [])
    else if !w.sessionValid then Step(s, PleaseLogin, [])
    else SessionButtonStep(s, user, b, w)
  }

  /** The buttons that need a valid session. */
  function SessionButtonStep(s: State, user: int, b: Button, w: World): Step {
    if b == StatusButton then
      Step(s, StatusPanel(StatusCounts(ShellLiveness(w.shellHosts)), StatusCounts(ApiLiveness(w.apiHosts))), [])
    else if b == ShutdownButton then Step(s.(ops := s.ops[user := ShutdownAll]), ShutdownPrompt, [])
    else if b == SelectiveShutdownButton then SelectiveButtonStep(s, user, w)
    else if b == UnknownButton then Step(s, Silent, [])
    else Step(s, Listing, [])
  }

  /** The menu numbers the enabled SSH hosts, then the enabled API hosts. */
  function SelectiveButtonStep(s: State, user: int, w: World): Step {
    var shell := EnabledShell(w.shellHosts);
    var api := EnabledApi(w.apiHosts);
    if shell == [] && api == [] then Step(s, NoHostsForShutdown, [])
    else
      var l := HostList(shell, api);
      Step(s.(ops := s.ops[user := SelectHosts(l)]), SelectionMenu(l), [])
  }

  // ---------------------------------------------------------------------------
  // Messages

  function MessageStep(chatId: string, s: State, user: int, message: string, w: World): Step
    requires Valid(chatId, s)
  {
    var text := Strip(message);
    if !Authorized(chatId, user) then Step(s, Silent, [])
    else if user in s.auth then LoginStep(s, user, s.auth[user], text, w)
    else if user in s.ops then OpStep(s, user, s.ops[user], text, w)
    else if !w.sessionValid then Step(s, Silent, [])
    else CommandStep(s, user, Classify(text), w)
  }

  function LoginStep(s: State, user: int, stage: AuthStage, text: string, w: World): Step {
    var cleared := s.(auth := s.auth - {user});
    match stage
    case AwaitingToken =>
      (match w.tokenOk(text)
       case Accept => Step(s.(auth := s.auth[user := AwaitingCode]), TokenAccepted, [])
       case Reject => Step(cleared, InvalidToken, [])
       case Raised => Step(cleared, Failed, []))
    case AwaitingCode =>
      (match w.codeOk(text)
       case Accept => Step(cleared, Authenticated, [StartSession])
       case Reject => Step(cleared, InvalidCode, [])
       case Raised => Step(cleared, Failed, []))
  }

  function OpStep(s: State, user: int, op: PendingOp, text: string, w: World): Step
    requires OpWellFormed(op)
  {
    var cleared := s.(ops := s.ops - {user});
    match op
    case SelectHosts(l) =>
      if l == [] then Step(cleared, NoHostsAvailable, [])
      else
        var sel := Selected(text, l);
        if sel == [] then Step(s, InvalidSelection, [])
        else Step(s.(ops := s.ops[user := ConfirmSelected(sel)]), ConfirmSelection(sel), [])
    case _ =>
      (match w.codeOk(text)
       case Accept => var (r, es) := Dispatch(op, w); Step(cleared, r, es)
       case Reject => Step(cleared, InvalidCode, [])
       case Raised => Step(cleared, Failed, []))
  }

  function CommandStep(s: State, user: int, c: Command, w: World): Step {
    match c
    case AddShell(h, u, d) =>
      if w.shellTest(h, u) then
        Step(s.(ops := s.ops[user := ConfirmAddShell(h, u, d)]), ConfirmPrompt, [ConnectShell(h, u)])
      else Step(s, ConnectionFailed, [ConnectShell(h, u)])
    case ShellFormatError => Step(s, FormatHelp, [])
    case AddApi(t, h, k, e, d) =>
      if t !in w.plugins then Step(s, UnknownType, [])
      else if w.apiTest(h, t, k, e) then
        Step(s.(ops := s.ops[user := ConfirmAddApi(t, h, k, e, d)]), ConfirmPrompt, [ConnectApi(h, t, k, e)])
      else Step(s, ConnectionFailed, [ConnectApi(h, t, k, e)])
    case ApiFormatError => Step(s, FormatHelp, [])
    case RemoveShell(h, u) => Step(s.(ops := s.ops[user := ConfirmRemoveShell(h, u)]), ConfirmPrompt, [])
    case RemoveApi(h) => Step(s.(ops := s.ops[user := ConfirmRemoveApi(h)]), ConfirmPrompt, [])
    case NoCommand => Step(s, Silent, [])
  }

  // ---------------------------------------------------------------------------
  // Running a confirmed operation

  /** The hosts a confirmed selective shutdown runs on: the ones the operator picked. */
  function SelectionToRun(op: PendingOp): seq<HostId>
    requires op.ConfirmSelected?
  {
    op.selectedHosts
  }

  /** A value of the dictionary the handlers store per identity. */
  datatype Field = Str(text: string) | Ids(ids: seq<HostId>) | Dict(entries: map<string, Field>)

  /** The dictionary `_pending_operations[user_id]` holds for each operation, with the
      keys the handlers write: the selective shutdown keeps its lists at the top level,
      every add and remove keeps its fields under "data". */
  function Stored(op: PendingOp): map<string, Field> {
    match op
    case ShutdownAll =>
      map["operation" := Str("shutdown"), "state" := Str("awaiting_otp")]
    case SelectHosts(l) =>
      map["operation" := Str("selective_shutdown"), "state" := Str("awaiting_selection"), "host_list" := Ids(l)]
    case ConfirmSelected(sel) =>
      map["operation" := Str("selective_shutdown"), "state" := Str("awaiting_otp"), "selected_hosts" := Ids(sel)]
    case ConfirmAddShell(h, u, d) =>
      map["operation" := Str("add_ssh"), "state" := Str("awaiting_otp"),
          "data" := Dict(map["host" := Str(h), "user" := Str(u), "description" := Str(d)])]
    case ConfirmAddApi(t, h, k, e, d) =>
      map["operation" := Str("add_api"), "state" := Str("awaiting_otp"),
          "data" := Dict(map["host" := Str(h), "api_type" := Str(t), "api_key" := Str(k),
                             "api_endpoint" := Str(e), "description" := Str(d)])]
    case ConfirmRemoveShell(h, u) =>
      map["operation" := Str("remove_ssh"), "state" := Str("awaiting_otp"),
          "data" := Dict(map["host" := Str(h), "user" := Str(u)])]
    case ConfirmRemoveApi(h) =>
      map["operation" := Str("remove_api"), "state" := Str("awaiting_otp"),
          "data" := Dict(map["host" := Str(h)])]
  }

  /** d.get(key, default) */
  function Get(d: map<string, Field>, key: string, default: Field): Field {
    if key in d then d[key] else default
  }

  /** The hosts the confirm path of the handler, as written, reads for a selective
      shutdown: the operation's "data" dictionary (an empty one when absent), and in it
      "selected_hosts" (an empty list when absent). */
  function SelectionReadAsWritten(op: PendingOp): seq<HostId> {
    var data := Get(Stored(op), "data", Dict(map[]));
    var selected := if data.Dict? then Get(data.entries, "selected_hosts", Ids([])) else Ids([]);
    if selected.Ids? then selected.ids else []
  }

  /** The picked hosts are stored at the top level of the operation, which has no
      "data" entry, so the as-written read finds none of them; the top-level entry is
      what `SelectionToRun` reads. */
  lemma SelectionStoredAtTopLevel(sel: seq<HostId>)
    ensures Stored(ConfirmSelected(sel))["selected_hosts"] == Ids(SelectionToRun(ConfirmSelected(sel)))
    ensures "data" !in Stored(ConfirmSelected(sel))
    ensures SelectionReadAsWritten(ConfirmSelected(sel)) == []
  {
    assert "data" != "operation" && "data" != "state" && "data" != "selected_hosts";
  }

  /** Every other operation confirmed by a code keeps its fields under "data", which is
      where the confirm path looks. */
  lemma FieldsUnderData(op: PendingOp)
    requires op.ConfirmAddShell? || op.ConfirmAddApi? || op.ConfirmRemoveShell? || op.ConfirmRemoveApi?
    ensures "data" in Stored(op) && Stored(op)["data"].Dict? && "host" in Stored(op)["data"].entries
  {
  }

  function ShutdownEffects(ts: seq<Target>): (es: seq<Effect>)
    ensures |es| == |ts|
    ensures forall i :: 0 <= i < |ts| ==> es[i] == ShutdownHost(ts[i])
  {
    seq(|ts|, i requires 0 <= i < |ts| => ShutdownHost(ts[i]))
  }

  /** Shuts down the hosts the identifiers resolve to, one at a time, and reports the
      outcomes of the SSH bucket and the API bucket together. */
  function RunSelection(ids: seq<HostId>, w: World): (Reply, seq<Effect>)
  {
    if ids == [] then (NoHostsSelected, [])
    else
      var ts := Targets(ids, w.shellHosts, w.apiHosts);
      (ShutdownReport(Summarize([ShellRuns(ts, w.execShell), ApiRuns(ts, w.execApi)])), ShutdownEffects(ts))
  }

  function Dispatch(op: PendingOp, w: World): (Reply, seq<Effect>)
    requires !op.SelectHosts?
  {
    match op
    case ShutdownAll => (ShutdownReport(Summarize(w.poweroff)), [HardPoweroff])
    case ConfirmSelected(_) => RunSelection(SelectionToRun(op), w)
    case ConfirmAddShell(h, u, d) =>
      if w.registryAccepts then (HostAdded, [InsertShell(h, u, d), ProbeShell(h, u)])
      else (AddFailed, [InsertShell(h, u, d)])
    case ConfirmAddApi(t, h, k, e, d) =>
      if w.registryAccepts then (HostAdded, [InsertApi(h, t, k, e, d), ProbeApi(h)])
      else (AddFailed, [InsertApi(h, t, k, e, d)])
    case ConfirmRemoveShell(h, u) =>
      (if w.registryAccepts then HostRemoved else HostNotFound, [DeleteShell(h, u)])
    case ConfirmRemoveApi(h) =>
      (if w.registryAccepts then HostRemoved else HostNotFound, [DeleteApi(h)])
  }

  // ---------------------------------------------------------------------------
  // The /status command

  /** "SSH: online/total online" and the same for API hosts; the command checks the
      identity but not the session. */
  function StatusCommand(chatId: string, user: int, w: World): (r: Reply)
    ensures r == Unauthorized <==> !Authorized(chatId, user)
  {
    if !Authorized(chatId, user) then Unauthorized
    else
      var shell := ShellLiveness(w.shellHosts);
      var api := ApiLiveness(w.apiHosts);
      StatusLine(CountOnline(shell), CountEnabled(shell), CountOnline(api), CountEnabled(api))
  }

  // ---------------------------------------------------------------------------
  // The /start command

  /** /start as written: anyone else is answered "Unauthorized", the authorized identity
      gets the main menu for its session, and no pending entry is touched. */
  function StartAsWritten(chatId: string, s: State, user: int, w: World): Step {
    if !Authorized(chatId, user) then Step(s, Unauthorized, [])
    else Step(s, Menu(w.sessionValid), [])
  }

  /** /start as the selection prompt describes it ("send /start to cancel"): the same
      reply, and the sender's pending operation is dropped. */
  function StartStep(chatId: string, s: State, user: int, w: World): Step {
    if !Authorized(chatId, user) then Step(s, Unauthorized, [])
    else Step(s.(ops := s.ops - {user}), Menu(w.sessionValid), [])
  }

  /** As written, /start leaves a pending host selection in place: the next text is
      still read as a selection, and one that picks nothing is refused again. */
  lemma StartKeepsSelectionAsWritten(chatId: string, s: State, user: int, l: seq<HostId>, message: string, w: World)
    requires Valid(chatId, s) && Authorized(chatId, user)
    requires user !in s.auth && user in s.ops && s.ops[user] == SelectHosts(l)
    ensures StartAsWritten(chatId, s, user, w).state == s
    ensures MessageStep(chatId, StartAsWritten(chatId, s, user, w).state, user, message, w)
         == OpStep(s, user, SelectHosts(l), Strip(message), w)
    ensures l != [] && Selected(Strip(message), l) == [] ==>
      MessageStep(chatId, StartAsWritten(chatId, s, user, w).state, user, message, w) == Step(s, InvalidSelection, [])
  {
  }

  /** /start cancels: the sender has no pending operation afterwards, nothing else
      changes, the state stays valid, and the next text outside a login is read as a
      command again. Anyone else is refused with the state untouched. */
  lemma StartCancels(chatId: string, s: State, user: int, message: string, w: World)
    requires Valid(chatId, s)
    ensures !Authorized(chatId, user) ==> StartStep(chatId, s, user, w) == Step(s, Unauthorized, [])
    ensures var t := StartStep(chatId, s, user, w).state;
      && user !in t.ops && t.auth == s.auth && OnlyUserChanged(s, t, user) && Valid(chatId, t)
    ensures Authorized(chatId, user) && user !in s.auth ==>
      var t := StartStep(chatId, s, user, w).state;
      MessageStep(chatId, t, user, message, w)
        == if w.sessionValid then CommandStep(t, user, Classify(Strip(message)), w) else Step(t, Silent, [])
  {
    var t := StartStep(chatId, s, user, w).state;
    if !Authorized(chatId, user) {
      assert user !in s.ops;
      assert t.ops == s.ops;
    } else {
      assert t.ops - {user} == s.ops - {user};
    }
  }

  // ---------------------------------------------------------------------------
  // Who may drive the bot

  /** At most one identity is authorized: no two integers share a decimal writing. */
  lemma OneAuthorizedIdentity(chatId: string, u: int, v: int)
    requires Authorized(chatId, u) && Authorized(chatId, v)
    ensures u == v
  {
    DecimalInjective(u, v);
  }

  /** Hence a valid state holds at most one login and at most one pending operation. */
  lemma ValidHoldsOneEntry(chatId: string, s: State)
    requires Valid(chatId, s)
    ensures forall u, v :: u in s.auth && v in s.auth ==> u == v
    ensures forall u, v :: u in s.ops && v in s.ops ==> u == v
  {
    forall u, v | u in s.auth && v in s.auth ensures u == v {
      OneAuthorizedIdentity(chatId, u, v);
    }
    forall u, v | u in s.ops && v in s.ops ensures u == v {
      OneAuthorizedIdentity(chatId, u, v);
    }
  }

  /** Anyone else is answered "Unauthorized" on a button and not at all on a message,
      and changes nothing. */
  lemma UnauthorizedIgnored(chatId: string, s: State, user: int, b: Button, message: string, w: World)
    requires Valid(chatId, s) && !Authorized(chatId, user)
    ensures ButtonStep(chatId, s, user, b, w) == Step(s, Unauthorized, [])
    ensures MessageStep(chatId, s, user, message, w) == Step(s, Silent, [])
  {
  }

  // ---------------------------------------------------------------------------
  // Buttons

  /** A button never shuts a host down nor changes the registry; only "login" touches
      the login state, and only the two shutdown buttons touch the pending operation.
      The "shutdown" button replaces whatever was pending. */
  lemma ButtonEffects(chatId: string, s: State, user: int, b: Button, w: World)
    ensures Harmless(ButtonStep(chatId, s, user, b, w).effects)
    ensures var st := ButtonStep(chatId, s, user, b, w);
      st.state.auth == if Authorized(chatId, user) && b == LoginButton
                       then s.auth[user := AwaitingToken] else s.auth
    ensures b != ShutdownButton && b != SelectiveShutdownButton ==>
      ButtonStep(chatId, s, user, b, w).state.ops == s.ops
    ensures Authorized(chatId, user) && w.sessionValid && b == ShutdownButton ==>
      ButtonStep(chatId, s, user, b, w).state.ops == s.ops[user := ShutdownAll]
    ensures !w.sessionValid && b !in {LoginButton, BackButton, LogoutButton} ==>
      ButtonStep(chatId, s, user, b, w).state == s
  {
  }

  /** The number the menu prints next to the i-th SSH host (counting from 1) picks
      exactly that host. */
  lemma ShellMenuNumberPicks(shell: seq<ShellHost>, api: seq<ApiHost>, i: nat)
    requires i < |shell|
    ensures Selected(NumbersText([i + 1]), HostList(shell, api)) == [ShellId(shell[i])]
  {
    HostListNumbering(shell, api);
    SelectedNumbers([i + 1], HostList(shell, api));
  }

  /** The API hosts are numbered on from the SSH hosts: the number printed next to the
      j-th API host picks exactly that host. */
  lemma ApiMenuNumberPicks(shell: seq<ShellHost>, api: seq<ApiHost>, j: nat)
    requires j < |api|
    ensures Selected(NumbersText([|shell| + j + 1]), HostList(shell, api)) == [ApiId(api[j])]
  {
    HostListNumbering(shell, api);
    SelectedNumbers([|shell| + j + 1], HostList(shell, api));
  }

  /** The selective-shutdown button offers the enabled hosts, SSH first, and stores
      exactly the identifiers it showed; with no enabled host it stores nothing. */
  lemma SelectiveButtonOffersEnabled(chatId: string, s: State, user: int, w: World)
    requires Authorized(chatId, user) && w.sessionValid
    ensures var st := ButtonStep(chatId, s, user, SelectiveShutdownButton, w);
      var shell, api := EnabledShell(w.shellHosts), EnabledApi(w.apiHosts);
      if shell == [] && api == [] then st == Step(s, NoHostsForShutdown, [])
      else
        (&& st.state.ops == s.ops[user := SelectHosts(HostList(shell, api))]
         && st.reply == SelectionMenu(HostList(shell, api))
         && st.state.auth == s.auth && st.effects == []
         && AllWellFormed(HostList(shell, api)))
  {
    HostListWellFormed(EnabledShell(w.shellHosts), EnabledApi(w.apiHosts));
  }

  /** The status panel counts every row of each table exactly once. */
  lemma StatusPanelCountsAll(chatId: string, s: State, user: int, w: World)
    requires Authorized(chatId, user) && w.sessionValid
    ensures var r := ButtonStep(chatId, s, user, StatusButton, w).reply;
      r.StatusPanel?
      && r.shell.online + r.shell.offline + r.shell.disabled == |w.shellHosts|
      && r.api.online + r.api.offline + r.api.disabled == |w.apiHosts|
  {
    StatusPartition(ShellLiveness(w.shellHosts));
    StatusPartition(ApiLiveness(w.apiHosts));
  }

  /** /status reports, per kind, the online enabled rows out of the enabled rows. */
  lemma StatusLineCounts(chatId: string, user: int, w: World)
    requires Authorized(chatId, user)
    ensures var r := StatusCommand(chatId, user, w);
      r.StatusLine?
      && r.shellTotal == CountOnline(ShellLiveness(w.shellHosts)) + CountOffline(ShellLiveness(w.shellHosts))
      && r.apiTotal == CountOnline(ApiLiveness(w.apiHosts)) + CountOffline(ApiLiveness(w.apiHosts))
      && r.shellOnline <= r.shellTotal <= |w.shellHosts|
      && r.apiOnline <= r.apiTotal <= |w.apiHosts|
  {
    EnabledIsOnlinePlusOffline(ShellLiveness(w.shellHosts));
    EnabledIsOnlinePlusOffline(ApiLiveness(w.apiHosts));
  }

  // ---------------------------------------------------------------------------
  // Messages

  /** Where a message from the authorized identity goes: a login in progress takes it
      first, then a pending operation, and only then, with a valid session, the text
      commands; the message is stripped of surrounding white space before any of them
      sees it. */
  lemma MessageRoutes(chatId: string, s: State, user: int, message: string, w: World)
    requires Valid(chatId, s) && Authorized(chatId, user)
    ensures user in s.auth ==>
      MessageStep(chatId, s, user, message, w) == LoginStep(s, user, s.auth[user], Strip(message), w)
    ensures user !in s.auth && user in s.ops ==>
      MessageStep(chatId, s, user, message, w) == OpStep(s, user, s.ops[user], Strip(message), w)
    ensures user !in s.auth && user !in s.ops && !w.sessionValid ==>
      MessageStep(chatId, s, user, message, w) == Step(s, Silent, [])
    ensures user !in s.auth && user !in s.ops && w.sessionValid ==>
      MessageStep(chatId, s, user, message, w) == CommandStep(s, user, Classify(Strip(message)), w)
  {
  }

  /** Only the acting identity's entries differ between two states. */
  predicate OnlyUserChanged(s: State, t: State, user: int) {
    t.auth - {user} == s.auth - {user} && t.ops - {user} == s.ops - {user}
  }

  /** The login flow: the token step advances to the code step only on an accepted
      token and otherwise ends the login; the code step always ends it and starts a
      session only on an accepted code. Pending operations are left alone. */
  lemma LoginFlow(s: State, user: int, stage: AuthStage, text: string, w: World)
    ensures var st := LoginStep(s, user, stage, text, w);
      && st.state.ops == s.ops
      && OnlyUserChanged(s, st.state, user)
      && (stage == AwaitingToken && w.tokenOk(text) == Accept ==>
            st.state.auth == s.auth[user := AwaitingCode] && st.effects == [])
      && (stage == AwaitingToken && w.tokenOk(text) != Accept ==>
            st.state.auth == s.auth - {user} && st.effects == [])
      && (stage == AwaitingCode ==> st.state.auth == s.auth - {user})
      && (stage == AwaitingCode ==> (st.effects == [StartSession] <==> w.codeOk(text) == Accept))
      && (stage == AwaitingCode && w.codeOk(text) != Accept ==> st.effects == [])
  {
    assert s.auth[user := AwaitingCode] - {user} == s.auth - {user};
  }

  /** The selection step: an empty menu ends the operation; a selection that picks no
      host of the menu leaves it waiting for another try; otherwise the picked hosts
      replace the menu and wait for a one-time code. */
  lemma SelectionOutcome(s: State, user: int, l: seq<HostId>, text: string, w: World)
    requires AllWellFormed(l)
    ensures var st := OpStep(s, user, SelectHosts(l), text, w);
      var sel := Selected(text, l);
      && st.effects == [] && st.state.auth == s.auth
      && OnlyUserChanged(s, st.state, user)
      && (l == [] ==> st.state.ops == s.ops - {user} && st.reply == NoHostsAvailable)
      && (l != [] && sel == [] ==> st.state == s && st.reply == InvalidSelection)
      && (l != [] && sel != [] ==>
            && st.state.ops == s.ops[user := ConfirmSelected(sel)]
            && st.reply == ConfirmSelection(sel)
            && (forall id :: id in sel ==> id in l)
            && AllWellFormed(sel))
  {
    var sel := Selected(text, l);
    SelectedWellFormed(l, text);
    assert s.ops[user := ConfirmSelected(sel)] - {user} == s.ops - {user};
  }

  /** The picked hosts are hosts of the menu, so they keep its well-formed identifiers. */
  lemma SelectedWellFormed(l: seq<HostId>, text: string)
    requires AllWellFormed(l)
    ensures forall id :: id in Selected(text, l) ==> id in l
    ensures AllWellFormed(Selected(text, l))
  {
    var sel := Selected(text, l);
    SelectMembers(SelectedIndices(Lower(Strip(text)), |l|), l);
    forall k | 0 <= k < |sel| ensures WellFormedId(sel[k]) {
      assert sel[k] in l;
      var j :| 0 <= j < |l| && l[j] == sel[k];
    }
  }

  /** Once a one-time code is asked for, the next message decides: whatever it is, the
      operation is gone afterwards, and only an accepted code lets it act. */
  lemma CodeDecides(s: State, user: int, op: PendingOp, text: string, w: World)
    requires OpWellFormed(op) && !op.SelectHosts?
    ensures var st := OpStep(s, user, op, text, w);
      && st.state == s.(ops := s.ops - {user})
      && OnlyUserChanged(s, st.state, user)
      && (w.codeOk(text) == Reject ==> st == Step(s.(ops := s.ops - {user}), InvalidCode, []))
      && (w.codeOk(text) == Raised ==> st == Step(s.(ops := s.ops - {user}), Failed, []))
      && (w.codeOk(text) == Accept ==> (st.reply, st.effects) == Dispatch(op, w))
  {
  }

  /** Confirming an operation does not look at the session: an accepted code runs it
      even when the session has expired since the operation was queued. */
  lemma ConfirmNeedsNoSession(chatId: string, s: State, user: int, message: string, w: World)
    requires Valid(chatId, s) && Authorized(chatId, user)
    requires user !in s.auth && user in s.ops && s.ops[user] == ShutdownAll
    requires w.codeOk(Strip(message)) == Accept && !w.sessionValid
    ensures MessageStep(chatId, s, user, message, w).effects == [HardPoweroff]
  {
    MessageRoutes(chatId, s, user, message, w);
    CodeDecides(s, user, ShutdownAll, Strip(message), w);
  }

  /** Nothing that shuts hosts down or changes the registry happens without an accepted
      one-time code for an operation the authorized identity queued earlier, and never
      while a login is in progress. */
  lemma DestructiveNeedsCode(chatId: string, s: State, user: int, message: string, w: World)
    requires Valid(chatId, s)
    ensures !Harmless(MessageStep(chatId, s, user, message, w).effects) ==>
      && Authorized(chatId, user)
      && user !in s.auth && user in s.ops && !s.ops[user].SelectHosts?
      && w.codeOk(Strip(message)) == Accept
  {
    var text := Strip(message);
    if Authorized(chatId, user) {
      if user in s.auth {
        LoginHarmless(s, user, s.auth[user], text, w);
      } else if user in s.ops {
        if s.ops[user].SelectHosts? {
          SelectionHarmless(s, user, s.ops[user].hostList, text, w);
        } else {
          CodeDecides(s, user, s.ops[user], text, w);
        }
      } else if w.sessionValid {
        CommandHarmless(s, user, Classify(text), w);
      }
    }
  }

  lemma LoginHarmless(s: State, user: int, stage: AuthStage, text: string, w: World)
    ensures Harmless(LoginStep(s, user, stage, text, w).effects)
  {
    LoginFlow(s, user, stage, text, w);
  }

  lemma SelectionHarmless(s: State, user: int, l: seq<HostId>, text: string, w: World)
    requires AllWellFormed(l)
    ensures OpStep(s, user, SelectHosts(l), text, w).effects == []
  {
  }

  lemma CommandHarmless(s: State, user: int, c: Command, w: World)
    ensures Harmless(CommandStep(s, user, c, w).effects)
  {
    CommandsOnlyProbe(s, user, c, w);
  }

  /** A message touches no entry but the sender's own. */
  lemma MessageTouchesOnlySender(chatId: string, s: State, user: int, message: string, w: World)
    requires Valid(chatId, s)
    ensures OnlyUserChanged(s, MessageStep(chatId, s, user, message, w).state, user)
  {
    var text := Strip(message);
    if !Authorized(chatId, user) {
      UnauthorizedIgnored(chatId, s, user, UnknownButton, message, w);
    } else {
      MessageRoutes(chatId, s, user, message, w);
      if user in s.auth {
        LoginFlow(s, user, s.auth[user], text, w);
      } else if user in s.ops {
        match s.ops[user]
        case SelectHosts(l) => SelectionOutcome(s, user, l, text, w);
        case _ => CodeDecides(s, user, s.ops[user], text, w);
      } else if w.sessionValid {
        CommandsOnlyProbe(s, user, Classify(text), w);
      }
    }
  }

  // ---------------------------------------------------------------------------
  // Text commands

  /** A text command only ever tests a connection; when it changes anything it queues
      one operation for the sender that waits for a one-time code. An API type with no
      plugin is refused before any connection is tried. */
  lemma CommandsOnlyProbe(s: State, user: int, c: Command, w: World)
    ensures var st := CommandStep(s, user, c, w);
      && st.state.auth == s.auth
      && OnlyUserChanged(s, st.state, user)
      && (forall e :: e in st.effects ==> e.ConnectShell? || e.ConnectApi?)
      && (|| st.state.ops == s.ops
          || (user in st.state.ops && !st.state.ops[user].SelectHosts? && !st.state.ops[user].ConfirmSelected?))
    ensures c.AddApi? && c.apiType !in w.plugins ==> CommandStep(s, user, c, w) == Step(s, UnknownType, [])
    ensures c.RemoveShell? ==>
      CommandStep(s, user, c, w).state.ops == s.ops[user := ConfirmRemoveShell(c.host, c.user)]
    ensures c.RemoveApi? ==> CommandStep(s, user, c, w).state.ops == s.ops[user := ConfirmRemoveApi(c.host)]
    ensures c.AddShell? ==> CommandStep(s, user, c, w).effects == [ConnectShell(c.host, c.user)]
    ensures c.AddShell? ==>
      CommandStep(s, user, c, w).state.ops
        == if w.shellTest(c.host, c.user) then s.ops[user := ConfirmAddShell(c.host, c.user, c.description)] else s.ops
    ensures c.AddApi? && c.apiType in w.plugins ==>
      CommandStep(s, user, c, w).effects == [ConnectApi(c.host, c.apiType, c.apiKey, c.apiEndpoint)]
    ensures c.AddApi? && c.apiType in w.plugins ==>
      CommandStep(s, user, c, w).state.ops
        == if w.apiTest(c.host, c.apiType, c.apiKey, c.apiEndpoint)
           then s.ops[user := ConfirmAddApi(c.apiType, c.host, c.apiKey, c.apiEndpoint, c.description)]
           else s.ops
    ensures c.NoCommand? || c.ShellFormatError? || c.ApiFormatError? ==>
      CommandStep(s, user, c, w).state == s && CommandStep(s, user, c, w).effects == []
  {
    match c
    case AddShell(h, u, d) =>
      assert s.ops[user := ConfirmAddShell(h, u, d)] - {user} == s.ops - {user};
    case AddApi(t, h, k, e, d) =>
      assert s.ops[user := ConfirmAddApi(t, h, k, e, d)] - {user} == s.ops - {user};
    case RemoveShell(h, u) =>
      assert s.ops[user := ConfirmRemoveShell(h, u)] - {user} == s.ops - {user};
    case RemoveApi(h) =>
      assert s.ops[user := ConfirmRemoveApi(h)] - {user} == s.ops - {user};
    case _ =>
  }

  // ---------------------------------------------------------------------------
  // Running a confirmed operation

  /** A confirmed selective shutdown shuts down, in order, exactly the resolved targets
      of the identifiers the operator picked: only selected, enabled, registered hosts. */
  lemma SelectiveRunsSelection(sel: seq<HostId>, w: World)
    requires sel != []
    ensures var (r, es) := Dispatch(ConfirmSelected(sel), w);
      var ts := Targets(sel, w.shellHosts, w.apiHosts);
      && es == ShutdownEffects(ts)
      && (forall t :: t in ts ==> TargetId(t) in sel)
      && (forall t :: t in ts && t.ShellTarget? ==> t.shell in w.shellHosts && t.shell.enabled)
      && (forall t :: t in ts && t.ApiTarget? ==> t.api in w.apiHosts && t.api.enabled)
      && r.ShutdownReport? && r.summary.success <= r.summary.total
  {
    var ts := Targets(sel, w.shellHosts, w.apiHosts);
    TargetsSelected(sel, w.shellHosts, w.apiHosts);
    SummaryBounds([ShellRuns(ts, w.execShell), ApiRuns(ts, w.execApi)]);
  }

  /** Read as written, the confirm path finds no selected host: when the operator
      picks one enabled SSH host and confirms with a valid code, nothing is shut down
      and the answer is "No hosts selected", while the intended reading shuts that one
      host down. */
  lemma SelectionLostAsWritten(h: ShellHost, w: World)
    requires h in w.shellHosts && h.enabled && ':' !in h.user
    ensures RunSelection(SelectionReadAsWritten(ConfirmSelected([ShellId(h)])), w) == (NoHostsSelected, [])
    ensures |RunSelection(SelectionToRun(ConfirmSelected([ShellId(h)])), w).1| == 1
  {
    SelectionStoredAtTopLevel([ShellId(h)]);
    ResolveShell(h, w.shellHosts, w.apiHosts);
    assert [ShellId(h)][..0] == [];
  }

  /** Every shutdown report a confirmed operation produces counts no more successes
      than hosts, and only the effects of the operation it confirms happen: the hard
      power-off only for "shutdown", host shutdowns only for a selective shutdown. */
  lemma DispatchBounded(op: PendingOp, w: World)
    requires !op.SelectHosts?
    ensures var (r, es) := Dispatch(op, w);
      && (r.ShutdownReport? ==> r.summary.success <= r.summary.total)
      && (HardPoweroff in es <==> op.ShutdownAll?)
      && ((exists t :: ShutdownHost(t) in es) ==> op.ConfirmSelected?)
  {
    match op
    case ShutdownAll => SummaryBounds(w.poweroff);
    case ConfirmSelected(sel) =>
      if sel != [] {
        SelectiveRunsSelection(sel, w);
      }
    case _ =>
  }

  // ---------------------------------------------------------------------------
  // The invariant

  lemma ButtonKeepsValid(chatId: string, s: State, user: int, b: Button, w: World)
    requires Valid(chatId, s)
    ensures Valid(chatId, ButtonStep(chatId, s, user, b, w).state)
  {
    var t := ButtonStep(chatId, s, user, b, w).state;
    if Authorized(chatId, user) {
      if b == LoginButton {
        assert s.auth[user := AwaitingToken] - {user} == s.auth - {user};
      } else if b != BackButton && b != LogoutButton && w.sessionValid {
        SessionButtonOnlyUser(s, user, b, w);
      }
      ValidAfter(chatId, s, t, user);
    }
  }

  /** The session buttons change at most the sender's pending operation, and store only
      well-formed menus. */
  lemma SessionButtonOnlyUser(s: State, user: int, b: Button, w: World)
    requires user in s.ops ==> OpWellFormed(s.ops[user])
    ensures var t := SessionButtonStep(s, user, b, w).state;
      OnlyUserChanged(s, t, user) && (user in t.ops ==> OpWellFormed(t.ops[user]))
  {
    var t := SessionButtonStep(s, user, b, w).state;
    if b == ShutdownButton {
      assert s.ops[user := ShutdownAll] - {user} == s.ops - {user};
    } else if b == SelectiveShutdownButton {
      var shell, api := EnabledShell(w.shellHosts), EnabledApi(w.apiHosts);
      if shell != [] || api != [] {
        HostListWellFormed(shell, api);
        assert s.ops[user := SelectHosts(HostList(shell, api))] - {user} == s.ops - {user};
      }
    } else {
      assert t == s;
    }
  }

  lemma MessageKeepsValid(chatId: string, s: State, user: int, message: string, w: World)
    requires Valid(chatId, s)
    ensures Valid(chatId, MessageStep(chatId, s, user, message, w).state)
  {
    var text := Strip(message);
    var t := MessageStep(chatId, s, user, message, w).state;
    if !Authorized(chatId, user) {
      UnauthorizedIgnored(chatId, s, user, UnknownButton, message, w);
    } else {
      MessageTouchesOnlySender(chatId, s, user, message, w);
      MessageRoutes(chatId, s, user, message, w);
      if user in s.auth {
        LoginFlow(s, user, s.auth[user], text, w);
      } else if user in s.ops {
        match s.ops[user]
        case SelectHosts(l) => SelectionOutcome(s, user, l, text, w);
        case _ => CodeDecides(s, user, s.ops[user], text, w);
      } else if w.sessionValid {
        CommandsOnlyProbe(s, user, Classify(text), w);
      }
      assert user in t.ops ==> OpWellFormed(t.ops[user]);
      ValidAfter(chatId, s, t, user);
    }
  }

  /** A step by the authorized identity that changes only its own entries, and leaves
      its pending operation well formed, keeps the state valid. */
  lemma ValidAfter(chatId: string, s: State, t: State, user: int)
    requires Valid(chatId, s) && Authorized(chatId, user) && OnlyUserChanged(s, t, user)
    requires user in t.ops ==> OpWellFormed(t.ops[user])
    ensures Valid(chatId, t)
  {
    forall u | u in t.auth ensures Authorized(chatId, u) {
      if u != user {
        assert u in t.auth - {user};
      }
    }
    forall u | u in t.ops ensures Authorized(chatId, u) && OpWellFormed(t.ops[u]) {
      if u != user {
        assert u in t.ops - {user};
        assert t.ops[u] == (t.ops - {user})[u];
      }
    }
  }
}
