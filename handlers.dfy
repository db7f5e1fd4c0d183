/** The bot object: the configured chat and the two per-identity dictionaries that the
    button handler and the message handler update in place. Each handler is proved to
    take the dictionaries to the state `Machine` prescribes, and to keep them valid. */
module Handlers {
  import opened Text
  import opened Registry
  import opened Selection
  import opened Shutdown
  import opened Commands
  import opened Machine

  /** The selective-shutdown menu, built the way the button handler builds it: one
      identifier appended per enabled SSH host, then one per enabled API host. */
  method BuildHostList(shell: seq<ShellHost>, api: seq<ApiHost>) returns (hostList: seq<HostId>)
    ensures hostList == HostList(shell, api)
  {
    hostList := [];
    var i := 0;
    while i < |shell|
      invariant 0 <= i <= |shell|
      invariant hostList == seq(i, k requires 0 <= k < i => ShellId(shell[k]))
    {
      hostList := hostList + [ShellId(shell[i])];
      i := i + 1;
    }
    var j := 0;
    while j < |api|
      invariant 0 <= j <= |api|
      invariant hostList == seq(|shell|, k requires 0 <= k < |shell| => ShellId(shell[k]))
                          + seq(j, k requires 0 <= k < j => ApiId(api[k]))
    {
      hostList := hostList + [ApiId(api[j])];
      j := j + 1;
    }
  }

  /** Runs an operation whose one-time code was accepted. */
  method Execute(op: PendingOp, w: World) returns (reply: Reply, effects: seq<Effect>)
    requires !op.SelectHosts?
    ensures (reply, effects) == Dispatch(op, w)
  {
    match op
    case ShutdownAll =>
      var summary := Tally(w.poweroff);
      reply, effects := ShutdownReport(summary), [HardPoweroff];
    case ConfirmSelected(_) =>
      var ids := SelectionToRun(op);
      if ids == [] {
        return NoHostsSelected, [];
      }
      var shutDown, sshResults, apiResults := RunSelected(ids, w.shellHosts, w.apiHosts, w.execShell, w.execApi);
      var summary := Tally([sshResults, apiResults]);
      reply, effects := ShutdownReport(summary), ShutdownEffects(shutDown);
    case ConfirmAddShell(h, u, d) =>
      if w.registryAccepts {
        reply, effects := HostAdded, [InsertShell(h, u, d), ProbeShell(h, u)];
      } else {
        reply, effects := AddFailed, [InsertShell(h, u, d)];
      }
    case ConfirmAddApi(t, h, k, e, d) =>
      if w.registryAccepts {
        reply, effects := HostAdded, [InsertApi(h, t, k, e, d), ProbeApi(h)];
      } else {
        reply, effects := AddFailed, [InsertApi(h, t, k, e, d)];
      }
    case ConfirmRemoveShell(h, u) =>
      reply := if w.registryAccepts then HostRemoved else HostNotFound;
      effects := [DeleteShell(h, u)];
    case ConfirmRemoveApi(h) =>
      reply := if w.registryAccepts then HostRemoved else HostNotFound;
      effects := [DeleteApi(h)];
  }

  class Bot {
    const chatId: string
    var pendingAuth: map<int, AuthStage>
    var pendingOps: map<int, PendingOp>

    function Current(): State
      reads this
    {
      State(pendingAuth, pendingOps)
    }

    ghost predicate Valid()
      reads this
    {
      Machine.Valid(chatId, Current())
    }

    /** A fresh bot has no login and no operation in progress. */
    constructor(chatId: string)
      ensures this.chatId == chatId
      ensures pendingAuth == map[] && pendingOps == map[]
      ensures Valid()
    {
      this.chatId := chatId;
      pendingAuth := map[];
      pendingOps := map[];
    }

    /** The /start command: the main menu, and the sender's pending operation dropped. */
    method Start(user: int, w: World) returns (reply: Reply)
      requires Valid()
      modifies this
      ensures Valid()
      ensures Current() == StartStep(chatId, old(Current()), user, w).state
      ensures reply == StartStep(chatId, old(Current()), user, w).reply
    {
      StartCancels(chatId, Current(), user, [], w);
      if Decimal(user) != chatId {
        return Unauthorized;
      }
      pendingOps := pendingOps - {user};
      return Menu(w.sessionValid);
    }

    /** The button handler. */
    method ButtonCallback(user: int, b: Button, w: World) returns (reply: Reply, effects: seq<Effect>)
      requires Valid()
      modifies this
      ensures Valid()
      ensures Current() == ButtonStep(chatId, old(Current()), user, b, w).state
      ensures reply == ButtonStep(chatId, old(Current()), user, b, w).reply
      ensures effects == ButtonStep(chatId, old(Current()), user, b, w).effects
    {
      ButtonKeepsValid(chatId, Current(), user, b, w);
      if Decimal(user) != chatId {
        return Unauthorized, [];
      }
      if b == LoginButton {
        pendingAuth := pendingAuth[user := AwaitingToken];
        return TokenPrompt, [];
      }
      if b == BackButton {
        return Menu(true), [];
      }
      if b == LogoutButton {
        effects := if w.sessionValid then [EndSession] else [];
        return Menu(false), effects;
      }
      if !w.sessionValid {
        return PleaseLogin, [];
      }
      if b == StatusButton {
        var shell := StatusCounts(ShellLiveness(w.shellHosts));
        var api := StatusCounts(ApiLiveness(w.apiHosts));
        return StatusPanel(shell, api), [];
      }
      if b == ShutdownButton {
        pendingOps := pendingOps[user := ShutdownAll];
        return ShutdownPrompt, [];
      }
      if b == SelectiveShutdownButton {
        var shell := EnabledShell(w.shellHosts);
        var api := EnabledApi(w.apiHosts);
        if shell == [] && api == [] {
          return NoHostsForShutdown, [];
        }
        var hostList := BuildHostList(shell, api);
        pendingOps := pendingOps[user := SelectHosts(hostList)];
        return SelectionMenu(hostList), [];
      }
      if b == UnknownButton {
        return Silent, [];
      }
      return Listing, [];
    }

    /** The message handler. */
    method HandleMessage(user: int, message: string, w: World) returns (reply: Reply, effects: seq<Effect>)
      requires Valid()
      modifies this
      ensures Valid()
      ensures Current() == MessageStep(chatId, old(Current()), user, message, w).state
      ensures reply == MessageStep(chatId, old(Current()), user, message, w).reply
      ensures effects == MessageStep(chatId, old(Current()), user, message, w).effects
    {
      MessageKeepsValid(chatId, Current(), user, message, w);
      if Decimal(user) != chatId {
        return Silent, [];
      }
      MessageRoutes(chatId, Current(), user, message, w);
      var text := Strip(message);
      if user in pendingAuth {
        reply, effects := ContinueLogin(user, text, w);
        return;
      }
      if user in pendingOps {
        var op := pendingOps[user];
        if op.SelectHosts? {
          reply, effects := ContinueSelection(user, op.hostList, text, w);
        } else {
          reply, effects := ContinueConfirmation(user, op, text, w);
        }
        return;
      }
      if !w.sessionValid {
        return Silent, [];
      }
      reply, effects := RunCommand(user, Classify(text), w);
    }

    /** The token step or the code step of a login. */
    method ContinueLogin(user: int, text: string, w: World) returns (reply: Reply, effects: seq<Effect>)
      requires user in pendingAuth
      modifies this
      ensures Current() == LoginStep(old(Current()), user, old(pendingAuth[user]), text, w).state
      ensures reply == LoginStep(old(Current()), user, old(pendingAuth[user]), text, w).reply
      ensures effects == LoginStep(old(Current()), user, old(pendingAuth[user]), text, w).effects
    {
      if pendingAuth[user] == AwaitingToken {
        var verdict := w.tokenOk(text);
        if verdict == Accept {
          pendingAuth := pendingAuth[user := AwaitingCode];
          return TokenAccepted, [];
        }
        pendingAuth := pendingAuth - {user};
        reply := if verdict == Reject then InvalidToken else Failed;
        effects := [];
      } else {
        var verdict := w.codeOk(text);
        pendingAuth := pendingAuth - {user};
        if verdict == Accept {
          return Authenticated, [StartSession];
        }
        reply := if verdict == Reject then InvalidCode else Failed;
        effects := [];
      }
    }

    /** The selection step of a selective shutdown. */
    method ContinueSelection(user: int, hostList: seq<HostId>, text: string, w: World) returns (reply: Reply, effects: seq<Effect>)
      requires user in pendingOps && pendingOps[user] == SelectHosts(hostList) && AllWellFormed(hostList)
      modifies this
      ensures Current() == OpStep(old(Current()), user, SelectHosts(hostList), text, w).state
      ensures reply == OpStep(old(Current()), user, SelectHosts(hostList), text, w).reply
      ensures effects == OpStep(old(Current()), user, SelectHosts(hostList), text, w).effects
    {
      if hostList == [] {
        pendingOps := pendingOps - {user};
        return NoHostsAvailable, [];
      }
      var selected := ParseSelection(text, hostList);
      if selected == [] {
        return InvalidSelection, [];
      }
      pendingOps := pendingOps[user := ConfirmSelected(selected)];
      return ConfirmSelection(selected), [];
    }

    /** The one-time-code step of every other operation: the operation is dropped
        whatever the code, and runs only when the code is accepted. */
    method ContinueConfirmation(user: int, op: PendingOp, text: string, w: World) returns (reply: Reply, effects: seq<Effect>)
      requires user in pendingOps && pendingOps[user] == op && OpWellFormed(op) && !op.SelectHosts?
      modifies this
      ensures Current() == OpStep(old(Current()), user, op, text, w).state
      ensures reply == OpStep(old(Current()), user, op, text, w).reply
      ensures effects == OpStep(old(Current()), user, op, text, w).effects
    {
      var verdict := w.codeOk(text);
      pendingOps := pendingOps - {user};
      if verdict == Accept {
        reply, effects := Execute(op, w);
      } else {
        reply := if verdict == Reject then InvalidCode else Failed;
        effects := [];
      }
    }

    /** A text command from an identity with a valid session and nothing pending. */
    method RunCommand(user: int, c: Command, w: World) returns (reply: Reply, effects: seq<Effect>)
      modifies this
      ensures Current() == CommandStep(old(Current()), user, c, w).state
      ensures reply == CommandStep(old(Current()), user, c, w).reply
      ensures effects == CommandStep(old(Current()), user, c, w).effects
    {
      match c
      case AddShell(h, u, d) =>
        effects := [ConnectShell(h, u)];
        if w.shellTest(h, u) {
          pendingOps := pendingOps[user := ConfirmAddShell(h, u, d)];
          reply := ConfirmPrompt;
        } else {
          reply := ConnectionFailed;
        }
      case ShellFormatError =>
        reply, effects := FormatHelp, [];
      case AddApi(t, h, k, e, d) =>
        if t !in w.plugins {
          return UnknownType, [];
        }
        effects := [ConnectApi(h, t, k, e)];
        if w.apiTest(h, t, k, e) {
          pendingOps := pendingOps[user := ConfirmAddApi(t, h, k, e, d)];
          reply := ConfirmPrompt;
        } else {
          reply := ConnectionFailed;
        }
      case ApiFormatError =>
        reply, effects := FormatHelp, [];
      case RemoveShell(h, u) =>
        pendingOps := pendingOps[user := ConfirmRemoveShell(h, u)];
        reply, effects := ConfirmPrompt, [];
      case RemoveApi(h) =>
        pendingOps := pendingOps[user := ConfirmRemoveApi(h)];
        reply, effects := ConfirmPrompt, [];
      case NoCommand =>
        reply, effects := Silent, [];
    }
  }
}
