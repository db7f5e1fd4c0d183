/** What the confirmed shutdown operations do with the registry and with the outcome
    lists the power-off layer reports: re-resolving the selected identifiers against
    the enabled hosts, collecting the per-host outcomes in the "ssh" and "api"
    buckets, and tallying the summary line "success/total hosts executed". The
    power-off itself is not part of this model: its outcome lists are inputs. */
module Shutdown {
  import opened Text
  import opened Registry

  /** One entry of a phase's outcome list. */
  datatype Outcome = Outcome(host: string, status: string, details: string)

  /** A status the summary counts as executed; a timeout counts because a host that
      stops answering usually went down. */
  predicate Executed(o: Outcome) {
    o.status == "shutdown_initiated" || o.status == "executed" || o.status == "timeout"
  }

  /** The outcome lists of all phases, one after the other. */
  function Flatten(phases: seq<seq<Outcome>>): seq<Outcome> {
    if phases == [] then [] else Flatten(phases[..|phases| - 1]) + phases[|phases| - 1]
  }

  /** The sum of the lengths of the phase lists. */
  function TotalHosts(phases: seq<seq<Outcome>>): nat {
    if phases == [] then 0 else TotalHosts(phases[..|phases| - 1]) + |phases[|phases| - 1]|
  }

  /** How many outcomes count as executed. */
  function CountExecuted(os: seq<Outcome>): nat {
    if os == [] then 0 else CountExecuted(os[..|os| - 1]) + (if Executed(os[|os| - 1]) then 1 else 0)
  }

  /** The summary line: success_count / total_hosts. */
  datatype Summary = Summary(success: nat, total: nat)

  /** The tally loop over the phases and their outcomes. */
  method Tally(phases: seq<seq<Outcome>>) returns (s: Summary)
    ensures s.total == TotalHosts(phases)
    ensures s.success == CountExecuted(Flatten(phases))
  {
    var success, total := 0, 0;
    var i := 0;
    while i < |phases|
      invariant 0 <= i <= |phases|
      invariant total == TotalHosts(phases[..i])
      invariant success == CountExecuted(Flatten(phases[..i]))
    {
      var hosts := phases[i];
      ghost var before := Flatten(phases[..i]);
      assert before + hosts[..0] == before;
      var j := 0;
      while j < |hosts|
        invariant 0 <= j <= |hosts|
        invariant total == TotalHosts(phases[..i]) + j
        invariant success == CountExecuted(before + hosts[..j])
      {
        CountExecutedStep(before, hosts, j);
        total := total + 1;
        if Executed(hosts[j]) {
          success := success + 1;
        }
        j := j + 1;
      }
      PhasesSnoc(phases, i);
      assert hosts[..|hosts|] == hosts;
      i := i + 1;
    }
    assert phases[..|phases|] == phases;
    s := Summary(success, total);
  }

  lemma CountExecutedStep(before: seq<Outcome>, hosts: seq<Outcome>, j: int)
    requires 0 <= j < |hosts|
    ensures CountExecuted(before + hosts[..j + 1])
         == CountExecuted(before + hosts[..j]) + (if Executed(hosts[j]) then 1 else 0)
  {
    var os := before + hosts[..j + 1];
    assert os[..|os| - 1] == before + hosts[..j];
    assert os[|os| - 1] == hosts[j];
  }

  lemma PhasesSnoc(phases: seq<seq<Outcome>>, i: int)
    requires 0 <= i < |phases|
    ensures Flatten(phases[..i + 1]) == Flatten(phases[..i]) + phases[i]
    ensures TotalHosts(phases[..i + 1]) == TotalHosts(phases[..i]) + |phases[i]|
  {
    assert phases[..i + 1][..i] == phases[..i];
  }

  // ---------------------------------------------------------------------------
  // What the tally means

  /** total_hosts is the number of outcomes reported. */
  lemma {:induction false} TotalIsOutcomes(phases: seq<seq<Outcome>>)
    ensures TotalHosts(phases) == |Flatten(phases)|
    decreases |phases|
  {
    if phases != [] {
      TotalIsOutcomes(phases[..|phases| - 1]);
    }
  }

  /** Every reported outcome is in the flattened list, and nothing else is. */
  lemma {:induction false} FlattenMembers(phases: seq<seq<Outcome>>, o: Outcome)
    ensures o in Flatten(phases) <==> exists i :: 0 <= i < |phases| && o in phases[i]
    decreases |phases|
  {
    if phases != [] {
      var m := |phases| - 1;
      FlattenMembers(phases[..m], o);
      assert Flatten(phases) == Flatten(phases[..m]) + phases[m];
      if exists i :: 0 <= i < m && o in phases[..m][i] {
        var i :| 0 <= i < m && o in phases[..m][i];
        assert o in phases[i];
      }
      if exists i :: 0 <= i < |phases| && o in phases[i] {
        var i :| 0 <= i < |phases| && o in phases[i];
        if i < m {
          assert o in phases[..m][i];
        }
      }
    }
  }

  /** 0 <= success_count <= total_hosts, with equality at the top exactly when every
      outcome counts as executed and at the bottom exactly when none does. */
  lemma {:induction false} CountExecutedBounds(os: seq<Outcome>)
    ensures CountExecuted(os) <= |os|
    ensures CountExecuted(os) == |os| <==> forall k :: 0 <= k < |os| ==> Executed(os[k])
    ensures CountExecuted(os) == 0 <==> forall k :: 0 <= k < |os| ==> !Executed(os[k])
    decreases |os|
  {
    if os != [] {
      var m := |os| - 1;
      CountExecutedBounds(os[..m]);
      assert forall k :: 0 <= k < m ==> os[..m][k] == os[k];
    }
  }

  /** The count over a concatenation is the sum of the counts. */
  lemma {:induction false} CountExecutedAppend(xs: seq<Outcome>, ys: seq<Outcome>)
    ensures CountExecuted(xs + ys) == CountExecuted(xs) + CountExecuted(ys)
    decreases |ys|
  {
    if ys == [] {
      assert xs + ys == xs;
    } else {
      var m := |ys| - 1;
      assert (xs + ys)[..|xs| + m] == xs + ys[..m];
      assert (xs + ys)[|xs| + m] == ys[m];
      CountExecutedAppend(xs, ys[..m]);
    }
  }

  /** The summary's two numbers, as the loop reports them. */
  lemma SummaryBounds(phases: seq<seq<Outcome>>)
    ensures CountExecuted(Flatten(phases)) <= TotalHosts(phases)
  {
    TotalIsOutcomes(phases);
    CountExecutedBounds(Flatten(phases));
  }

  // ---------------------------------------------------------------------------
  // Selective shutdown: re-resolving the selected identifiers

  /** A host a selected identifier resolved to. */
  datatype Target = ShellTarget(shell: ShellHost) | ApiTarget(api: ApiHost)

  function TargetId(t: Target): HostId {
    match t
    case ShellTarget(h) => ShellId(h)
    case ApiTarget(h) => ApiId(h)
  }

  /** The kind, host and discriminator an identifier is cut into, put back together. */
  lemma IdFieldsJoin(id: HostId)
    requires WellFormedId(id)
    ensures id == IdFields(id)[0] + ":" + IdFields(id)[1] + ":" + IdFields(id)[2]
  {
    var f := IdFields(id);
    SplitNJoin(id, ':', 2);
    assert f == [f[0]] + [f[1], f[2]];
    assert Join(f, ':') == f[0] + [':'] + Join(f[1..], ':');
    assert f[1..][1..] == [f[2]];
    assert Join(f[1..], ':') == f[1] + [':'] + f[2];
  }

  lemma ShellIdJoin(h: ShellHost)
    ensures ShellId(h) == "ssh" + ":" + h.host + ":" + h.user
  {
  }

  lemma ApiIdJoin(h: ApiHost)
    ensures ApiId(h) == "api" + ":" + h.host + ":" + h.apiType
  {
  }

  /** One identifier looked up in the enabled rows of its kind: an "ssh" identifier by
      host and user, an "api" identifier by host and API type; the first matching row
      is the target, and an identifier with no match has none. The identifier is first
      cut as the handler cuts it; when that finds no row it is cut again with `CutId`,
      so a host name holding a colon is looked up whole. */
  function ResolveId(id: HostId, shell: seq<ShellHost>, api: seq<ApiHost>): (r: Option<Target>)
    ensures r.Some? ==> TargetId(r.value) == id
    ensures r.Some? && r.value.ShellTarget? ==> r.value.shell in shell && r.value.shell.enabled
    ensures r.Some? && r.value.ApiTarget? ==> r.value.api in api && r.value.api.enabled
  {
    if WellFormedId(id) && ResolveIdAsWritten(id, shell, api).Some? then
      ResolveIdAsWritten(id, shell, api)
    else
      ResolveCut(id, shell, api)
  }

  /** The second cut: the kind before the first colon, the user or API type after the
      last one. */
  function ResolveCut(id: HostId, shell: seq<ShellHost>, api: seq<ApiHost>): (r: Option<Target>)
    ensures r.Some? ==> TargetId(r.value) == id
    ensures r.Some? && r.value.ShellTarget? ==> r.value.shell in shell && r.value.shell.enabled
    ensures r.Some? && r.value.ApiTarget? ==> r.value.api in api && r.value.api.enabled
  {
    match CutId(id)
    case None => None
    case Some((kind, host, disc)) =>
      CutIdJoin(id);
      EnabledShellMembers(shell);
      EnabledApiMembers(api);
      if kind == "ssh" then
        match FindShell(EnabledShell(shell), host, disc)
        case Some(h) => ShellIdJoin(h); Some(ShellTarget(h))
        case None => None
      else if kind == "api" then
        match FindApi(EnabledApi(api), host, disc)
        case Some(h) => ApiIdJoin(h); Some(ApiTarget(h))
        case None => None
      else
        None
  }

  /** The lookup as the handler writes it: the identifier is cut with `split(":", 2)`,
      so everything after the second colon is taken for the user or API type. */
  function ResolveIdAsWritten(id: HostId, shell: seq<ShellHost>, api: seq<ApiHost>): (r: Option<Target>)
    requires WellFormedId(id)
    ensures r.Some? ==> TargetId(r.value) == id
    ensures r.Some? && r.value.ShellTarget? ==> r.value.shell in shell && r.value.shell.enabled
    ensures r.Some? && r.value.ApiTarget? ==> r.value.api in api && r.value.api.enabled
  {
    var f := IdFields(id);
    IdFieldsJoin(id);
    EnabledShellMembers(shell);
    EnabledApiMembers(api);
    if f[0] == "ssh" then
      match FindShell(EnabledShell(shell), f[1], f[2])
      case Some(h) => ShellIdJoin(h); Some(ShellTarget(h))
      case None => None
    else if f[0] == "api" then
      match FindApi(EnabledApi(api), f[1], f[2])
      case Some(h) => ApiIdJoin(h); Some(ApiTarget(h))
      case None => None
    else
      None
  }

  /** Every identifier the handler's own cut resolves is resolved to the same target,
      and an identifier left unresolved is one that neither cut finds. */
  lemma ResolveIdExtendsAsWritten(id: HostId, shell: seq<ShellHost>, api: seq<ApiHost>)
    ensures WellFormedId(id) && ResolveIdAsWritten(id, shell, api).Some? ==>
              ResolveId(id, shell, api) == ResolveIdAsWritten(id, shell, api)
    ensures ResolveId(id, shell, api).None? ==>
              ResolveCut(id, shell, api).None? && (WellFormedId(id) ==> ResolveIdAsWritten(id, shell, api).None?)
  {
  }

  predicate AllWellFormed(ids: seq<HostId>) {
    forall k :: 0 <= k < |ids| ==> WellFormedId(ids[k])
  }

  /** The targets of the selected identifiers, in order; an identifier that resolves to
      nothing is skipped. */
  function Targets(ids: seq<HostId>, shell: seq<ShellHost>, api: seq<ApiHost>): (ts: seq<Target>)
    ensures |ts| <= |ids|
  {
    if ids == [] then []
    else
      var m := |ids| - 1;
      Targets(ids[..m], shell, api)
        + match ResolveId(ids[m], shell, api) case Some(t) => [t] case None => []
  }

  /** The "ssh" bucket: the outcome lists of the SSH targets, in order. */
  function ShellRuns(ts: seq<Target>, execShell: ShellHost -> seq<Outcome>): seq<Outcome> {
    if ts == [] then []
    else
      var m := |ts| - 1;
      ShellRuns(ts[..m], execShell) + if ts[m].ShellTarget? then execShell(ts[m].shell) else []
  }

  /** The "api" bucket: the outcome lists of the API targets, in order. */
  function ApiRuns(ts: seq<Target>, execApi: ApiHost -> seq<Outcome>): seq<Outcome> {
    if ts == [] then []
    else
      var m := |ts| - 1;
      ApiRuns(ts[..m], execApi) + if ts[m].ApiTarget? then execApi(ts[m].api) else []
  }

  /** The loop over the selected identifiers: each one is resolved and, when it names
      an enabled host, that host alone is shut down and its outcomes join its bucket. */
  method RunSelected(ids: seq<HostId>, shell: seq<ShellHost>, api: seq<ApiHost>,
                     execShell: ShellHost -> seq<Outcome>, execApi: ApiHost -> seq<Outcome>)
    returns (shutDown: seq<Target>, sshResults: seq<Outcome>, apiResults: seq<Outcome>)
    ensures shutDown == Targets(ids, shell, api)
    ensures sshResults == ShellRuns(Targets(ids, shell, api), execShell)
    ensures apiResults == ApiRuns(Targets(ids, shell, api), execApi)
  {
    shutDown, sshResults, apiResults := [], [], [];
    var i := 0;
    while i < |ids|
      invariant 0 <= i <= |ids|
      invariant shutDown == Targets(ids[..i], shell, api)
      invariant sshResults == ShellRuns(Targets(ids[..i], shell, api), execShell)
      invariant apiResults == ApiRuns(Targets(ids[..i], shell, api), execApi)
    {
      assert ids[..i + 1][..i] == ids[..i];
      var target := ResolveId(ids[i], shell, api);
      match target {
        case Some(ShellTarget(h)) =>
          shutDown := shutDown + [target.value];
          sshResults := sshResults + execShell(h);
        case Some(ApiTarget(h)) =>
          shutDown := shutDown + [target.value];
          apiResults := apiResults + execApi(h);
        case None =>
      }
      i := i + 1;
      RunsSnoc(Targets(ids[..i - 1], shell, api), target, execShell, execApi);
    }
    assert ids[..|ids|] == ids;
  }

  lemma RunsSnoc(ts: seq<Target>, t: Option<Target>,
                 execShell: ShellHost -> seq<Outcome>, execApi: ApiHost -> seq<Outcome>)
    ensures ShellRuns(ts + (match t case Some(x) => [x] case None => []), execShell)
         == ShellRuns(ts, execShell) + (if t.Some? && t.value.ShellTarget? then execShell(t.value.shell) else [])
    ensures ApiRuns(ts + (match t case Some(x) => [x] case None => []), execApi)
         == ApiRuns(ts, execApi) + (if t.Some? && t.value.ApiTarget? then execApi(t.value.api) else [])
  {
    if t.Some? {
      assert (ts + [t.value])[..|ts|] == ts;
    } else {
      assert ts + [] == ts;
    }
  }

  // ---------------------------------------------------------------------------
  // What resolution guarantees

  /** Only selected, enabled, registered hosts are ever shut down. */
  lemma TargetsSelected(ids: seq<HostId>, shell: seq<ShellHost>, api: seq<ApiHost>)
    ensures forall t :: t in Targets(ids, shell, api) ==> TargetId(t) in ids
    ensures forall t :: t in Targets(ids, shell, api) && t.ShellTarget? ==> t.shell in shell && t.shell.enabled
    ensures forall t :: t in Targets(ids, shell, api) && t.ApiTarget? ==> t.api in api && t.api.enabled
  {
    forall t | t in Targets(ids, shell, api) {
      TargetSelected(ids, shell, api, t);
    }
  }

  /** One target of the selection: it carries a selected identifier and is an enabled
      row of its table. */
  lemma {:induction false} TargetSelected(ids: seq<HostId>, shell: seq<ShellHost>, api: seq<ApiHost>, t: Target)
    requires t in Targets(ids, shell, api)
    ensures TargetId(t) in ids
    ensures t.ShellTarget? ==> t.shell in shell && t.shell.enabled
    ensures t.ApiTarget? ==> t.api in api && t.api.enabled
    decreases |ids|
  {
    var m := |ids| - 1;
    var r := ResolveId(ids[m], shell, api);
    var last := match r case Some(x) => [x] case None => [];
    assert Targets(ids, shell, api) == Targets(ids[..m], shell, api) + last;
    if t in Targets(ids[..m], shell, api) {
      TargetSelected(ids[..m], shell, api, t);
      assert ids[..m] <= ids;
    } else {
      assert t == r.value;
    }
  }

  /** An enabled SSH host is found again from its identifier (as the first enabled row
      with its host and user, or another row with the same identifier), whenever its
      host name or its user name has no colon. */
  lemma ResolveShell(h: ShellHost, shell: seq<ShellHost>, api: seq<ApiHost>)
    requires h in shell && h.enabled && (':' !in h.host || ':' !in h.user)
    ensures ResolveId(ShellId(h), shell, api).Some?
    ensures TargetId(ResolveId(ShellId(h), shell, api).value) == ShellId(h)
  {
    ShellIdJoin(h);
    EnabledShellMembers(shell);
    assert h in EnabledShell(shell);
    if ':' !in h.host {
      IdWellFormed("ssh", h.host, h.user);
      IdFieldsRoundTrip("ssh", h.host, h.user);
      assert ResolveIdAsWritten(ShellId(h), shell, api).Some?;
    } else {
      CutIdRoundTrip("ssh", h.host, h.user);
      assert ResolveCut(ShellId(h), shell, api).Some?;
    }
  }

  /** The same for an enabled API host whose address or API type has no colon: an
      address with a port, such as "10.0.0.1:8006", is found again. */
  lemma ResolveApi(h: ApiHost, shell: seq<ShellHost>, api: seq<ApiHost>)
    requires h in api && h.enabled && (':' !in h.host || ':' !in h.apiType)
    ensures ResolveId(ApiId(h), shell, api).Some?
    ensures TargetId(ResolveId(ApiId(h), shell, api).value) == ApiId(h)
  {
    ApiIdJoin(h);
    EnabledApiMembers(api);
    assert h in EnabledApi(api);
    if ':' !in h.host {
      IdWellFormed("api", h.host, h.apiType);
      IdFieldsRoundTrip("api", h.host, h.apiType);
      assert ResolveIdAsWritten(ApiId(h), shell, api).Some?;
    } else {
      CutIdRoundTrip("api", h.host, h.apiType);
      assert ResolveCut(ApiId(h), shell, api).Some?;
    }
  }

  /** A host that has been disabled or deleted since the menu was shown contributes
      nothing: its identifier resolves to no target. */
  lemma ResolveGone(id: HostId, shell: seq<ShellHost>, api: seq<ApiHost>)
    requires forall h :: h in shell && h.enabled ==> ShellId(h) != id
    requires forall h :: h in api && h.enabled ==> ApiId(h) != id
    ensures ResolveId(id, shell, api) == None
    ensures Targets([id], shell, api) == []
  {
    assert [id][..0] == [];
  }

  /** As written, the identifier is cut at its first two colons, so an API host whose
      address holds a colon (a port) is looked up under the part before it and is never
      the target, whatever the tables hold. */
  lemma PortInApiHostUnresolved(h: ApiHost, shell: seq<ShellHost>, api: seq<ApiHost>)
    requires ':' in h.host
    ensures WellFormedId(ApiId(h))
    ensures ResolveIdAsWritten(ApiId(h), shell, api) != Some(ApiTarget(h))
  {
    IdWellFormed("api", h.host, h.apiType);
    assert ApiId(h) == "api" + ":" + h.host + ":" + h.apiType;
    SplitNParts(ApiId(h), ':', 2);
    assert ':' !in IdFields(ApiId(h))[1];
  }

  /** The same holds for an SSH host whose name holds a colon, such as an IPv6 address. */
  lemma ColonInShellHostUnresolved(h: ShellHost, shell: seq<ShellHost>, api: seq<ApiHost>)
    requires ':' in h.host
    ensures WellFormedId(ShellId(h))
    ensures ResolveIdAsWritten(ShellId(h), shell, api) != Some(ShellTarget(h))
  {
    IdWellFormed("ssh", h.host, h.user);
    assert ShellId(h) == "ssh" + ":" + h.host + ":" + h.user;
    SplitNParts(ShellId(h), ':', 2);
    assert ':' !in IdFields(ShellId(h))[1];
  }
}
