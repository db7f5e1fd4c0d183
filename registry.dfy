/** The host registry as the bot's handlers see it: the rows the database returns,
    the identifiers the selective-shutdown menu gives them, the lookup of an
    identifier against the enabled rows, and the status counters. The database
    itself is not part of this model: its answers reach the handlers as values. */
module Registry {
  import opened Text

  /** A row of the SSH host table; `lastStatus` is "" when the row has none. */
  datatype ShellHost = ShellHost(host: string, user: string, description: string,
                                 enabled: bool, lastStatus: string)

  /** A row of the API host table. */
  datatype ApiHost = ApiHost(host: string, apiType: string, apiKey: string, apiEndpoint: string,
                             description: string, enabled: bool, lastStatus: string)

  /** "ssh:<host>:<user>" or "api:<host>:<api_type>" */
  type HostId = string

  function ShellId(h: ShellHost): HostId {
    "ssh:" + h.host + ":" + h.user
  }

  function ApiId(h: ApiHost): HostId {
    "api:" + h.host + ":" + h.apiType
  }

  /** The enabled-only SSH listing, as a filter of the full table. */
  function EnabledShell(hs: seq<ShellHost>): seq<ShellHost> {
    if hs == [] then []
    else EnabledShell(hs[..|hs| - 1]) + (if hs[|hs| - 1].enabled then [hs[|hs| - 1]] else [])
  }

  /** The enabled-only API listing, as a filter of the full table. */
  function EnabledApi(hs: seq<ApiHost>): seq<ApiHost> {
    if hs == [] then []
    else EnabledApi(hs[..|hs| - 1]) + (if hs[|hs| - 1].enabled then [hs[|hs| - 1]] else [])
  }

  /** A row is listed iff it is in the table and enabled. */
  lemma {:induction false} EnabledShellMembers(hs: seq<ShellHost>)
    ensures forall h :: h in EnabledShell(hs) <==> h in hs && h.enabled
  {
    if hs != [] {
      EnabledShellMembers(hs[..|hs| - 1]);
      assert hs == hs[..|hs| - 1] + [hs[|hs| - 1]];
    }
  }

  lemma {:induction false} EnabledApiMembers(hs: seq<ApiHost>)
    ensures forall h :: h in EnabledApi(hs) <==> h in hs && h.enabled
  {
    if hs != [] {
      EnabledApiMembers(hs[..|hs| - 1]);
      assert hs == hs[..|hs| - 1] + [hs[|hs| - 1]];
    }
  }

  /** The numbered enumeration the selective-shutdown menu shows: the SSH hosts first,
      numbered from 1, then the API hosts continuing the numbering. */
  function HostList(shell: seq<ShellHost>, api: seq<ApiHost>): (ids: seq<HostId>)
    ensures |ids| == |shell| + |api|
  {
    seq(|shell|, i requires 0 <= i < |shell| => ShellId(shell[i]))
      + seq(|api|, j requires 0 <= j < |api| => ApiId(api[j]))
  }

  /** Entry k - 1 of the enumeration is the host the menu printed as number k. */
  lemma HostListNumbering(shell: seq<ShellHost>, api: seq<ApiHost>)
    ensures forall i :: 0 <= i < |shell| ==> HostList(shell, api)[i] == ShellId(shell[i])
    ensures forall j :: 0 <= j < |api| ==> HostList(shell, api)[|shell| + j] == ApiId(api[j])
  {
  }

  /** An identifier as the confirm path cuts it: host_id.split(":", 2). */
  function IdFields(id: HostId): seq<string> {
    SplitN(id, ':', 2)
  }

  /** The cut gives kind, host and discriminator (fewer would raise IndexError). */
  predicate WellFormedId(id: HostId) {
    |IdFields(id)| == 3
  }

  lemma {:induction false} ScanCutsAtSeparator(field: string, s: string, c: char, cuts: nat)
    requires c in s && cuts > 0
    ensures |SplitScan(field, s, c, cuts)| >= 2
    decreases |s|
  {
    if s[0] != c {
      assert c in s[1..];
      ScanCutsAtSeparator(field + [s[0]], s[1..], c, cuts);
    }
  }

  /** Every identifier the menu builds cuts into exactly three fields, whatever its host
      name holds. */
  lemma IdWellFormed(kind: string, host: string, disc: string)
    requires kind == "ssh" || kind == "api"
    ensures WellFormedId(kind + ":" + host + ":" + disc)
  {
    var rest := host + ":" + disc;
    assert kind + ":" + host + ":" + disc == kind + [':'] + rest;
    SplitNField(kind, ':', rest, 2);
    assert rest[|host|] == ':';
    ScanCutsAtSeparator("", rest, ':', 1);
    SplitNParts(rest, ':', 1);
  }

  lemma HostListWellFormed(shell: seq<ShellHost>, api: seq<ApiHost>)
    ensures forall k :: 0 <= k < |HostList(shell, api)| ==> WellFormedId(HostList(shell, api)[k])
  {
    var l := HostList(shell, api);
    HostListNumbering(shell, api);
    forall k | 0 <= k < |l| ensures WellFormedId(l[k]) {
      if k < |shell| {
        IdWellFormed("ssh", shell[k].host, shell[k].user);
        assert l[k] == "ssh" + ":" + shell[k].host + ":" + shell[k].user;
      } else {
        var h := api[k - |shell|];
        IdWellFormed("api", h.host, h.apiType);
        assert l[k] == "api" + ":" + h.host + ":" + h.apiType;
      }
    }
  }

  /** With no colon in the host name, the cut gives back the three fields the
      identifier was built from (a colon in the user or type field is kept). */
  lemma IdFieldsRoundTrip(kind: string, host: string, disc: string)
    requires ':' !in kind && ':' !in host
    ensures IdFields(kind + ":" + host + ":" + disc) == [kind, host, disc]
  {
    assert kind + ":" + host + ":" + disc == kind + [':'] + (host + [':'] + disc);
    SplitNField(kind, ':', host + [':'] + disc, 2);
    SplitNField(host, ':', disc, 1);
    ScanNoCuts("", disc, ':');
    assert "" + disc == disc;
  }

  /** The cut the resolution evidently intends: the kind before the first colon, the
      discriminator (user or API type) after the last one, and the host name between
      them, colons and all. An identifier with fewer than two colons has no cut. */
  function CutId(id: HostId): Option<(string, string, string)> {
    var p := SplitN(id, ':', 1);
    if |p| < 2 then None
    else
      match RSplitOnce(p[1], ':')
      case Some((host, disc)) => Some((p[0], host, disc))
      case None => None
  }

  /** Every identifier the menu builds is cut back into its three fields, whatever the
      host name holds, as long as the user or API type has no colon. */
  lemma CutIdRoundTrip(kind: string, host: string, disc: string)
    requires ':' !in kind && ':' !in disc
    ensures CutId(kind + ":" + host + ":" + disc) == Some((kind, host, disc))
  {
    var rest := host + [':'] + disc;
    assert kind + ":" + host + ":" + disc == kind + [':'] + rest;
    SplitNField(kind, ':', rest, 1);
    ScanNoCuts("", rest, ':');
    assert "" + rest == rest;
    RSplitOnceRoundTrip(host, ':', disc);
  }

  /** A cut identifier is its three fields joined by colons. */
  lemma CutIdJoin(id: HostId)
    requires CutId(id).Some?
    ensures var f := CutId(id).value; id == f.0 + ":" + f.1 + ":" + f.2
  {
    var p := SplitN(id, ':', 1);
    SplitNParts(id, ':', 1);
    SplitNJoin(id, ':', 1);
    assert p == [p[0], p[1]];
    assert Join(p, ':') == p[0] + [':'] + p[1];
    var k := LastIndex(p[1], ':');
    assert p[1] == p[1][..k] + [':'] + p[1][k + 1..];
  }

  /** next((h for h in hosts if h['host'] == host and h['user'] == user), None) */
  function FindShell(hs: seq<ShellHost>, host: string, user: string): (r: Option<ShellHost>)
    ensures r.Some? ==> r.value in hs && r.value.host == host && r.value.user == user
    ensures r.None? <==> forall h :: h in hs ==> !(h.host == host && h.user == user)
  {
    if hs == [] then None
    else if hs[0].host == host && hs[0].user == user then Some(hs[0])
    else FindShell(hs[1..], host, user)
  }

  /** next((h for h in hosts if h['host'] == host and h['api_type'] == apiType), None) */
  function FindApi(hs: seq<ApiHost>, host: string, apiType: string): (r: Option<ApiHost>)
    ensures r.Some? ==> r.value in hs && r.value.host == host && r.value.apiType == apiType
    ensures r.None? <==> forall h :: h in hs ==> !(h.host == host && h.apiType == apiType)
  {
    if hs == [] then None
    else if hs[0].host == host && hs[0].apiType == apiType then Some(hs[0])
    else FindApi(hs[1..], host, apiType)
  }
  /** next() returns the FIRST row that matches. */
  lemma {:induction false} FindShellFirst(hs: seq<ShellHost>, host: string, user: string)
    requires FindShell(hs, host, user).Some?
    ensures exists k :: 0 <= k < |hs| && hs[k] == FindShell(hs, host, user).value
              && forall j :: 0 <= j < k ==> !(hs[j].host == host && hs[j].user == user)
    decreases |hs|
  {
    if hs[0].host == host && hs[0].user == user {
      assert hs[0] == FindShell(hs, host, user).value;
    } else {
      FindShellFirst(hs[1..], host, user);
      var k :| 0 <= k < |hs[1..]| && hs[1..][k] == FindShell(hs[1..], host, user).value
                && forall j :: 0 <= j < k ==> !(hs[1..][j].host == host && hs[1..][j].user == user);
      assert hs[k + 1] == FindShell(hs, host, user).value;
      forall j | 0 <= j < k + 1 ensures !(hs[j].host == host && hs[j].user == user) {
        if j > 0 {
          assert hs[j] == hs[1..][j - 1];
        }
      }
    }
  }

  /** The same for the API lookup. */
  lemma {:induction false} FindApiFirst(hs: seq<ApiHost>, host: string, apiType: string)
    requires FindApi(hs, host, apiType).Some?
    ensures exists k :: 0 <= k < |hs| && hs[k] == FindApi(hs, host, apiType).value
              && forall j :: 0 <= j < k ==> !(hs[j].host == host && hs[j].apiType == apiType)
    decreases |hs|
  {
    if hs[0].host == host && hs[0].apiType == apiType {
      assert hs[0] == FindApi(hs, host, apiType).value;
    } else {
      FindApiFirst(hs[1..], host, apiType);
      var k :| 0 <= k < |hs[1..]| && hs[1..][k] == FindApi(hs[1..], host, apiType).value
                && forall j :: 0 <= j < k ==> !(hs[1..][j].host == host && hs[1..][j].apiType == apiType);
      assert hs[k + 1] == FindApi(hs, host, apiType).value;
      forall j | 0 <= j < k + 1 ensures !(hs[j].host == host && hs[j].apiType == apiType) {
        if j > 0 {
          assert hs[j] == hs[1..][j - 1];
        }
      }
    }
  }


  // ---------------------------------------------------------------------------
  // Status counters

  /** What the counters look at in a row: its enabled flag and whether its last
      status is the string "online" (a missing status is not). */
  datatype Liveness = Liveness(enabled: bool, online: bool)

  function ShellLiveness(hs: seq<ShellHost>): (r: seq<Liveness>)
    ensures |r| == |hs|
  {
    seq(|hs|, i requires 0 <= i < |hs| => Liveness(hs[i].enabled, hs[i].lastStatus == "online"))
  }

  function ApiLiveness(hs: seq<ApiHost>): (r: seq<Liveness>)
    ensures |r| == |hs|
  {
    seq(|hs|, i requires 0 <= i < |hs| => Liveness(hs[i].enabled, hs[i].lastStatus == "online"))
  }

  /** sum(1 for h in hosts if h.get('last_status') == 'online' and h['enabled']) */
  function CountOnline(ls: seq<Liveness>): nat {
    if ls == [] then 0 else (if ls[0].enabled && ls[0].online then 1 else 0) + CountOnline(ls[1..])
  }

  /** sum(1 for h in hosts if h.get('last_status') != 'online' and h['enabled']) */
  function CountOffline(ls: seq<Liveness>): nat {
    if ls == [] then 0 else (if ls[0].enabled && !ls[0].online then 1 else 0) + CountOffline(ls[1..])
  }

  /** sum(1 for h in hosts if not h['enabled']) */
  function CountDisabled(ls: seq<Liveness>): nat {
    if ls == [] then 0 else (if !ls[0].enabled then 1 else 0) + CountDisabled(ls[1..])
  }

  /** sum(1 for h in hosts if h['enabled']) */
  function CountEnabled(ls: seq<Liveness>): nat {
    if ls == [] then 0 else (if ls[0].enabled then 1 else 0) + CountEnabled(ls[1..])
  }

  datatype Counts = Counts(online: nat, offline: nat, disabled: nat)

  /** The three counters of the status panel for one kind of host. */
  function StatusCounts(ls: seq<Liveness>): Counts {
    Counts(CountOnline(ls), CountOffline(ls), CountDisabled(ls))
  }

  /** Every row is counted exactly once: online + offline + disabled is the table size. */
  lemma {:induction false} StatusPartition(ls: seq<Liveness>)
    ensures CountOnline(ls) + CountOffline(ls) + CountDisabled(ls) == |ls|
  {
    if ls != [] {
      StatusPartition(ls[1..]);
    }
  }

  /** The /status command's "online/total" pair: its total counts the enabled rows,
      which are exactly the panel's online plus offline ones. */
  lemma {:induction false} EnabledIsOnlinePlusOffline(ls: seq<Liveness>)
    ensures CountEnabled(ls) == CountOnline(ls) + CountOffline(ls)
    ensures CountOnline(ls) <= CountEnabled(ls) <= |ls|
  {
    if ls != [] {
      EnabledIsOnlinePlusOffline(ls[1..]);
    }
  }
}
