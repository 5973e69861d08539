/** The attack graph of the SHIELD trust model (`SHIELD/src/attack_graph.py`):
    the privileges a vulnerability requires and yields, its risk scores,
    the vulnerabilities of a host, the edge rules of the graph, the risk of
    an attack path, and the per-client summary of the found paths.
    The network description (devices, reachability edges, vulnerability
    records) is passed in; reading it from a file and the shortest-path
    search are not modelled.
 */
module AttackGraph {
  import opened Basics
  import opened Text

  // ---------------------------------------------------------------------
  // Privileges.

  /** The privilege levels that label the privilege nodes of the graph. */
  datatype Privilege = NoPrivilege | User | Root

  /** The label the graph uses for a privilege. */
  function Name(p: Privilege): string
  {
    match p
    case NoPrivilege => "NONE"
    case User => "USER"
    case Root => "ROOT"
  }

  /** How much a privilege allows: ROOT above USER above NONE. */
  function Rank(p: Privilege): nat
  {
    match p
    case NoPrivilege => 0
    case User => 1
    case Root => 2
  }

  /** `get_req_privilege`: the privilege an attacker needs, read from the
      CVSS v2 `authentication` or the CVSS v3 `privilegesRequired` level. */
  function ReqPrivilege(level: string): (r: Privilege)
    ensures r == NoPrivilege <==> level == "NONE" || level == "LOW"
    ensures r == User <==> level == "SINGLE" || level == "MEDIUM"
  {
    if level == "NONE" || level == "LOW" then NoPrivilege
    else if level == "SINGLE" || level == "MEDIUM" then User
    else Root
  }

  /** A flag of a metric record as the graph reads it: the CVSS v2
      `obtain…Privilege` booleans, or the CVSS v3 `scope` text. */
  datatype Flag = FlagBool(b: bool) | FlagText(t: string)

  /** `get_gain_privilege`. The CVSS v3 caller passes the scope twice, the
      CVSS v2 caller passes the two `obtain…Privilege` booleans. */
  function GainPrivilege(isroot: Flag, isuser: Flag, level: string): (r: Privilege)
    ensures isroot.FlagText? && isuser == isroot ==>
              r == (if isroot.t == "UNCHANGED" then ReqPrivilege(level) else Root)
    ensures isroot.FlagBool? && isuser.FlagBool? ==>
              r == (if isroot.b then Root else if isuser.b then User else Root)
    ensures isroot.FlagText? && isuser == isroot ==> Rank(r) >= Rank(ReqPrivilege(level))
  {
    if isroot == FlagText("UNCHANGED") && isuser == FlagText("UNCHANGED") then ReqPrivilege(level)
    else if isroot == FlagBool(true) then Root
    else if isuser == FlagBool(true) then User
    else Root
  }

  // ---------------------------------------------------------------------
  // Vulnerability records and their scores.

  /** The first CVSS v2 metric of a record. */
  datatype MetricV2 = MetricV2(exploitability: real, impact: real, authentication: string,
                               obtainAll: bool, obtainUser: bool)

  /** The first CVSS v3.0 or v3.1 metric of a record. */
  datatype MetricV3 = MetricV3(exploitability: real, impact: real, privilegesRequired: string, scope: string)

  /** A vulnerability record; a metric list is `None` when its key is absent. */
  datatype Vuln = Vuln(id: string, v2: Option<seq<MetricV2>>, v30: Option<seq<MetricV3>>, v31: Option<seq<MetricV3>>)

  /** The CVSS v3 metrics of a record: v3.0 when present, else v3.1. */
  function V3(v: Vuln): Option<seq<MetricV3>>
  {
    if v.v30.Some? then v.v30 else v.v31
  }

  /** `list[0]`. */
  function First<T>(list: seq<T>): (r: Result<T>)
    ensures r.Ok? <==> |list| > 0
    ensures r.Ok? ==> r.value == list[0]
    ensures r.Raise? ==> r.error == IndexError
  {
    if |list| == 0 then Raise(IndexError) else Ok(list[0])
  }

  /** `get_risk_by_vuln`: (exploitability, impact) of a record. */
  function RiskByVuln(v: Vuln): (r: Result<(real, real)>)
    ensures r.Raise? <==> (v.v2.Some? && |v.v2.value| == 0) || (V3(v).Some? && |V3(v).value| == 0)
    ensures r.Raise? ==> r.error == IndexError
    ensures r.Ok? && v.v30.Some? ==>
              r.value == (v.v30.value[0].exploitability, v.v30.value[0].impact)
    ensures r.Ok? && v.v30.None? && v.v31.Some? ==>
              r.value == (v.v31.value[0].exploitability, v.v31.value[0].impact)
    ensures r.Ok? && v.v30.None? && v.v31.None? && v.v2.Some? ==>
              r.value == (v.v2.value[0].exploitability, v.v2.value[0].impact)
    ensures v.v2.None? && v.v30.None? && v.v31.None? ==> r == Ok((1.0, 1.0))
  {
    var base :- if v.v2.Some? then
                  (var m :- First(v.v2.value); Ok((m.exploitability, m.impact)))
                else Ok((1.0, 1.0));
    match V3(v)
    case None => Ok(base)
    case Some(list) =>
      var m :- First(list);
      Ok((m.exploitability, m.impact))
  }

  /** The (required, gained) privileges of one record, as `retrieve_privileges`
      reads them once it has found the record. */
  function PrivilegesOf(v: Vuln): (r: Result<(Privilege, Privilege)>)
    ensures r.Raise? <==> (v.v2.Some? && |v.v2.value| == 0) || (v.v2.None? && V3(v).Some? && |V3(v).value| == 0)
    ensures r.Raise? ==> r.error == IndexError
    ensures r.Ok? && v.v2.Some? ==>
              var m := v.v2.value[0];
              r.value == (ReqPrivilege(m.authentication), if m.obtainAll then Root else if m.obtainUser then User else Root)
    ensures r.Ok? && v.v2.None? && V3(v).Some? ==>
              var m := V3(v).value[0];
              r.value == (ReqPrivilege(m.privilegesRequired), if m.scope == "UNCHANGED" then ReqPrivilege(m.privilegesRequired) else Root)
              && Rank(r.value.1) >= Rank(r.value.0)
    ensures v.v2.None? && V3(v).None? ==> r == Ok((NoPrivilege, NoPrivilege))
  {
    if v.v2.Some? then
      var m :- First(v.v2.value);
      Ok((ReqPrivilege(m.authentication), GainPrivilege(FlagBool(m.obtainAll), FlagBool(m.obtainUser), m.authentication)))
    else if V3(v).Some? then
      var m :- First(V3(v).value);
      Ok((ReqPrivilege(m.privilegesRequired), GainPrivilege(FlagText(m.scope), FlagText(m.scope), m.privilegesRequired)))
    else Ok((NoPrivilege, NoPrivilege))
  }

  /** `retrieve_privileges`: the privileges of the first record with the id;
      without one the function returns `None`, whose unpacking raises. */
  function RetrievePrivileges(vid: string, vulns: seq<Vuln>): (r: Result<(Privilege, Privilege)>)
    ensures r == Raise(TypeError) <==> forall i :: 0 <= i < |vulns| ==> vulns[i].id != vid
    ensures forall i :: 0 <= i < |vulns| && vulns[i].id == vid && (forall j :: 0 <= j < i ==> vulns[j].id != vid) ==>
              r == PrivilegesOf(vulns[i])
  {
    if |vulns| == 0 then Raise(TypeError)
    else if vulns[0].id == vid then PrivilegesOf(vulns[0])
    else
      var r := RetrievePrivileges(vid, vulns[1..]);
      assert forall i :: 1 <= i < |vulns| ==> vulns[i] == vulns[1..][i - 1];
      r
  }

  /** A record with both CVSS v2 and v3 metrics is scored by its v3 metric
      but takes its privileges from its v2 metric. */
  lemma VersionsDisagree(v: Vuln, m2: MetricV2, m3: MetricV3)
    requires v.v2 == Some([m2]) && v.v30 == Some([m3])
    ensures RiskByVuln(v) == Ok((m3.exploitability, m3.impact))
    ensures PrivilegesOf(v).Ok? && PrivilegesOf(v).value.0 == ReqPrivilege(m2.authentication)
  {
  }

  // ---------------------------------------------------------------------
  // Devices and the vulnerabilities of a host.

  datatype Service = Service(cves: seq<string>)
  datatype Port = Port(services: seq<Service>)
  datatype App = App(cves: seq<string>)

  /** A network interface; `ports` and `applications` are `None` when the
      key is absent. */
  datatype Iface = Iface(ports: Option<seq<Port>>, applications: Option<seq<App>>)

  datatype Device = Device(id: string, community: string, ifaces: seq<Iface>)

  /** No element occurs twice. */
  predicate Distinct<T(==)>(xs: seq<T>)
  {
    forall i, j :: 0 <= i < j < |xs| ==> xs[i] != xs[j]
  }

  function ServiceLists(services: seq<Service>): seq<seq<string>>
  {
    if |services| == 0 then [] else [services[0].cves] + ServiceLists(services[1..])
  }

  function PortLists(ports: seq<Port>): seq<seq<string>>
  {
    if |ports| == 0 then [] else ServiceLists(ports[0].services) + PortLists(ports[1..])
  }

  function AppLists(apps: seq<App>): seq<seq<string>>
  {
    if |apps| == 0 then [] else [apps[0].cves] + AppLists(apps[1..])
  }

  /** The CVE lists of an interface: its services', then its applications'. */
  function IfaceLists(iface: Iface): seq<seq<string>>
  {
    (if iface.ports.Some? then PortLists(iface.ports.value) else [])
    + (if iface.applications.Some? then AppLists(iface.applications.value) else [])
  }

  function HostLists(ifaces: seq<Iface>): seq<seq<string>>
  {
    if |ifaces| == 0 then [] else IfaceLists(ifaces[0]) + HostLists(ifaces[1..])
  }

  /** Every CVE id listed anywhere on a device, with repetitions. */
  function HostCves(d: Device): seq<string>
  {
    Flatten(HostLists(d.ifaces))
  }

  /** The elements of `xs` not already in `seen`, each once, in order of first
      occurrence. */
  function DedupFrom(seen: seq<string>, xs: seq<string>): (r: seq<string>)
    requires Distinct(seen)
    ensures Distinct(r)
    ensures forall x :: x in r <==> x in seen || x in xs
    decreases |xs|
  {
    if |xs| == 0 then seen
    else if xs[0] in seen then DedupFrom(seen, xs[1..])
    else DedupFrom(seen + [xs[0]], xs[1..])
  }

  /** `list(set(xs))`, in order of first occurrence. */
  function Dedup(xs: seq<string>): (r: seq<string>)
    ensures Distinct(r)
    ensures forall x :: x in r <==> x in xs
  {
    DedupFrom([], xs)
  }

  /** `get_vulns_by_hostid`: the CVE ids of the first device with the id,
      each once; an unknown host has none. */
  function VulnsOf(devid: string, devices: seq<Device>): (r: seq<string>)
    ensures Distinct(r)
    ensures (forall i :: 0 <= i < |devices| ==> devices[i].id != devid) ==> r == []
    ensures forall i :: 0 <= i < |devices| && devices[i].id == devid && (forall j :: 0 <= j < i ==> devices[j].id != devid) ==>
              (forall x :: x in r <==> x in HostCves(devices[i]))
  {
    if |devices| == 0 then []
    else if devices[0].id == devid then Dedup(HostCves(devices[0]))
    else
      var r := VulnsOf(devid, devices[1..]);
      assert forall i :: 1 <= i < |devices| ==> devices[i] == devices[1..][i - 1];
      r
  }

  // ---------------------------------------------------------------------
  // The graph.

  /** A directed graph; nodes are labels `PRIV@host` and `CVE@host`. */
  datatype Graph = Graph(nodes: set<string>, edges: set<(string, string)>)

  /** The privilege node of a host. */
  function Node(p: Privilege, host: string): string
  {
    Name(p) + "@" + host
  }

  /** The node of a vulnerability on a host. */
  function VulnNode(v: string, host: string): string
  {
    v + "@" + host
  }

  /** `a` and `b` are joined by an edge in one direction or the other. */
  predicate Linked(edges: set<(string, string)>, a: string, b: string)
  {
    (a, b) in edges || (b, a) in edges
  }

  /** The exploit chain of a vulnerability `v` of `dst` reached from `src`:
      required privilege on `src`, then the vulnerability, then the gained
      privilege on `dst`, each step in one direction or the other. */
  predicate Chained(edges: set<(string, string)>, src: string, dst: string, v: string, pp: (Privilege, Privilege))
  {
    Linked(edges, Node(pp.0, src), VulnNode(v, dst)) && Linked(edges, VulnNode(v, dst), Node(pp.1, dst))
  }

  /** Adds the edge from `a` to `b` unless it or its reverse is present. */
  function AddEdge(edges: set<(string, string)>, a: string, b: string): (r: set<(string, string)>)
    ensures edges <= r && Linked(r, a, b)
    ensures (b, a) in edges ==> r == edges
    ensures r - edges <= {(a, b)}
  {
    if (a, b) in edges || (b, a) in edges then edges else edges + {(a, b)}
  }

  /** One pass of the exploit loop of `generate_ag_model`. */
  function AddExploit(g: Graph, src: string, dst: string, v: string, pp: (Privilege, Privilege)): (r: Graph)
    ensures g.edges <= r.edges && g.nodes <= r.nodes
    ensures Chained(r.edges, src, dst, v, pp)
    ensures forall e :: e in r.edges && e !in g.edges ==>
              e == (Node(pp.0, src), VulnNode(v, dst)) || e == (VulnNode(v, dst), Node(pp.1, dst))
  {
    var req := Node(pp.0, src);
    var gain := Node(pp.1, dst);
    var vid := VulnNode(v, dst);
    var once := AddEdge(g.edges, req, vid);
    Graph(g.nodes + {req, gain, vid}, AddEdge(once, vid, gain))
  }

  /** Every vulnerability in `vs` has a record. */
  predicate Retrievable(vs: seq<string>, vulns: seq<Vuln>)
  {
    forall v :: v in vs ==> RetrievePrivileges(v, vulns).Ok?
  }

  /** Every vulnerability in `vs` has its exploit chain from `src` to `dst`. */
  predicate AllChained(edges: set<(string, string)>, src: string, dst: string, vs: seq<string>, vulns: seq<Vuln>)
    requires Retrievable(vs, vulns)
  {
    forall v :: v in vs ==> Chained(edges, src, dst, v, RetrievePrivileges(v, vulns).value)
  }

  /** The exploit loop over the vulnerabilities `vs` of `dst`. */
  function ExploitVulns(g: Graph, src: string, dst: string, vs: seq<string>, vulns: seq<Vuln>): (r: Result<Graph>)
    ensures r.Ok? <==> Retrievable(vs, vulns)
    ensures r.Ok? ==> g.edges <= r.value.edges && g.nodes <= r.value.nodes
    ensures r.Ok? ==> AllChained(r.value.edges, src, dst, vs, vulns)
    decreases |vs|
  {
    if |vs| == 0 then Ok(g)
    else
      assert forall v :: v in vs <==> v == vs[0] || v in vs[1..] by {
        assert vs == [vs[0]] + vs[1..];
      }
      var pp :- RetrievePrivileges(vs[0], vulns);
      ExploitVulns(AddExploit(g, src, dst, vs[0], pp), src, dst, vs[1..], vulns)
  }

  /** The exploit loop over the reachability edges. */
  function ExploitAll(g: Graph, reach: seq<(string, string)>, devices: seq<Device>, vulns: seq<Vuln>): (r: Result<Graph>)
    ensures r.Ok? <==> forall i :: 0 <= i < |reach| ==> Retrievable(VulnsOf(reach[i].1, devices), vulns)
    ensures r.Ok? ==> g.edges <= r.value.edges && g.nodes <= r.value.nodes
    ensures r.Ok? ==> forall i :: 0 <= i < |reach| ==>
              AllChained(r.value.edges, reach[i].0, reach[i].1, VulnsOf(reach[i].1, devices), vulns)
    decreases |reach|
  {
    if |reach| == 0 then Ok(g)
    else
      var g1 :- ExploitVulns(g, reach[0].0, reach[0].1, VulnsOf(reach[0].1, devices), vulns);
      assert forall i :: 1 <= i < |reach| ==> reach[i] == reach[1..][i - 1];
      ExploitAll(g1, reach[1..], devices, vulns)
  }

  /** The three privilege-descent rules: ROOT to USER, USER to NONE and
      ROOT to NONE. */
  predicate Descends(a: string, b: string)
  {
    (a == "ROOT" && b == "USER") || (a == "USER" && b == "NONE") || (a == "ROOT" && b == "NONE")
  }

  /** `node.split("@")` can be unpacked into two names. */
  predicate SplitsInTwo(n: string)
  {
    '@' !in n || |Split(n, '@')| == 2
  }

  /** An edge the descent loop adds: two distinct nodes of the same host
      whose labels descend. */
  predicate DescentEdge(e: (string, string))
  {
    var (a, b) := e;
    && a != b && '@' in a && '@' in b
    && |Split(a, '@')| == 2 && |Split(b, '@')| == 2
    && Split(a, '@')[1] == Split(b, '@')[1]
    && Descends(Split(a, '@')[0], Split(b, '@')[0])
  }

  /** The descent loop of `generate_ag_model`: a node with more than one
      `@` cannot be unpacked and raises. */
  function Descend(g: Graph): (r: Result<Graph>)
    ensures r.Raise? <==> exists n :: n in g.nodes && !SplitsInTwo(n)
    ensures r.Raise? ==> r.error == ValueError
    ensures r.Ok? ==> r.value.nodes == g.nodes && g.edges <= r.value.edges
    ensures r.Ok? ==> forall e :: e in r.value.edges && e !in g.edges ==> DescentEdge(e)
    ensures r.Ok? ==> forall a, b :: a in g.nodes && b in g.nodes && DescentEdge((a, b)) ==> (a, b) in r.value.edges
  {
    if exists n :: n in g.nodes && !SplitsInTwo(n) then Raise(ValueError)
    else Ok(Graph(g.nodes, g.edges + set a, b | a in g.nodes && b in g.nodes && DescentEdge((a, b)) :: (a, b)))
  }

  /** A privilege node splits into its label and its host. */
  lemma NodeSplits(p: Privilege, host: string)
    requires '@' !in host
    ensures Split(Node(p, host), '@') == [Name(p), host]
  {
    SplitCons(Name(p), '@', host);
    SplitNoSep(host, '@');
  }

  /** Between privilege nodes, the descent rules join exactly the nodes of
      one host whose privilege is stronger to those whose privilege is
      weaker. */
  lemma DescentEdgeRanks(p: Privilege, q: Privilege, h1: string, h2: string)
    requires '@' !in h1 && '@' !in h2
    ensures DescentEdge((Node(p, h1), Node(q, h2))) <==> h1 == h2 && Rank(p) > Rank(q)
  {
    NodeSplits(p, h1);
    NodeSplits(q, h2);
    assert '@' in Node(p, h1) && '@' in Node(q, h2) by {
      assert Node(p, h1)[|Name(p)|] == '@';
      assert Node(q, h2)[|Name(q)|] == '@';
    }
  }

  /** `generate_ag_model` without the file reading: the exploit loop, then
      the descent loop. */
  function BuildGraph(reach: seq<(string, string)>, devices: seq<Device>, vulns: seq<Vuln>): (r: Result<Graph>)
    ensures r.Ok? ==> forall i :: 0 <= i < |reach| ==>
              Retrievable(VulnsOf(reach[i].1, devices), vulns) &&
              AllChained(r.value.edges, reach[i].0, reach[i].1, VulnsOf(reach[i].1, devices), vulns)
    ensures (exists i :: 0 <= i < |reach| && !Retrievable(VulnsOf(reach[i].1, devices), vulns)) ==> r.Raise?
  {
    var g :- ExploitAll(Graph({}, {}), reach, devices, vulns);
    var r := Descend(g);
    assert r.Ok? ==> forall i :: 0 <= i < |reach| ==>
             AllChained(r.value.edges, reach[i].0, reach[i].1, VulnsOf(reach[i].1, devices), vulns);
    r
  }

  /** Every privilege node of the built graph has edges to the weaker
      privilege nodes of its own host and to no other privilege node. */
  lemma BuiltGraphDescends(reach: seq<(string, string)>, devices: seq<Device>, vulns: seq<Vuln>,
                           p: Privilege, q: Privilege, h: string)
    requires BuildGraph(reach, devices, vulns).Ok?
    requires '@' !in h && Rank(p) > Rank(q)
    requires Node(p, h) in BuildGraph(reach, devices, vulns).value.nodes
    requires Node(q, h) in BuildGraph(reach, devices, vulns).value.nodes
    ensures (Node(p, h), Node(q, h)) in BuildGraph(reach, devices, vulns).value.edges
  {
    var g := ExploitAll(Graph({}, {}), reach, devices, vulns).value;
    DescentEdgeRanks(p, q, h, h);
    assert Descend(g).value.nodes == g.nodes;
  }

  // ---------------------------------------------------------------------
  // The risk of an attack path.

  /** The three numbers `compute_risk_analysis` returns. */
  datatype Risk = Risk(impact: real, likelihood: real, risk: real)

  /** The risk is the impact times the likelihood. */
  predicate IsProduct(v: Risk)
  {
    v.risk == v.impact * v.likelihood
  }

  /** Whether `compute_risk_analysis` scores a record for a path step:
      `v_gt["id"] in v_curr`, a substring test. */
  predicate Scored(step: string, v: Vuln)
  {
    Contains(step, v.id)
  }

  /** The records the inner loop scores for one step, in list order. */
  function Matched(step: string, vulns: seq<Vuln>): seq<Vuln>
  {
    if |vulns| == 0 then []
    else (if Scored(step, vulns[0]) then [vulns[0]] else []) + Matched(step, vulns[1..])
  }

  /** A step's matches are exactly the records it names. */
  lemma {:induction false} MatchedMembers(step: string, vulns: seq<Vuln>)
    ensures forall v :: v in Matched(step, vulns) <==> v in vulns && Scored(step, v)
  {
    if |vulns| > 0 {
      MatchedMembers(step, vulns[1..]);
      assert forall v :: v in vulns <==> v == vulns[0] || v in vulns[1..];
    }
  }

  /** The records scored along a whole path: the steps' matches, step by
      step, each in list order, as the two nested loops visit them. */
  function PathMatched(ids: seq<string>, vulns: seq<Vuln>): seq<Vuln>
  {
    if |ids| == 0 then []
    else Matched(ids[0], vulns) + PathMatched(ids[1..], vulns)
  }

  /** A path's matches are exactly the records some step names. */
  lemma {:induction false} PathMatchedMembers(ids: seq<string>, vulns: seq<Vuln>)
    ensures forall v :: v in PathMatched(ids, vulns) <==> v in vulns && exists i :: 0 <= i < |ids| && Scored(ids[i], v)
  {
    if |ids| > 0 {
      MatchedMembers(ids[0], vulns);
      PathMatchedMembers(ids[1..], vulns);
      assert forall i :: 1 <= i < |ids| ==> ids[i] == ids[1..][i - 1];
    }
  }

  /** The scores of a list of records, one pair per record in order;
      an unreadable record fails the whole list. */
  function ScoresOf(vs: seq<Vuln>): (r: Result<seq<(real, real)>>)
    ensures r.Raise? ==> r.error == IndexError
  {
    if |vs| == 0 then Ok([])
    else
      var s :- RiskByVuln(vs[0]);
      var rest :- ScoresOf(vs[1..]);
      Ok([s] + rest)
  }

  /** The scores of a list are read exactly when every record's are, and
      are then those records' scores, in order. */
  lemma {:induction false} ScoresOfMeaning(vs: seq<Vuln>)
    ensures ScoresOf(vs).Ok? <==> forall k :: 0 <= k < |vs| ==> RiskByVuln(vs[k]).Ok?
    ensures ScoresOf(vs).Ok? ==> (|ScoresOf(vs).value| == |vs|
              && forall k :: 0 <= k < |vs| ==> ScoresOf(vs).value[k] == RiskByVuln(vs[k]).value)
  {
    if |vs| > 0 {
      ScoresOfMeaning(vs[1..]);
      assert forall k :: 1 <= k < |vs| ==> vs[k] == vs[1..][k - 1];
    }
  }

  /** Scoring a record in front of a list. */
  lemma ScoresOfCons(v: Vuln, vs: seq<Vuln>)
    ensures ScoresOf([v] + vs) == if RiskByVuln(v).Ok? && ScoresOf(vs).Ok? then Ok([RiskByVuln(v).value] + ScoresOf(vs).value)
                                  else Raise(IndexError)
  {
    assert ([v] + vs)[0] == v && ([v] + vs)[1..] == vs;
  }

  /** Scoring two lists one after the other scores their concatenation. */
  lemma {:induction false} ScoresOfAppend(a: seq<Vuln>, b: seq<Vuln>)
    ensures ScoresOf(a + b) == if ScoresOf(a).Ok? && ScoresOf(b).Ok? then Ok(ScoresOf(a).value + ScoresOf(b).value)
                              else Raise(IndexError)
  {
    if |a| == 0 {
      assert a + b == b && ScoresOf(a) == Ok([]);
      if ScoresOf(b).Ok? {
        assert [] + ScoresOf(b).value == ScoresOf(b).value;
      }
    } else {
      assert a + b == [a[0]] + (a[1..] + b) && a == [a[0]] + a[1..];
      ScoresOfCons(a[0], a[1..] + b);
      ScoresOfCons(a[0], a[1..]);
      ScoresOfAppend(a[1..], b);
      if ScoresOf(a).Ok? && ScoresOf(b).Ok? {
        var x, y, z := [RiskByVuln(a[0]).value], ScoresOf(a[1..]).value, ScoresOf(b).value;
        assert x + (y + z) == (x + y) + z;
      }
    }
  }

  /** The scores of every record whose id occurs inside `id`, in order. */
  function MatchScores(id: string, vulns: seq<Vuln>): (r: Result<seq<(real, real)>>)
    ensures r == ScoresOf(Matched(id, vulns))
  {
    if |vulns| == 0 then Ok([])
    else
      var m1 := Matched(id, vulns[1..]);
      assert Matched(id, vulns) == (if Scored(id, vulns[0]) then [vulns[0]] else []) + m1;
      assert [] + m1 == m1;
      ScoresOfCons(vulns[0], m1);
      var rest :- MatchScores(id, vulns[1..]);
      if Contains(id, vulns[0].id) then
        var s :- RiskByVuln(vulns[0]);
        Ok([s] + rest)
      else Ok(rest)
  }

  /** The scores of the vulnerabilities along a path. */
  function Scores(ids: seq<string>, vulns: seq<Vuln>): (r: Result<seq<(real, real)>>)
    ensures r == ScoresOf(PathMatched(ids, vulns))
  {
    if |ids| == 0 then Ok([])
    else
      ScoresOfAppend(Matched(ids[0], vulns), PathMatched(ids[1..], vulns));
      var first :- MatchScores(ids[0], vulns);
      var rest :- Scores(ids[1..], vulns);
      Ok(first + rest)
  }

  /** What a path's scores are: they can be read exactly when every record
      some step names can, and then they are those records' scores, step
      by step and in list order within a step. */
  lemma PathScores(ids: seq<string>, vulns: seq<Vuln>)
    ensures var r := Scores(ids, vulns);
            && (r.Ok? <==> forall i, j :: 0 <= i < |ids| && 0 <= j < |vulns| && Scored(ids[i], vulns[j])
                                          ==> RiskByVuln(vulns[j]).Ok?)
            && (r.Raise? ==> r.error == IndexError)
            && (r.Ok? ==> var m := PathMatched(ids, vulns);
                  |r.value| == |m| && forall k :: 0 <= k < |m| ==> RiskByVuln(m[k]).Ok? && r.value[k] == RiskByVuln(m[k]).value)
  {
    var m := PathMatched(ids, vulns);
    ScoresOfMeaning(m);
    PathMatchedMembers(ids, vulns);
    if forall i, j :: 0 <= i < |ids| && 0 <= j < |vulns| && Scored(ids[i], vulns[j]) ==> RiskByVuln(vulns[j]).Ok? {
      forall k | 0 <= k < |m|
        ensures RiskByVuln(m[k]).Ok?
      {
        assert m[k] in m;
        var i :| 0 <= i < |ids| && Scored(ids[i], m[k]);
        var j :| 0 <= j < |vulns| && vulns[j] == m[k];
      }
    } else {
      var i, j :| 0 <= i < |ids| && 0 <= j < |vulns| && Scored(ids[i], vulns[j]) && RiskByVuln(vulns[j]).Raise?;
      assert vulns[j] in m;
      var k :| 0 <= k < |m| && m[k] == vulns[j];
    }
  }

  function SumInverse(es: seq<real>): (r: Result<real>)
    ensures r.Ok? <==> forall k :: 0 <= k < |es| ==> es[k] != 0.0
    ensures r.Raise? ==> r.error == ZeroDivisionError
    ensures r.Ok? && (forall k :: 0 <= k < |es| ==> es[k] > 0.0) ==> (r.value > 0.0 <==> |es| > 0) && r.value >= 0.0
  {
    if |es| == 0 then Ok(0.0)
    else if es[0] == 0.0 then Raise(ZeroDivisionError)
    else
      var rest :- SumInverse(es[1..]);
      assert forall k :: 1 <= k < |es| ==> es[k] == es[1..][k - 1];
      Ok(1.0 / es[0] + rest)
  }

  function MaxReal(xs: seq<real>): (r: real)
    requires |xs| > 0
    ensures r in xs && forall k :: 0 <= k < |xs| ==> xs[k] <= r
  {
    if |xs| == 1 then xs[0]
    else
      var m := MaxReal(xs[1..]);
      assert forall k :: 1 <= k < |xs| ==> xs[k] == xs[1..][k - 1];
      if xs[0] >= m then xs[0] else m
  }

  /** The first components of a sequence of pairs, in order: the keys of
      an ordered table, or the exploitability halves of the scores. */
  function Firsts<A, B>(s: seq<(A, B)>): (r: seq<A>)
    ensures |r| == |s| && forall k :: 0 <= k < |s| ==> r[k] == s[k].0
  {
    seq(|s|, k requires 0 <= k < |s| => s[k].0)
  }

  function Seconds(s: seq<(real, real)>): (r: seq<real>)
    ensures |r| == |s| && forall k :: 0 <= k < |s| ==> r[k] == s[k].1
  {
    seq(|s|, k requires 0 <= k < |s| => s[k].1)
  }

  /** Values above 1 are cut down to 1. */
  function Clip(x: real): (r: real)
    ensures r <= 1.0 && (x <= 1.0 ==> r == x) && (x > 1.0 ==> r == 1.0)
  {
    if x > 1.0 then 1.0 else x
  }

  /** The arithmetic of `compute_risk_analysis` on the matched scores:
      the likelihood is the sum of the inverse exploitability scores, the
      impact the last impact score over the largest, each cut at 1; the
      risk is their product. */
  function Combine(scores: seq<(real, real)>): (r: Result<Risk>)
    ensures r.Ok? ==> IsProduct(r.value)
    ensures r.Ok? ==> r.value.impact <= 1.0 && r.value.likelihood <= 1.0
    ensures r.Raise? <==> exists k :: 0 <= k < |scores| && scores[k].0 == 0.0
    ensures r.Raise? ==> r.error == ZeroDivisionError
  {
    var lik :- SumInverse(Firsts(scores));
    var imp := ImpactRatio(Seconds(scores));
    Ok(Risk(Clip(imp), Clip(lik), Clip(imp) * Clip(lik)))
  }

  /** The last impact score over the largest, or 0 when there is none or
      the largest is not positive. */
  function ImpactRatio(impacts: seq<real>): real
  {
    if |impacts| > 0 && MaxReal(impacts) > 0.0 then impacts[|impacts| - 1] / MaxReal(impacts) else 0.0
  }

  /** Non-negative impact scores give a non-negative ratio. */
  lemma ImpactRatioNonNegative(impacts: seq<real>)
    requires forall k :: 0 <= k < |impacts| ==> impacts[k] >= 0.0
    ensures ImpactRatio(impacts) >= 0.0
  {
    if |impacts| > 0 && MaxReal(impacts) > 0.0 {
      QuotientNonNegative(impacts[|impacts| - 1], MaxReal(impacts));
    }
  }

  /** A record a step scores that stops the analysis: its scores cannot
      be read, or its exploitability is 0 and cannot be inverted. */
  predicate Unscorable(v: Vuln)
  {
    RiskByVuln(v).Raise? || RiskByVuln(v).value.0 == 0.0
  }

  /** `compute_risk_analysis`: an unreadable record raises `IndexError`, a
      zero exploitability `ZeroDivisionError`; otherwise impact and
      likelihood are at most 1 and the risk is their product. */
  function ComputeRisk(ids: seq<string>, vulns: seq<Vuln>): (r: Result<Risk>)
    ensures r.Raise? ==> r.error == IndexError || r.error == ZeroDivisionError
    ensures r.Ok? ==> IsProduct(r.value)
    ensures r.Ok? ==> r.value.impact <= 1.0 && r.value.likelihood <= 1.0
  {
    var scores :- Scores(ids, vulns);
    Combine(scores)
  }

  /** The analysis of a path fails exactly when a record some step names
      is unscorable. */
  lemma RiskFails(ids: seq<string>, vulns: seq<Vuln>)
    ensures ComputeRisk(ids, vulns).Raise? <==>
              exists i, j :: 0 <= i < |ids| && 0 <= j < |vulns| && Scored(ids[i], vulns[j]) && Unscorable(vulns[j])
  {
    PathScores(ids, vulns);
    PathMatchedMembers(ids, vulns);
    if Scores(ids, vulns).Ok? {
      PathZeroes(ids, vulns);
    } else {
      var i, j :| 0 <= i < |ids| && 0 <= j < |vulns| && Scored(ids[i], vulns[j]) && RiskByVuln(vulns[j]).Raise?;
      assert Unscorable(vulns[j]);
    }
  }

  /** With readable scores, a zero exploitability among the scored records
      is a zero among the path's scores. */
  lemma PathZeroes(ids: seq<string>, vulns: seq<Vuln>)
    requires Scores(ids, vulns).Ok?
    ensures (exists k :: 0 <= k < |Scores(ids, vulns).value| && Scores(ids, vulns).value[k].0 == 0.0)
            <==> exists i, j :: 0 <= i < |ids| && 0 <= j < |vulns| && Scored(ids[i], vulns[j]) && Unscorable(vulns[j])
  {
    PathScores(ids, vulns);
    PathMatchedMembers(ids, vulns);
    var s := Scores(ids, vulns).value;
    var m := PathMatched(ids, vulns);
    if k :| 0 <= k < |s| && s[k].0 == 0.0 {
      assert m[k] in m;
      var i :| 0 <= i < |ids| && Scored(ids[i], m[k]);
      var j :| 0 <= j < |vulns| && vulns[j] == m[k];
      assert Scored(ids[i], vulns[j]) && Unscorable(vulns[j]);
    }
    if i, j :| 0 <= i < |ids| && 0 <= j < |vulns| && Scored(ids[i], vulns[j]) && Unscorable(vulns[j]) {
      assert vulns[j] in m;
      var k :| 0 <= k < |m| && m[k] == vulns[j];
      assert s[k].0 == 0.0;
    }
  }

  /** With positive exploitability and non-negative impact scores, impact,
      likelihood and risk all lie between 0 and 1. */
  lemma RiskBounded(s: seq<(real, real)>)
    requires forall k :: 0 <= k < |s| ==> s[k].0 > 0.0 && s[k].1 >= 0.0
    ensures Combine(s).Ok?
    ensures var v := Combine(s).value;
            && 0.0 <= v.impact <= 1.0 && 0.0 <= v.likelihood <= 1.0 && 0.0 <= v.risk <= 1.0
  {
    var es := Firsts(s);
    assert forall k :: 0 <= k < |es| ==> es[k] > 0.0;
    var lik := SumInverse(es);
    assert lik.Ok? && lik.value >= 0.0;
    var imp := ImpactRatio(Seconds(s));
    ImpactRatioNonNegative(Seconds(s));
    var v := Combine(s).value;
    assert v.impact == Clip(imp) && v.likelihood == Clip(lik.value);
    ProductBounded(v.impact, v.likelihood);
  }

  lemma QuotientNonNegative(x: real, y: real)
    requires x >= 0.0 && y > 0.0
    ensures x / y >= 0.0
  {
  }

  /** The product of two numbers between 0 and 1 lies between 0 and 1. */
  lemma ProductBounded(a: real, b: real)
    requires 0.0 <= a <= 1.0 && 0.0 <= b <= 1.0
    ensures 0.0 <= a * b <= 1.0
  {
    MulMono(a, 1.0, b);
    assert a * b <= b;
    MulNonNegative(a, b);
  }

  lemma MulMono(x: real, y: real, z: real)
    requires x <= y && z >= 0.0
    ensures x * z <= y * z
  {
  }

  lemma MulNonNegative(x: real, z: real)
    requires x >= 0.0 && z >= 0.0
    ensures x * z >= 0.0
  {
  }

  /** Steps that name no record match nothing. */
  lemma {:induction false} NothingMatched(ids: seq<string>, vulns: seq<Vuln>)
    requires forall i, j :: 0 <= i < |ids| && 0 <= j < |vulns| ==> !Contains(ids[i], vulns[j].id)
    ensures PathMatched(ids, vulns) == []
  {
    if |ids| > 0 {
      NothingMatchedStep(ids[0], vulns);
      NothingMatched(ids[1..], vulns);
    }
  }

  lemma {:induction false} NothingMatchedStep(step: string, vulns: seq<Vuln>)
    requires forall j :: 0 <= j < |vulns| ==> !Contains(step, vulns[j].id)
    ensures Matched(step, vulns) == []
  {
    if |vulns| > 0 {
      NothingMatchedStep(step, vulns[1..]);
    }
  }

  /** A path none of whose steps names a known vulnerability has no risk. */
  lemma NoMatchNoRisk(ids: seq<string>, vulns: seq<Vuln>)
    requires forall i, j :: 0 <= i < |ids| && 0 <= j < |vulns| ==> !Contains(ids[i], vulns[j].id)
    ensures ComputeRisk(ids, vulns) == Ok(Risk(0.0, 0.0, 0.0))
  {
    NothingMatched(ids, vulns);
    assert Scores(ids, vulns) == Ok([]);
    assert Firsts<real, real>([]) == [];
  }

  /** The bound of a path's risk: when every record a step names has
      readable scores, a positive exploitability and a non-negative
      impact, the analysis succeeds with impact, likelihood and risk all
      between 0 and 1. */
  lemma PathRiskBounded(ids: seq<string>, vulns: seq<Vuln>)
    requires forall i, j :: 0 <= i < |ids| && 0 <= j < |vulns| && Scored(ids[i], vulns[j]) ==>
               RiskByVuln(vulns[j]).Ok? && RiskByVuln(vulns[j]).value.0 > 0.0 && RiskByVuln(vulns[j]).value.1 >= 0.0
    ensures ComputeRisk(ids, vulns).Ok?
    ensures var v := ComputeRisk(ids, vulns).value;
            && 0.0 <= v.impact <= 1.0 && 0.0 <= v.likelihood <= 1.0 && 0.0 <= v.risk <= 1.0
            && IsProduct(v)
  {
    PathScores(ids, vulns);
    PathMatchedMembers(ids, vulns);
    var s := Scores(ids, vulns).value;
    var m := PathMatched(ids, vulns);
    forall k | 0 <= k < |s|
      ensures s[k].0 > 0.0 && s[k].1 >= 0.0
    {
      assert m[k] in m;
      var i :| 0 <= i < |ids| && Scored(ids[i], m[k]);
      var j :| 0 <= j < |vulns| && vulns[j] == m[k];
    }
    RiskBounded(s);
    assert ComputeRisk(ids, vulns) == Combine(s);
  }

  // ---------------------------------------------------------------------
  // The per-client summary of attack paths.

  /** A found path: its `#`-joined trace and its risk. */
  datatype AttackPath = AttackPath(path: string, risk: real)

  /** The summary of the paths between one source and one target. */
  datatype Client = Client(count: int, lengths: seq<int>, risks: seq<real>, communities: seq<int>, sameCommunity: bool)

  /** The entry of a key in an ordered table. */
  function Find<V>(t: seq<(string, V)>, key: string): (r: Option<V>)
    ensures r.Some? <==> key in Firsts(t)
  {
    if |t| == 0 then None
    else if t[0].0 == key then Some(t[0].1)
    else Find(t[1..], key)
  }

  /** The source and target hosts of a trace `#PRIV@src#...#PRIV@dst`;
      a trace too short to index raises. */
  function PathEnds(path: string): (r: Result<(string, string)>)
    ensures r.Raise? ==> r.error == IndexError
    ensures r.Ok? ==> '#' !in r.value.0 && '#' !in r.value.1
  {
    var trace := Split(path, '#');
    if |trace| < 2 then Raise(IndexError)
    else
      var first := Split(trace[1], '@');
      var last := Split(trace[|trace| - 1], '@');
      if |first| < 2 || |last| < 2 then Raise(IndexError)
      else
        SplitPiecesAvoid(trace[1], '@', '#');
        SplitPiecesAvoid(trace[|trace| - 1], '@', '#');
        Ok((first[1], last[1]))
  }

  /** The client key of a path: `source#target`. */
  function PathKey(p: AttackPath): (r: Result<string>)
    ensures r.Ok? ==> |Split(r.value, '#')| == 2
  {
    var ends :- PathEnds(p.path);
    SplitCons(ends.0, '#', ends.1);
    SplitNoSep(ends.1, '#');
    Ok(ends.0 + "#" + ends.1)
  }

  /** The communities of every device with the id, in device order. */
  function DeviceCommunities(id: string, devices: seq<Device>): seq<string>
  {
    if |devices| == 0 then []
    else (if devices[0].id == id then [devices[0].community] else []) + DeviceCommunities(id, devices[1..])
  }

  /** The communities met along a trace: each host node (not a CVE node)
      contributes the communities of the devices with its host id. */
  function TraceCommunities(trace: seq<string>, devices: seq<Device>): seq<string>
  {
    if |trace| == 0 then []
    else
      var node := trace[0];
      var here := if '@' !in node || Contains(node, "CVE") then []
                  else (SplitAtSep(node, '@'); DeviceCommunities(Split(node, '@')[1], devices));
      here + TraceCommunities(trace[1..], devices)
  }

  /** `calculate_communities`: how many distinct communities a trace meets. */
  function CommunityCount(trace: seq<string>, devices: seq<Device>): nat
  {
    |set c | c in TraceCommunities(trace, devices)|
  }

  /** The community of the last device with the id, or "" without one. */
  function CommunityOf(id: string, devices: seq<Device>): string
  {
    if |devices| == 0 then ""
    else if devices[|devices| - 1].id == id then devices[|devices| - 1].community
    else CommunityOf(id, devices[..|devices| - 1])
  }

  /** `check_communities`. */
  function SameCommunity(source: string, target: string, devices: seq<Device>): bool
  {
    CommunityOf(source, devices) == CommunityOf(target, devices)
  }

  /** The bookkeeping invariant of a client: one length, risk and community
      count per path, at least one path, each trace of two components or
      more, and a key that splits into source and target. */
  predicate Summarised(key: string, c: Client)
  {
    && c.count == |c.lengths| == |c.risks| == |c.communities| && c.count >= 1
    && (forall k :: 0 <= k < |c.lengths| ==> c.lengths[k] >= 2)
    && (forall k :: 0 <= k < |c.communities| ==> c.communities[k] >= 0)
    && |Split(key, '#')| == 2
  }

  /** The entry after one more path. */
  function Extend(c: Client, length: int, risk: real, communities: int): Client
  {
    c.(count := c.count + 1, lengths := c.lengths + [length],
       risks := c.risks + [risk], communities := c.communities + [communities])
  }

  /** Records one path under its key. */
  function Record(t: seq<(string, Client)>, key: string, length: int, risk: real, communities: int, same: bool)
    : (r: seq<(string, Client)>)
    ensures |r| == (if key in Firsts(t) then |t| else |t| + 1)
  {
    if |t| == 0 then [(key, Client(1, [length], [risk], [communities], same))]
    else if t[0].0 == key then [(key, Extend(t[0].1, length, risk, communities))] + t[1..]
    else
      assert key in Firsts(t) <==> key in Firsts(t[1..]) by {
        assert Firsts(t) == [t[0].0] + Firsts(t[1..]);
      }
      [t[0]] + Record(t[1..], key, length, risk, communities, same)
  }

  /** Recording adds the key once, at the end, if it is new. */
  lemma {:induction false} RecordKeys(t: seq<(string, Client)>, key: string, length: int, risk: real, communities: int, same: bool)
    ensures Firsts(Record(t, key, length, risk, communities, same)) ==
            if key in Firsts(t) then Firsts(t) else Firsts(t) + [key]
  {
    var r := Record(t, key, length, risk, communities, same);
    if |t| == 0 {
      assert Firsts(r) == [key];
    } else {
      FirstsCons(t[0], t[1..]);
      assert [t[0]] + t[1..] == t;
      if t[0].0 == key {
        FirstsCons((key, Extend(t[0].1, length, risk, communities)), t[1..]);
      } else {
        var r1 := Record(t[1..], key, length, risk, communities, same);
        RecordKeys(t[1..], key, length, risk, communities, same);
        FirstsCons(t[0], r1);
        if key !in Firsts(t[1..]) {
          assert [t[0].0] + (Firsts(t[1..]) + [key]) == ([t[0].0] + Firsts(t[1..])) + [key];
        }
      }
    }
  }

  lemma FirstsCons<A, B>(a: (A, B), s: seq<(A, B)>)
    ensures Firsts([a] + s) == [a.0] + Firsts(s)
  {
  }

  /** Recording extends the key's entry, or creates it, and leaves the other
      entries alone. */
  lemma {:induction false} RecordFind(t: seq<(string, Client)>, key: string, length: int, risk: real, communities: int,
                                      same: bool, other: string)
    ensures Find(Record(t, key, length, risk, communities, same), other) ==
            if other != key then Find(t, other)
            else if Find(t, key).Some? then Some(Extend(Find(t, key).value, length, risk, communities))
            else Some(Client(1, [length], [risk], [communities], same))
  {
    if |t| > 0 && t[0].0 != key {
      RecordFind(t[1..], key, length, risk, communities, same, other);
    }
  }

  /** How many of the paths have the key. */
  function CountKey(paths: seq<AttackPath>, key: string): nat
  {
    if |paths| == 0 then 0
    else CountKey(paths[..|paths| - 1], key) + (if PathKey(paths[|paths| - 1]) == Ok(key) then 1 else 0)
  }

  /** `analyze_paths`: the paths grouped by `source#target`, in order of
      first appearance. */
  function AnalyzePaths(paths: seq<AttackPath>, devices: seq<Device>): (r: Result<seq<(string, Client)>>)
    ensures r.Ok? <==> forall i :: 0 <= i < |paths| ==> PathKey(paths[i]).Ok?
  {
    if |paths| == 0 then Ok([])
    else
      var init := paths[..|paths| - 1];
      KeysSnoc(paths, init);
      var t :- AnalyzePaths(init, devices);
      var p := paths[|paths| - 1];
      var ends :- PathEnds(p.path);
      var trace := Split(p.path, '#');
      Ok(Record(t, ends.0 + "#" + ends.1, |trace|, p.risk, CommunityCount(trace, devices),
                SameCommunity(ends.0, ends.1, devices)))
  }

  /** Every path has a key exactly when the earlier ones and the last one
      do. */
  lemma KeysSnoc(paths: seq<AttackPath>, init: seq<AttackPath>)
    requires |paths| > 0 && init == paths[..|paths| - 1]
    ensures (forall i :: 0 <= i < |paths| ==> PathKey(paths[i]).Ok?)
        <==> (forall i :: 0 <= i < |init| ==> PathKey(init[i]).Ok?) && PathEnds(paths[|paths| - 1].path).Ok?
  {
    assert forall i :: 0 <= i < |init| ==> paths[i] == init[i];
  }

  /** The summary `t` of `paths`: each key of the paths once, and per key
      the number of its paths and one length, risk and community count per
      path. */
  ghost predicate SummaryOf(t: seq<(string, Client)>, paths: seq<AttackPath>)
  {
    && Distinct(Firsts(t))
    && (forall key :: key in Firsts(t) <==> exists i :: 0 <= i < |paths| && PathKey(paths[i]) == Ok(key))
    && (forall key :: key in Firsts(t) ==>
          Summarised(key, Find(t, key).value) && Find(t, key).value.count == CountKey(paths, key))
  }

  /** Recording one more path keeps the summary. */
  lemma RecordKeepsSummary(t: seq<(string, Client)>, init: seq<AttackPath>, p: AttackPath, key: string,
                           length: int, comm: int, same: bool)
    requires SummaryOf(t, init)
    requires PathKey(p) == Ok(key) && length >= 2 && comm >= 0
    ensures SummaryOf(Record(t, key, length, p.risk, comm, same), init + [p])
  {
    var paths := init + [p];
    var r := Record(t, key, length, p.risk, comm, same);
    assert paths[..|paths| - 1] == init;
    RecordKeys(t, key, length, p.risk, comm, same);
    assert Distinct(Firsts(r));
    assert forall k :: k in Firsts(r) <==> exists i :: 0 <= i < |paths| && PathKey(paths[i]) == Ok(k) by {
      assert forall i :: 0 <= i < |init| ==> paths[i] == init[i];
      assert paths[|init|] == p;
    }
    forall k | k in Firsts(r)
      ensures Summarised(k, Find(r, k).value) && Find(r, k).value.count == CountKey(paths, k)
    {
      RecordEntry(t, init, p, key, length, comm, same, k);
    }
  }

  /** One entry after recording one more path. */
  lemma RecordEntry(t: seq<(string, Client)>, init: seq<AttackPath>, p: AttackPath, key: string,
                    length: int, comm: int, same: bool, k: string)
    requires SummaryOf(t, init)
    requires PathKey(p) == Ok(key) && length >= 2 && comm >= 0
    requires k in Firsts(Record(t, key, length, p.risk, comm, same))
    ensures var c := Find(Record(t, key, length, p.risk, comm, same), k).value;
            Summarised(k, c) && c.count == CountKey(init + [p], k)
  {
    RecordKeys(t, key, length, p.risk, comm, same);
    RecordFind(t, key, length, p.risk, comm, same, k);
    CountKeyLast(init, p, k);
    if k == key {
      if Find(t, key).Some? {
        ExtendSummarised(key, Find(t, key).value, length, p.risk, comm);
      } else {
        CountKeyAbsent(init, key);
      }
    }
  }

  /** A key no path has counts zero. */
  lemma {:induction false} CountKeyAbsent(paths: seq<AttackPath>, k: string)
    requires forall i :: 0 <= i < |paths| ==> PathKey(paths[i]) != Ok(k)
    ensures CountKey(paths, k) == 0
  {
    if |paths| > 0 {
      CountKeyAbsent(paths[..|paths| - 1], k);
    }
  }

  /** One more path of a key adds one to its count. */
  lemma CountKeyLast(init: seq<AttackPath>, p: AttackPath, k: string)
    ensures CountKey(init + [p], k) == CountKey(init, k) + (if PathKey(p) == Ok(k) then 1 else 0)
  {
    assert (init + [p])[..|init|] == init;
  }

  /** Extending a summarised entry keeps it summarised. */
  lemma ExtendSummarised(key: string, c: Client, length: int, risk: real, comm: int)
    requires Summarised(key, c) && length >= 2 && comm >= 0
    ensures Summarised(key, Extend(c, length, risk, comm))
  {
  }

  /** The summary lists each key of the paths once; each entry counts the
      paths with its key and keeps one length, risk and community count per
      path. */
  lemma {:induction false} AnalyzedPathsSummarised(paths: seq<AttackPath>, devices: seq<Device>)
    requires AnalyzePaths(paths, devices).Ok?
    ensures SummaryOf(AnalyzePaths(paths, devices).value, paths)
  {
    if |paths| > 0 {
      var init := paths[..|paths| - 1];
      AnalyzedPathsSummarised(init, devices);
      var t := AnalyzePaths(init, devices).value;
      var p := paths[|paths| - 1];
      var ends := PathEnds(p.path).value;
      var trace := Split(p.path, '#');
      assert PathKey(p) == Ok(ends.0 + "#" + ends.1);
      assert paths == init + [p];
      RecordKeepsSummary(t, init, p, ends.0 + "#" + ends.1, |trace|, CommunityCount(trace, devices),
                         SameCommunity(ends.0, ends.1, devices));
    }
  }
}
