/** Trust between devices and the commands it turns into
    (`SHIELD/src/mitigation.py`): the trust value of every source#target
    pair of the path summary, the mitigations of a device, and the
    subscribe/unsubscribe commands the publishers send. Publishing is
    modelled as the list of commands emitted, in order.
 */
module Mitigation {
  import opened Basics
  import opened Text
  import opened AttackGraph

  /** The community count that gives the full community score. */
  const CMax := 3

  /** The mitigation strategies that make a trusted publisher announce its
      security state. */
  const CBetween: seq<string> := ["Input Validation", "Libraries or Frameworks", "Attack Surface Reduction",
                                  "Language Selection", "Output Encoding", "Firewall", "Resource Limitation"]

  /** The default risk thresholds of `calculate_trust`. */
  const RiskMinDefault: real := 0.2
  const RiskMaxDefault: real := 0.9

  // ---------------------------------------------------------------------
  // Trust.

  /** Python's `round` on a number: the nearest integer, ties to the even
      one. */
  function RoundHalfEven(x: real): (r: int)
    ensures (r as real) - 0.5 <= x <= (r as real) + 0.5
    ensures x == (r as real) - 0.5 || x == (r as real) + 0.5 ==> r % 2 == 0
  {
    var f := x.Floor;
    var d := x - f as real;
    if d < 0.5 then f else if d > 0.5 then f + 1 else if f % 2 == 0 then f else f + 1
  }

  function SumInt(xs: seq<int>): int
  {
    if |xs| == 0 then 0 else xs[0] + SumInt(xs[1..])
  }

  function MaxInt(xs: seq<int>): (r: int)
    requires |xs| > 0
    ensures r in xs && forall k :: 0 <= k < |xs| ==> xs[k] <= r
  {
    if |xs| == 1 then xs[0]
    else
      var m := MaxInt(xs[1..]);
      assert forall k :: 1 <= k < |xs| ==> xs[k] == xs[1..][k - 1];
      if xs[0] >= m then xs[0] else m
  }

  /** The trust of one entry of the path summary: 0 above the upper risk
      threshold, 1 below the lower one, otherwise the rounded mean of the
      relative path length, the community score and the complement of the
      risk. */
  function TrustOf(key: string, c: Client, riskMin: real, riskMax: real): (r: Result<int>)
    ensures r.Ok? ==> |Split(key, '#')| == 2 && c.count != 0
    ensures r.Ok? ==> |c.lengths| > 0 && |c.risks| > 0 && |c.communities| > 0 && MaxInt(c.lengths) != 0
    ensures r.Ok? && MaxReal(c.risks) > riskMax ==> r.value == 0
    ensures r.Ok? && MaxReal(c.risks) <= riskMax && MaxReal(c.risks) < riskMin ==> r.value == 1
  {
    if |Split(key, '#')| != 2 then Raise(ValueError)
    else if c.count == 0 then Raise(ZeroDivisionError)
    else if |c.lengths| == 0 then Raise(ValueError)
    else if MaxInt(c.lengths) == 0 then Raise(ZeroDivisionError)
    else if |c.risks| == 0 || |c.communities| == 0 then Raise(ValueError)
    else
      var r := MaxReal(c.risks);
      if r > riskMax then Ok(0)
      else if r < riskMin then Ok(1)
      else Ok(RoundHalfEven(Between(c)))
  }

  /** The score averaged between the thresholds: the mean length over the
      longest, the most communities over `CMax`, and one minus the largest
      risk, divided by three. */
  function Between(c: Client): real
    requires c.count != 0 && |c.lengths| > 0 && |c.risks| > 0 && |c.communities| > 0 && MaxInt(c.lengths) != 0
  {
    var l := (SumInt(c.lengths) as real / c.count as real) / MaxInt(c.lengths) as real;
    var cm := MaxInt(c.communities) as real / CMax as real;
    (l + cm + (1.0 - MaxReal(c.risks))) / 3.0
  }

  /** `calculate_trust`: one trust value per key, in the order of the
      summary. */
  function CalculateTrust(t: seq<(string, Client)>, riskMin: real, riskMax: real): (r: Result<seq<(string, int)>>)
    ensures r.Ok? <==> forall k :: 0 <= k < |t| ==> TrustOf(t[k].0, t[k].1, riskMin, riskMax).Ok?
    ensures r.Ok? ==> |r.value| == |t|
    ensures r.Ok? ==> forall k :: 0 <= k < |t| ==> r.value[k] == (t[k].0, TrustOf(t[k].0, t[k].1, riskMin, riskMax).value)
  {
    if |t| == 0 then Ok([])
    else
      assert forall k :: 1 <= k < |t| ==> t[k] == t[1..][k - 1];
      var v :- TrustOf(t[0].0, t[0].1, riskMin, riskMax);
      var rest :- CalculateTrust(t[1..], riskMin, riskMax);
      Ok([(t[0].0, v)] + rest)
  }

  /** Every entry of a path summary has a trust value. */
  lemma SummarisedHasTrust(key: string, c: Client, riskMin: real, riskMax: real)
    requires Summarised(key, c)
    ensures TrustOf(key, c, riskMin, riskMax).Ok?
  {
    assert MaxInt(c.lengths) >= c.lengths[0] >= 2;
  }

  /** In a table with distinct keys, each key finds its own entry. */
  lemma {:induction false} FindOwnEntry<V>(t: seq<(string, V)>, k: int)
    requires Distinct(Firsts(t)) && 0 <= k < |t|
    ensures Find(t, t[k].0) == Some(t[k].1)
  {
    if k > 0 {
      assert Firsts(t[1..]) == Firsts(t)[1..];
      assert t[0].0 != t[k].0 by {
        assert Firsts(t)[0] != Firsts(t)[k];
      }
      FindOwnEntry(t[1..], k - 1);
    }
  }

  /** Trust is defined for every summary of attack paths, with one value
      per source#target pair. */
  lemma AnalyzedPathsHaveTrust(paths: seq<AttackPath>, devices: seq<Device>, riskMin: real, riskMax: real)
    requires AnalyzePaths(paths, devices).Ok?
    ensures CalculateTrust(AnalyzePaths(paths, devices).value, riskMin, riskMax).Ok?
    ensures Firsts(CalculateTrust(AnalyzePaths(paths, devices).value, riskMin, riskMax).value)
            == Firsts(AnalyzePaths(paths, devices).value)
  {
    var t := AnalyzePaths(paths, devices).value;
    AnalyzedPathsSummarised(paths, devices);
    forall k | 0 <= k < |t|
      ensures TrustOf(t[k].0, t[k].1, riskMin, riskMax).Ok?
    {
      FindOwnEntry(t, k);
      assert t[k].0 in Firsts(t);
      SummarisedHasTrust(t[k].0, t[k].1, riskMin, riskMax);
    }
  }

  /** The sum of numbers no larger than `m`. */
  lemma {:induction false} SumAtMost(xs: seq<int>, m: int)
    requires forall k :: 0 <= k < |xs| ==> xs[k] <= m
    ensures SumInt(xs) <= |xs| * m
  {
    if |xs| > 0 {
      SumAtMost(xs[1..], m);
      assert |xs| * m == m + (|xs| - 1) * m;
    }
  }

  /** A sum of non-negative numbers is non-negative. */
  lemma {:induction false} SumNonNegative(xs: seq<int>)
    requires forall k :: 0 <= k < |xs| ==> xs[k] >= 0
    ensures SumInt(xs) >= 0
  {
    if |xs| > 0 {
      SumNonNegative(xs[1..]);
    }
  }

  /** `a / b <= c` when `a <= b * c`, for a positive `b`. */
  lemma DivAtMost(a: real, b: real, c: real)
    requires b > 0.0 && a <= b * c
    ensures a / b <= c
  {
  }

  /** A non-negative number over a positive one is non-negative. */
  lemma DivNonNegative(a: real, b: real)
    requires a >= 0.0 && b > 0.0
    ensures a / b >= 0.0
  {
  }

  lemma MulStrict(x: real, y: real, z: real)
    requires x < y && z > 0.0
    ensures x * z < y * z
  {
  }

  /** The mean path length over the longest lies between 0 and 1. */
  lemma LengthScoreBounded(c: Client)
    requires c.count == |c.lengths| && |c.lengths| > 0
    requires forall k :: 0 <= k < |c.lengths| ==> c.lengths[k] >= 2
    ensures MaxInt(c.lengths) > 0
    ensures 0.0 <= (SumInt(c.lengths) as real / c.count as real) / MaxInt(c.lengths) as real <= 1.0
  {
    var m := MaxInt(c.lengths);
    assert m >= c.lengths[0];
    SumAtMost(c.lengths, m);
    SumNonNegative(c.lengths);
    UnitRatio(SumInt(c.lengths), c.count, m);
  }

  /** A total of `count` numbers between 0 and `m`, averaged and divided
      by `m`, lies between 0 and 1. */
  lemma UnitRatio(n: int, count: int, m: int)
    requires count > 0 && m > 0 && 0 <= n <= count * m
    ensures 0.0 <= (n as real / count as real) / m as real <= 1.0
  {
    assert n as real <= count as real * m as real by {
      assert (count * m) as real == count as real * m as real;
    }
    DivAtMost(n as real, count as real, m as real);
    var mean := n as real / count as real;
    DivNonNegative(n as real, count as real);
    DivAtMost(mean, m as real, 1.0);
    DivNonNegative(mean, m as real);
  }

  /** A number between 0 and 1 rounds to 0 or 1. */
  lemma RoundUnit(x: real)
    requires 0.0 <= x <= 1.0
    ensures RoundHalfEven(x) == 0 || RoundHalfEven(x) == 1
  {
  }

  /** With risk thresholds between 0 and 1 and at most `CMax` communities
      per path, the trust of a summarised entry is 0 or 1. */
  lemma TrustIsBinary(key: string, c: Client, riskMin: real, riskMax: real)
    requires Summarised(key, c)
    requires 0.0 <= riskMin && riskMax <= 1.0
    requires forall k :: 0 <= k < |c.communities| ==> c.communities[k] <= CMax
    ensures TrustOf(key, c, riskMin, riskMax).Ok?
    ensures TrustOf(key, c, riskMin, riskMax).value == 0 || TrustOf(key, c, riskMin, riskMax).value == 1
  {
    SummarisedHasTrust(key, c, riskMin, riskMax);
    var r := MaxReal(c.risks);
    if riskMin <= r <= riskMax {
      LengthScoreBounded(c);
      var cm := MaxInt(c.communities) as real / CMax as real;
      assert 0 <= MaxInt(c.communities) <= CMax;
      assert 0.0 <= cm <= 1.0;
      RoundUnit(Between(c));
    }
  }

  // ---------------------------------------------------------------------
  // The mitigations of a device.

  /** One line of the mitigation table. */
  datatype Mitigation = Mitigation(cve: string, strategy: string)

  /** The CVE ids of the services of a device's interfaces; an interface
      without `ports` raises. */
  function PortCves(ifaces: seq<Iface>): (r: Result<seq<string>>)
    ensures r.Raise? <==> exists k :: 0 <= k < |ifaces| && ifaces[k].ports.None?
    ensures r.Raise? ==> r.error == KeyError
  {
    if |ifaces| == 0 then Ok([])
    else if ifaces[0].ports.None? then Raise(KeyError)
    else
      var rest :- PortCves(ifaces[1..]);
      assert forall k :: 1 <= k < |ifaces| ==> ifaces[k] == ifaces[1..][k - 1];
      Ok(Flatten(PortLists(ifaces[0].ports.value)) + rest)
  }

  /** The CVE ids of every device whose id occurs inside `devId`. */
  function DeviceCves(devices: seq<Device>, devId: string): (r: Result<seq<string>>)
  {
    if |devices| == 0 then Ok([])
    else
      var here :- if Contains(devId, devices[0].id) then PortCves(devices[0].ifaces) else Ok([]);
      var rest :- DeviceCves(devices[1..], devId);
      Ok(here + rest)
  }

  /** The mitigations that name one of the CVE ids. */
  function Relevant(ms: seq<Mitigation>, cves: seq<string>): (r: seq<Mitigation>)
    ensures forall m :: m in r <==> m in ms && m.cve in cves
  {
    if |ms| == 0 then []
    else (if ms[0].cve in cves then [ms[0]] else []) + Relevant(ms[1..], cves)
  }

  /** `mitigations_by_dev` as written: the device's CVE ids are collected
      and the relevant mitigations filtered, but the whole table is
      returned. */
  function MitigationsByDev(devices: seq<Device>, ms: seq<Mitigation>, devId: string): (r: Result<seq<Mitigation>>)
    ensures r.Ok? <==> DeviceCves(devices, devId).Ok?
  {
    var cves :- DeviceCves(devices, devId);
    var relevant := Relevant(ms, cves);
    Ok(ms)
  }

  /** As written, a mitigation for a CVE the device does not have is
      returned too. */
  lemma UnrelatedMitigationReturned(devices: seq<Device>, ms: seq<Mitigation>, devId: string, m: Mitigation)
    requires DeviceCves(devices, devId).Ok? && m in ms && m.cve !in DeviceCves(devices, devId).value
    ensures MitigationsByDev(devices, ms, devId).Ok? && m in MitigationsByDev(devices, ms, devId).value
    ensures m !in Relevant(ms, DeviceCves(devices, devId).value)
  {
  }

  /** `mitigations_by_dev` returning the list it builds. */
  function MitigationsByDevFixed(devices: seq<Device>, ms: seq<Mitigation>, devId: string): (r: Result<seq<Mitigation>>)
    ensures r.Ok? <==> DeviceCves(devices, devId).Ok?
    ensures r.Ok? ==> forall m :: m in r.value <==> m in ms && m.cve in DeviceCves(devices, devId).value
  {
    var cves :- DeviceCves(devices, devId);
    Ok(Relevant(ms, cves))
  }

  // ---------------------------------------------------------------------
  // From trust to publish commands.

  /** A message a publisher sends: its kind, the publisher's name and the
      addressee. */
  datatype Command =
    | SubSecCmd(publisher: string, dst: string)
    | UnsubCmd(publisher: string, dst: string)
    | SubscribeCmd(publisher: string, dst: string)
    | SecMsgCmd(publisher: string)

  /** How many publishers carry the name. */
  function CountNamed(pubs: seq<string>, name: string): nat
  {
    if |pubs| == 0 then 0 else (if pubs[0] == name then 1 else 0) + CountNamed(pubs[1..], name)
  }

  /** `for pub in pubs: if pub.name == src: send c`. */
  function Emit(pubs: seq<string>, src: string, c: Command): (r: seq<Command>)
    ensures |r| == CountNamed(pubs, src)
    ensures forall k :: 0 <= k < |r| ==> r[k] == c
    ensures |r| > 0 <==> src in pubs
  {
    if |pubs| == 0 then [] else (if pubs[0] == src then [c] else []) + Emit(pubs[1..], src, c)
  }

  /** The attack-surface loop from `acc` on. */
  function SurfaceFrom(acc: seq<string>, ms: seq<Mitigation>): seq<string>
    decreases |ms|
  {
    if |ms| == 0 then acc
    else SurfaceFrom(if ms[0].strategy in CBetween && ms[0].cve !in acc then acc + [ms[0].cve] else acc, ms[1..])
  }

  /** The attack surface of a trusted pair. */
  function Surface(ms: seq<Mitigation>): seq<string>
  {
    SurfaceFrom([], ms)
  }

  /** Some mitigation has a `CBetween` strategy. */
  predicate AnyBetween(ms: seq<Mitigation>)
  {
    exists k :: 0 <= k < |ms| && ms[k].strategy in CBetween
  }

  /** The loop keeps the list free of repetitions and adds exactly the CVE
      ids of the `CBetween` mitigations. */
  lemma {:induction false} SurfaceFromSpec(acc: seq<string>, ms: seq<Mitigation>)
    requires Distinct(acc)
    ensures Distinct(SurfaceFrom(acc, ms))
    ensures forall x :: x in SurfaceFrom(acc, ms) <==>
              x in acc || exists k :: 0 <= k < |ms| && ms[k].strategy in CBetween && ms[k].cve == x
    decreases |ms|
  {
    if |ms| > 0 {
      var next := if ms[0].strategy in CBetween && ms[0].cve !in acc then acc + [ms[0].cve] else acc;
      SurfaceFromSpec(next, ms[1..]);
      assert forall k :: 1 <= k < |ms| ==> ms[k] == ms[1..][k - 1];
    }
  }

  /** The attack surface lists, once each, the CVE ids of the mitigations
      whose strategy is in `CBetween`. */
  lemma SurfaceSpec(ms: seq<Mitigation>)
    ensures Distinct(Surface(ms))
    ensures forall x :: x in Surface(ms) <==> exists k :: 0 <= k < |ms| && ms[k].strategy in CBetween && ms[k].cve == x
    ensures |Surface(ms)| > 0 <==> AnyBetween(ms)
  {
    SurfaceFromSpec([], ms);
    if AnyBetween(ms) {
      var k :| 0 <= k < |ms| && ms[k].strategy in CBetween;
      assert ms[k].cve in Surface(ms);
    } else if |Surface(ms)| > 0 {
      assert Surface(ms)[0] in Surface(ms);
    }
  }

  /** What one key of the trust matrix yields. */
  datatype Outcome = Outcome(surface: seq<string>, unsubscribes: int, commands: seq<Command>)

  /** The body of the loop of `mitigation_to_pubsub` for one key. */
  function ForKey(key: string, trust: int, ms: seq<Mitigation>, pubs: seq<string>): (r: Result<Outcome>)
    ensures r.Ok? <==> |Split(key, '#')| >= 2
    ensures r.Raise? ==> r.error == IndexError
  {
    var parts := Split(key, '#');
    if |parts| < 2 then Raise(IndexError)
    else
      var src, dst := parts[0], parts[1];
      var subsec := Emit(pubs, src, SubSecCmd(src, dst));
      if trust == 0 then Ok(Outcome([], 1, subsec + Emit(pubs, src, UnsubCmd(src, dst))))
      else if trust == 1 then
        var announce := if AnyBetween(ms) then Emit(pubs, src, SecMsgCmd(src)) else [];
        Ok(Outcome(Surface(ms), 0, subsec + Emit(pubs, src, SubscribeCmd(src, dst)) + announce))
      else Ok(Outcome([], 0, subsec))
  }

  /** One key: an unsubscription is counted exactly for trust 0, and the
      attack surface is empty unless the trust is 1. */
  lemma ForKeyCounts(src: string, dst: string, trust: int, ms: seq<Mitigation>, pubs: seq<string>)
    requires '#' !in src && '#' !in dst
    ensures var o := ForKey(src + "#" + dst, trust, ms, pubs);
            && o.Ok?
            && o.value.unsubscribes == (if trust == 0 then 1 else 0)
            && o.value.surface == (if trust == 1 then Surface(ms) else [])
  {
    SplitCons(src, '#', dst);
    SplitNoSep(dst, '#');
  }

  /** One key: every publisher named as the source first asks the target
      to follow its security topic; a security message is sent exactly when
      the trust is 1, a `CBetween` mitigation exists and a publisher carries
      the source's name. */
  lemma ForKeyCommands(src: string, dst: string, trust: int, ms: seq<Mitigation>, pubs: seq<string>)
    requires '#' !in src && '#' !in dst
    ensures var o := ForKey(src + "#" + dst, trust, ms, pubs);
            && o.Ok?
            && |o.value.commands| >= CountNamed(pubs, src)
            && o.value.commands[..CountNamed(pubs, src)] == Emit(pubs, src, SubSecCmd(src, dst))
            && ((exists k :: 0 <= k < |o.value.commands| && o.value.commands[k] == SecMsgCmd(src)) <==>
                  trust == 1 && AnyBetween(ms) && src in pubs)
  {
    SplitCons(src, '#', dst);
    SplitNoSep(dst, '#');
    assert Split(src + "#" + dst, '#') == [src, dst];
    var subsec := Emit(pubs, src, SubSecCmd(src, dst));
    var later := if trust == 0 then Emit(pubs, src, UnsubCmd(src, dst))
                 else if trust == 1 then
                   Emit(pubs, src, SubscribeCmd(src, dst)) + (if AnyBetween(ms) then Emit(pubs, src, SecMsgCmd(src)) else [])
                 else [];
    var cs := ForKey(src + "#" + dst, trust, ms, pubs).value.commands;
    assert cs == subsec + later by {
      if trust != 0 && trust != 1 { assert subsec + [] == subsec; }
    }
    assert cs[..|subsec|] == subsec;
    SecMsgAfter(subsec, later, SecMsgCmd(src));
    EmitHas(pubs, src, SubSecCmd(src, dst), SecMsgCmd(src));
    if trust == 0 {
      EmitHas(pubs, src, UnsubCmd(src, dst), SecMsgCmd(src));
    } else if trust == 1 {
      var subscribe := Emit(pubs, src, SubscribeCmd(src, dst));
      var announce := if AnyBetween(ms) then Emit(pubs, src, SecMsgCmd(src)) else [];
      SecMsgAfter(subscribe, announce, SecMsgCmd(src));
      EmitHas(pubs, src, SubscribeCmd(src, dst), SecMsgCmd(src));
      if AnyBetween(ms) {
        EmitHas(pubs, src, SecMsgCmd(src), SecMsgCmd(src));
      }
    }
  }

  /** A command occurs in a concatenation exactly when it occurs in one of
      the halves. */
  lemma SecMsgAfter(a: seq<Command>, b: seq<Command>, c: Command)
    ensures (exists k :: 0 <= k < |a + b| && (a + b)[k] == c)
        <==> (exists k :: 0 <= k < |a| && a[k] == c) || (exists k :: 0 <= k < |b| && b[k] == c)
  {
    if exists k :: 0 <= k < |a + b| && (a + b)[k] == c {
      var k :| 0 <= k < |a + b| && (a + b)[k] == c;
      if k >= |a| {
        assert b[k - |a|] == c;
      } else {
        assert a[k] == c;
      }
    }
    if exists k :: 0 <= k < |a| && a[k] == c {
      var k :| 0 <= k < |a| && a[k] == c;
      assert (a + b)[k] == c;
    }
    if exists k :: 0 <= k < |b| && b[k] == c {
      var k :| 0 <= k < |b| && b[k] == c;
      assert (a + b)[|a| + k] == c;
    }
  }

  /** What `Emit` sends holds a command exactly when that is the command it
      repeats and some publisher carries the name. */
  lemma EmitHas(pubs: seq<string>, src: string, c: Command, d: Command)
    ensures var e := Emit(pubs, src, c);
            (exists k :: 0 <= k < |e| && e[k] == d) <==> c == d && src in pubs
  {
    var e := Emit(pubs, src, c);
    if c == d && src in pubs {
      assert e[0] == d;
    }
  }

  /** The three results of `mitigation_to_pubsub`: the attack surface and
      unsubscription count per key, and the commands sent, in order. */
  datatype Plan = Plan(surface: seq<(string, seq<string>)>, unsubscribes: seq<(string, int)>, commands: seq<Command>)

  /** `mitigation_to_pubsub`, with the publishers given by name. */
  function MitigationToPubsub(trust: seq<(string, int)>, ms: seq<Mitigation>, pubs: seq<string>): (r: Result<Plan>)
    ensures r.Ok? <==> forall k :: 0 <= k < |trust| ==> |Split(trust[k].0, '#')| >= 2
    ensures r.Ok? ==> |r.value.surface| == |trust| && |r.value.unsubscribes| == |trust|
    ensures r.Ok? ==> forall k :: 0 <= k < |trust| ==>
              r.value.surface[k] == (trust[k].0, ForKey(trust[k].0, trust[k].1, ms, pubs).value.surface) &&
              r.value.unsubscribes[k] == (trust[k].0, ForKey(trust[k].0, trust[k].1, ms, pubs).value.unsubscribes)
  {
    if |trust| == 0 then Ok(Plan([], [], []))
    else
      assert forall k :: 1 <= k < |trust| ==> trust[k] == trust[1..][k - 1];
      var o :- ForKey(trust[0].0, trust[0].1, ms, pubs);
      var rest :- MitigationToPubsub(trust[1..], ms, pubs);
      Ok(Plan([(trust[0].0, o.surface)] + rest.surface, [(trust[0].0, o.unsubscribes)] + rest.unsubscribes,
              o.commands + rest.commands))
  }
}
