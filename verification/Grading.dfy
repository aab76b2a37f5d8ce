/**
 Grading a scan: waivers in force, the findings reported, their counts, and the
 policy verdict. The counts and the verdict come from two separate passes.
 */
module Grading {
  import opened Wrappers
  import opened Cron

  /** The level a finding's text names once upper-cased. */
  datatype Level = Normal | Elevated | High | Critical | Unknown(name: string)

  /** The empty level, before any finding was counted. */
  const NO_LEVEL := Unknown("")

  datatype Ignored = Ignored(id: string, expiration: Option<Time>)

  datatype ScanPolicy = ScanPolicy(failOn: Option<Level>, ignore: seq<Ignored>)

  datatype Vulnerability = Vulnerability(id: string, name: string, level: Level)

  datatype Finding = Finding(id: string, extension: string, level: Level, waiver: Option<Ignored>)

  datatype LevelCount = LevelCount(level: Level, count: nat)

  datatype Summary = Summary(total: nat, waived: nat, highest: Level, levels: seq<LevelCount>)

  datatype Verdict = NoThreshold | WithinPolicy | Violated

  /** Ranks a level, lowest first, and -1 for an unknown one. */
  function LevelIndex(level: Level): int {
    match level
    case Normal => 0
    case Elevated => 1
    case High => 2
    case Critical => 3
    case Unknown(_) => -1
  }

  // ---- Waivers in force --------------------------------------------------------

  predicate Active(w: Ignored, at: Time) {
    w.expiration.None? || w.expiration.value > at
  }

  /** The ids in force, as a multiset: two sorted id lists are equal exactly when their multisets are. */
  function InForce(ignore: seq<Ignored>, at: Time): multiset<string> {
    if ignore == [] then multiset{}
    else
      var n := |ignore| - 1;
      InForce(ignore[..n], at) + if Active(ignore[n], at) then multiset{ignore[n].id} else multiset{}
  }

  function ActiveWaivers(policy: Option<ScanPolicy>, at: Time): multiset<string> {
    if policy.None? then multiset{} else InForce(policy.value.ignore, at)
  }

  method CollectActiveWaivers(policy: Option<ScanPolicy>, at: Time) returns (ids: multiset<string>)
    ensures ids == ActiveWaivers(policy, at)
  {
    ids := multiset{};
    if policy.Some? {
      var ignore := policy.value.ignore;
      for i := 0 to |ignore|
        invariant ids == InForce(ignore[..i], at)
      {
        assert ignore[..i + 1][..i] == ignore[..i];
        if ignore[i].expiration.None? || ignore[i].expiration.value > at {
          ids := ids + multiset{ignore[i].id};
        }
      }
      assert ignore[..|ignore|] == ignore;
    }
  }

  /** An id is in force exactly when some waiver for it never expires or expires later. */
  lemma {:induction false} InForceMember(ignore: seq<Ignored>, at: Time, id: string)
    ensures id in InForce(ignore, at) <==> exists w :: w in ignore && w.id == id && (w.expiration.None? || w.expiration.value > at)
  {
    if ignore != [] {
      var n := |ignore| - 1;
      InForceMember(ignore[..n], at, id);
      assert ignore == ignore[..n] + [ignore[n]];
    }
  }

  predicate Lapses(w: Ignored, t: Time, u: Time) {
    w.expiration.Some? && t < w.expiration.value <= u
  }

  ghost function Lapsed(ignore: seq<Ignored>, t: Time, u: Time): multiset<string> {
    if ignore == [] then multiset{}
    else
      var n := |ignore| - 1;
      Lapsed(ignore[..n], t, u) + if Lapses(ignore[n], t, u) then multiset{ignore[n].id} else multiset{}
  }

  lemma {:induction false} LapsedAreTheDifference(ignore: seq<Ignored>, t: Time, u: Time)
    requires t <= u
    ensures InForce(ignore, t) == InForce(ignore, u) + Lapsed(ignore, t, u)
  {
    if ignore != [] {
      LapsedAreTheDifference(ignore[..|ignore| - 1], t, u);
    }
  }

  lemma {:induction false} NoneLapsed(ignore: seq<Ignored>, t: Time, u: Time)
    ensures |Lapsed(ignore, t, u)| == 0 <==> forall w :: w in ignore ==> !Lapses(w, t, u)
  {
    if ignore != [] {
      var n := |ignore| - 1;
      NoneLapsed(ignore[..n], t, u);
      assert ignore == ignore[..n] + [ignore[n]];
    }
  }

  /** Time passing only ends waivers, and changes the set in force exactly when an expiry falls in between. */
  lemma WaiversOnlyLapse(policy: Option<ScanPolicy>, t: Time, u: Time)
    requires t <= u
    ensures ActiveWaivers(policy, u) <= ActiveWaivers(policy, t)
    ensures ActiveWaivers(policy, u) == ActiveWaivers(policy, t) <==>
            (policy.Some? ==> forall w :: w in policy.value.ignore ==> !Lapses(w, t, u))
  {
    if policy.Some? {
      var ignore := policy.value.ignore;
      LapsedAreTheDifference(ignore, t, u);
      NoneLapsed(ignore, t, u);
      assert |InForce(ignore, t)| == |InForce(ignore, u)| + |Lapsed(ignore, t, u)|;
      if |Lapsed(ignore, t, u)| == 0 {
        assert Lapsed(ignore, t, u) == multiset{};
      }
    }
  }

  // ---- Findings ----------------------------------------------------------------

  function WaiverFor(policy: Option<ScanPolicy>, id: string): Option<Ignored> {
    if policy.None? then None else FirstWaiver(policy.value.ignore, id)
  }

  function FirstWaiver(ignore: seq<Ignored>, id: string): (w: Option<Ignored>)
    ensures w.None? <==> forall x :: x in ignore ==> x.id != id
  {
    if ignore == [] then None
    else
      assert ignore == [ignore[0]] + ignore[1..];
      if ignore[0].id == id then Some(ignore[0]) else FirstWaiver(ignore[1..], id)
  }

  function Key(v: Vulnerability): (string, string) { (v.id, v.name) }

  /** No earlier vulnerability has the same id and name. */
  ghost predicate IsFirst(vs: seq<Vulnerability>, i: nat)
    requires i < |vs|
  {
    forall j :: 0 <= j < i ==> Key(vs[j]) != Key(vs[i])
  }

  function GradeOne(v: Vulnerability, policy: Option<ScanPolicy>, waivers: multiset<string>): Finding {
    Finding(v.id, v.name, v.level, if v.id in waivers then WaiverFor(policy, v.id) else None)
  }

  /** The reported findings: one per first occurrence, in order. */
  ghost function Findings(vs: seq<Vulnerability>, policy: Option<ScanPolicy>, waivers: multiset<string>): seq<Finding>
    decreases |vs|
  {
    if vs == [] then []
    else
      var n := |vs| - 1;
      Findings(vs[..n], policy, waivers) + if IsFirst(vs, n) then [GradeOne(vs[n], policy, waivers)] else []
  }

  /** The indices of first occurrences, in order. */
  ghost function Firsts(vs: seq<Vulnerability>): (r: seq<nat>)
    ensures forall k :: 0 <= k < |r| ==> r[k] < |vs|
    decreases |vs|
  {
    if vs == [] then []
    else
      var n := |vs| - 1;
      Firsts(vs[..n]) + if IsFirst(vs, n) then [n] else []
  }

  lemma {:induction false} FirstsAreTheFirst(vs: seq<Vulnerability>)
    ensures forall k :: 0 <= k < |Firsts(vs)| ==> IsFirst(vs, Firsts(vs)[k])
    ensures forall i :: 0 <= i < |vs| && IsFirst(vs, i) ==> i in Firsts(vs)
    ensures forall k, l :: 0 <= k < l < |Firsts(vs)| ==> Firsts(vs)[k] < Firsts(vs)[l]
    decreases |vs|
  {
    if vs != [] {
      var n := |vs| - 1;
      FirstsAreTheFirst(vs[..n]);
      forall k | 0 <= k < |Firsts(vs[..n])| ensures IsFirst(vs, Firsts(vs[..n])[k]) {
        assert IsFirst(vs[..n], Firsts(vs[..n])[k]);
      }
      forall i | 0 <= i < |vs| && IsFirst(vs, i) ensures i in Firsts(vs) {
        if i < n {
          assert IsFirst(vs[..n], i);
        }
      }
    }
  }

  lemma {:induction false} FindingsOfFirsts(vs: seq<Vulnerability>, policy: Option<ScanPolicy>, waivers: multiset<string>)
    ensures |Findings(vs, policy, waivers)| == |Firsts(vs)|
    ensures forall k :: 0 <= k < |Firsts(vs)| ==> Findings(vs, policy, waivers)[k] == GradeOne(vs[Firsts(vs)[k]], policy, waivers)
    decreases |vs|
  {
    if vs != [] {
      FindingsOfFirsts(vs[..|vs| - 1], policy, waivers);
    }
  }

  /** The findings are exactly the first occurrences of each (id, name), in the CLI's order. */
  lemma FindingsAreFirstOccurrences(vs: seq<Vulnerability>, policy: Option<ScanPolicy>, waivers: multiset<string>)
    ensures forall k :: 0 <= k < |Firsts(vs)| ==> IsFirst(vs, Firsts(vs)[k])
    ensures forall i :: 0 <= i < |vs| && IsFirst(vs, i) ==> i in Firsts(vs)
    ensures forall k, l :: 0 <= k < l < |Firsts(vs)| ==> Firsts(vs)[k] < Firsts(vs)[l]
    ensures |Findings(vs, policy, waivers)| == |Firsts(vs)|
    ensures forall k :: 0 <= k < |Firsts(vs)| ==> Findings(vs, policy, waivers)[k] == GradeOne(vs[Firsts(vs)[k]], policy, waivers)
  {
    FirstsAreTheFirst(vs);
    FindingsOfFirsts(vs, policy, waivers);
  }

  // ---- Summary -----------------------------------------------------------------

  /** The findings no waiver in force covers. */
  ghost function Counted(fs: seq<Finding>, waivers: multiset<string>): seq<Finding> {
    if fs == [] then []
    else
      var n := |fs| - 1;
      Counted(fs[..n], waivers) + if fs[n].id in waivers then [] else [fs[n]]
  }

  ghost function AtLevel(fs: seq<Finding>, level: Level): nat {
    if fs == [] then 0
    else
      var n := |fs| - 1;
      AtLevel(fs[..n], level) + if fs[n].level == level then 1 else 0
  }

  /** The highest known level present, empty when there is none. */
  ghost function Highest(fs: seq<Finding>): (h: Level)
    ensures forall i :: 0 <= i < |fs| ==> LevelIndex(fs[i].level) <= LevelIndex(h)
    ensures h == NO_LEVEL || exists i :: 0 <= i < |fs| && fs[i].level == h
  {
    if fs == [] then NO_LEVEL
    else
      var n := |fs| - 1;
      var h := Highest(fs[..n]);
      assert forall i :: 0 <= i < n ==> fs[..n][i] == fs[i];
      if LevelIndex(fs[n].level) > LevelIndex(h) then fs[n].level else h
  }

  ghost function SummaryOf(fs: seq<Finding>, waivers: multiset<string>): Summary
    requires |Counted(fs, waivers)| <= |fs|
  {
    var counted := Counted(fs, waivers);
    Summary(|counted|, |fs| - |counted|, Highest(counted),
            [LevelCount(Critical, AtLevel(counted, Critical)),
             LevelCount(High, AtLevel(counted, High)),
             LevelCount(Elevated, AtLevel(counted, Elevated)),
             LevelCount(Normal, AtLevel(counted, Normal))])
  }

  lemma {:induction false} CountedShorter(fs: seq<Finding>, waivers: multiset<string>)
    ensures |Counted(fs, waivers)| <= |fs|
    ensures forall f :: f in Counted(fs, waivers) <==> f in fs && f.id !in waivers
  {
    if fs != [] {
      var n := |fs| - 1;
      CountedShorter(fs[..n], waivers);
      assert fs == fs[..n] + [fs[n]];
    }
  }

  ghost function Graded(vs: seq<Vulnerability>, policy: Option<ScanPolicy>, waivers: multiset<string>): Summary {
    CountedShorter(Findings(vs, policy, waivers), waivers);
    SummaryOf(Findings(vs, policy, waivers), waivers)
  }

  /** The set of keys seen before index i. */
  ghost predicate SeenBefore(seen: set<(string, string)>, vs: seq<Vulnerability>, i: nat)
    requires i <= |vs|
  {
    forall k :: k in seen <==> exists j :: 0 <= j < i && Key(vs[j]) == k
  }

  function CountAt(counts: map<Level, nat>, level: Level): nat {
    if level in counts then counts[level] else 0
  }

  ghost predicate Tallies(counts: map<Level, nat>, fs: seq<Finding>) {
    forall l :: CountAt(counts, l) == AtLevel(fs, l)
  }

  lemma TallyOneMore(counts: map<Level, nat>, fs: seq<Finding>, f: Finding)
    requires Tallies(counts, fs)
    ensures Tallies(counts[f.level := CountAt(counts, f.level) + 1], fs + [f])
  {
    forall l ensures CountAt(counts[f.level := CountAt(counts, f.level) + 1], l) == AtLevel(fs + [f], l) {
      AtLevelOneMore(fs, f, l);
      assert CountAt(counts, l) == AtLevel(fs, l);
    }
  }

  lemma AtLevelOneMore(fs: seq<Finding>, f: Finding, level: Level)
    ensures AtLevel(fs + [f], level) == AtLevel(fs, level) + if f.level == level then 1 else 0
  {
  }

  lemma SeenOneMore(seen: set<(string, string)>, vs: seq<Vulnerability>, i: nat)
    requires i < |vs| && SeenBefore(seen, vs, i)
    ensures Key(vs[i]) !in seen <==> IsFirst(vs[..i + 1], i)
    ensures SeenBefore(seen + {Key(vs[i])}, vs, i + 1)
  {
  }

  lemma FindingsOneMore(vs: seq<Vulnerability>, policy: Option<ScanPolicy>, waivers: multiset<string>, i: nat)
    requires i < |vs|
    ensures Findings(vs[..i + 1], policy, waivers) ==
            Findings(vs[..i], policy, waivers) +
            if IsFirst(vs[..i + 1], i) then [GradeOne(vs[i], policy, waivers)] else []
  {
    assert vs[..i + 1][..i] == vs[..i];
  }

  lemma CountedOneMore(fs: seq<Finding>, waivers: multiset<string>, f: Finding)
    ensures Counted(fs + [f], waivers) == Counted(fs, waivers) + if f.id in waivers then [] else [f]
  {
  }

  lemma HighestOneMore(fs: seq<Finding>, f: Finding)
    ensures Highest(fs + [f]) == if LevelIndex(f.level) > LevelIndex(Highest(fs)) then f.level else Highest(fs)
  {
  }

  method Grade(vs: seq<Vulnerability>, policy: Option<ScanPolicy>, waivers: multiset<string>)
    returns (findings: seq<Finding>, summary: Summary)
    ensures findings == Findings(vs, policy, waivers)
    ensures summary == Graded(vs, policy, waivers)
    ensures summary.total + summary.waived == |findings|
  {
    findings := [];
    var counts: map<Level, nat> := map[];
    var seen: set<(string, string)> := {};
    var total, waived, highest := 0, 0, NO_LEVEL;
    ghost var counted: seq<Finding> := [];
    for i := 0 to |vs|
      invariant findings == Findings(vs[..i], policy, waivers)
      invariant SeenBefore(seen, vs, i)
      invariant counted == Counted(findings, waivers)
      invariant total == |counted| && total + waived == |findings|
      invariant Tallies(counts, counted)
      invariant highest == Highest(counted)
    {
      var v := vs[i];
      SeenOneMore(seen, vs, i);
      FindingsOneMore(vs, policy, waivers, i);
      if Key(v) in seen {
        assert seen + {Key(v)} == seen;
        continue;
      }
      seen := seen + {Key(v)};
      var f := GradeOne(v, policy, waivers);
      CountedOneMore(findings, waivers, f);
      if v.id in waivers {
        waived := waived + 1;
      } else {
        TallyOneMore(counts, counted, f);
        HighestOneMore(counted, f);
        counts := counts[f.level := CountAt(counts, f.level) + 1];
        total := total + 1;
        if LevelIndex(f.level) > LevelIndex(highest) {
          highest := f.level;
        }
        counted := counted + [f];
      }
      findings := findings + [f];
    }
    assert vs[..|vs|] == vs;
    var rows := TallyRows(counts, counted);
    summary := Summary(total, waived, highest, rows);
  }

  /** Every level, highest first, whether or not it occurs. */
  method TallyRows(counts: map<Level, nat>, ghost counted: seq<Finding>) returns (rows: seq<LevelCount>)
    requires Tallies(counts, counted)
    ensures rows == [LevelCount(Critical, AtLevel(counted, Critical)),
                     LevelCount(High, AtLevel(counted, High)),
                     LevelCount(Elevated, AtLevel(counted, Elevated)),
                     LevelCount(Normal, AtLevel(counted, Normal))]
  {
    var levels := [Normal, Elevated, High, Critical];
    rows := [];
    var k := |levels|;
    while k > 0
      invariant 0 <= k <= 4 && |rows| == 4 - k
      invariant forall j :: 0 <= j < |rows| ==> rows[j] == LevelCount(levels[3 - j], AtLevel(counted, levels[3 - j]))
    {
      k := k - 1;
      rows := rows + [LevelCount(levels[k], CountAt(counts, levels[k]))];
    }
  }

  /** The four level counts add up to the findings of known level, so to the total exactly when all are known. */
  lemma {:induction false} LevelsSumToKnown(fs: seq<Finding>)
    ensures var sum := AtLevel(fs, Critical) + AtLevel(fs, High) + AtLevel(fs, Elevated) + AtLevel(fs, Normal);
            && sum <= |fs|
            && (sum == |fs| <==> forall i :: 0 <= i < |fs| ==> LevelIndex(fs[i].level) >= 0)
  {
    if fs != [] {
      var n := |fs| - 1;
      LevelsSumToKnown(fs[..n]);
      assert forall i :: 0 <= i < n ==> fs[..n][i] == fs[i];
    }
  }

  // ---- Verdict -----------------------------------------------------------------

  ghost predicate Fails(f: Finding, failOn: Level) {
    f.waiver.None? && LevelIndex(f.level) >= LevelIndex(failOn)
  }

  ghost function VerdictOf(findings: seq<Finding>, policy: Option<ScanPolicy>): Verdict {
    if policy.None? || policy.value.failOn.None? then NoThreshold
    else if exists i :: 0 <= i < |findings| && Fails(findings[i], policy.value.failOn.value) then Violated
    else WithinPolicy
  }

  method DecideVerdict(findings: seq<Finding>, policy: Option<ScanPolicy>) returns (verdict: Verdict)
    ensures verdict == VerdictOf(findings, policy)
  {
    if policy.None? || policy.value.failOn.None? {
      return NoThreshold;
    }
    var failOn := policy.value.failOn.value;
    var n := 0;
    for i := 0 to |findings|
      invariant n > 0 <==> exists j :: 0 <= j < i && Fails(findings[j], failOn)
    {
      var f := findings[i];
      if !(f.waiver.Some? || LevelIndex(f.level) < LevelIndex(failOn)) {
        assert Fails(findings[i], failOn);
        n := n + 1;
      }
    }
    return if n == 0 then WithinPolicy else Violated;
  }

  /** Under the waivers in force at some time, a finding carries a waiver exactly when its id is waived. */
  lemma WaivedIffCarried(vs: seq<Vulnerability>, policy: Option<ScanPolicy>, at: Time)
    ensures var w := ActiveWaivers(policy, at);
            forall f :: f in Findings(vs, policy, w) ==> (f.waiver.Some? <==> f.id in w)
  {
    var w := ActiveWaivers(policy, at);
    FindingsAreFirstOccurrences(vs, policy, w);
    forall f | f in Findings(vs, policy, w)
      ensures f.waiver.Some? <==> f.id in w
    {
      if f.id in w {
        InForceMember(policy.value.ignore, at, f.id);
      }
    }
  }

  /** The highest level reaches a bar that some finding must reach, exactly when a finding does. */
  lemma HighestReaches(fs: seq<Finding>, bar: int)
    ensures |fs| > 0 && LevelIndex(Highest(fs)) >= bar <==> exists f :: f in fs && LevelIndex(f.level) >= bar
  {
  }

  /** The verdict is Violated exactly when the summary counts a finding and its highest level reaches the threshold. */
  lemma VerdictAgreesWithSummary(vs: seq<Vulnerability>, policy: Option<ScanPolicy>, at: Time)
    requires policy.Some? && policy.value.failOn.Some?
    ensures var w := ActiveWaivers(policy, at);
            var summary := Graded(vs, policy, w);
            VerdictOf(Findings(vs, policy, w), policy) == Violated <==>
            summary.total > 0 && LevelIndex(summary.highest) >= LevelIndex(policy.value.failOn.value)
  {
    var w := ActiveWaivers(policy, at);
    var fs := Findings(vs, policy, w);
    var failOn := policy.value.failOn.value;
    CountedShorter(fs, w);
    WaivedIffCarried(vs, policy, at);
    HighestReaches(Counted(fs, w), LevelIndex(failOn));
    FailsIffCountedReaches(fs, w, failOn);
  }

  lemma FailsIffCountedReaches(fs: seq<Finding>, w: multiset<string>, failOn: Level)
    requires forall f :: f in fs ==> (f.waiver.Some? <==> f.id in w)
    ensures (exists i :: 0 <= i < |fs| && Fails(fs[i], failOn)) <==>
            exists f :: f in Counted(fs, w) && LevelIndex(f.level) >= LevelIndex(failOn)
  {
  }

  /** With the findings fixed, waivers expiring can only turn a verdict from compliant to violated. */
  lemma ExpiryOnlyTightens(vs: seq<Vulnerability>, policy: Option<ScanPolicy>, t: Time, u: Time)
    requires t <= u
    requires VerdictOf(Findings(vs, policy, ActiveWaivers(policy, t)), policy) == Violated
    ensures VerdictOf(Findings(vs, policy, ActiveWaivers(policy, u)), policy) == Violated
  {
    var wt, wu := ActiveWaivers(policy, t), ActiveWaivers(policy, u);
    var ft, fu := Findings(vs, policy, wt), Findings(vs, policy, wu);
    FindingsAreFirstOccurrences(vs, policy, wt);
    FindingsAreFirstOccurrences(vs, policy, wu);
    WaiversOnlyLapse(policy, t, u);
    WaivedIffCarried(vs, policy, t);
    var i :| 0 <= i < |ft| && Fails(ft[i], policy.value.failOn.value);
    assert ft[i] in ft;
    assert fu[i].id == ft[i].id && fu[i].level == ft[i].level;
    assert fu[i].id !in wu;
    assert Fails(fu[i], policy.value.failOn.value);
  }
}
