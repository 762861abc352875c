/** What a report says: findings ranked and complete, and the verdict read off the rules that fired. */
module Reports {
  import opened Rows
  import opened WindowSummaries
  import opened Analysis

  // ---- ranking ----

  function RankIs(rank: nat): Finding -> bool {
    (f: Finding) => Rank(f) == rank
  }

  ghost predicate Ranked(s: seq<Finding>) {
    forall i, j :: 0 <= i < j < |s| ==> Rank(s[i]) >= Rank(s[j])
  }

  lemma {:induction false} InsertMembers(s: seq<Finding>, f: Finding)
    ensures forall i :: 0 <= i < |InsertByRank(s, f)| ==> InsertByRank(s, f)[i] in s || InsertByRank(s, f)[i] == f
  {
    var r := InsertByRank(s, f);
    forall i | 0 <= i < |r| ensures r[i] in s || r[i] == f { assert r[i] in multiset(r); }
  }

  lemma {:induction false} InsertRanks(s: seq<Finding>, f: Finding)
    requires Ranked(s)
    ensures Ranked(InsertByRank(s, f))
  {
    if s != [] && Rank(s[|s| - 1]) < Rank(f) {
      var front, last := s[..|s| - 1], s[|s| - 1];
      InsertRanks(front, f);
      InsertMembers(front, f);
    }
  }

  lemma {:induction false} InsertIsStable(s: seq<Finding>, f: Finding, rank: nat)
    requires Ranked(s)
    ensures Select(InsertByRank(s, f), RankIs(rank)) == Select(s + [f], RankIs(rank))
  {
    SelectPush(s, f, RankIs(rank));
    if s != [] && Rank(s[|s| - 1]) < Rank(f) {
      var front, last := s[..|s| - 1], s[|s| - 1];
      InsertIsStable(front, f, rank);
      SelectPush(front, f, RankIs(rank));
      SelectPush(InsertByRank(front, f), last, RankIs(rank));
      if rank == Rank(f) {
        assert Select(s, RankIs(rank)) == Select(front, RankIs(rank));
      }
    }
  }

  /** The stable sort: most severe first, and findings of one rank in the order they fired. */
  lemma {:induction false} RankingIsStable(s: seq<Finding>, rank: nat)
    ensures Ranked(SortByRank(s))
    ensures Select(SortByRank(s), RankIs(rank)) == Select(s, RankIs(rank))
  {
    if s != [] {
      var front, last := s[..|s| - 1], s[|s| - 1];
      RankingIsStable(front, rank);
      InsertRanks(SortByRank(front), last);
      InsertIsStable(SortByRank(front), last, rank);
      SelectPush(SortByRank(front), last, RankIs(rank));
    }
  }

  // ---- verdict ----

  lemma {:induction false} FoundInParts(a: seq<Finding>, b: seq<Finding>, id: string)
    ensures Found(a + b, id) <==> Found(a, id) || Found(b, id)
  {
    if Found(a, id) { var f :| f in a && f.id == id; assert f in a + b; }
    if Found(b, id) { var f :| f in b && f.id == id; assert f in a + b; }
  }

  /** The minimum frequency stayed in one of the two lock bands for at least half of the readings. */
  predicate Locked(f: Facts) {
    AtLeast(f.context.lowBand, 50.0) || AtLeast(f.context.highBand, 50.0)
  }

  /** At least four of the six signs show, on a part with throttle bits. */
  predicate PowerCapped(i: Input, f: Facts) {
    f.amd && Score(i, f) >= 4
  }

  lemma {:induction false} FoundSingle(s: seq<Finding>, id: string, sought: string)
    requires Single(s, id)
    ensures Found(s, sought) <==> s != [] && id == sought
  {
    if s != [] { assert s[0] in s; }
  }

  lemma {:induction false} FoundAmong(parts: seq<seq<Finding>>, ids: seq<string>, sought: string)
    requires |parts| == |ids| && forall k :: 0 <= k < |ids| ==> Single(parts[k], ids[k])
    ensures Found(Flatten(parts), sought) <==> exists k :: 0 <= k < |ids| && ids[k] == sought && parts[k] != []
  {
    if parts != [] {
      var n := |parts| - 1;
      FoundAmong(parts[..n], ids[..n], sought);
      FoundInParts(Flatten(parts[..n]), parts[n], sought);
      FoundSingle(parts[n], ids[n], sought);
      if Found(Flatten(parts[..n]), sought) {
        var k :| 0 <= k < n && ids[..n][k] == sought && parts[..n][k] != [];
        assert ids[k] == sought && parts[k] != [];
      }
      if k :| 0 <= k < |ids| && ids[k] == sought && parts[k] != [] {
        assert k < n ==> ids[..n][k] == sought && parts[..n][k] != [];
      }
    }
  }

  const IDS := ["cpu_frequency_lock", "pmf_missing", "adapter_or_ac_uncertain", "prochot_suspect_legacy_status",
                "thermal_limit_shape", "power_limit_without_thermal", "framework_146_shape", "sleep_wake_correlation"]

  lemma {:induction false} FoundAt(parts: seq<seq<Finding>>, ids: seq<string>, k: nat)
    requires k < |parts| == |ids| && forall j :: 0 <= j < |ids| ==> Single(parts[j], ids[j])
    requires forall j :: 0 <= j < |ids| && ids[j] == ids[k] ==> j == k
    ensures Found(Flatten(parts), ids[k]) <==> parts[k] != []
  {
    FoundAmong(parts, ids, ids[k]);
  }

  lemma {:induction false} InOrder(a: seq<Finding>, b: seq<Finding>, c: seq<Finding>, d: seq<Finding>,
                e: seq<Finding>, f: seq<Finding>, g: seq<Finding>, h: seq<Finding>)
    requires Single(a, IDS[0]) && Single(b, IDS[1]) && Single(c, IDS[2]) && Single(d, IDS[3])
    requires Single(e, IDS[4]) && Single(f, IDS[5]) && Single(g, IDS[6]) && Single(h, IDS[7])
    ensures forall k :: 0 <= k < |IDS| ==> Single([a, b, c, d, e, f, g, h][k], IDS[k])
  { }

  lemma {:induction false} EachFiresOnce(i: Input, f: Facts)
    ensures |Fired(i, f)| == |IDS| && forall k :: 0 <= k < |IDS| ==> Single(Fired(i, f)[k], IDS[k])
  {
    InOrder(CpuLock(i, f), NoPmfLimits(f), AcUncertain(i, f), ProchotLegacy(f), ThermalShape(i, f), PowerLimit(i, f), PowerCap(i, f), SleepWake(i));
  }

  /** A finding is reported exactly when its rule fired. */
  lemma {:induction false} FiredIsFound(i: Input, f: Facts, k: nat)
    requires k < 8
    ensures Found(Findings(i, f), IDS[k]) <==> Fired(i, f)[k] != []
  {
    EachFiresOnce(i, f);
    IdsDiffer();
    FoundAt(Fired(i, f), IDS, k);
  }

  lemma {:induction false} IdsDiffer()
    ensures forall j, k :: 0 <= j < 8 && 0 <= k < 8 && IDS[j] == IDS[k] ==> j == k
  {
    var lengths := seq(8, k requires 0 <= k < 8 => |IDS[k]|);
    assert lengths == [18, 11, 23, 29, 19, 27, 19, 22];
    assert IDS[4][0] != IDS[6][0];
  }

  /** The verdict names the power cap when at least four of its six signs show on a part with throttle bits, else the
      frequency lock, else the thermal shape; only a window in which no rule fired has no pattern. */
  lemma {:induction false} VerdictMeaning(i: Input)
    ensures var f, e, verdict := FactsOf(i), Evidence(i), RunAnalysis(i).verdict;
            && (verdict == Framework146 <==> PowerCapped(e, f))
            && (verdict == FrequencyLock <==> !PowerCapped(e, f) && Locked(f))
            && (verdict == Thermal <==> !PowerCapped(e, f) && !Locked(f) && ThermalDominant(f))
            && (verdict == NoPattern <==> Findings(e, f) == [])
  {
    var f, e := FactsOf(i), Evidence(i);
    FiredIsFound(e, f, 0);
    FiredIsFound(e, f, 4);
    FiredIsFound(e, f, 6);
  }

  /** Ranking neither drops nor adds findings. */
  lemma {:induction false} ReportedIsFired(i: Input, id: string)
    ensures Found(RunAnalysis(i).findings, id) <==> Found(Findings(Evidence(i), FactsOf(i)), id)
  {
    SameFound(SortByRank(Findings(Evidence(i), FactsOf(i))), Findings(Evidence(i), FactsOf(i)), id);
  }

  lemma {:induction false} SameFound(a: seq<Finding>, b: seq<Finding>, id: string)
    requires multiset(a) == multiset(b)
    ensures Found(a, id) <==> Found(b, id)
  {
    SameMembers(a, b);
  }
}
