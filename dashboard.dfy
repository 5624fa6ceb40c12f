/** The dashboard (`Dashboard`): the total number of quail over all cages
    and the number of cages, read from the cage table and merged into the
    previous statistics; the feed stock stays a placeholder. */
module Dashboard {
  import opened Common
  import opened Kandang

  datatype Stats = Stats(totalPuyuh: int, stokPakan: int, activeCages: int)

  /** The statistics before the first fetch. */
  const InitialStats := Stats(0, 0, 0)

  /** `cages.reduce((acc, curr) => acc + curr.jumlah_puyuh, 0)`. */
  function SumPuyuh(cages: seq<Cage>): int {
    if cages == [] then 0 else SumPuyuh(cages[..|cages| - 1]) + cages[|cages| - 1].jumlahPuyuh
  }

  /** `fetchStats` on the rows the query returned; `None` is a `null` data
      field (a failed query), which leaves the statistics as they were. */
  function FetchStats(prev: Stats, data: Option<seq<Cage>>): (s: Stats)
    ensures data.None? ==> s == prev
    ensures s.stokPakan == prev.stokPakan
    ensures data.Some? ==> s.totalPuyuh == SumPuyuh(data.value) && s.activeCages == |data.value|
  {
    match data
    case None => prev
    case Some(cages) => prev.(totalPuyuh := SumPuyuh(cages), activeCages := |cages|)
  }

  // ---------------------------------------------------------------------
  // Lemmas

  /** An empty table gives no quail and no cages, and keeps the feed stock. */
  lemma EmptyTableGivesZero(prev: Stats)
    ensures FetchStats(prev, Some([])) == Stats(0, prev.stokPakan, 0)
  {
  }

  /** The total splits over a concatenation. */
  lemma {:induction false} SumPuyuhOfConcat(a: seq<Cage>, b: seq<Cage>)
    ensures SumPuyuh(a + b) == SumPuyuh(a) + SumPuyuh(b)
    decreases |b|
  {
    if b == [] {
      assert a + b == a;
    } else {
      var n := |b|;
      assert (a + b)[..|a + b| - 1] == a + b[..n - 1];
      assert (a + b)[|a + b| - 1] == b[n - 1];
      SumPuyuhOfConcat(a, b[..n - 1]);
    }
  }

  /** Cages that are never negative give a total that is not negative. */
  lemma {:induction false} SumPuyuhIsNotNegative(cages: seq<Cage>)
    requires forall c :: c in cages ==> c.jumlahPuyuh >= 0
    ensures SumPuyuh(cages) >= 0
  {
    if cages != [] {
      var n := |cages|;
      assert forall c :: c in cages[..n - 1] ==> c in cages;
      assert cages[n - 1] in cages;
      SumPuyuhIsNotNegative(cages[..n - 1]);
    }
  }

  /** Tables whose counts agree row by row have the same total. */
  lemma {:induction false} SameCountsSameTotal(a: seq<Cage>, b: seq<Cage>)
    requires |a| == |b| && forall i :: 0 <= i < |a| ==> a[i].jumlahPuyuh == b[i].jumlahPuyuh
    ensures SumPuyuh(a) == SumPuyuh(b)
  {
    if a != [] {
      SameCountsSameTotal(a[..|a| - 1], b[..|b| - 1]);
    }
  }

  /** Tables whose counts agree except in row `k` differ in total by the
      difference in that row. */
  lemma {:induction false} OneCountChanged(a: seq<Cage>, b: seq<Cage>, k: int)
    requires |a| == |b| && 0 <= k < |a|
    requires forall i :: 0 <= i < |a| && i != k ==> a[i].jumlahPuyuh == b[i].jumlahPuyuh
    ensures SumPuyuh(b) == SumPuyuh(a) - a[k].jumlahPuyuh + b[k].jumlahPuyuh
  {
    var n := |a|;
    if k == n - 1 {
      SameCountsSameTotal(a[..n - 1], b[..n - 1]);
    } else {
      OneCountChanged(a[..n - 1], b[..n - 1], k);
    }
  }

  /** After an accepted population reduction the dashboard total drops by
      exactly the amount, and the number of cages stays the same. */
  lemma ReductionLowersTotal(prev: Stats, cages: seq<Cage>, kandang: Cage, amount: int)
    requires IdsAscending(cages) && kandang in cages && 0 < amount <= kandang.jumlahPuyuh
    ensures var after := SetPopulation(cages, kandang.id, kandang.jumlahPuyuh - amount);
            FetchStats(prev, Some(after)).totalPuyuh == FetchStats(prev, Some(cages)).totalPuyuh - amount
            && FetchStats(prev, Some(after)).activeCages == FetchStats(prev, Some(cages)).activeCages
  {
    var after := SetPopulation(cages, kandang.id, kandang.jumlahPuyuh - amount);
    ReductionOnlyLowersTarget(cages, kandang, amount);
    var k :| 0 <= k < |cages| && cages[k] == kandang;
    OneCountChanged(cages, after, k);
  }

  /** A cage added to the table adds its count and one cage. */
  lemma AddedCageRaisesTotal(prev: Stats, cages: seq<Cage>, c: Cage)
    ensures FetchStats(prev, Some(cages + [c])).totalPuyuh == FetchStats(prev, Some(cages)).totalPuyuh + c.jumlahPuyuh
    ensures FetchStats(prev, Some(cages + [c])).activeCages == FetchStats(prev, Some(cages)).activeCages + 1
  {
    assert (cages + [c])[..|cages + [c]| - 1] == cages;
  }

  /** A deleted cage takes its count and one cage with it. */
  lemma DeletedCageLowersTotal(prev: Stats, cages: seq<Cage>, k: int)
    requires IdsAscending(cages) && 0 <= k < |cages|
    ensures var rest := WithoutCage(cages, cages[k].id);
            FetchStats(prev, Some(rest)).totalPuyuh == FetchStats(prev, Some(cages)).totalPuyuh - cages[k].jumlahPuyuh
            && FetchStats(prev, Some(rest)).activeCages == FetchStats(prev, Some(cages)).activeCages - 1
  {
    DeleteRemovesOneRow(cages, k);
    RemovedRowLowersTotal(cages, k);
  }

  /** Taking out row `k` takes its count out of the total. */
  lemma RemovedRowLowersTotal(cages: seq<Cage>, k: int)
    requires 0 <= k < |cages|
    ensures SumPuyuh(cages[..k] + cages[k + 1..]) == SumPuyuh(cages) - cages[k].jumlahPuyuh
  {
    var front, back := cages[..k + 1], cages[k + 1..];
    assert cages == front + back;
    assert front[..k] == cages[..k];
    SumPuyuhOfConcat(front, back);
    SumPuyuhOfConcat(cages[..k], back);
  }
}
