/** `cleanOldData`: a location's history keeps its 30 latest dates, where
    "latest" is the order of JavaScript's default `sort()` on the date keys. */
module Retention {
  import opened Strings

  /** `maxHistoryDays`. */
  const MaxHistoryDays := 30

  function Min(a: int, b: int): int { if a <= b then a else b }

  /** The elements of a sequence, as a set. */
  function Elems(s: seq<string>): set<string> {
    set x | x in s
  }

  /** `kept` is a pruning of `h`: a part of it with unchanged values, of size
      `min(|h|, 30)`, such that every dropped date sorts before every kept one. */
  ghost predicate Pruned<V>(kept: map<string, V>, h: map<string, V>) {
    && (forall d :: d in kept ==> d in h && kept[d] == h[d])
    && |kept.Keys| == Min(|h.Keys|, MaxHistoryDays)
    && (forall d, e :: d in h && d !in kept && e in kept ==> LexLess(d, e))
  }

  /** Drops all but the last 30 of `dates` from `h`. */
  function CutOldest<V>(h: map<string, V>, dates: seq<string>): map<string, V> {
    if |dates| > MaxHistoryDays then h - Elems(dates[..|dates| - MaxHistoryDays]) else h
  }

  /** What `cleanOldData` leaves behind: the keys sorted, the oldest cut. */
  function Prune<V>(h: map<string, V>): map<string, V> {
    CutOldest(h, SortedDates(h.Keys))
  }

  /** `cleanOldData(locationHistory)`: sort the keys, then delete the oldest
      ones one by one. */
  method CleanOldData<V>(h: map<string, V>) returns (kept: map<string, V>)
    ensures kept == Prune(h)
  {
    var dates := SortedDates(h.Keys);
    kept := DeleteOldest(h, dates);
  }

  /** The deletion loop of `cleanOldData`, given the sorted keys. */
  method DeleteOldest<V>(h: map<string, V>, dates: seq<string>) returns (kept: map<string, V>)
    ensures kept == CutOldest(h, dates)
  {
    kept := h;
    if |dates| > MaxHistoryDays {
      var toDelete := dates[..|dates| - MaxHistoryDays];
      var i := 0;
      while i < |toDelete|
        invariant 0 <= i <= |toDelete|
        invariant kept == h - Elems(toDelete[..i])
      {
        DeleteOne(h, toDelete, i);
        kept := kept - {toDelete[i]};
        i := i + 1;
      }
      assert toDelete[..i] == toDelete;
    }
  }

  lemma DeleteOne<V>(h: map<string, V>, s: seq<string>, i: nat)
    requires i < |s|
    ensures h - Elems(s[..i]) - {s[i]} == h - Elems(s[..i + 1])
  {
    assert s[..i + 1] == s[..i] + [s[i]];
    assert Elems(s[..i + 1]) == Elems(s[..i]) + {s[i]};
  }

  /** Cutting an ascending list of dates at `k`: the two parts are disjoint,
      the later part has `|dates| - k` distinct dates, and each date of the
      earlier part sorts before each date of the later one. */
  lemma {:induction false} CutAscending(dates: seq<string>, k: nat)
    requires StrictlyAscending(dates) && k <= |dates|
    ensures Elems(dates) == Elems(dates[..k]) + Elems(dates[k..])
    ensures |Elems(dates[k..])| == |dates| - k
    ensures forall x, y :: x in Elems(dates[..k]) && y in Elems(dates[k..]) ==> LexLess(x, y)
    ensures Elems(dates[..k]) !! Elems(dates[k..])
  {
    assert dates == dates[..k] + dates[k..];
    forall x, y | x in Elems(dates[..k]) && y in Elems(dates[k..]) ensures LexLess(x, y) {
      var i :| 0 <= i < k && dates[..k][i] == x;
      var j :| 0 <= j < |dates| - k && dates[k..][j] == y;
      assert dates[i] == x && dates[k + j] == y;
    }
    forall i, j | 0 <= i < j < |dates[k..]| ensures dates[k..][i] != dates[k..][j] {
      assert LexLess(dates[k + i], dates[k + j]);
      LexLessIrreflexive(dates[k + i]);
    }
    DistinctElemsCount(dates[k..]);
    forall x | x in Elems(dates[..k]) ensures x !in Elems(dates[k..]) {
      LexLessIrreflexive(x);
    }
  }

  lemma {:induction false} DistinctElemsCount(s: seq<string>)
    requires forall i, j :: 0 <= i < j < |s| ==> s[i] != s[j]
    ensures |Elems(s)| == |s|
  {
    if s != [] {
      var t := s[1..];
      DistinctElemsCount(t);
      assert Elems(s) == {s[0]} + Elems(t);
      forall j | 0 <= j < |t| ensures t[j] != s[0] {
        assert t[j] == s[j + 1];
      }
    }
  }

  lemma MapMinus<V>(h: map<string, V>, gone: set<string>)
    ensures (h - gone).Keys == h.Keys - gone
    ensures forall d :: d in h - gone ==> (h - gone)[d] == h[d]
  {
  }

  lemma CutOldestIsPruning<V>(h: map<string, V>, dates: seq<string>)
    requires StrictlyAscending(dates) && Elems(dates) == h.Keys && |dates| == |h.Keys|
    ensures Pruned(CutOldest(h, dates), h)
  {
    var n := |dates|;
    if n > MaxHistoryDays {
      var k := n - MaxHistoryDays;
      var gone, young := Elems(dates[..k]), Elems(dates[k..]);
      var kept := CutOldest(h, dates);
      assert kept == h - gone;
      CutAscending(dates, k);
      MapMinus(h, gone);
      assert kept.Keys == young;
      CutOrder(h, kept, gone, young);
      CutSize(h, kept, young, n);
    }
  }

  lemma CutSize<V>(h: map<string, V>, kept: map<string, V>, young: set<string>, n: nat)
    requires kept.Keys == young && |young| == MaxHistoryDays && n > MaxHistoryDays && |h.Keys| == n
    ensures |kept.Keys| == Min(|h.Keys|, MaxHistoryDays)
  {
  }

  /** Keeping exactly the later part of a split of the keys drops only dates
      that sort before every kept one. */
  lemma CutOrder<V>(h: map<string, V>, kept: map<string, V>, gone: set<string>, young: set<string>)
    requires h.Keys == gone + young && kept.Keys == young
    requires forall x, y :: x in gone && y in young ==> LexLess(x, y)
    ensures forall d, e :: d in h && d !in kept && e in kept ==> LexLess(d, e)
  {
    forall d, e | d in h && d !in kept && e in kept ensures LexLess(d, e) {
      assert d in gone && e in young;
    }
  }

  lemma PruneIsPruning<V>(h: map<string, V>)
    ensures Pruned(Prune(h), h)
  {
    var dates := SortedDates(h.Keys);
    assert Elems(dates) == h.Keys;
    CutOldestIsPruning(h, dates);
  }

  /** The size bound and the "nothing invented" half of the pruning contract. */
  lemma PruneBound<V>(h: map<string, V>)
    ensures |Prune(h).Keys| <= MaxHistoryDays && |Prune(h).Keys| <= |h.Keys|
    ensures forall d :: d in Prune(h) ==> d in h && Prune(h)[d] == h[d]
  {
    PruneIsPruning(h);
    PrunedBound(Prune(h), h);
  }

  lemma PrunedBound<V>(kept: map<string, V>, h: map<string, V>)
    requires Pruned(kept, h)
    ensures |kept.Keys| <= MaxHistoryDays && |kept.Keys| <= |h.Keys|
    ensures forall d :: d in kept ==> d in h && kept[d] == h[d]
  {
  }

  /** Two sets of the same size that differ each have an element the other lacks. */
  lemma SameSizeDiffer(a: set<string>, b: set<string>)
    requires |a| == |b| && a != b
    ensures a - b != {} && b - a != {}
  {
    assert a == (a * b) + (a - b);
    assert b == (a * b) + (b - a);
    assert |a - b| == |b - a|;
    var x :| (x in a) != (x in b);
    assert x in a - b || x in b - a;
  }

  /** Any two prunings of the same history agree: the contract above pins
      the result down completely. */
  lemma PrunedUnique<V>(k1: map<string, V>, k2: map<string, V>, h: map<string, V>)
    requires Pruned(k1, h) && Pruned(k2, h)
    ensures k1 == k2
  {
    if k1.Keys != k2.Keys {
      SameSizeDiffer(k1.Keys, k2.Keys);
      var d :| d in k1.Keys - k2.Keys;
      var e :| e in k2.Keys - k1.Keys;
      LexLessAsymmetric(d, e);
      assert false;
    }
    assert k1 == k2;
  }

  /** A history of at most 30 dates is left alone. */
  lemma PruneKeepsSmall<V>(h: map<string, V>)
    ensures |h.Keys| <= MaxHistoryDays ==> Prune(h) == h
  {
    if |h.Keys| <= MaxHistoryDays {
      PruneIsPruning(h);
      PrunedSmall(Prune(h), h);
    }
  }

  /** Pruning twice is pruning once. */
  lemma PruneIdempotent<V>(h: map<string, V>)
    ensures Prune(Prune(h)) == Prune(h)
  {
    var kept := Prune(h);
    PruneBound(h);
    PruneKeepsSmall(kept);
  }

  /** A pruning of a history of at most 30 dates is the history itself. */
  lemma PrunedSmall<V>(kept: map<string, V>, h: map<string, V>)
    requires Pruned(kept, h) && |h.Keys| <= MaxHistoryDays
    ensures kept == h
  {
    assert kept.Keys <= h.Keys;
    assert h.Keys == kept.Keys + (h.Keys - kept.Keys);
    assert |h.Keys - kept.Keys| == 0;
    assert kept.Keys == h.Keys;
  }

  /** A date no later than any other date of the history survives pruning:
      a day just stored with the newest date is never the one removed. */
  lemma PrunedKeepsLatest<V>(kept: map<string, V>, h: map<string, V>, d: string)
    requires Pruned(kept, h)
    requires d in h
    requires forall e :: e in h ==> !LexLess(d, e)
    ensures d in kept && kept[d] == h[d]
  {
    assert |h.Keys| >= 1 by { assert d in h.Keys; }
    var e :| e in kept.Keys;
    assert !LexLess(d, e);
  }

  lemma LatestDateKept<V>(h: map<string, V>, d: string)
    requires d in h
    requires forall e :: e in h ==> !LexLess(d, e)
    ensures d in Prune(h) && Prune(h)[d] == h[d]
  {
    PruneIsPruning(h);
    PrunedKeepsLatest(Prune(h), h, d);
  }
}
