/**
 Reading the change log (packages/runtime-embedded/src/runtime.ts:830-910) and cutting a batch to the
 byte budget (components/triggers/src/driver.ts:310-356).
 */
module ChangeLog {

  /** One committed revision; all revisions of a commit share its `ts`. */
  datatype Entry = Entry(id: string, ts: int, watched: bool, size: nat)

  ghost predicate Ascending(s: seq<Entry>) { forall i, j :: 0 <= i < j < |s| ==> s[i].ts <= s[j].ts }

  /** The entries with `lo < ts <= hi`, in order. */
  function Between(s: seq<Entry>, lo: int, hi: int): (r: seq<Entry>)
    ensures |r| <= |s|
  {
    if s == [] then []
    else
      var n := |s| - 1;
      Between(s[..n], lo, hi) + if lo < s[n].ts <= hi then [s[n]] else []
  }

  function Watched(s: seq<Entry>): seq<Entry> {
    if s == [] then []
    else
      var n := |s| - 1;
      Watched(s[..n]) + if s[n].watched then [s[n]] else []
  }

  lemma InSnoc(s: seq<Entry>, before: seq<Entry>, last: Entry, e: Entry)
    requires s == before + [last]
    ensures e in s <==> e in before || e == last
  {
  }

  lemma {:induction false} BetweenIs(s: seq<Entry>, lo: int, hi: int, e: Entry)
    ensures e in Between(s, lo, hi) <==> e in s && lo < e.ts <= hi
  {
    if s != [] {
      var n := |s| - 1;
      BetweenIs(s[..n], lo, hi, e);
      InSnoc(s, s[..n], s[n], e);
    }
  }

  lemma {:induction false} WatchedIs(s: seq<Entry>, e: Entry)
    ensures e in Watched(s) <==> e in s && e.watched
  {
    if s != [] {
      var n := |s| - 1;
      WatchedIs(s[..n], e);
      InSnoc(s, s[..n], s[n], e);
    }
  }

  lemma {:induction false} BetweenAscends(s: seq<Entry>, lo: int, hi: int)
    requires Ascending(s)
    ensures Ascending(Between(s, lo, hi))
    ensures forall i :: 0 <= i < |Between(s, lo, hi)| ==> lo < Between(s, lo, hi)[i].ts <= hi
  {
    if s != [] {
      var n := |s| - 1;
      BetweenAscends(s[..n], lo, hi);
      var r := Between(s[..n], lo, hi);
      forall i | 0 <= i < |r| ensures r[i].ts <= s[n].ts {
        BetweenIs(s[..n], lo, hi, r[i]);
      }
    }
  }

  lemma {:induction false} WatchedAscends(s: seq<Entry>, lo: int, hi: int)
    requires Ascending(s) && forall i :: 0 <= i < |s| ==> lo < s[i].ts <= hi
    ensures Ascending(Watched(s)) && forall i :: 0 <= i < |Watched(s)| ==> lo < Watched(s)[i].ts <= hi
  {
    if s != [] {
      var n := |s| - 1;
      WatchedAscends(s[..n], lo, hi);
      var r := Watched(s[..n]);
      forall i | 0 <= i < |r| ensures r[i].ts <= s[n].ts {
        WatchedIs(s[..n], r[i]);
      }
    }
  }

  lemma BetweenSnoc(s: seq<Entry>, e: Entry, lo: int, hi: int)
    ensures Between(s + [e], lo, hi) == Between(s, lo, hi) + if lo < e.ts <= hi then [e] else []
  {
  }

  lemma {:induction false} BetweenNarrows(s: seq<Entry>, lo: int, hi: int, mid: int)
    requires mid <= hi
    ensures Between(Between(s, lo, hi), lo, mid) == Between(s, lo, mid)
  {
    if s != [] {
      var n := |s| - 1;
      BetweenNarrows(s[..n], lo, hi, mid);
      var r := Between(s[..n], lo, hi);
      BetweenSnoc(r, s[n], lo, mid);
      if !(lo < s[n].ts <= hi) {
        assert Between(s, lo, hi) == r;
        assert Between(s, lo, mid) == Between(s[..n], lo, mid);
      }
    }
  }

  /** A prefix of an ascending sequence already holds everything below its own end. */
  lemma {:induction false} PrefixHolds(s: seq<Entry>, k: nat, lo: int, hi: int)
    requires k <= |s| && forall i :: k <= i < |s| ==> s[i].ts > hi
    ensures Between(s[..k], lo, hi) == Between(s, lo, hi)
    decreases |s|
  {
    if k < |s| {
      var n := |s| - 1;
      assert s[..n][..k] == s[..k];
      PrefixHolds(s[..n], k, lo, hi);
    } else {
      assert s[..k] == s;
    }
  }

  datatype Scan = Scan(changes: seq<Entry>, maxScannedTs: int)

  /** `readLog`: at most `limit` revisions are scanned, and a commit is never split. */
  function ReadLog(log: seq<Entry>, bound: int, after: int, limit: nat): Scan {
    if bound <= after then Scan([], after)
    else if limit == 0 then Scan([], bound)
    else
      var range := Between(log, after, bound);
      if |range| < limit then Scan(Watched(range), bound)
      else
        var scanned := range[..limit];
        var lastTs := scanned[limit - 1].ts;
        if lastTs > after + 1 then Scan(Watched(Between(scanned, after, lastTs - 1)), lastTs - 1)
        else Scan(Watched(Between(log, lastTs - 1, lastTs)), lastTs)
  }

  /** Every watched change up to where the scan says it got, and no other. */
  ghost predicate Complete(log: seq<Entry>, after: int, s: Scan) {
    s.changes == Watched(Between(log, after, s.maxScannedTs))
  }

  /** A scan that hit its limit stops below the commit it may have cut. */
  lemma LimitHitComplete(log: seq<Entry>, bound: int, after: int, limit: nat, lastTs: int)
    requires Ascending(log) && 1 <= limit <= |Between(log, after, bound)|
    requires lastTs == Between(log, after, bound)[limit - 1].ts
    ensures after < lastTs <= bound
    ensures Between(Between(log, after, bound)[..limit], after, lastTs - 1) == Between(log, after, lastTs - 1)
  {
    var range := Between(log, after, bound);
    BetweenAscends(log, after, bound);
    PrefixHolds(range, limit, after, lastTs - 1);
    BetweenNarrows(log, after, bound, lastTs - 1);
  }

  lemma LimitHitScan(log: seq<Entry>, bound: int, after: int, limit: nat, range: seq<Entry>, lastTs: int, s: Scan)
    requires after < bound && range == Between(log, after, bound) && 1 <= limit <= |range|
    requires lastTs == range[limit - 1].ts && s == ReadLog(log, bound, after, limit) && after < lastTs <= bound
    requires Between(range[..limit], after, lastTs - 1) == Between(log, after, lastTs - 1)
    ensures Complete(log, after, s) && after < s.maxScannedTs <= bound
  {
    assert range[..limit][limit - 1].ts == lastTs;
  }

  /** With a limit of at least one a scan is complete and moves forward. */
  lemma ReadLogComplete(log: seq<Entry>, bound: int, after: int, limit: nat)
    requires Ascending(log) && limit >= 1
    ensures var s := ReadLog(log, bound, after, limit);
            && Complete(log, after, s)
            && (after < bound ==> after < s.maxScannedTs <= bound)
            && (bound <= after ==> s == Scan([], after))
  {
    if bound <= after {
      NothingBetween(log, after, after);
    } else {
      var range := Between(log, after, bound);
      if |range| >= limit {
        var lastTs := range[limit - 1].ts;
        LimitHitComplete(log, bound, after, limit, lastTs);
        LimitHitScan(log, bound, after, limit, range, lastTs, ReadLog(log, bound, after, limit));
      }
    }
  }

  lemma {:induction false} NothingBetween(s: seq<Entry>, lo: int, hi: int)
    requires forall i :: 0 <= i < |s| ==> !(lo < s[i].ts <= hi)
    ensures Between(s, lo, hi) == []
  {
    if s != [] { NothingBetween(s[..|s| - 1], lo, hi); }
  }

  /** A scan skips nothing exactly when its limit is positive or nothing watched was in range. */
  lemma ReadLogCompleteIff(log: seq<Entry>, bound: int, after: int, limit: nat)
    requires Ascending(log) && after < bound
    ensures Complete(log, after, ReadLog(log, bound, after, limit)) <==>
            limit >= 1 || Watched(Between(log, after, bound)) == []
  {
    if limit >= 1 {
      ReadLogComplete(log, bound, after, limit);
    }
  }

  // ---------------------------------------------------------------------------------------------
  // The byte budget
  // ---------------------------------------------------------------------------------------------

  const BYTE_BUDGET: nat := 1_000_000

  function Bytes(s: seq<Entry>): nat {
    if s == [] then 0 else Bytes(s[..|s| - 1]) + s[|s| - 1].size
  }

  /**
   Cutting after the first `k` changes is safe: something goes out, no commit is split, the advance skips
   nothing that is left out, and the batch fits the budget or is a single commit.
   */
  ghost predicate SafeCut(changes: seq<Entry>, maxScannedTs: int, k: nat, advanceTs: int) {
    && k <= |changes| && (changes != [] ==> k >= 1)
    && advanceTs <= maxScannedTs
    && (forall i :: 0 <= i < k ==> changes[i].ts <= advanceTs)
    && (forall i :: k <= i < |changes| ==> changes[i].ts > advanceTs)
    && (Bytes(changes[..k]) <= BYTE_BUDGET || changes[0].ts == changes[k - 1].ts)
  }

  /** Something is left out only if the commit it belongs to, taken along, would exceed the budget. */
  ghost predicate Greedy(changes: seq<Entry>, maxScannedTs: int, k: nat, advanceTs: int)
    requires k <= |changes|
  {
    || (k == |changes| && (advanceTs == maxScannedTs || Bytes(changes) > BYTE_BUDGET))
    || (k < |changes| &&
        exists j :: 0 <= j < |changes| && changes[j].ts <= changes[k].ts && Bytes(changes[..j + 1]) > BYTE_BUDGET)
  }

  lemma BytesGrow(s: seq<Entry>, i: nat)
    requires i < |s|
    ensures Bytes(s[..i + 1]) == Bytes(s[..i]) + s[i].size
  {
    assert s[..i + 1][..i] == s[..i];
  }

  lemma {:induction false} BytesPrefix(s: seq<Entry>, i: nat, j: nat)
    requires i <= j <= |s|
    ensures Bytes(s[..i]) <= Bytes(s[..j])
    decreases j
  {
    if i < j {
      BytesGrow(s, j - 1);
      BytesPrefix(s, i, j - 1);
    }
  }

  /** The first index at which the budget is exceeded; the first change is always let through. */
  method OverBudget(changes: seq<Entry>) returns (cut: nat)
    ensures cut <= |changes|
    ensures changes != [] ==> cut >= 1
    ensures Bytes(changes[..cut]) <= BYTE_BUDGET || cut == 1
    ensures cut < |changes| ==> Bytes(changes[..cut + 1]) > BYTE_BUDGET
  {
    var size := 0;
    cut := 0;
    while cut < |changes|
      invariant 0 <= cut <= |changes| && size == Bytes(changes[..cut])
      invariant Bytes(changes[..cut]) <= BYTE_BUDGET || cut == 1
    {
      BytesGrow(changes, cut);
      if cut > 0 && size + changes[cut].size > BYTE_BUDGET {
        break;
      }
      size := size + changes[cut].size;
      cut := cut + 1;
    }
  }

  /** Where the commit containing `cut` starts. */
  method GroupStart(changes: seq<Entry>, cut: nat) returns (start: nat)
    requires Ascending(changes) && cut < |changes|
    ensures start <= cut && changes[start].ts == changes[cut].ts
    ensures forall i :: 0 <= i < start ==> changes[i].ts < changes[start].ts
  {
    start := cut;
    while start > 0 && changes[start - 1].ts == changes[cut].ts
      invariant 0 <= start <= cut && changes[start].ts == changes[cut].ts
    {
      start := start - 1;
    }
  }

  /** Where the first commit ends. */
  method FirstGroupEnd(changes: seq<Entry>) returns (end: nat)
    requires Ascending(changes) && changes != []
    ensures 1 <= end <= |changes| && changes[end - 1].ts == changes[0].ts
    ensures forall i :: 0 <= i < end ==> changes[i].ts == changes[0].ts
    ensures forall i :: end <= i < |changes| ==> changes[i].ts > changes[0].ts
  {
    end := 1;
    while end < |changes| && changes[end].ts == changes[0].ts
      invariant 1 <= end <= |changes|
      invariant forall i :: 0 <= i < end ==> changes[i].ts == changes[0].ts
    {
      end := end + 1;
    }
  }

  /** The cut itself: how many changes go out, and how far the cursor may move. */
  method CutPoint(changes: seq<Entry>, maxScannedTs: int) returns (k: nat, advanceTs: int)
    requires Ascending(changes) && forall i :: 0 <= i < |changes| ==> changes[i].ts <= maxScannedTs
    ensures SafeCut(changes, maxScannedTs, k, advanceTs) && Greedy(changes, maxScannedTs, k, advanceTs)
  {
    var cutIndex := OverBudget(changes);
    assert changes[..|changes|] == changes;
    if cutIndex == |changes| {
      return |changes|, maxScannedTs;
    }
    BytesPrefix(changes, cutIndex + 1, |changes|);
    var groupStart := GroupStart(changes, cutIndex);
    if groupStart == 0 {
      var groupEnd := FirstGroupEnd(changes);
      return groupEnd, changes[0].ts;
    }
    BytesPrefix(changes, groupStart, cutIndex);
    return groupStart, changes[groupStart - 1].ts;
  }

  /** `cutToByteBudget`. */
  method CutToByteBudget(changes: seq<Entry>, maxScannedTs: int) returns (batch: seq<Entry>, advanceTs: int)
    requires Ascending(changes) && forall i :: 0 <= i < |changes| ==> changes[i].ts <= maxScannedTs
    ensures |batch| <= |changes| && batch == changes[..|batch|]
    ensures SafeCut(changes, maxScannedTs, |batch|, advanceTs) && Greedy(changes, maxScannedTs, |batch|, advanceTs)
  {
    var k;
    k, advanceTs := CutPoint(changes, maxScannedTs);
    batch := changes[..k];
  }
}
