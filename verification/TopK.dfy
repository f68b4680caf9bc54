/** What a scrape publishes of a table, found in place without sorting the rows
    it withholds. */
module TopK {
  import opened Uint
  import opened AggregationTable

  /** compareEntries: by bytes, descending, and among equals by birth. */
  function CompareEntries<K>(a: Row<K>, b: Row<K>): int {
    if a.totals.bytes > b.totals.bytes then -1
    else if a.totals.bytes < b.totals.bytes then 1
    else if a.born < b.born then -1
    else if a.born > b.born then 1
    else 0
  }

  predicate Before<K>(a: Row<K>, b: Row<K>) {
    CompareEntries(a, b) < 0
  }

  ghost predicate BornApart<K>(rows: seq<Row<K>>) {
    forall i, j :: 0 <= i < j < |rows| ==> rows[i].born != rows[j].born
  }

  ghost predicate Ordered<K>(rows: seq<Row<K>>) {
    forall i, j :: 0 <= i < j < |rows| ==> Before(rows[i], rows[j])
  }

  /** Everything in front of k orders before everything from k on. */
  ghost predicate SplitAt<K>(rows: seq<Row<K>>, k: nat) {
    forall i, j :: 0 <= i < k <= j < |rows| ==> Before(rows[i], rows[j])
  }

  // ---- The whole order, which a scrape never builds ----------------------------

  function Placed<K>(row: Row<K>, ranked: seq<Row<K>>): (out: seq<Row<K>>)
    ensures multiset(out) == multiset(ranked) + multiset{row}
  {
    if ranked == [] || Before(row, ranked[0]) then [row] + ranked
    else
      assert ranked == [ranked[0]] + ranked[1..];
      [ranked[0]] + Placed(row, ranked[1..])
  }

  /** sortEntries, which the library sorts by compareEntries. */
  function Ranked<K>(rows: seq<Row<K>>): (out: seq<Row<K>>)
    ensures multiset(out) == multiset(rows)
  {
    if rows == [] then []
    else
      assert rows == [rows[0]] + rows[1..];
      Placed(rows[0], Ranked(rows[1..]))
  }

  lemma {:induction false} PlacedIsOrdered<K>(row: Row<K>, ranked: seq<Row<K>>)
    requires Ordered(ranked) && forall i :: 0 <= i < |ranked| ==> ranked[i].born != row.born
    ensures Ordered(Placed(row, ranked))
  {
    if ranked != [] && !Before(row, ranked[0]) {
      PlacedIsOrdered(row, ranked[1..]);
      var rest := Placed(row, ranked[1..]);
      forall j | 0 <= j < |rest|
        ensures Before(ranked[0], rest[j])
      {
        assert rest[j] in multiset(ranked[1..]) + multiset{row};
      }
    }
  }

  lemma {:induction false} RankedIsOrdered<K>(rows: seq<Row<K>>)
    requires BornApart(rows)
    ensures Ordered(Ranked(rows))
  {
    if rows != [] {
      RankedIsOrdered(rows[1..]);
      var rest := Ranked(rows[1..]);
      forall i | 0 <= i < |rest|
        ensures rest[i].born != rows[0].born
      {
        assert rest[i] in multiset(rows[1..]);
      }
      PlacedIsOrdered(rows[0], rest);
    }
  }

  lemma SameLength<K>(a: seq<Row<K>>, b: seq<Row<K>>)
    requires multiset(a) == multiset(b)
    ensures |a| == |b|
  {
    assert |multiset(a)| == |a| && |multiset(b)| == |b|;
  }

  lemma SameFirst<K>(a: seq<Row<K>>, b: seq<Row<K>>)
    requires a != [] && b != [] && Ordered(a) && Ordered(b) && multiset(a) == multiset(b)
    ensures a[0] == b[0]
  {
    assert a[0] in multiset(b) && b[0] in multiset(a);
  }

  /** A table has one order, whatever arrangement it is found in. */
  lemma {:induction false} OrderIsUnique<K>(a: seq<Row<K>>, b: seq<Row<K>>)
    requires Ordered(a) && Ordered(b) && multiset(a) == multiset(b)
    ensures a == b
    decreases |a|
  {
    hide CompareEntries, Before;
    SameLength(a, b);
    if a != [] {
      SameFirst(a, b);
      assert a == [a[0]] + a[1..] && b == [b[0]] + b[1..];
      assert multiset(a[1..]) == multiset(a) - multiset{a[0]};
      assert multiset(b[1..]) == multiset(b) - multiset{b[0]};
      OrderIsUnique(a[1..], b[1..]);
    }
  }

  lemma RankingIgnoresArrangement<K>(a: seq<Row<K>>, b: seq<Row<K>>)
    requires BornApart(a) && BornApart(b) && multiset(a) == multiset(b)
    ensures Ranked(a) == Ranked(b)
  {
    RankedIsOrdered(a);
    RankedIsOrdered(b);
    OrderIsUnique(Ranked(a), Ranked(b));
  }

  // ---- The cut -----------------------------------------------------------------

  /** How many rows of an order keep their own labels. */
  function Kept<K>(rows: seq<Row<K>>, topK: nat, minBytes: u64): (n: nat)
    ensures n <= |rows| && n <= topK
  {
    if rows == [] || topK == 0 || rows[0].totals.bytes < minBytes then 0
    else 1 + Kept(rows[1..], topK - 1, minBytes)
  }

  function Cut<K>(rows: seq<Row<K>>, topK: nat, minBytes: u64): seq<Row<K>> {
    rows[..Kept(rows, topK, minBytes)]
  }

  /** Once a row of the order fails a test so does every row behind it, so
      cutting at the first failure keeps exactly the rows passing both. */
  lemma {:induction false} KeptExactly<K>(rows: seq<Row<K>>, topK: nat, minBytes: u64, i: nat)
    requires Ordered(rows) && i < |rows|
    ensures i < Kept(rows, topK, minBytes) <==> i < topK && rows[i].totals.bytes >= minBytes
  {
    if i > 0 {
      assert Before(rows[0], rows[i]);
      if topK > 0 && rows[0].totals.bytes >= minBytes {
        KeptExactly(rows[1..], topK - 1, minBytes, i - 1);
      }
    }
  }

  /** The rows of a table with more bytes than one of them, or as many and an
      earlier birth. */
  ghost function Above<K(!new)>(rows: seq<Row<K>>, row: Row<K>): set<Row<K>> {
    set other | other in rows && (other.totals.bytes > row.totals.bytes
                                  || (other.totals.bytes == row.totals.bytes && other.born < row.born))
  }

  /** What publication means with no order in sight: a row keeps its labels
      exactly when it reaches the floor and fewer than topK rows are above it. */
  lemma PublishedExactly<K(!new)>(rows: seq<Row<K>>, topK: nat, minBytes: u64, row: Row<K>)
    requires BornApart(rows) && row in rows
    ensures row in Cut(Ranked(rows), topK, minBytes) <==>
            row.totals.bytes >= minBytes && |Above(rows, row)| < topK
  {
    hide Ranked, Ordered, BornApart, CompareEntries, Kept;
    var ranked := Ranked(rows);
    RankedIsOrdered(rows);
    SameRows(rows, ranked);
    var i :| 0 <= i < |ranked| && ranked[i] == row;
    RankCounts(ranked, i);
    assert Above(rows, row) == Above(ranked, row);
    KeptExactly(ranked, topK, minBytes, i);
    OnlyThere(ranked, i, Kept(ranked, topK, minBytes));
  }

  lemma SameRows<K(!new)>(a: seq<Row<K>>, b: seq<Row<K>>)
    requires multiset(a) == multiset(b)
    ensures forall row :: row in a <==> row in b
  {
    forall row
      ensures row in a <==> row in b
    {
      assert row in multiset(a) <==> row in multiset(b);
    }
  }

  lemma OnlyThere<K>(ranked: seq<Row<K>>, i: nat, k: nat)
    requires Ordered(ranked) && i < |ranked| && k <= |ranked|
    ensures ranked[i] in ranked[..k] <==> i < k
  {
    assert forall j :: 0 <= j < |ranked| && ranked[j] == ranked[i] ==> j == i;
  }

  /** The order of what is published: bytes never rise, and among rows of equal
      bytes the older come first. The same of the whole order. */
  lemma RankedDescends<K>(rows: seq<Row<K>>, topK: nat, minBytes: u64)
    requires BornApart(rows)
    ensures var ranked, cut := Ranked(rows), Cut(Ranked(rows), topK, minBytes);
            && cut <= ranked && multiset(ranked) == multiset(rows)
            && forall i, j :: 0 <= i < j < |ranked| ==>
                 && ranked[i].totals.bytes >= ranked[j].totals.bytes
                 && (ranked[i].totals.bytes == ranked[j].totals.bytes ==> ranked[i].born < ranked[j].born)
  {
    RankedIsOrdered(rows);
    var ranked := Ranked(rows);
    forall i, j | 0 <= i < j < |ranked|
      ensures && ranked[i].totals.bytes >= ranked[j].totals.bytes
              && (ranked[i].totals.bytes == ranked[j].totals.bytes ==> ranked[i].born < ranked[j].born)
    {
      assert Before(ranked[i], ranked[j]);
    }
  }

  lemma RankCounts<K(!new)>(ranked: seq<Row<K>>, i: nat)
    requires Ordered(ranked) && i < |ranked|
    ensures |Above(ranked, ranked[i])| == i
  {
    forall j | 0 <= j < |ranked|
      ensures ranked[j] in Above(ranked, ranked[i]) <==> j < i
    {
      assert j < i ==> Before(ranked[j], ranked[i]);
      assert j > i ==> Before(ranked[i], ranked[j]);
    }
    assert Above(ranked, ranked[i]) == set other | other in ranked[..i];
    DistinctCount(ranked[..i]);
  }

  lemma {:induction false} DistinctCount<K(!new)>(rows: seq<Row<K>>)
    requires Ordered(rows)
    ensures |set row | row in rows| == |rows|
  {
    if rows != [] {
      DistinctCount(rows[1..]);
      assert (set row | row in rows) == {rows[0]} + (set row | row in rows[1..]);
    }
  }

  // ---- The selection, in place ----------------------------------------------------

  function Swapped<K>(rows: seq<Row<K>>, i: nat, j: nat): seq<Row<K>>
    requires i < |rows| && j < |rows|
  {
    rows[i := rows[j]][j := rows[i]]
  }

  lemma SwapKeeps<K>(rows: seq<Row<K>>, i: nat, j: nat)
    requires i < |rows| && j < |rows|
    ensures multiset(Swapped(rows, i, j)) == multiset(rows)
    ensures BornApart(rows) ==> BornApart(Swapped(rows, i, j))
  {
  }

  lemma SwapKeepsSplit<K>(rows: seq<Row<K>>, i: nat, j: nat, k: nat)
    requires i < |rows| && j < |rows| && SplitAt(rows, k) && (i < k <==> j < k)
    ensures SplitAt(Swapped(rows, i, j), k)
  {
  }

  /** The rows lo..hi of before were rearranged among themselves. */
  ghost predicate Shuffled<K>(before: seq<Row<K>>, after: seq<Row<K>>, lo: nat, hi: int) {
    && multiset(after) == multiset(before)
    && (BornApart(before) ==> BornApart(after))
    && (SplitAt(before, lo) ==> SplitAt(after, lo))
    && (hi >= -1 && SplitAt(before, hi + 1) ==> SplitAt(after, hi + 1))
  }

  method Swap<K>(entries: array<Row<K>>, i: nat, j: nat, ghost lo: nat, ghost hi: nat)
    requires lo <= i <= hi < entries.Length && lo <= j <= hi
    modifies entries
    ensures entries[..] == Swapped(old(entries[..]), i, j)
    ensures Shuffled(old(entries[..]), entries[..], lo, hi)
  {
    SwapKeeps(entries[..], i, j);
    if SplitAt(entries[..], lo) {
      SwapKeepsSplit(entries[..], i, j, lo);
    }
    if SplitAt(entries[..], hi + 1) {
      SwapKeepsSplit(entries[..], i, j, hi + 1);
    }
    entries[i], entries[j] := entries[j], entries[i];
  }

  lemma ShuffledTwice<K>(a: seq<Row<K>>, b: seq<Row<K>>, c: seq<Row<K>>, lo: nat, hi: nat)
    requires Shuffled(a, b, lo, hi) && Shuffled(b, c, lo, hi)
    ensures Shuffled(a, c, lo, hi)
  {
  }

  /** The three exchanges that put the median of the first, middle and last
      entries last. */
  method MedianLast<K>(entries: array<Row<K>>, lo: nat, hi: nat)
    requires lo <= hi < entries.Length
    modifies entries
    ensures Shuffled(old(entries[..]), entries[..], lo, hi)
  {
    hide Shuffled, CompareEntries, Swapped;
    ghost var was := entries[..];
    var mid := lo + (hi - lo) / 2;
    Unmoved(was, lo, hi);
    if CompareEntries(entries[mid], entries[lo]) < 0 {
      Swap(entries, lo, mid, lo, hi);
    }
    ghost var first := entries[..];
    Unmoved(first, lo, hi);
    if CompareEntries(entries[hi], entries[lo]) < 0 {
      Swap(entries, lo, hi, lo, hi);
    }
    ShuffledTwice(was, first, entries[..], lo, hi);
    ghost var second := entries[..];
    Unmoved(second, lo, hi);
    if CompareEntries(entries[hi], entries[mid]) < 0 {
      Swap(entries, mid, hi, lo, hi);
    }
    ShuffledTwice(was, second, entries[..], lo, hi);
    ghost var third := entries[..];
    Swap(entries, mid, hi, lo, hi);
    ShuffledTwice(was, third, entries[..], lo, hi);
  }

  lemma Unmoved<K>(rows: seq<Row<K>>, lo: nat, hi: nat)
    ensures Shuffled(rows, rows, lo, hi)
  {
  }

  /** The state of the partition's walk: what orders before the pivot is in
      front of boundary, the rest of what was looked at behind it. */
  ghost predicate Partitioning<K>(rows: seq<Row<K>>, pivot: Row<K>, lo: nat, boundary: nat, i: nat, hi: nat) {
    && lo <= boundary <= i <= hi < |rows| && rows[hi] == pivot
    && (forall k :: lo <= k < boundary ==> Before(rows[k], pivot))
    && (forall k :: boundary <= k < i ==> !Before(rows[k], pivot))
  }

  lemma PartitionStep<K>(rows: seq<Row<K>>, pivot: Row<K>, lo: nat, boundary: nat, i: nat, hi: nat)
    requires Partitioning(rows, pivot, lo, boundary, i, hi) && i < hi
    ensures if Before(rows[i], pivot) then Partitioning(Swapped(rows, boundary, i), pivot, lo, boundary + 1, i + 1, hi)
            else Partitioning(rows, pivot, lo, boundary, i + 1, hi)
  {
  }

  /** The pivot put between the two sides splits the whole array around it. */
  lemma PivotSplits<K>(rows: seq<Row<K>>, pivot: Row<K>, lo: nat, boundary: nat, hi: nat)
    requires Partitioning(rows, pivot, lo, boundary, hi, hi) && BornApart(rows)
    requires SplitAt(rows, lo) && SplitAt(rows, hi + 1)
    ensures SplitAt(Swapped(rows, boundary, hi), boundary) && SplitAt(Swapped(rows, boundary, hi), boundary + 1)
  {
    forall k | boundary <= k < hi
      ensures Before(pivot, rows[k])
    {
      assert rows[k].born != rows[hi].born;
    }
    var after := Swapped(rows, boundary, hi);
    SwapKeepsSplit(rows, boundary, hi, lo);
    SwapKeepsSplit(rows, boundary, hi, hi + 1);
    assert forall k :: lo <= k < boundary ==> Before(after[k], after[boundary]);
    assert forall k :: boundary < k <= hi ==> Before(after[boundary], after[k]);
  }

  /** partitionEntries. */
  method PartitionEntries<K>(entries: array<Row<K>>, lo: nat, hi: nat) returns (p: nat)
    requires lo <= hi < entries.Length
    requires BornApart(entries[..]) && SplitAt(entries[..], lo) && SplitAt(entries[..], hi + 1)
    modifies entries
    ensures Shuffled(old(entries[..]), entries[..], lo, hi)
    ensures lo <= p <= hi && SplitAt(entries[..], p) && SplitAt(entries[..], p + 1)
  {
    ghost var was := entries[..];
    MedianLast(entries, lo, hi);
    hide Shuffled, Partitioning, SplitAt, BornApart, Swapped;
    var pivot := entries[hi];
    var boundary := lo;
    PartitionBegins(entries[..], lo, hi);
    for i := lo to hi
      invariant Partitioning(entries[..], pivot, lo, boundary, i, hi)
      invariant lo <= boundary <= i
      invariant Shuffled(was, entries[..], lo, hi)
    {
      PartitionStep(entries[..], pivot, lo, boundary, i, hi);
      if CompareEntries(entries[i], pivot) < 0 {
        ghost var before := entries[..];
        Swap(entries, boundary, i, lo, hi);
        ShuffledTwice(was, before, entries[..], lo, hi);
        boundary := boundary + 1;
      }
    }
    ghost var before := entries[..];
    ShuffledKeeps(was, before, lo, hi);
    PivotSplits(before, pivot, lo, boundary, hi);
    Swap(entries, boundary, hi, lo, hi);
    ShuffledTwice(was, before, entries[..], lo, hi);
    return boundary;
  }

  lemma PartitionBegins<K>(rows: seq<Row<K>>, lo: nat, hi: nat)
    requires lo <= hi < |rows|
    ensures Partitioning(rows, rows[hi], lo, lo, lo, hi)
  {
  }

  lemma ShuffledKeeps<K>(a: seq<Row<K>>, b: seq<Row<K>>, lo: nat, hi: nat)
    requires Shuffled(a, b, lo, hi) && BornApart(a) && SplitAt(a, lo) && SplitAt(a, hi + 1)
    ensures BornApart(b) && SplitAt(b, lo) && SplitAt(b, hi + 1) && multiset(b) == multiset(a)
  {
  }

  /** selectLargest: afterwards position k splits the array. */
  method SelectLargest<K>(entries: array<Row<K>>, k: nat)
    requires k <= entries.Length && BornApart(entries[..])
    modifies entries
    ensures multiset(entries[..]) == multiset(old(entries[..])) && BornApart(entries[..])
    ensures SplitAt(entries[..], k)
  {
    ghost var was := entries[..];
    var lo: nat, hi: int := 0, entries.Length - 1;
    Ends(was);
    hide Shuffled, SplitAt, BornApart;
    while lo < hi
      invariant lo <= k <= hi + 1 && lo <= hi + 1 && hi < entries.Length
      invariant multiset(entries[..]) == multiset(was) && BornApart(entries[..])
      invariant SplitAt(entries[..], lo) && SplitAt(entries[..], hi + 1)
      decreases hi - lo
    {
      ghost var before := entries[..];
      var p := PartitionEntries(entries, lo, hi);
      ShuffledKeeps(before, entries[..], lo, hi);
      if p == k - 1 {
        return;
      } else if p < k - 1 {
        lo := p + 1;
      } else {
        hi := p - 1;
      }
    }
  }

  lemma Ends<K>(rows: seq<Row<K>>)
    ensures SplitAt(rows, 0) && SplitAt(rows, |rows|)
  {
  }

  /** sortEntries over a prefix of the array. */
  method SortEntries<K>(entries: array<Row<K>>, to: nat)
    requires to <= entries.Length
    modifies entries
    ensures entries[..to] == Ranked(old(entries[..to])) && entries[to..] == old(entries[to..])
  {
    var ranked := Ranked(entries[..to]);
    SameLength(ranked, entries[..to]);
    forall i | 0 <= i < to {
      entries[i] := ranked[i];
    }
    assert entries[..to] == ranked;
  }

  /** cutOf. */
  method CutOf<K>(rows: seq<Row<K>>, topK: nat, minBytes: u64) returns (cut: seq<Row<K>>)
    ensures cut == Cut(rows, topK, minBytes)
  {
    var entries := if topK < |rows| then rows[..topK] else rows;
    for i := 0 to |entries|
      invariant Kept(rows, topK, minBytes) == i + Kept(rows[i..], topK - i, minBytes)
    {
      assert rows[i..][0] == entries[i] && rows[i..][1..] == rows[i + 1..];
      if entries[i].totals.bytes < minBytes {
        return entries[..i];
      }
    }
    return entries;
  }

  lemma TakeThenDrop<K>(rows: seq<Row<K>>, k: nat)
    requires k <= |rows|
    ensures multiset(rows[..k]) + multiset(rows[k..]) == multiset(rows)
    ensures rows[..k] + rows[k..] == rows
  {
    assert rows[..k] + rows[k..] == rows;
  }

  /** The first k of an array split at k, ranked alone, are the first k of the
      whole ranked. */
  lemma PrefixOfRanking<K>(rows: seq<Row<K>>, k: nat)
    requires k <= |rows| && BornApart(rows) && SplitAt(rows, k)
    ensures |Ranked(rows[..k])| == k <= |Ranked(rows)| && Ranked(rows)[..k] == Ranked(rows[..k])
  {
    hide Ranked, CompareEntries;
    var front, tail := Ranked(rows[..k]), Ranked(rows[k..]);
    SameLength(front, rows[..k]);
    RankedIsOrdered(rows[..k]);
    RankedIsOrdered(rows[k..]);
    TakeThenDrop(rows, k);
    forall i, j | 0 <= i < k && 0 <= j < |tail|
      ensures Before(front[i], tail[j])
    {
      assert front[i] in multiset(rows[..k]) && tail[j] in multiset(rows[k..]);
    }
    RankedIsOrdered(rows);
    OrderIsUnique(front + tail, Ranked(rows));
  }

  lemma {:induction false} CutOfPrefix<K>(rows: seq<Row<K>>, topK: nat, minBytes: u64)
    requires topK <= |rows|
    ensures Cut(rows[..topK], topK, minBytes) == Cut(rows, topK, minBytes)
  {
    if topK > 0 && rows[0].totals.bytes >= minBytes {
      CutOfPrefix(rows[1..], topK - 1, minBytes);
      assert rows[..topK][1..] == rows[1..][..topK - 1];
      CutLength(rows[1..], topK - 1, minBytes);
    }
  }

  lemma CutLength<K>(rows: seq<Row<K>>, topK: nat, minBytes: u64)
    requires topK <= |rows| && Cut(rows[..topK], topK, minBytes) == Cut(rows, topK, minBytes)
    ensures Kept(rows[..topK], topK, minBytes) == Kept(rows, topK, minBytes)
  {
    assert |Cut(rows[..topK], topK, minBytes)| == |Cut(rows, topK, minBytes)|;
  }

  /** published: selecting, ordering only what was selected and cutting is
      cutting the whole order. */
  method Published<K>(entries: array<Row<K>>, topK: nat, minBytes: u64) returns (cut: seq<Row<K>>)
    requires BornApart(entries[..])
    modifies entries
    ensures cut == Cut(Ranked(old(entries[..])), topK, minBytes)
    ensures multiset(entries[..]) == multiset(old(entries[..]))
  {
    hide BornApart, SplitAt, Ranked, Cut, Kept;
    ghost var was := entries[..];
    if topK < entries.Length {
      SelectLargest(entries, topK);
      ghost var selected := entries[..];
      PrefixOfRanking(selected, topK);
      TakeThenDrop(selected, topK);
      RankingIgnoresArrangement(was, selected);
      SortEntries(entries, topK);
      assert entries[..topK] == Ranked(was)[..topK];
      TakeThenDrop(entries[..], topK);
      SameLength(Ranked(was), was);
      assert entries[..][..topK] == Ranked(was)[..topK];
      CutOfPrefix(entries[..], topK, minBytes);
      CutOfPrefix(Ranked(was), topK, minBytes);
    } else {
      SortEntries(entries, entries.Length);
      assert entries[..entries.Length] == entries[..] && was[..entries.Length] == was;
    }
    cut := CutOf(entries[..], topK, minBytes);
  }

  /** No arrangement of the snapshot publishes anything else. */
  lemma PublicationIgnoresArrangement<K>(a: seq<Row<K>>, b: seq<Row<K>>, topK: nat, minBytes: u64)
    requires BornApart(a) && BornApart(b) && multiset(a) == multiset(b)
    ensures Cut(Ranked(a), topK, minBytes) == Cut(Ranked(b), topK, minBytes)
  {
    RankingIgnoresArrangement(a, b);
  }
}
