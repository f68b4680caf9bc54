/** The listing of a table, which must agree with what a scrape publishes. */
module EntryListing {
  import opened Uint
  import opened AggregationTable
  import opened TopK

  datatype EntryRow<K> = EntryRow(rank: nat, key: K, totals: Totals)

  datatype AggregationEntries<K> = AggregationEntries(
    entries: nat, published: nat, withheld: nat, withheldTotals: Totals, other: Totals, rows: seq<EntryRow<K>>)

  /** whole: the overflow is published whatever it is missing. */
  function Whole(t: Totals): Totals {
    t.(bytesMeasured := true, packetsMeasured := true)
  }

  /** The fold keeps its counts and is marked measured. */
  lemma WholeKeepsCounts(t: Totals)
    ensures Whole(t).bytesMeasured && Whole(t).packetsMeasured
    ensures forall counter: Counter :: counter.At(Whole(t)) == counter.At(t)
  {
    forall counter: Counter
      ensures counter.At(Whole(t)) == counter.At(t)
    {
      match counter
      case Bytes =>
      case Packets =>
      case Flows =>
    }
  }

  ghost function Count<K>(rows: seq<Row<K>>, counter: Counter): int {
    if rows == [] then 0
    else Count(rows[..|rows| - 1], counter) + counter.At(rows[|rows| - 1].totals)
  }

  /** Sums of these rows, complete until one of them is not. */
  ghost predicate Sums<K>(t: Totals, rows: seq<Row<K>>) {
    && (forall counter: Counter :: counter.At(t) == Wrap64(Count(rows, counter)))
    && (t.bytesMeasured <==> forall i :: 0 <= i < |rows| ==> rows[i].totals.bytesMeasured)
    && (t.packetsMeasured <==> forall i :: 0 <= i < |rows| ==> rows[i].totals.packetsMeasured)
  }

  function RowOf<K>(rows: seq<Row<K>>, i: nat): EntryRow<K>
    requires i < |rows|
  {
    EntryRow(i + 1, rows[i].key, rows[i].totals)
  }

  /** The listing of an order of which the first published rows keep labels. */
  ghost predicate Reports<K>(listing: AggregationEntries<K>, ranked: seq<Row<K>>, published: nat, fold: Totals)
    requires published <= |ranked|
  {
    && listing.entries == |ranked| == |listing.rows|
    && listing.published == published && listing.withheld == |ranked| - published
    && (forall i :: 0 <= i < |ranked| ==> listing.rows[i] == RowOf(ranked, i))
    && Sums(listing.withheldTotals, ranked[published..])
    && listing.other == Whole(fold)
  }

  lemma SumsNothing<K>()
    ensures Sums<K>(Totals(0, 0, 0, true, true), [])
  {
  }

  function Plus(t: Totals, u: Totals): Totals {
    Totals(Add64(t.bytes, u.bytes), Add64(t.packets, u.packets), Add64(t.flows, u.flows),
           t.bytesMeasured && u.bytesMeasured, t.packetsMeasured && u.packetsMeasured)
  }

  lemma SumsOneMore<K>(t: Totals, rows: seq<Row<K>>, row: Row<K>)
    requires Sums(t, rows)
    ensures Sums(Plus(t, row.totals), rows + [row])
  {
    var more := rows + [row];
    forall counter: Counter
      ensures counter.At(Plus(t, row.totals)) == Wrap64(Count(more, counter))
    {
      assert more[..|more| - 1] == rows;
      AddOfWraps64(Count(rows, counter), counter.At(row.totals));
      SmallCounts(0, counter.At(row.totals));
    }
    assert forall i :: 0 <= i < |rows| ==> more[i] == rows[i];
    assert more[|rows|] == row;
  }

  /** report. */
  method Report<K>(entries: seq<Row<K>>, cut: seq<Row<K>>, fold: Totals) returns (listing: AggregationEntries<K>)
    requires cut <= entries
    ensures Reports(listing, entries, |cut|, fold)
  {
    hide Sums, Add64;
    var rows: seq<EntryRow<K>> := [];
    var withheld := Totals(0, 0, 0, true, true);
    SumsNothing<K>();
    for i := 0 to |entries|
      invariant |rows| == i && forall j :: 0 <= j < i ==> rows[j] == RowOf(entries, j)
      invariant Sums(withheld, if i <= |cut| then [] else entries[|cut|..i])
    {
      rows := rows + [EntryRow(i + 1, entries[i].key, entries[i].totals)];
      if i < |cut| {
        continue;
      }
      SumsOneMore(withheld, entries[|cut|..i], entries[i]);
      assert entries[|cut|..i] + [entries[i]] == entries[|cut|..i + 1];
      withheld := Plus(withheld, entries[i].totals);
    }
    assert entries[|cut|..|entries|] == entries[|cut|..];
    assert |cut| == |entries| ==> entries[|cut|..] == [];
    return AggregationEntries(|entries|, |cut|, |entries| - |cut|, withheld, Whole(fold), rows);
  }

  /** entriesOf, for a table that is enabled: ordered whole, cut as a scrape cuts. */
  method EntriesOf<K>(entries: array<Row<K>>, fold: Totals, topK: nat, minBytes: u64)
    returns (listing: AggregationEntries<K>)
    modifies entries
    ensures var ranked := Ranked(old(entries[..]));
            Reports(listing, ranked, Kept(ranked, topK, minBytes), fold)
  {
    ghost var was := entries[..];
    assert was[..entries.Length] == was;
    SortEntries(entries, entries.Length);
    assert entries[..entries.Length] == entries[..];
    var cut := CutOf(entries[..], topK, minBytes);
    listing := Report(entries[..], cut, fold);
  }

  /** exporterEntries: the table a scrape publishes whole. */
  method ExporterEntries<K>(entries: array<Row<K>>, fold: Totals) returns (listing: AggregationEntries<K>)
    modifies entries
    ensures var ranked := Ranked(old(entries[..]));
            Reports(listing, ranked, |ranked|, fold)
  {
    ghost var was := entries[..];
    assert was[..entries.Length] == was;
    SortEntries(entries, entries.Length);
    assert entries[..entries.Length] == entries[..];
    listing := Report(entries[..], entries[..], fold);
  }

  /** A scrape and a listing of one table, each finding it in an arrangement of
      its own: the first published rows are what the scrape publishes, in its
      order. */
  lemma ListingAgreesWithScrape<K>(
    scraped: seq<Row<K>>, listed: seq<Row<K>>, topK: nat, minBytes: u64,
    cut: seq<Row<K>>, listing: AggregationEntries<K>, fold: Totals)
    requires BornApart(scraped) && BornApart(listed) && multiset(scraped) == multiset(listed)
    requires cut == Cut(Ranked(scraped), topK, minBytes)
    requires var ranked := Ranked(listed);
             Reports(listing, ranked, Kept(ranked, topK, minBytes), fold)
    ensures listing.published == |cut| <= |listing.rows|
    ensures forall i :: 0 <= i < |cut| ==> listing.rows[i] == RowOf(cut, i)
  {
    RankingIgnoresArrangement(scraped, listed);
  }

  lemma {:induction false} CountSplits<K>(rows: seq<Row<K>>, k: nat, counter: Counter)
    requires k <= |rows|
    ensures Count(rows, counter) == Count(rows[..k], counter) + Count(rows[k..], counter)
    decreases |rows|
  {
    if k == |rows| {
      assert rows[..k] == rows && rows[k..] == [];
    } else {
      var n := |rows| - 1;
      CountSplits(rows[..n], k, counter);
      assert rows[..n][..k] == rows[..k];
      assert rows[..n][k..] == rows[k..][..|rows[k..]| - 1];
    }
  }

  /** Published and withheld together are the whole table, counter by counter. */
  lemma PublishedAndWithheldAreTheWhole<K>(
    listing: AggregationEntries<K>, ranked: seq<Row<K>>, published: nat, fold: Totals, counter: Counter)
    requires published <= |ranked| && Reports(listing, ranked, published, fold)
    ensures Add64(Wrap64(Count(ranked[..published], counter)), counter.At(listing.withheldTotals)) ==
            Wrap64(Count(ranked, counter))
    ensures published == |ranked| ==> listing.withheldTotals == Totals(0, 0, 0, true, true)
  {
    CountSplits(ranked, published, counter);
    AddOfWraps64(Count(ranked[..published], counter), Count(ranked[published..], counter));
    if published == |ranked| {
      assert ranked[published..] == [];
      var t := listing.withheldTotals;
      assert Bytes.At(t) == 0 && Packets.At(t) == 0 && Flows.At(t) == 0;
    }
  }
}
