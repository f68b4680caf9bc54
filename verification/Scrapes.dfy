/** A scrape end to end: snapshot in whatever order the map gives, then publish. */
module Scrapes {
  import opened Uint
  import opened MapSums
  import opened AggregationTable
  import P = AddProtocol
  import opened TopK
  import opened EntryListing

  /** collectFamily, as far as what it publishes. */
  method CollectFamily<K(!new)>(table: Table<K>, topK: nat, minBytes: u64)
    returns (cut: seq<Row<K>>, other: Totals, ghost rows: seq<Row<K>>)
    requires exists last: nat :: P.Apart(table.entries, last)
    ensures Lists(rows, table.entries)
    ensures cut == Cut(Ranked(rows), topK, minBytes)
    ensures other == Whole(table.overflow.Read())
  {
    hide Ranked, Cut, Lists;
    var snapshot, fold := table.Snapshot();
    rows := snapshot;
    ghost var last: nat :| P.Apart(table.entries, last);
    SnapshotBornApart(rows, table.entries, last);
    var entries := new Row<K>[|snapshot|](i requires 0 <= i < |snapshot| => snapshot[i]);
    assert entries[..] == snapshot;
    cut := Published(entries, topK, minBytes);
    other := Whole(fold);
  }

  lemma SnapshotBornApart<K(!new)>(rows: seq<Row<K>>, entries: map<K, Entry>, last: nat)
    requires Lists(rows, entries) && P.Apart(entries, last)
    ensures BornApart(rows)
  {
  }

  lemma {:induction false} EachOnce<K(!new)>(rows: seq<Row<K>>, row: Row<K>)
    requires forall i, j :: 0 <= i < j < |rows| ==> rows[i].key != rows[j].key
    ensures multiset(rows)[row] == if row in rows then 1 else 0
  {
    if rows != [] {
      assert rows == [rows[0]] + rows[1..];
      EachOnce(rows[1..], row);
    }
  }

  /** Two snapshots of one table differ in arrangement alone. */
  lemma SnapshotsRearrange<K(!new)>(a: seq<Row<K>>, b: seq<Row<K>>, entries: map<K, Entry>)
    requires Lists(a, entries) && Lists(b, entries)
    ensures multiset(a) == multiset(b)
  {
    forall row: Row<K>
      ensures multiset(a)[row] == multiset(b)[row]
    {
      EachOnce(a, row);
      EachOnce(b, row);
      assert HasRow(a, row.key) <==> row.key in entries;
      assert HasRow(b, row.key) <==> row.key in entries;
    }
  }

  /** After any interleaving of calls and sweeps, two scrapes with nothing in
      between publish the same rows in the same order, and the listing ranks
      them alike: no series churns that nothing ingested. */
  lemma ScrapesAgree<K(!new)>(
    steps: seq<P.Step<K>>, maxEntries: nat, a: seq<Row<K>>, b: seq<Row<K>>, topK: nat, minBytes: u64)
    requires P.Run(steps, maxEntries).ledger.created < TWO_64
    requires Lists(a, P.Run(steps, maxEntries).table.entries) && Lists(b, P.Run(steps, maxEntries).table.entries)
    ensures Cut(Ranked(a), topK, minBytes) == Cut(Ranked(b), topK, minBytes) && Ranked(a) == Ranked(b)
  {
    hide Ranked, Cut, Lists, P.Run, P.Apart;
    P.EveryRunHolds(steps, maxEntries);
    var s := P.Run(steps, maxEntries);
    SnapshotBornApart(a, s.table.entries, s.ledger.created);
    SnapshotBornApart(b, s.table.entries, s.ledger.created);
    SnapshotsRearrange(a, b, s.table.entries);
    RankingIgnoresArrangement(a, b);
  }

  lemma ListsFewer<K(!new)>(rows: seq<Row<K>>, entries: map<K, Entry>)
    requires Lists(rows, entries) && rows != []
    ensures var last := rows[|rows| - 1];
            && last.key in entries && last.totals == entries[last.key].Read()
            && Lists(rows[..|rows| - 1], entries - {last.key})
  {
    hide Entry.Read, HasRow;
    var n := |rows| - 1;
    var fewer := entries - {rows[n].key};
    assert entries.Keys == fewer.Keys + {rows[n].key};
    assert |entries| == |entries.Keys| && |fewer| == |fewer.Keys|;
    forall key | key in fewer
      ensures HasRow(rows[..n], key)
    {
      assert HasRow(rows, key);
      RowInFront(rows, key);
    }
    assert forall i :: 0 <= i < n ==> rows[..n][i] == rows[i];
  }

  lemma RowInFront<K>(rows: seq<Row<K>>, key: K)
    requires rows != [] && rows[|rows| - 1].key != key && HasRow(rows, key)
    ensures HasRow(rows[..|rows| - 1], key)
  {
    var i :| 0 <= i < |rows| && rows[i].key == key;
    assert rows[..|rows| - 1][i].key == key;
  }

  lemma ListsNothing<K(!new)>(rows: seq<Row<K>>, entries: map<K, Entry>)
    requires Lists(rows, entries) && rows == []
    ensures entries == map[]
  {
  }

  /** The rows of a snapshot add up to what the entries hold. */
  lemma {:induction false} RowsHoldTheEntries<K(!new)>(rows: seq<Row<K>>, entries: map<K, Entry>, counter: Counter)
    requires Lists(rows, entries)
    ensures Count(rows, counter) == Sum(Held(entries, counter))
    decreases |rows|
  {
    hide Sum, Lists, Entry.Read;
    if rows == [] {
      ListsNothing(rows, entries);
      HeldNothing<K>(counter);
    } else {
      var key := rows[|rows| - 1].key;
      ListsFewer(rows, entries);
      RowsHoldTheEntries(rows[..|rows| - 1], entries - {key}, counter);
      ReadIsTheEntry(entries[key]);
      SumRemove(Held(entries, counter), key);
      assert Held(entries, counter) - {key} == Held(entries - {key}, counter);
    }
  }

  lemma HeldNothing<K>(counter: Counter)
    ensures Sum(Held<K>(map[], counter)) == 0
  {
    assert Held<K>(map[], counter) == map[];
  }

  /** What a scraper can add up: the rows of a snapshot and the overflow beside
      them, with what sweeps reported and what is in flight, are every count
      ever handed to add, modulo the counter's width. */
  lemma SnapshotConserves<K(!new)>(steps: seq<P.Step<K>>, maxEntries: nat, rows: seq<Row<K>>, counter: Counter)
    requires Lists(rows, P.Run(steps, maxEntries).table.entries)
    ensures var s := P.Run(steps, maxEntries);
            Wrap64(P.Total(counter, s.ledger.started)) ==
            Wrap64(Count(rows, counter) + counter.At(Whole(s.table.overflow.Read())) + counter.At(s.ledger.reported)
                   + Sum(P.Totalled(P.InFlight(s.calls), counter)))
  {
    hide *;
    var s := P.Run(steps, maxEntries);
    P.CountersConserve(steps, maxEntries, counter);
    RowsHoldTheEntries(rows, s.table.entries, counter);
    ReadIsTheEntry(s.table.overflow);
    WholeKeepsCounts(s.table.overflow.Read());
  }

  /** One row of a snapshot: the readings credited to its key since it came into
      the table, each count their sum and each flag whether all were measured. */
  lemma RowsAreTheirReadings<K(!new)>(steps: seq<P.Step<K>>, maxEntries: nat, rows: seq<Row<K>>, i: nat)
    requires Lists(rows, P.Run(steps, maxEntries).table.entries) && i < |rows|
    ensures var live, row := P.Run(steps, maxEntries).ledger.live, rows[i];
            && row.key in live
            && (forall counter: Counter :: counter.At(row.totals) == Wrap64(P.Total(counter, live[row.key])))
            && (row.totals.bytesMeasured <==> forall r :: r in live[row.key] ==> r.bytesMeasured)
            && (row.totals.packetsMeasured <==> forall r :: r in live[row.key] ==> r.packetsMeasured)
  {
    hide P.Run, P.Total, P.Apart, P.Conserved, P.Counted, P.BornApart, P.Stamped, Wrap64;
    P.EveryRunHolds(steps, maxEntries);
    var s := P.Run(steps, maxEntries);
    P.CarriedAt(s.table.entries, s.ledger.live, rows[i].key);
    ReadIsTheEntry(s.table.entries[rows[i].key]);
  }
}
