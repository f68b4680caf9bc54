/** The key-to-entry table every aggregation shares, one method a lock region. */
module AggregationTable {
  import opened Uint
  import opened MapSums

  /** What one record adds, and which of its two counts were truly measured. */
  datatype Reading = Reading(bytes: u64, packets: u64, flows: u64, bytesMeasured: bool, packetsMeasured: bool)

  datatype Totals = Totals(bytes: u64, packets: u64, flows: u64, bytesMeasured: bool, packetsMeasured: bool)

  /** The two latches never clear; born orders entries their counts cannot. */
  datatype Entry = Entry(
    bytes: u64, packets: u64, flows: u64, lastSeen: int,
    bytesUnmeasured: bool, packetsUnmeasured: bool, born: u64)
  {
    /** entry.add. */
    function With(r: Reading, now: int): Entry {
      Entry(Add64(bytes, r.bytes), Add64(packets, r.packets), Add64(flows, r.flows), now,
            bytesUnmeasured || !r.bytesMeasured, packetsUnmeasured || !r.packetsMeasured, born)
    }

    /** entry.totals. */
    function Read(): Totals {
      Totals(bytes, packets, flows, !bytesUnmeasured, !packetsUnmeasured)
    }
  }

  function Blank(born: u64): Entry {
    Entry(0, 0, 0, 0, false, false, born)
  }

  datatype Contents<K> = Contents(
    entries: map<K, Entry>, overflow: Entry, nextBorn: u64, capacityFolds: u64, idleEvictions: u64)

  function Empty<K>(): Contents<K> {
    Contents(map[], Blank(0), 0, 0, 0)
  }

  /** The region under the read lock, for a key it finds. */
  function Hit<K>(c: Contents<K>, key: K, r: Reading, now: int): Contents<K>
    requires key in c.entries
  {
    c.(entries := c.entries[key := c.entries[key].With(r, now)])
  }

  predicate Takes<K>(c: Contents<K>, key: K, maxEntries: nat) {
    key in c.entries || |c.entries| < maxEntries
  }

  /** The region under the write lock. The key is looked for again, another
      call having had the chance to insert it. */
  function Inserted<K>(c: Contents<K>, key: K, r: Reading, now: int, maxEntries: nat): Contents<K> {
    if key in c.entries then Hit(c, key, r, now)
    else if |c.entries| >= maxEntries then c
    else
      var born := Add64(c.nextBorn, 1);
      c.(entries := c.entries[key := Blank(born).With(r, now)], nextBorn := born)
  }

  /** The fold of a record no entry took, which holds no lock. */
  function FoldedOver<K>(c: Contents<K>, r: Reading, now: int): Contents<K> {
    c.(overflow := c.overflow.With(r, now), capacityFolds := Add64(c.capacityFolds, 1))
  }

  ghost function Idle<K>(entries: map<K, Entry>, cutoff: int): map<K, Entry> {
    map key | key in entries && entries[key].lastSeen < cutoff :: entries[key]
  }

  ghost function Swept<K>(c: Contents<K>, cutoff: int): Contents<K> {
    var gone := Idle(c.entries, cutoff);
    c.(entries := c.entries - gone.Keys, idleEvictions := Add64(c.idleEvictions, Wrap64(|gone|)))
  }

  /** The three counters an entry and a reading both carry. */
  datatype Counter = Bytes | Packets | Flows
  {
    function Of(r: Reading): u64 {
      match this
      case Bytes => r.bytes
      case Packets => r.packets
      case Flows => r.flows
    }

    function In(e: Entry): u64 {
      match this
      case Bytes => e.bytes
      case Packets => e.packets
      case Flows => e.flows
    }

    function At(t: Totals): u64 {
      match this
      case Bytes => t.bytes
      case Packets => t.packets
      case Flows => t.flows
    }
  }

  /** A row publishes the counters of its entry, and a flag where its latch is
      not set. */
  lemma ReadIsTheEntry(e: Entry)
    ensures forall counter: Counter :: counter.At(e.Read()) == counter.In(e)
    ensures e.Read().bytesMeasured == !e.bytesUnmeasured && e.Read().packetsMeasured == !e.packetsUnmeasured
  {
    forall counter: Counter
      ensures counter.At(e.Read()) == counter.In(e)
    {
      match counter
      case Bytes =>
      case Packets =>
      case Flows =>
    }
  }

  ghost function Held<K>(entries: map<K, Entry>, counter: Counter): map<K, int> {
    map key | key in entries :: counter.In(entries[key]) as int
  }

  /** What a sweep reports of the entries it dropped: their sums, the measured
      flags left unset. */
  ghost predicate Reports<K>(dropped: Totals, gone: map<K, Entry>) {
    && !dropped.bytesMeasured && !dropped.packetsMeasured
    && forall counter: Counter :: counter.At(dropped) == Wrap64(Sum(Held(gone, counter)))
  }

  datatype Row<K> = Row(key: K, born: u64, totals: Totals)

  /** The rows are the entries, each once, in some order. */
  ghost predicate Lists<K(!new)>(rows: seq<Row<K>>, entries: map<K, Entry>) {
    && |rows| == |entries|
    && (forall i :: 0 <= i < |rows| ==>
         rows[i].key in entries
         && rows[i] == Row(rows[i].key, entries[rows[i].key].born, entries[rows[i].key].Read()))
    && (forall i, j :: 0 <= i < j < |rows| ==> rows[i].key != rows[j].key)
    && (forall key :: key in entries ==> HasRow(rows, key))
  }

  ghost predicate HasRow<K>(rows: seq<Row<K>>, key: K) {
    exists i :: 0 <= i < |rows| && rows[i].key == key
  }

  class Table<K(==,!new)> {
    const maxEntries: nat
    var entries: map<K, Entry>
    var overflow: Entry
    var idleEvictions: u64
    var capacityFolds: u64
    var nextBorn: u64

    function View(): Contents<K>
      reads this
    {
      Contents(entries, overflow, nextBorn, capacityFolds, idleEvictions)
    }

    constructor (maxEntries: nat)
      ensures View() == Empty() && this.maxEntries == maxEntries
    {
      this.maxEntries := maxEntries;
      entries, overflow, idleEvictions, capacityFolds, nextBorn := map[], Blank(0), 0, 0, 0;
    }

    method HitLocked(key: K, r: Reading, now: int) returns (ok: bool)
      modifies this`entries
      ensures ok <==> key in old(entries)
      ensures View() == if ok then Hit(old(View()), key, r, now) else old(View())
    {
      ok := key in entries;
      if ok {
        entries := entries[key := entries[key].With(r, now)];
      }
    }

    /** insert. */
    method Insert(key: K, r: Reading, now: int) returns (ok: bool)
      modifies this`entries, this`nextBorn
      ensures ok <==> Takes(old(View()), key, maxEntries)
      ensures View() == Inserted(old(View()), key, r, now, maxEntries)
    {
      if key in entries {
        entries := entries[key := entries[key].With(r, now)];
        return true;
      }
      if |entries| >= maxEntries {
        return false;
      }
      nextBorn := Add64(nextBorn, 1);
      entries := entries[key := Blank(nextBorn).With(r, now)];
      return true;
    }

    /** add, with no other call between its regions. */
    method Add(key: K, r: Reading, now: int)
      modifies this
      ensures View() == if Takes(old(View()), key, maxEntries) then Inserted(old(View()), key, r, now, maxEntries)
                        else FoldedOver(old(View()), r, now)
    {
      var ok := HitLocked(key, r, now);
      if ok {
        return;
      }
      ok := Insert(key, r, now);
      if !ok {
        capacityFolds := Add64(capacityFolds, 1);
        overflow := overflow.With(r, now);
      }
    }

    /** sweep: exactly the idle go, and what they carried is reported. */
    method Sweep(cutoff: int) returns (evicted: nat, dropped: Totals)
      modifies this`entries, this`idleEvictions
      ensures View() == Swept(old(View()), cutoff)
      ensures evicted == |Idle(old(entries), cutoff)| && Reports(dropped, Idle(old(entries), cutoff))
      ensures !dropped.bytesMeasured && !dropped.packetsMeasured
    {
      ghost var was := entries;
      var kept;
      kept, evicted, dropped := DropIdle(entries, cutoff);
      entries, idleEvictions := kept, Add64(idleEvictions, Wrap64(evicted));
    }

    /** snapshot. */
    method Snapshot() returns (rows: seq<Row<K>>, other: Totals)
      ensures Lists(rows, entries) && other == overflow.Read()
    {
      rows := ListEntries(entries);
      other := overflow.Read();
    }
  }

  /** The idle entries among those a walk has come to. */
  ghost function IdleSeen<K>(entries: map<K, Entry>, todo: set<K>, cutoff: int): map<K, Entry> {
    map key | key in entries && key !in todo && entries[key].lastSeen < cutoff :: entries[key]
  }

  lemma IdleStep<K>(entries: map<K, Entry>, todo: set<K>, key: K, cutoff: int)
    requires key in todo && key in entries
    ensures var gone, e := IdleSeen(entries, todo, cutoff), entries[key];
            && key !in gone
            && IdleSeen(entries, todo - {key}, cutoff) == (if e.lastSeen < cutoff then gone[key := e] else gone)
            && entries - gone[key := e].Keys == entries - gone.Keys - {key}
            && |gone[key := e]| == |gone| + 1
  {
    var gone, e := IdleSeen(entries, todo, cutoff), entries[key];
    GrowsByOne(gone, key, e);
    assert IdleSeen(entries, todo - {key}, cutoff) == if e.lastSeen < cutoff then gone[key := e] else gone;
    assert entries - gone[key := e].Keys == entries - gone.Keys - {key};
  }

  lemma IdleEnds<K>(entries: map<K, Entry>, cutoff: int)
    ensures IdleSeen(entries, entries.Keys, cutoff) == map[] && IdleSeen(entries, {}, cutoff) == Idle(entries, cutoff)
    ensures entries - IdleSeen(entries, entries.Keys, cutoff).Keys == entries
  {
    assert IdleSeen(entries, {}, cutoff) == Idle(entries, cutoff);
  }

  /** sweep's walk, in whatever order the map gives. */
  method DropIdle<K>(entries: map<K, Entry>, cutoff: int)
    returns (kept: map<K, Entry>, evicted: nat, dropped: Totals)
    ensures kept == entries - Idle(entries, cutoff).Keys
    ensures evicted == |Idle(entries, cutoff)| && Reports(dropped, Idle(entries, cutoff))
  {
    hide Reports, Add64, IdleSeen, Idle;
    kept, evicted, dropped := entries, 0, Totals(0, 0, 0, false, false);
    NothingDropped<K>(dropped);
    IdleEnds(entries, cutoff);
    var todo := entries.Keys;
    while todo != {}
      invariant todo <= entries.Keys
      invariant kept == entries - IdleSeen(entries, todo, cutoff).Keys
      invariant evicted == |IdleSeen(entries, todo, cutoff)| && Reports(dropped, IdleSeen(entries, todo, cutoff))
      decreases |todo|
    {
      var key :| key in todo;
      IdleStep(entries, todo, key, cutoff);
      ghost var gone := IdleSeen(entries, todo, cutoff);
      todo := todo - {key};
      var e := entries[key];
      if e.lastSeen >= cutoff {
        continue;
      }
      OneMoreDropped(dropped, gone, key, e);
      dropped := Totals(Add64(dropped.bytes, e.bytes), Add64(dropped.packets, e.packets), Add64(dropped.flows, e.flows),
                        dropped.bytesMeasured, dropped.packetsMeasured);
      kept, evicted := kept - {key}, evicted + 1;
    }
  }

  lemma NothingDropped<K>(dropped: Totals)
    requires dropped == Totals(0, 0, 0, false, false)
    ensures Reports<K>(dropped, map[])
  {
    forall counter: Counter
      ensures counter.At(dropped) == Wrap64(Sum(Held<K>(map[], counter)))
    {
      assert Held<K>(map[], counter) == map[];
    }
  }

  lemma GrowsByOne<K, V>(m: map<K, V>, k: K, v: V)
    requires k !in m
    ensures |m[k := v]| == |m| + 1
  {
    assert m[k := v].Keys == m.Keys + {k};
    assert |m[k := v].Keys| == |m[k := v]| && |m.Keys| == |m|;
  }

  lemma OneMoreDropped<K>(dropped: Totals, gone: map<K, Entry>, key: K, e: Entry)
    requires Reports(dropped, gone) && key !in gone
    ensures Reports(Totals(Add64(dropped.bytes, e.bytes), Add64(dropped.packets, e.packets), Add64(dropped.flows,
        e.flows),
                           dropped.bytesMeasured, dropped.packetsMeasured), gone[key := e])
  {
    var after := Totals(Add64(dropped.bytes, e.bytes), Add64(dropped.packets, e.packets), Add64(dropped.flows, e.flows),
                        dropped.bytesMeasured, dropped.packetsMeasured);
    forall counter: Counter
      ensures counter.At(after) == Wrap64(Sum(Held(gone[key := e], counter)))
    {
      HeldUpdate(gone, key, e, counter);
      AddOfWraps64(Sum(Held(gone, counter)), counter.In(e));
      SmallCounts(0, counter.In(e));
    }
  }

  lemma HeldUpdate<K>(entries: map<K, Entry>, key: K, e: Entry, counter: Counter)
    ensures Sum(Held(entries[key := e], counter)) ==
            Sum(Held(entries, counter)) - (if key in entries then counter.In(entries[key]) else 0) + counter.In(e)
  {
    hide Sum;
    SumUpdate(Held(entries, counter), key, counter.In(e));
    assert Held(entries[key := e], counter) == Held(entries, counter)[key := counter.In(e) as int];
  }

  lemma RowsStay<K(!new)>(rows: seq<Row<K>>, row: Row<K>)
    ensures forall key :: HasRow(rows, key) ==> HasRow(rows + [row], key)
  {
    forall key | HasRow(rows, key)
      ensures HasRow(rows + [row], key)
    {
      var i :| 0 <= i < |rows| && rows[i].key == key;
      assert (rows + [row])[i].key == key;
    }
  }

  /** snapshot's walk, in whatever order the map gives. */
  method ListEntries<K(!new)>(entries: map<K, Entry>) returns (rows: seq<Row<K>>)
    ensures Lists(rows, entries)
  {
    rows := [];
    var todo := entries.Keys;
    while todo != {}
      invariant todo <= entries.Keys
      invariant |rows| + |todo| == |entries.Keys|
      invariant forall i :: 0 <= i < |rows| ==>
        rows[i].key in entries && rows[i].key !in todo
        && rows[i] == Row(rows[i].key, entries[rows[i].key].born, entries[rows[i].key].Read())
      invariant forall i, j :: 0 <= i < j < |rows| ==> rows[i].key != rows[j].key
      invariant forall key :: key in entries && key !in todo ==> HasRow(rows, key)
      decreases |todo|
    {
      var key :| key in todo;
      todo := todo - {key};
      ghost var before := rows;
      rows := rows + [Row(key, entries[key].born, entries[key].Read())];
      assert rows[|rows| - 1].key == key;
      RowsStay(before, rows[|rows| - 1]);
    }
    assert |entries.Keys| == |entries|;
  }
}
