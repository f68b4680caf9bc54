/** Calls of add racing one another, sweeps and snapshots: every lock region is
    a step, and calls and sweeps interleave freely between their regions. */
module AddProtocol {
  import opened Uint
  import opened MapSums
  import opened AggregationTable

  /** Where a call stands: before its read-locked look, between that and the
      write lock, or turned away with its reading still to fold. */
  datatype Phase = Started | Missed | Turned

  datatype Call<K> = Call(key: K, reading: Reading, now: int, phase: Phase)

  /** Where every reading went, and when each live key was last credited one. */
  datatype Ledger<K> = Ledger(
    started: multiset<Reading>, live: map<K, multiset<Reading>>, credited: map<K, int>,
    overflow: multiset<Reading>, evicted: multiset<Reading>, reported: Totals, created: nat)

  datatype State<K> = State(table: Contents<K>, calls: map<nat, Call<K>>, ledger: Ledger<K>)

  datatype Step<K> =
    | Start(id: nat, key: K, reading: Reading, now: int)
    | Look(id: nat)
    | Insert(id: nat)
    | FoldOver(id: nat)
    | Sweep(cutoff: int)

  function Initial<K>(): State<K> {
    State(Empty(), map[],
          Ledger(multiset{}, map[], map[], multiset{}, multiset{}, Totals(0, 0, 0, false, false), 0))
  }

  ghost predicate Ready<K>(s: State<K>, id: nat, phase: Phase) {
    id in s.calls && s.calls[id].phase == phase
  }

  ghost function Behind<K>(live: map<K, multiset<Reading>>, key: K): multiset<Reading> {
    if key in live then live[key] else multiset{}
  }

  /** The call's reading reaches the entry, and the call is over. */
  ghost function Credited<K>(s: State<K>, id: nat, table: Contents<K>): State<K>
    requires id in s.calls
  {
    var c, l := s.calls[id], s.ledger;
    State(table, s.calls - {id},
          l.(live := l.live[c.key := Behind(l.live, c.key) + multiset{c.reading}],
             credited := l.credited[c.key := c.now],
             created := l.created + if c.key in s.table.entries then 0 else 1))
  }

  ghost function TurnTo<K>(s: State<K>, id: nat, phase: Phase): State<K>
    requires id in s.calls
  {
    s.(calls := s.calls[id := s.calls[id].(phase := phase)])
  }

  ghost function Plus(reported: Totals, dropped: map<Counter, u64>): Totals
    requires Bytes in dropped && Packets in dropped && Flows in dropped
  {
    reported.(bytes := Add64(reported.bytes, dropped[Bytes]),
              packets := Add64(reported.packets, dropped[Packets]),
              flows := Add64(reported.flows, dropped[Flows]))
  }

  /** What one sweep reports. */
  ghost function Dropped<K>(gone: map<K, Entry>): map<Counter, u64> {
    map counter | counter in {Bytes, Packets, Flows} :: Wrap64(Sum(Held(gone, counter)))
  }

  ghost function CreditedSince<K>(credited: map<K, int>, cutoff: int): map<K, int> {
    map key | key in credited && credited[key] >= cutoff :: credited[key]
  }

  ghost function SweepState<K>(s: State<K>, cutoff: int): State<K> {
    var gone, l := Idle(s.table.entries, cutoff), s.ledger;
    s.(table := Swept(s.table, cutoff),
       ledger := l.(live := l.live - gone.Keys,
                    credited := CreditedSince(l.credited, cutoff),
                    evicted := l.evicted + Pool(l.live - (l.live.Keys - gone.Keys)),
                    reported := Plus(l.reported, Dropped(gone))))
  }

  /** A step that is not enabled changes nothing. */
  ghost function Apply<K>(s: State<K>, step: Step<K>, maxEntries: nat): State<K> {
    match step
    case Start(id, key, reading, now) =>
      if id in s.calls then s
      else s.(calls := s.calls[id := Call(key, reading, now, Started)],
              ledger := s.ledger.(started := s.ledger.started + multiset{reading}))
    case Look(id) =>
      if !Ready(s, id, Started) then s
      else
        var c := s.calls[id];
        if c.key in s.table.entries then Credited(s, id, Hit(s.table, c.key, c.reading, c.now))
        else TurnTo(s, id, Missed)
    case Insert(id) =>
      if !Ready(s, id, Missed) then s
      else
        var c := s.calls[id];
        if Takes(s.table, c.key, maxEntries) then
          Credited(s, id, Inserted(s.table, c.key, c.reading, c.now, maxEntries))
        else TurnTo(s, id, Turned)
    case FoldOver(id) =>
      if !Ready(s, id, Turned) then s
      else
        var c := s.calls[id];
        State(FoldedOver(s.table, c.reading, c.now), s.calls - {id},
              s.ledger.(overflow := s.ledger.overflow + multiset{c.reading}))
    case Sweep(cutoff) => SweepState(s, cutoff)
  }

  ghost function Run<K>(steps: seq<Step<K>>, maxEntries: nat): State<K> {
    if steps == [] then Initial()
    else Apply(Run(steps[..|steps| - 1], maxEntries), steps[|steps| - 1], maxEntries)
  }

  // ---- Totals of readings -----------------------------------------------------

  ghost function Total(counter: Counter, readings: multiset<Reading>): int
    decreases |readings|
  {
    if readings == multiset{} then 0
    else
      var r :| r in readings;
      counter.Of(r) + Total(counter, readings - multiset{r})
  }

  lemma TotalFirst(counter: Counter, readings: multiset<Reading>) returns (first: Reading)
    requires readings != multiset{}
    ensures first in readings
    ensures Total(counter, readings) == counter.Of(first) + Total(counter, readings - multiset{first})
  {
    first :| first in readings
             && Total(counter, readings) == counter.Of(first) + Total(counter, readings - multiset{first});
  }

  lemma {:induction false} TotalRemove(counter: Counter, readings: multiset<Reading>, r: Reading)
    requires r in readings
    ensures Total(counter, readings) == counter.Of(r) + Total(counter, readings - multiset{r})
    decreases |readings|
  {
    hide Total;
    var first := TotalFirst(counter, readings);
    if first != r {
      var a, b := readings - multiset{first}, readings - multiset{r};
      assert r in a && first in b;
      TotalRemove(counter, a, r);
      TotalRemove(counter, b, first);
      assert a - multiset{r} == b - multiset{first};
    }
  }

  lemma TotalOneMore(counter: Counter, readings: multiset<Reading>, r: Reading)
    ensures Total(counter, readings + multiset{r}) == Total(counter, readings) + counter.Of(r)
  {
    TotalRemove(counter, readings + multiset{r}, r);
    assert readings + multiset{r} - multiset{r} == readings;
  }

  lemma {:induction false} TotalPlus(counter: Counter, a: multiset<Reading>, b: multiset<Reading>)
    ensures Total(counter, a + b) == Total(counter, a) + Total(counter, b)
    decreases |b|
  {
    if b == multiset{} {
      assert a + b == a;
    } else {
      var r :| r in b;
      TotalPlus(counter, a, b - multiset{r});
      TotalRemove(counter, b, r);
      TotalOneMore(counter, a + (b - multiset{r}), r);
      assert a + (b - multiset{r}) + multiset{r} == a + b;
    }
  }

  ghost function Totalled<K>(m: map<K, multiset<Reading>>, counter: Counter): map<K, int> {
    map k | k in m :: Total(counter, m[k])
  }

  lemma NothingPooled<K>(counter: Counter)
    ensures Total(counter, Pool<K, Reading>(map[])) == 0 == Sum(Totalled<K>(map[], counter))
  {
    assert Totalled<K>(map[], counter) == map[];
  }

  lemma {:induction false} TotalOfPool<K>(counter: Counter, m: map<K, multiset<Reading>>)
    ensures Total(counter, Pool(m)) == Sum(Totalled(m, counter))
    decreases |m|
  {
    hide Sum, Pool, Total;
    if m == map[] {
      NothingPooled<K>(counter);
    } else {
      var k :| k in m;
      TotalOfPool(counter, m - {k});
      PoolRemove(m, k);
      TotalPlus(counter, m[k], Pool(m - {k}));
      SumRemove(Totalled(m, counter), k);
      assert Totalled(m, counter) - {k} == Totalled(m - {k}, counter);
    }
  }

  lemma NoPool<K, V>()
    ensures Pool<K, V>(map[]) == multiset{}
  {
  }

  /** A pool splits over any set of keys. */
  lemma {:induction false} PoolParts<K, V>(m: map<K, multiset<V>>, keys: set<K>)
    requires keys <= m.Keys
    ensures Pool(m) == Pool(m - (m.Keys - keys)) + Pool(m - keys)
    decreases |keys|
  {
    hide Pool;
    if keys == {} {
      assert m - (m.Keys - keys) == map[] && m - keys == m;
      NoPool<K, V>();
    } else {
      var k :| k in keys;
      PoolParts(m - {k}, keys - {k});
      PoolRemove(m, k);
      PoolRemove(m - (m.Keys - keys), k);
      assert m - {k} - (keys - {k}) == m - keys;
      assert m - {k} - ((m - {k}).Keys - (keys - {k})) == m - (m.Keys - keys) - {k};
    }
  }

  // ---- What every reachable state keeps ---------------------------------------

  /** The entry is exactly what these readings come to: each counter their sum,
      each latch whether one of them went unmeasured. */
  ghost predicate Carries(e: Entry, readings: multiset<Reading>) {
    && (forall counter: Counter :: counter.In(e) == Wrap64(Total(counter, readings)))
    && (e.bytesUnmeasured <==> exists r :: r in readings && !r.bytesMeasured)
    && (e.packetsUnmeasured <==> exists r :: r in readings && !r.packetsMeasured)
  }

  ghost predicate EntriesCarry<K>(entries: map<K, Entry>, live: map<K, multiset<Reading>>) {
    entries.Keys == live.Keys && forall key :: key in entries ==> Carries(entries[key], live[key])
  }

  /** Every entry is stamped with the instant it was last credited a reading. */
  ghost predicate Stamped<K>(entries: map<K, Entry>, credited: map<K, int>) {
    entries.Keys == credited.Keys && forall key :: key in entries ==> entries[key].lastSeen == credited[key]
  }

  ghost function InFlight<K>(calls: map<nat, Call<K>>): map<nat, multiset<Reading>> {
    map id | id in calls :: multiset{calls[id].reading}
  }

  /** Every reading a call began with is in exactly one place. */
  ghost predicate Conserved<K>(l: Ledger<K>, calls: map<nat, Call<K>>) {
    l.started == Pool(l.live) + l.overflow + l.evicted + Pool(InFlight(calls))
  }

  /** Until the stamp itself wraps, no two entries were born alike. */
  ghost predicate BornApart<K>(c: Contents<K>, created: nat) {
    && c.nextBorn == Wrap64(created)
    && (created < TWO_64 ==> Apart(c.entries, created))
  }

  ghost predicate Apart<K>(entries: map<K, Entry>, last: nat) {
    && (forall key :: key in entries ==> 1 <= entries[key].born <= last)
    && (forall a, b :: a in entries && b in entries && entries[a].born == entries[b].born ==> a == b)
  }

  ghost predicate Counted<K>(c: Contents<K>, l: Ledger<K>, maxEntries: nat) {
    && |c.entries| <= maxEntries
    && |c.entries| <= l.created
    && c.capacityFolds == Wrap64(|l.overflow|)
    && c.idleEvictions == Wrap64(l.created - |c.entries|)
    && forall counter: Counter :: counter.At(l.reported) == Wrap64(Total(counter, l.evicted))
  }

  ghost predicate Holds<K>(s: State<K>, maxEntries: nat) {
    && EntriesCarry(s.table.entries, s.ledger.live)
    && Stamped(s.table.entries, s.ledger.credited)
    && Carries(s.table.overflow, s.ledger.overflow)
    && Conserved(s.ledger, s.calls)
    && BornApart(s.table, s.ledger.created)
    && Counted(s.table, s.ledger, maxEntries)
  }

  lemma SameKeys<K>(entries: map<K, Entry>, live: map<K, multiset<Reading>>)
    requires EntriesCarry(entries, live)
    ensures entries.Keys == live.Keys
  {
  }

  lemma CarriesNothing(born: u64)
    ensures Carries(Blank(born), multiset{})
  {
  }

  lemma CarriesOneMore(e: Entry, readings: multiset<Reading>, r: Reading, now: int)
    requires Carries(e, readings)
    ensures Carries(e.With(r, now), readings + multiset{r})
  {
    forall counter: Counter
      ensures counter.In(e.With(r, now)) == Wrap64(Total(counter, readings + multiset{r}))
    {
      TotalOneMore(counter, readings, r);
      AddOfWraps64(Total(counter, readings), counter.Of(r));
      SmallCounts(0, counter.Of(r));
    }
    assert r in readings + multiset{r};
    assert forall x :: x in readings ==> x in readings + multiset{r};
  }

  lemma InFlightDone<K>(calls: map<nat, Call<K>>, id: nat)
    requires id in calls
    ensures Pool(InFlight(calls)) == Pool(InFlight(calls - {id})) + multiset{calls[id].reading}
  {
    hide Pool;
    PoolRemove(InFlight(calls), id);
    assert InFlight(calls) - {id} == InFlight(calls - {id});
  }

  lemma InFlightSame<K>(calls: map<nat, Call<K>>, id: nat, phase: Phase)
    requires id in calls
    ensures InFlight(calls[id := calls[id].(phase := phase)]) == InFlight(calls)
  {
  }

  lemma CreditConserves<K>(s: State<K>, id: nat, table: Contents<K>)
    requires Conserved(s.ledger, s.calls) && id in s.calls
    ensures Conserved(Credited(s, id, table).ledger, s.calls - {id})
  {
    hide Pool, InFlight;
    var l, c := s.ledger, s.calls[id];
    InFlightDone(s.calls, id);
    if c.key in l.live {
      PoolUpdate(l.live, c.key, multiset{c.reading});
    } else {
      PoolInsert(l.live, c.key, multiset{c.reading});
      assert multiset{} + multiset{c.reading} == multiset{c.reading};
    }
  }

  lemma CreditCarries<K>(s: State<K>, id: nat, maxEntries: nat)
    requires EntriesCarry(s.table.entries, s.ledger.live) && id in s.calls
    requires Takes(s.table, s.calls[id].key, maxEntries)
    ensures var c := s.calls[id];
            var table := Inserted(s.table, c.key, c.reading, c.now, maxEntries);
            EntriesCarry(table.entries, Credited(s, id, table).ledger.live)
  {
    hide Carries, EntriesCarry;
    var c, entries := s.calls[id], s.table.entries;
    SameKeys(entries, s.ledger.live);
    if c.key in entries {
      CarriedAt(entries, s.ledger.live, c.key);
      CarriesOneMore(entries[c.key], s.ledger.live[c.key], c.reading, c.now);
      CarriesPut(entries, s.ledger.live, c.key, entries[c.key].With(c.reading, c.now),
                 s.ledger.live[c.key] + multiset{c.reading});
    } else {
      var born := Add64(s.table.nextBorn, 1);
      CarriesNothing(born);
      CarriesOneMore(Blank(born), multiset{}, c.reading, c.now);
      CarriesPut(entries, s.ledger.live, c.key, Blank(born).With(c.reading, c.now), multiset{} + multiset{c.reading});
    }
  }

  lemma CarriedAt<K>(entries: map<K, Entry>, live: map<K, multiset<Reading>>, key: K)
    requires EntriesCarry(entries, live) && key in entries
    ensures key in live && Carries(entries[key], live[key])
  {
  }

  lemma CarriesPut<K>(entries: map<K, Entry>, live: map<K, multiset<Reading>>, key: K, e: Entry,
                      readings: multiset<Reading>)
    requires EntriesCarry(entries, live) && Carries(e, readings)
    ensures EntriesCarry(entries[key := e], live[key := readings])
  {
    hide Carries;
    assert entries[key := e].Keys == entries.Keys + {key} == live[key := readings].Keys;
  }

  lemma SameBirths<K>(before: map<K, Entry>, after: map<K, Entry>, last: nat)
    requires Apart(before, last)
    requires forall key :: key in after ==> key in before && after[key].born == before[key].born
    ensures Apart(after, last)
  {
  }

  lemma NewBirth<K>(entries: map<K, Entry>, key: K, e: Entry, last: nat)
    requires Apart(entries, last) && key !in entries && e.born == last + 1
    ensures Apart(entries[key := e], last + 1)
  {
    var after := entries[key := e];
    assert forall k :: k in after ==> k == key || (k in entries && after[k] == entries[k] && after[k].born <= last);
  }

  lemma CreditBirths<K>(c: Contents<K>, created: nat, key: K, r: Reading, now: int, maxEntries: nat)
    requires BornApart(c, created) && Takes(c, key, maxEntries)
    ensures BornApart(Inserted(c, key, r, now, maxEntries), created + if key in c.entries then 0 else 1)
  {
    hide Apart, Add64, Wrap64;
    var after := Inserted(c, key, r, now, maxEntries);
    if key in c.entries {
      if created < TWO_64 {
        SameBirths(c.entries, after.entries, created);
      }
    } else {
      NextBorn(created);
      if created + 1 < TWO_64 {
        NewBirth(c.entries, key, after.entries[key], created);
      }
    }
  }

  lemma NextBorn(created: nat)
    ensures Add64(Wrap64(created), 1) == Wrap64(created + 1)
    ensures created < TWO_64 ==> Wrap64(created) == created
    ensures created + 1 < TWO_64 ==> Wrap64(created + 1) == created + 1
  {
    AddOfWraps64(created, 1);
  }

  lemma CreditCounts<K>(c: Contents<K>, l: Ledger<K>, l': Ledger<K>, key: K, r: Reading, now: int, maxEntries: nat)
    requires Counted(c, l, maxEntries) && Takes(c, key, maxEntries)
    requires l'.overflow == l.overflow && l'.evicted == l.evicted && l'.reported == l.reported
    requires l'.created == l.created + if key in c.entries then 0 else 1
    ensures Counted(Inserted(c, key, r, now, maxEntries), l', maxEntries)
  {
    hide Total;
    var after := Inserted(c, key, r, now, maxEntries);
    if key in c.entries {
      assert after.entries.Keys == c.entries.Keys;
      assert |after.entries| == |after.entries.Keys| && |c.entries| == |c.entries.Keys|;
    } else {
      GrowsByOne(c.entries, key, after.entries[key]);
    }
  }

  lemma CreditStamps<K>(c: Contents<K>, credited: map<K, int>, key: K, r: Reading, now: int, maxEntries: nat)
    requires Stamped(c.entries, credited) && Takes(c, key, maxEntries)
    ensures Stamped(Inserted(c, key, r, now, maxEntries).entries, credited[key := now])
  {
    assert Inserted(c, key, r, now, maxEntries).entries.Keys == c.entries.Keys + {key} == credited[key := now].Keys;
  }

  lemma CreditKeeps<K>(s: State<K>, id: nat, maxEntries: nat)
    requires Holds(s, maxEntries) && id in s.calls && Takes(s.table, s.calls[id].key, maxEntries)
    ensures var c := s.calls[id];
            Holds(Credited(s, id, Inserted(s.table, c.key, c.reading, c.now, maxEntries)), maxEntries)
  {
    hide Carries, EntriesCarry, Stamped, Conserved, BornApart, Counted, Inserted;
    var c := s.calls[id];
    CreditStamps(s.table, s.ledger.credited, c.key, c.reading, c.now, maxEntries);
    var table := Inserted(s.table, c.key, c.reading, c.now, maxEntries);
    InsertKeepsOverflow(s.table, c.key, c.reading, c.now, maxEntries);
    CreditConserves(s, id, table);
    CreditCarries(s, id, maxEntries);
    CreditBirths(s.table, s.ledger.created, c.key, c.reading, c.now, maxEntries);
    CreditCounts(s.table, s.ledger, Credited(s, id, table).ledger, c.key, c.reading, c.now, maxEntries);
  }

  lemma InsertKeepsOverflow<K>(c: Contents<K>, key: K, r: Reading, now: int, maxEntries: nat)
    ensures Inserted(c, key, r, now, maxEntries).overflow == c.overflow
    ensures key in c.entries ==> Inserted(c, key, r, now, maxEntries) == Hit(c, key, r, now)
  {
  }

  lemma StartKeeps<K>(s: State<K>, id: nat, key: K, reading: Reading, now: int, maxEntries: nat)
    requires Holds(s, maxEntries)
    ensures Holds(Apply(s, Start(id, key, reading, now), maxEntries), maxEntries)
  {
    hide Carries, EntriesCarry, BornApart, Pool, Total, InFlight;
    if id !in s.calls {
      var calls := s.calls[id := Call(key, reading, now, Started)];
      InFlightDone(calls, id);
      assert calls - {id} == s.calls;
      assert calls[id].reading == reading;
    }
  }

  lemma TurnKeeps<K>(s: State<K>, id: nat, phase: Phase, maxEntries: nat)
    requires Holds(s, maxEntries) && id in s.calls
    ensures Holds(TurnTo(s, id, phase), maxEntries)
  {
    hide Carries, EntriesCarry, BornApart, Counted, Pool, InFlight;
    InFlightSame(s.calls, id, phase);
  }

  lemma FoldKeeps<K>(s: State<K>, id: nat, maxEntries: nat)
    requires Holds(s, maxEntries) && Ready(s, id, Turned)
    ensures Holds(Apply(s, FoldOver(id), maxEntries), maxEntries)
  {
    hide Carries, EntriesCarry, Stamped, BornApart, Pool, InFlight, Total;
    var c := s.calls[id];
    InFlightDone(s.calls, id);
    CarriesOneMore(s.table.overflow, s.ledger.overflow, c.reading, c.now);
    BirthsByEntries(s.table, FoldedOver(s.table, c.reading, c.now), s.ledger.created);
    AddOfWraps64(|s.ledger.overflow|, 1);
    SmallCounts(0, 1);
  }

  lemma BirthsByEntries<K>(c: Contents<K>, d: Contents<K>, created: nat)
    requires BornApart(c, created) && d.nextBorn == c.nextBorn
    requires forall key :: key in d.entries ==> key in c.entries && d.entries[key] == c.entries[key]
    ensures BornApart(d, created)
  {
    hide Apart;
    if created < TWO_64 {
      SameBirths(c.entries, d.entries, created);
    }
  }

  lemma GoneCarried<K>(entries: map<K, Entry>, live: map<K, multiset<Reading>>, gone: map<K, Entry>, counter: Counter)
    requires EntriesCarry(entries, live)
    requires forall key :: key in gone ==> key in entries && gone[key] == entries[key]
    ensures Wrap64(Sum(Held(gone, counter))) == Wrap64(Total(counter, Pool(live - (live.Keys - gone.Keys))))
  {
    hide Sum, Pool, Total;
    var left := live - (live.Keys - gone.Keys);
    TotalOfPool(counter, left);
    forall key | key in gone
      ensures Wrap64(Held(gone, counter)[key]) == Wrap64(Totalled(left, counter)[key])
    {
      assert Carries(entries[key], live[key]);
      SmallCounts(0, counter.In(entries[key]));
    }
    assert Held(gone, counter).Keys == gone.Keys == Totalled(left, counter).Keys;
    SumsWrapAlike(Held(gone, counter), Totalled(left, counter));
  }

  lemma {:induction false} SumsWrapAlike<K>(a: map<K, int>, b: map<K, int>)
    requires a.Keys == b.Keys && forall k :: k in a ==> Wrap64(a[k]) == Wrap64(b[k])
    ensures Wrap64(Sum(a)) == Wrap64(Sum(b))
    decreases |a|
  {
    hide Wrap64, Sum;
    if a == map[] {
      assert b == map[];
    } else {
      var k :| k in a;
      SumRemove(a, k);
      SumRemove(b, k);
      SumsWrapAlike(a - {k}, b - {k});
      AddOfWraps64(a[k], Sum(a - {k}));
      AddOfWraps64(b[k], Sum(b - {k}));
    }
  }

  lemma SweepReports<K>(s: State<K>, cutoff: int, counter: Counter)
    requires EntriesCarry(s.table.entries, s.ledger.live)
    requires counter.At(s.ledger.reported) == Wrap64(Total(counter, s.ledger.evicted))
    ensures var after := SweepState(s, cutoff).ledger;
            counter.At(after.reported) == Wrap64(Total(counter, after.evicted))
  {
    hide Total, Pool, Sum, Held, EntriesCarry, Wrap64;
    var gone := Idle(s.table.entries, cutoff);
    var lost := Pool(s.ledger.live - (s.ledger.live.Keys - gone.Keys));
    GoneCarried(s.table.entries, s.ledger.live, gone, counter);
    TotalPlus(counter, s.ledger.evicted, lost);
    AddOfWraps64(Total(counter, s.ledger.evicted), Total(counter, lost));
    assert Dropped(gone)[counter] == Wrap64(Sum(Held(gone, counter))) by {
      assert counter in {Bytes, Packets, Flows};
    }
  }

  lemma Remaining<K, V>(m: map<K, V>, gone: map<K, V>)
    requires gone.Keys <= m.Keys
    ensures |m - gone.Keys| == |m| - |gone|
  {
    var left := m - gone.Keys;
    assert left.Keys + gone.Keys == m.Keys && left.Keys !! gone.Keys;
    assert |left.Keys + gone.Keys| == |left.Keys| + |gone.Keys|;
    assert |m| == |m.Keys| && |gone| == |gone.Keys| && |left| == |left.Keys|;
  }

  lemma SweepCounts<K>(c: Contents<K>, created: nat, cutoff: int)
    requires |c.entries| <= created && c.idleEvictions == Wrap64(created - |c.entries|)
    ensures var after := Swept(c, cutoff);
            |after.entries| <= |c.entries| && after.idleEvictions == Wrap64(created - |after.entries|)
  {
    hide Wrap64, Add64;
    var gone := Idle(c.entries, cutoff);
    Remaining(c.entries, gone);
    AddOfWraps64(created - |c.entries|, |gone|);
  }

  lemma SweepConserves<K>(s: State<K>, cutoff: int)
    requires Conserved(s.ledger, s.calls) && s.table.entries.Keys == s.ledger.live.Keys
    ensures Conserved(SweepState(s, cutoff).ledger, s.calls)
  {
    hide Pool, InFlight;
    PoolParts(s.ledger.live, Idle(s.table.entries, cutoff).Keys);
  }

  lemma SweepCarries<K>(s: State<K>, cutoff: int)
    requires EntriesCarry(s.table.entries, s.ledger.live)
    ensures EntriesCarry(SweepState(s, cutoff).table.entries, SweepState(s, cutoff).ledger.live)
  {
    hide Carries;
  }

  lemma SweepStamps<K>(c: Contents<K>, credited: map<K, int>, cutoff: int)
    requires Stamped(c.entries, credited)
    ensures Stamped(Swept(c, cutoff).entries, CreditedSince(credited, cutoff))
  {
    assert Swept(c, cutoff).entries.Keys == CreditedSince(credited, cutoff).Keys;
  }

  lemma SweepBirths<K>(c: Contents<K>, created: nat, cutoff: int)
    requires BornApart(c, created)
    ensures BornApart(Swept(c, cutoff), created)
  {
    BirthsByEntries(c, Swept(c, cutoff), created);
  }

  lemma SweepTallies<K>(s: State<K>, cutoff: int, maxEntries: nat)
    requires Counted(s.table, s.ledger, maxEntries) && EntriesCarry(s.table.entries, s.ledger.live)
    ensures Counted(SweepState(s, cutoff).table, SweepState(s, cutoff).ledger, maxEntries)
  {
    hide Total, Pool, EntriesCarry, Wrap64, Swept, Plus, Dropped, Idle;
    SweepCounts(s.table, s.ledger.created, cutoff);
    SweepLeaves(s.table, cutoff);
    forall counter: Counter
      ensures counter.At(SweepState(s, cutoff).ledger.reported) == Wrap64(Total(counter, SweepState(s,
          cutoff).ledger.evicted))
    {
      SweepReports(s, cutoff, counter);
    }
  }

  lemma SweepLeaves<K>(c: Contents<K>, cutoff: int)
    ensures var after := Swept(c, cutoff);
            after.overflow == c.overflow && after.capacityFolds == c.capacityFolds && after.nextBorn == c.nextBorn
  {
  }

  lemma SweepKeeps<K>(s: State<K>, cutoff: int, maxEntries: nat)
    requires Holds(s, maxEntries)
    ensures Holds(SweepState(s, cutoff), maxEntries)
  {
    hide Carries, EntriesCarry, Stamped, Conserved, BornApart, Counted, Swept, Plus, Dropped, Idle;
    SweepStamps(s.table, s.ledger.credited, cutoff);
    SweepLeaves(s.table, cutoff);
    SameKeys(s.table.entries, s.ledger.live);
    SweepConserves(s, cutoff);
    SweepCarries(s, cutoff);
    SweepBirths(s.table, s.ledger.created, cutoff);
    SweepTallies(s, cutoff, maxEntries);
  }

  lemma StepKeeps<K>(s: State<K>, step: Step<K>, maxEntries: nat)
    requires Holds(s, maxEntries)
    ensures Holds(Apply(s, step, maxEntries), maxEntries)
  {
    hide Holds, Credited, Inserted, Hit, SweepState;
    match step
    case Start(id, key, reading, now) => StartKeeps(s, id, key, reading, now, maxEntries);
    case Look(id) =>
      if Ready(s, id, Started) {
        var c := s.calls[id];
        InsertKeepsOverflow(s.table, c.key, c.reading, c.now, maxEntries);
        if c.key in s.table.entries {
          CreditKeeps(s, id, maxEntries);
        } else {
          TurnKeeps(s, id, Missed, maxEntries);
        }
      }
    case Insert(id) =>
      if Ready(s, id, Missed) {
        if Takes(s.table, s.calls[id].key, maxEntries) {
          CreditKeeps(s, id, maxEntries);
        } else {
          TurnKeeps(s, id, Turned, maxEntries);
        }
      }
    case FoldOver(id) =>
      if Ready(s, id, Turned) {
        FoldKeeps(s, id, maxEntries);
      }
    case Sweep(cutoff) => SweepKeeps(s, cutoff, maxEntries);
  }

  lemma InitiallyHolds<K>(maxEntries: nat)
    ensures Holds<K>(Initial(), maxEntries)
  {
    hide Carries, Total, Pool;
    CarriesNothing(0);
    NoPool<K, Reading>();
    NoPool<nat, Reading>();
    assert InFlight<K>(map[]) == map[];
    forall counter: Counter
      ensures Total(counter, multiset{}) == 0
    {
      NothingPooled<K>(counter);
      NoPool<K, Reading>();
    }
  }

  /** Over every interleaving: no reading is lost or taken twice, every entry is
      what its own readings come to, the bound holds and births stay apart. */
  lemma {:induction false} EveryRunHolds<K>(steps: seq<Step<K>>, maxEntries: nat)
    ensures Holds(Run(steps, maxEntries), maxEntries)
    decreases |steps|
  {
    hide Holds, Apply;
    if steps == [] {
      InitiallyHolds<K>(maxEntries);
    } else {
      EveryRunHolds(steps[..|steps| - 1], maxEntries);
      StepKeeps(Run(steps[..|steps| - 1], maxEntries), steps[|steps| - 1], maxEntries);
    }
  }

  /** The counters a reader can see, with what sweeps reported and what is still
      in flight, are every count ever handed to add, modulo the counter's width. */
  lemma CountersConserve<K>(steps: seq<Step<K>>, maxEntries: nat, counter: Counter)
    ensures var s := Run(steps, maxEntries);
            Wrap64(Total(counter, s.ledger.started)) ==
            Wrap64(Sum(Held(s.table.entries, counter)) + counter.In(s.table.overflow) + counter.At(s.ledger.reported)
                   + Sum(Totalled(InFlight(s.calls), counter)))
  {
    hide Run, Total, Pool, Sum, Held, Totalled, InFlight, Wrap64, BornApart;
    EveryRunHolds(steps, maxEntries);
    var s := Run(steps, maxEntries);
    var l := s.ledger;
    var live, flying := Pool(l.live), Pool(InFlight(s.calls));
    TotalPlus(counter, live, l.overflow);
    TotalPlus(counter, live + l.overflow, l.evicted);
    TotalPlus(counter, live + l.overflow + l.evicted, flying);
    TotalOfPool(counter, InFlight(s.calls));
    GoneCarried(s.table.entries, l.live, s.table.entries, counter);
    assert l.live - (l.live.Keys - s.table.entries.Keys) == l.live;
    WrapTerms(Sum(Held(s.table.entries, counter)), counter.In(s.table.overflow), counter.At(l.reported),
        Total(counter, flying),
              Total(counter, live), Total(counter, l.overflow), Total(counter, l.evicted));
  }

  lemma WrapTerms(a: int, b: u64, c: u64, d: int, a': int, b': int, c': int)
    requires Wrap64(a) == Wrap64(a') && b == Wrap64(b') && c == Wrap64(c')
    ensures Wrap64(a + b + c + d) == Wrap64(a' + b' + c' + d)
  {
    assert Wrap64(b) == b && Wrap64(c) == c;
    hide Wrap64;
    AddOfWraps64(a, b);
    AddOfWraps64(a', b');
    AddOfWraps64(a + b, c);
    AddOfWraps64(a' + b', c');
    AddOfWraps64(a + b + c, d);
    AddOfWraps64(a' + b' + c', d);
  }

  /** After any interleaving a sweep evicts exactly the keys whose last credited
      reading is older than the cutoff, and touches no other entry. */
  lemma SweepEvictsTheStale<K>(steps: seq<Step<K>>, maxEntries: nat, cutoff: int)
    ensures var s, after := Run(steps, maxEntries), Run(steps + [Sweep(cutoff)], maxEntries);
            && s.ledger.credited.Keys == s.table.entries.Keys
            && after.table.entries ==
               map key | key in s.table.entries && s.ledger.credited[key] >= cutoff :: s.table.entries[key]
  {
    hide Total, Pool, Sum, Carries, EntriesCarry, Conserved, BornApart, Counted;
    EveryRunHolds(steps, maxEntries);
    assert (steps + [Sweep(cutoff)])[..|steps|] == steps;
  }

  /** A reading is turned away only where its key is new and the table holds as
      many as it may, and a key let in is the youngest of them. */
  lemma TurnedAwayOnlyWhenFull<K>(steps: seq<Step<K>>, maxEntries: nat, id: nat)
    requires Ready(Run(steps, maxEntries), id, Missed)
    ensures var s, after := Run(steps, maxEntries), Run(steps + [Insert(id)], maxEntries);
            var key := s.calls[id].key;
            && (Ready(after, id, Turned) <==> key !in s.table.entries && |s.table.entries| == maxEntries)
            && (!Ready(after, id, Turned) ==> id !in after.calls && key in after.table.entries)
            && (key !in s.table.entries && key in after.table.entries && s.ledger.created + 1 < TWO_64 ==>
                 forall other :: other in s.table.entries ==>
                   s.table.entries[other].born < after.table.entries[key].born)
  {
    hide Total, Pool, Sum, Carries, EntriesCarry, Conserved, Stamped, Wrap64;
    EveryRunHolds(steps, maxEntries);
    assert (steps + [Insert(id)])[..|steps|] == steps;
    NextBorn(Run(steps, maxEntries).ledger.created);
  }

  /** With no call in flight the table and the sweeps account for everything. */
  lemma QuietTableAccountsForAll<K>(steps: seq<Step<K>>, maxEntries: nat)
    requires Run(steps, maxEntries).calls == map[]
    ensures var l := Run(steps, maxEntries).ledger;
            l.started == Pool(l.live) + l.overflow + l.evicted
  {
    EveryRunHolds(steps, maxEntries);
    assert InFlight(Run(steps, maxEntries).calls) == map[];
  }
}
