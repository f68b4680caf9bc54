/** decodeNetFlowV9: flowsets applied as they are met, each on its own. */
module NetflowV9Decoder {
  import opened Uint
  import opened Wire
  import opened Templates
  import opened Net
  import opened IpfixRecords
  import opened IpfixMessages
  import opened StoreModel
  import opened StoreInvariants
  import opened TemplateStores
  import opened Sequences
  import opened OptionsRecords
  import opened IpfixDecoder
  import V9Templates

  const V9_HEADER: nat := 20

  /** What a v9 flowset announces. */
  function V9Announced(s: WireSet, maxFields: nat): seq<Announcement> {
    if s.id == V9_TEMPLATES || s.id == V9_OPTIONS then V9Templates.Announced(s.body, s.id == V9_OPTIONS, maxFields)
    else []
  }

  /** Everything announced by the flowsets before the n-th. */
  function V9Ahead(sets: seq<WireSet>, n: nat, maxFields: nat): Announcements
    requires n <= |sets|
  {
    if n == 0 then map[] else Fold(V9Ahead(sets, n - 1, maxFields), V9Announced(sets[n - 1], maxFields))
  }

  /** A stored v9 template divides a set into records: it has a length, and no
      variable field to make it a minimum. */
  lemma V9TemplateDivides(t: Template)
    requires WellFormed(NetFlowV9, t)
    ensures t.recordLen >= 1 && !t.hasVariable && Walkable(t)
  {
  }

  lemma V9EffectsFit(s: WireSet, maxFields: nat)
    ensures EffectsFit(NetFlowV9, V9Announced(s, maxFields))
  {
    var anns := V9Announced(s, maxFields);
    forall i | 0 <= i < |anns|
      ensures Effect(anns[i]).Some? ==> WellFormed(NetFlowV9, Effect(anns[i]).value)
    {
      V9Templates.AnnouncedCompile(s.body, s.id == V9_OPTIONS, maxFields, i);
      if Effect(anns[i]).Some? {
        FittingIsWellFormed(NetFlowV9, anns[i].layout.value);
      }
    }
  }

  lemma {:induction false} FieldsWithin(fields: seq<TemplateField>, n: nat)
    requires n < |fields|
    ensures MinLength(fields[..n]) + MinWidth(fields[n]) <= MinLength(fields)
    decreases n
  {
    if n > 0 {
      FieldsWithin(fields[1..], n - 1);
      assert fields[1..][..n - 1] == fields[..n][1..];
    }
  }

  /** One slice of the record is one step of the walk over its fields. */
  lemma SliceIsStep(fields: seq<TemplateField>, i: nat, body: Bytes, start: nat, room: nat, values: seq<Bytes>)
    requires i < |fields| && fields[i].length != VARIABLE
    requires MinLength(fields) == room && start + room <= |body|
    ensures var offset := MinLength(fields[..i]);
            var next := offset + fields[i].length;
            && next <= room
            && MinLength(fields[..i + 1]) == next
            && WalkFields(fields[i..], body, start + offset, values)
               == WalkFields(fields[i + 1..], body, start + next, values + [body[start..start + room][offset..next]])
  {
    hide MinLength;
    FieldsWithin(fields, i);
    assert fields[..i + 1] == fields[..i] + [fields[i]];
    MinLengthAppend(fields[..i], fields[i]);
    assert fields[i..][0] == fields[i] && fields[i..][1..] == fields[i + 1..];
    var offset := MinLength(fields[..i]);
    var next := offset + fields[i].length;
    SliceOfSlice(body, start, start + room, offset, next);
  }

  lemma SliceOfSlice(body: Bytes, lo: nat, hi: nat, i: nat, j: nat)
    requires i <= j && lo + j <= hi <= |body|
    ensures body[lo..hi][i..j] == body[lo + i..lo + j]
  {
    var a, b := body[lo..hi][i..j], body[lo + i..lo + j];
    assert |a| == |b|;
    forall k | 0 <= k < |a|
      ensures a[k] == b[k]
    {
      assert a[k] == body[lo..hi][i + k] == body[lo + (i + k)];
    }
  }

  /** The field loop of one record, sliced by the widths alone. */
  method SplitRecord(t: Template, body: Bytes, start: nat) returns (values: seq<Bytes>)
    requires Walkable(t) && !t.hasVariable && start + t.recordLen <= |body|
    ensures WalkFields(t.fields, body, start, []) == Walked(values, start + t.recordLen)
  {
    hide MinLength, NextFieldValue, MinWidth;
    var record := body[start..start + t.recordLen];
    values := [];
    var offset := 0;
    assert t.fields[..0] == [] && t.fields[0..] == t.fields;
    NoLength();
    for i := 0 to |t.fields|
      invariant offset == MinLength(t.fields[..i])
      invariant WalkFields(t.fields[i..], body, start + offset, values) == WalkFields(t.fields, body, start, [])
    {
      SliceIsStep(t.fields, i, body, start, t.recordLen, values);
      values := values + [record[offset..offset + t.fields[i].length]];
      offset := offset + t.fields[i].length;
    }
    assert t.fields[..|t.fields|] == t.fields;
  }

  lemma NoLength()
    ensures MinLength([]) == 0
  {
  }

  /** decodeV9DataSet's arithmetic: dividing the set by the record length and
      slicing finds exactly the records a walk over the fields finds, whole. */
  method SplitSet(t: Template, body: Bytes) returns (records: seq<seq<Bytes>>)
    requires Walkable(t) && !t.hasVariable
    ensures Decoded(records, true) == Records(t, body)
    ensures |records| == |body| / t.recordLen
  {
    hide WalkFields, MinLength;
    var count := |body| / t.recordLen;
    records := [];
    FixedRecordsHold(t, body, 0, []);
    var start := 0;
    for i := 0 to count
      invariant start == i * t.recordLen && |records| == i
      invariant RecordsFrom(t, body, start, records) == Records(t, body)
    {
      RoomForRecord(|body|, t.recordLen, i);
      var values := SplitRecord(t, body, start);
      RecordStep(t, body, start, values, start + t.recordLen, records);
      records := records + [values];
      start := start + t.recordLen;
      assert start == (i + 1) * t.recordLen;
    }
    NoRoomLeft(|body|, t.recordLen);
  }

  lemma RoomForRecord(x: nat, d: nat, i: nat)
    requires d >= 1 && i < x / d
    ensures i * d + d <= x
  {
    var q, r := x / d, x % d;
    assert x == d * q + r;
    MultipleAtLeast(d, q, i);
  }

  lemma NoRoomLeft(x: nat, d: nat)
    requires d >= 1
    ensures x - (x / d) * d < d
  {
    var q, r := x / d, x % d;
    assert x == d * q + r;
  }

  /** The records one flowset came to, given the template it was found to have. */
  ghost function V9TakenFrom(s: WireSet, port: u16, used: Option<Template>): seq<FlowRecord> {
    if !s.IsData() || used.None? || !Walkable(used.value) then []
    else FlowRecords(TemplateRef(port, s.id), used.value, Records(used.value, s.body).records)
  }

  ghost function V9TakenBy(sets: seq<WireSet>, port: u16, used: seq<Option<Template>>, n: nat): seq<FlowRecord>
    requires n <= |sets| && n <= |used|
  {
    if n == 0 then [] else V9TakenBy(sets, port, used, n - 1) + V9TakenFrom(sets[n - 1], port, used[n - 1])
  }

  /** decodeV9FlowSet. */
  method ApplyFlowSet(store: TemplateStore, key: DomainKey, port: u16, s: WireSet, now: int,
                      ghost judged: Sight, ghost ahead: Announcements)
    returns (used: Option<Template>, taken: seq<FlowRecord>, issues: seq<Reason>, handed: seq<AppString>)
    requires Ready(store, key, now) && key.proto == NetFlowV9
    requires Agrees(judged, ahead, SightOf(store.domains, key, port, now, store.ttl))
    modifies store
    ensures Ready(store, key, now)
    ensures MessageMoved(old(store.domains), store.domains, key)
    ensures Agrees(judged, Fold(ahead, V9Announced(s, store.maxFields)),
                   SightOf(store.domains, key, port, now, store.ttl))
    ensures OnlyTable(old(store.samplerTables), old(store.tables), store.samplerTables, store.tables, TableOf(key))
    ensures SamplingOf(store.domains, store.tables, key) ==
            CommittedSet(SamplingOf(old(store.domains), old(store.tables), key), key, port, s, used, now)
    ensures ShelfOf(store.domains, key) ==
            RegisteredAll(ShelfOf(old(store.domains), key), Used(old(store.domains), key.exporter), port,
                          V9Announced(s, store.maxFields), now, store.ttl)
    ensures used == if s.IsData()
                    then LookUp(ShelfOf(old(store.domains), key), TemplateRef(port, s.id), now, store.ttl)
                    else None
    ensures taken == V9TakenFrom(s, port, used)
    ensures used.Some? ==> s.IsData() && used == Judged(judged, ahead, s.id) && WellFormed(NetFlowV9, used.value)
    ensures issues == ReasonsOf(ShelfOf(old(store.domains), key), Used(old(store.domains), key.exporter), port,
                                NetFlowV9, s, V9Announced(s, store.maxFields), used, now, store.ttl)
    ensures handed == HandedSet(NetFlowV9, s, used)
  {
    hide Sound, Ready, Agrees, MessageMoved, TemplatesMoved, Judged, RecordsFrom, LookUp, WellFormed, OnlyRate, Effect;
    hide OnlyTable, SamplingOf, TablesKept, CommittedAll, CommittedSet, Used, RegisteredAll, Refusals;
    hide HandedSet, HandedAll;
    NothingHanded(s, None);
    ReadyTable(store, key, now);
    NothingRegistered(ShelfOf(store.domains, key), Used(store.domains, key.exporter), port, now, store.ttl);
    ghost var v, n, t := store.domains, store.samplerTables, store.tables;
    NotMoved(v, key);
    MovedNowhere(v, key);
    NothingChanged(n, t);
    KeptIsOnly(n, t, n, t, TableOf(key));
    NoDeclarations(SamplingOf(v, t, key), key, port, s, None, now);
    used, taken, issues, handed := None, [], [], [];
    if s.id == V9_TEMPLATES || s.id == V9_OPTIONS {
      var anns: seq<Announcement>;
      if s.id == V9_TEMPLATES {
        anns := V9Templates.ParseV9Templates(s.body, store.maxFields);
      } else {
        anns := V9Templates.ParseV9OptionsTemplates(s.body, store.maxFields);
      }
      V9EffectsFit(s, store.maxFields);
      issues := RegisterAll(store, key, port, anns, now, judged, ahead);
      TemplatesDeclareNothing(v, n, t, store.domains, store.samplerTables, store.tables, key);
      MovedByTemplates(v, v, store.domains, key);
      return;
    }
    if !s.IsData() {
      issues := [ReservedSet];
      return;
    }
    used := Look(store, key, port, s.id, now);
    TemplatesDeclareNothing(v, n, t, store.domains, store.samplerTables, store.tables, key);
    if used.None? {
      issues := [MissingTemplate];
      return;
    }
    AgreedIsJudged(judged, ahead, SightOf(v, key, port, now, store.ttl), s.id);
    V9TemplateDivides(used.value);
    var records := SplitSet(used.value, s.body);
    DivisionIsNone(|s.body|, used.value.recordLen);
    SplitDeclares(SamplingOf(v, t, key), key, port, s, used.value, records, now);
    SplitHands(NetFlowV9, s, used.value, records);
    if records == [] {
      issues := [Malformed];
      return;
    }
    if used.value.options {
      RecordsHaveFields(used.value, s.body, 0, []);
      ghost var n1, t1 := store.samplerTables, store.tables;
      handed := CommitAll(store, key, port, used.value, records, now);
      OnlyTableOn(n, t, n1, t1, store.samplerTables, store.tables, TableOf(key));
      MovedByRate(v, v, store.domains, key);
      RateKeepsSight(v, store.domains, key, port, now, store.ttl);
      RateKeepsShelf(v, store.domains, key);
    }
    taken := FlowRecords(TemplateRef(port, s.id), used.value, records);
  }

  /** What a set declares, told by the records split off it. */
  lemma SplitDeclares(s: Sampling, key: DomainKey, port: u16, ws: WireSet, t: Template, records: seq<seq<Bytes>>,
                      at: int)
    requires ws.IsData() && Walkable(t) && Decoded(records, true) == Records(t, ws.body)
    ensures CommittedSet(s, key, port, ws, Some(t), at) ==
            if t.options then CommittedAll(s, key, port, t, records, |records|, at) else s
    ensures records == [] ==> CommittedSet(s, key, port, ws, Some(t), at) == s
  {
  }

  lemma SplitHands(proto: Protocol, ws: WireSet, t: Template, records: seq<seq<Bytes>>)
    requires ws.IsData() && Walkable(t) && Decoded(records, true) == Records(t, ws.body)
    ensures HandedSet(proto, ws, Some(t)) == if t.options then HandedAll(proto, t, records, |records|) else []
    ensures records == [] ==> HandedSet(proto, ws, Some(t)) == []
  {
  }

  lemma {:induction false} HandedPrefix(proto: Protocol, sets: seq<WireSet>, ws: WireSet, used: seq<Option<Template>>)
    requires |used| <= |sets|
    ensures HandedBy(proto, sets + [ws], used) == HandedBy(proto, sets, used)
    decreases |used|
  {
    if used != [] {
      var n := |used| - 1;
      HandedPrefix(proto, sets, ws, used[..n]);
      assert (sets + [ws])[n] == sets[n];
    }
  }

  lemma HandedGrows(proto: Protocol, sets: seq<WireSet>, ws: WireSet, used: seq<Option<Template>>,
                    found: Option<Template>)
    requires |used| == |sets|
    ensures HandedBy(proto, sets + [ws], used + [found]) ==
            HandedBy(proto, sets, used) + HandedSet(proto, ws, found)
  {
    hide HandedSet;
    HandedPrefix(proto, sets, ws, used);
    HandedOneMore(proto, sets + [ws], used, found);
    assert (sets + [ws])[|used|] == ws;
  }

  lemma {:induction false} CommittedPrefix(s: Sampling, key: DomainKey, port: u16, sets: seq<WireSet>, ws: WireSet,
                                           used: seq<Option<Template>>, at: int)
    requires |used| <= |sets|
    ensures CommittedBy(s, key, port, sets + [ws], used, at) == CommittedBy(s, key, port, sets, used, at)
    decreases |used|
  {
    if used != [] {
      var n := |used| - 1;
      CommittedPrefix(s, key, port, sets, ws, used[..n], at);
      assert (sets + [ws])[n] == sets[n];
    }
  }

  lemma CommittedGrows(s: Sampling, key: DomainKey, port: u16, sets: seq<WireSet>, ws: WireSet,
                       used: seq<Option<Template>>, found: Option<Template>, at: int)
    requires |used| == |sets|
    ensures CommittedBy(s, key, port, sets + [ws], used + [found], at) ==
            CommittedSet(CommittedBy(s, key, port, sets, used, at), key, port, ws, found, at)
  {
    hide CommittedSet;
    CommittedPrefix(s, key, port, sets, ws, used, at);
    CommittedOneMore(s, key, port, sets + [ws], used, found, at);
    assert (sets + [ws])[|used|] == ws;
  }

  lemma DivisionIsNone(x: nat, d: nat)
    requires d >= 1
    ensures x / d == 0 <==> x < d
  {
    NoRoomLeft(x, d);
    if x < d {
      DivSmall(x, d);
    }
  }

  /** Each data flowset was decoded with what the datagram announced last for
      its id, else with what was stored before it, or not at all. */
  ghost predicate V9AsJudged(sight: Sight, sets: seq<WireSet>, used: seq<Option<Template>>, n: nat, maxFields: nat)
    requires n <= |sets| && n <= |used|
  {
    forall i :: 0 <= i < n && used[i].Some? ==>
      && sets[i].IsData() && WellFormed(NetFlowV9, used[i].value)
      && used[i] == Judged(sight, V9Ahead(sets, i, maxFields), sets[i].id)
  }

  lemma V9OneMore(judged: Sight, sets: seq<WireSet>, used: seq<Option<Template>>, s: WireSet, port: u16,
                  found: Option<Template>, maxFields: nat)
    requires |used| == |sets| && V9AsJudged(judged, sets, used, |used|, maxFields)
    requires found.Some? ==> s.IsData() && WellFormed(NetFlowV9, found.value)
                             && found == Judged(judged, V9Ahead(sets, |sets|, maxFields), s.id)
    ensures V9AsJudged(judged, sets + [s], used + [found], |used| + 1, maxFields)
    ensures V9TakenBy(sets + [s], port, used + [found], |used| + 1) ==
            V9TakenBy(sets, port, used, |used|) + V9TakenFrom(s, port, found)
    ensures V9Ahead(sets + [s], |sets| + 1, maxFields) == Fold(V9Ahead(sets, |sets|, maxFields), V9Announced(s,
        maxFields))
  {
    hide Judged, WellFormed, V9TakenFrom, V9Announced, Fold;
    var all, later := sets + [s], used + [found];
    assert all[|sets|] == s && later[|used|] == found;
    V9AheadPrefix(sets, s, |sets|, maxFields);
    V9TakenPrefix(sets, s, port, used, found, |used|);
    forall i | 0 <= i < |used| + 1 && later[i].Some?
      ensures && all[i].IsData() && WellFormed(NetFlowV9, later[i].value)
              && later[i] == Judged(judged, V9Ahead(all, i, maxFields), all[i].id)
    {
      V9AheadPrefix(sets, s, i, maxFields);
      if i < |used| {
        assert later[i] == used[i] && all[i] == sets[i];
      }
    }
  }

  lemma {:induction false} V9AheadPrefix(sets: seq<WireSet>, s: WireSet, n: nat, maxFields: nat)
    requires n <= |sets|
    ensures V9Ahead(sets + [s], n, maxFields) == V9Ahead(sets, n, maxFields)
  {
    if n > 0 {
      V9AheadPrefix(sets, s, n - 1, maxFields);
      assert (sets + [s])[n - 1] == sets[n - 1];
    }
  }

  lemma {:induction false} V9TakenPrefix(
    sets: seq<WireSet>, s: WireSet, port: u16, used: seq<Option<Template>>, found: Option<Template>, n: nat)
    requires n <= |sets| && n <= |used|
    ensures V9TakenBy(sets + [s], port, used + [found], n) == V9TakenBy(sets, port, used, n)
  {
    if n > 0 {
      V9TakenPrefix(sets, s, port, used, found, n - 1);
      assert (sets + [s])[n - 1] == sets[n - 1] && (used + [found])[n - 1] == used[n - 1];
    }
  }

  function V9AllAnnounced(sets: seq<WireSet>, maxFields: nat): (anns: seq<seq<Announcement>>)
    ensures |anns| == |sets|
  {
    seq(|sets|, i requires 0 <= i < |sets| => V9Announced(sets[i], maxFields))
  }

  lemma V9StoredOneMore(v: Domains, w: Domains, x: Domains, key: DomainKey, port: u16, sets: seq<WireSet>, s: WireSet,
                        used: seq<Option<Template>>, found: Option<Template>, issues: seq<Reason>, some: seq<Reason>,
                        now: int, ttl: int, maxFields: nat)
    requires |used| == |sets| && MessageMoved(v, w, key)
    requires StoredAsAnnounced(v, w, key, port, sets, V9AllAnnounced(sets, maxFields), used, issues, now, ttl)
    requires var anns := V9Announced(s, maxFields);
             && ShelfOf(x, key) == RegisteredAll(ShelfOf(w, key), Used(w, key.exporter), port, anns, now, ttl)
             && found == (if s.IsData() then LookUp(ShelfOf(w, key), TemplateRef(port, s.id), now, ttl) else None)
             && some == ReasonsOf(ShelfOf(w, key), Used(w, key.exporter), port, key.proto, s, anns, found, now, ttl)
    ensures StoredAsAnnounced(v, x, key, port, sets + [s], V9AllAnnounced(sets + [s], maxFields), used + [found],
                              issues + some, now, ttl)
  {
    hide Used, ShelfAfter, RegisteredAll, LookUp, AsFound, V9Announced, Charged, MessageMoved, ShelfOf;
    hide ReasonsAfter, ReasonsOf;
    var ts, charge, anns := ShelfOf(v, key), Used(v, key.exporter), V9AllAnnounced(sets, maxFields);
    var more := V9Announced(s, maxFields);
    assert V9AllAnnounced(sets + [s], maxFields) == anns + [more];
    assert anns[..|used|] == anns && (anns + [more])[..|used| + 1] == anns + [more];
    FoundGrows(ts, charge, port, sets, s, anns, more, used, now, ttl);
    ReasonsGrow(ts, charge, port, key.proto, sets, s, anns, more, used, now, ttl);
    assert (sets + [s])[|used|] == s && (anns + [more])[|used|] == more && (anns + [more])[..|used|] == anns;
    FoundOneMore(ts, charge, port, sets + [s], anns + [more], used, found, now, ttl);
    ReasonsOneMore(ts, charge, port, key.proto, sets + [s], anns + [more], used, found, now, ttl);
    ShelfOneMore(ts, charge, port, anns, more, now, ttl);
    ChargeMoves(v, w, key);
  }

  lemma {:induction false} ReasonsGrow(
    ts: Shelf, charge: int, port: u16, proto: Protocol, sets: seq<WireSet>, s: WireSet, anns: seq<seq<Announcement>>,
    more: seq<Announcement>, used: seq<Option<Template>>, now: int, ttl: int)
    requires |used| <= |sets| && |used| <= |anns|
    ensures ReasonsAfter(ts, charge, port, proto, sets + [s], anns + [more], used, now, ttl) ==
            ReasonsAfter(ts, charge, port, proto, sets, anns, used, now, ttl)
    decreases |used|
  {
    hide ReasonsOf, ShelfAfter;
    if used != [] {
      var n := |used| - 1;
      ReasonsGrow(ts, charge, port, proto, sets, s, anns, more, used[..n], now, ttl);
      assert (sets + [s])[n] == sets[n] && (anns + [more])[n] == anns[n] && (anns + [more])[..n] == anns[..n];
    }
  }

  lemma FoundGrows(ts: Shelf, charge: int, port: u16, sets: seq<WireSet>, s: WireSet, anns: seq<seq<Announcement>>,
                   more: seq<Announcement>, used: seq<Option<Template>>, now: int, ttl: int)
    requires |used| <= |sets| && |used| <= |anns| && AsFound(ts, charge, port, sets, anns, used, now, ttl)
    ensures AsFound(ts, charge, port, sets + [s], anns + [more], used, now, ttl)
  {
    hide LookUp, ShelfAfter;
    forall i | 0 <= i < |used|
      ensures (sets + [s])[i] == sets[i] && (anns + [more])[..i] == anns[..i]
    {
    }
  }

  lemma V9AtFirst(judged: Sight, port: u16, maxFields: nat)
    ensures V9AsJudged(judged, [], [], 0, maxFields) && V9TakenBy([], port, [], 0) == []
    ensures Agrees(judged, V9Ahead([], 0, maxFields), judged)
  {
  }

  /** The flowset walk of decodeNetFlowV9. A length that breaks the framing ends
      it with what came before already in effect. */
  method ApplyDatagram(store: TemplateStore, key: DomainKey, port: u16, payload: Bytes, now: int, dst: seq<FlowRecord>)
    returns (out: seq<FlowRecord>, failed: bool, issues: seq<Reason>, handed: seq<AppString>,
             ghost used: seq<Option<Template>>)
    requires Ready(store, key, now) && key.proto == NetFlowV9
    modifies store
    ensures Ready(store, key, now)
    ensures MessageMoved(old(store.domains), store.domains, key)
    ensures var framed := SetsFrom(payload, V9_HEADER, []);
            && failed == !framed.whole
            && |used| == |framed.sets|
            && V9AsJudged(SightOf(old(store.domains), key, port, now, store.ttl), framed.sets, used, |used|,
                store.maxFields)
            && Agrees(SightOf(old(store.domains), key, port, now, store.ttl),
                      V9Ahead(framed.sets, |used|, store.maxFields),
                      SightOf(store.domains, key, port, now, store.ttl))
            && StoredAsAnnounced(old(store.domains), store.domains, key, port, framed.sets,
                                 V9AllAnnounced(framed.sets, store.maxFields), used, issues, now, store.ttl)
            && SamplingOf(store.domains, store.tables, key) ==
               CommittedBy(SamplingOf(old(store.domains), old(store.tables), key), key, port, framed.sets, used, now)
            && out == dst + V9TakenBy(framed.sets, port, used, |used|)
            && handed == HandedBy(NetFlowV9, framed.sets, used)
    ensures OnlyTable(old(store.samplerTables), old(store.tables), store.samplerTables, store.tables, TableOf(key))
  {
    hide Sound, Ready, Agrees, MessageMoved, Judged, V9AsJudged, V9TakenBy, V9TakenFrom, V9Ahead, V9Announced,
        SetAt, WellFormed;
    hide OnlyTable, SamplingOf, CommittedSet, CommittedBy;
    hide HandedSet, HandedBy, ReasonsOf, StoredAsAnnounced, V9AllAnnounced, RegisteredAll, Used, LookUp, ShelfOf;
    ReadyHolds(store, key, now);
    StoredAtFirst(store.domains, key, port, [], V9AllAnnounced([], store.maxFields), now, store.ttl);
    ghost var v, n, t := store.domains, store.samplerTables, store.tables;
    ghost var declared := SamplingOf(v, t, key);
    NothingChanged(n, t);
    KeptIsOnly(n, t, n, t, TableOf(key));
    NothingCommitted(declared, key, port, [], now);
    ghost var judged := SightOf(v, key, port, now, store.ttl);
    V9AtFirst(judged, port, store.maxFields);
    NotMoved(v, key);
    out, failed, issues, handed, used := dst, false, [], [], [];
    NothingHandedOn(NetFlowV9, []);
    assert dst + [] == dst;
    var offset: nat := V9_HEADER;
    ghost var sets: seq<WireSet> := [];
    while offset + SET_HEADER <= |payload|
      invariant |sets| == |used|
      invariant SetsFrom(payload, offset, sets) == SetsFrom(payload, V9_HEADER, [])
      invariant Ready(store, key, now) && key in store.domains && MessageMoved(v, store.domains, key)
      invariant Agrees(judged, V9Ahead(sets, |sets|, store.maxFields),
                       SightOf(store.domains, key, port, now, store.ttl))
      invariant V9AsJudged(judged, sets, used, |used|, store.maxFields)
      invariant out == dst + V9TakenBy(sets, port, used, |used|)
      invariant StoredAsAnnounced(v, store.domains, key, port, sets, V9AllAnnounced(sets, store.maxFields), used,
                                  issues, now, store.ttl)
      invariant handed == HandedBy(NetFlowV9, sets, used)
      invariant OnlyTable(n, t, store.samplerTables, store.tables, TableOf(key))
      invariant SamplingOf(store.domains, store.tables, key) == CommittedBy(declared, key, port, sets, used, now)
      decreases |payload| - offset
    {
      var setLen := Be16(payload, offset + 2);
      if setLen < SET_HEADER || offset + setLen > |payload| {
        failed := true;
        return;
      }
      var s := SetAt(payload, offset);
      ghost var w, n1, t1 := store.domains, store.samplerTables, store.tables;
      var found, taken, some, strings :=
        ApplyFlowSet(store, key, port, s, now, judged, V9Ahead(sets, |sets|, store.maxFields));
      V9StoredOneMore(v, w, store.domains, key, port, sets, s, used, found, issues, some, now, store.ttl,
                      store.maxFields);
      HandedGrows(NetFlowV9, sets, s, used, found);
      MovedTwice(v, w, store.domains, key);
      V9OneMore(judged, sets, used, s, port, found, store.maxFields);
      OnlyTableOn(n, t, n1, t1, store.samplerTables, store.tables, TableOf(key));
      CommittedGrows(declared, key, port, sets, s, used, found, now);
      assert dst + (V9TakenBy(sets, port, used, |used|) + taken) == out + taken;
      out, issues, handed := out + taken, issues + some, handed + strings;
      used, sets := used + [found], sets + [s];
      offset := offset + setLen;
      ReadyHolds(store, key, now);
    }
  }

  lemma PositionKeepsStamp(w: Domains, v': Domains, key: DomainKey, p: Positions)
    requires PositionStep(w, v', key, p)
    ensures key in v' && v'[key].lastSeen == w[key].lastSeen
  {
  }

  /** decodeNetFlowV9. seen is the store once the domain is found and its
      sequence has moved, which it does before anything else is read. */
  method DecodeNetFlowV9(store: TemplateStore, exporter: Addr, port: u16, payload: Bytes, dst: seq<FlowRecord>,
                         now: int)
    returns (out: seq<FlowRecord>, failed: bool, issues: seq<Reason>, handed: seq<AppString>,
             ghost seen: Domains, ghost used: seq<Option<Template>>)
    requires store.Valid() && store.clock <= now
    modifies store
    ensures store.Valid()
    ensures |payload| < V9_HEADER ==>
              failed && out == dst && issues == [] && handed == [] && store.domains == old(store.domains)
    ensures |payload| >= V9_HEADER ==>
              var key := DomainKey(exporter, Be32(payload, 16), NetFlowV9);
              var framed := SetsFrom(payload, V9_HEADER, []);
              if !Admits(old(store.domains), key) then
                !failed && out == dst && issues == [DomainLimit] && handed == [] && store.domains == old(store.domains)
              else
                && key in seen
                && (exists w: Domains :: SeenStep(old(store.domains), w, key, now) && key in w
                     && PositionStep(w, seen, key, TrackPacket(w[key].positions, port, now, Be32(payload, 12))))
                && MessageMoved(seen, store.domains, key)
                && failed == !framed.whole
                && |used| == |framed.sets|
                && V9AsJudged(SightOf(seen, key, port, now, store.ttl), framed.sets, used, |used|, store.maxFields)
                && Agrees(SightOf(seen, key, port, now, store.ttl), V9Ahead(framed.sets, |used|, store.maxFields),
                          SightOf(store.domains, key, port, now, store.ttl))
                && StoredAsAnnounced(seen, store.domains, key, port, framed.sets,
                                     V9AllAnnounced(framed.sets, store.maxFields), used, issues, now, store.ttl)
                && SamplingOf(store.domains, store.tables, key) ==
                   CommittedBy(SamplingBefore(old(store.domains), old(store.samplerTables), old(store.tables), key),
                               key, port, framed.sets, used, now)
                && OnlyTable(old(store.samplerTables), old(store.tables), store.samplerTables, store.tables,
                    TableOf(key))
                && out == dst + V9TakenBy(framed.sets, port, used, |used|)
                && handed == HandedBy(NetFlowV9, framed.sets, used)
  {
    hide Sound, SeenStep, V9AsJudged, V9TakenBy, TrackPacket, MessageMoved, Admits, SetsFrom, WellFormed;
    hide OnlyTable, SamplingOf, CommittedBy, TablesKept, Agrees, V9Ahead, StoredAsAnnounced, V9AllAnnounced;
    hide SamplingBefore, HandedBy, TableOpened, PositionStep;
    ghost var n, t := store.samplerTables, store.tables;
    out, failed, issues, handed, seen, used := dst, false, [], [], store.domains, [];
    if |payload| < V9_HEADER {
      failed := true;
      return;
    }
    var key := DomainKey(exporter, Be32(payload, 16), NetFlowV9);
    HeldTable(store, key);
    var held := store.Domain(key, now);
    if !held {
      RefusedUnchanged(old(store.domains), store.domains, key, now);
      issues := [DomainLimit];
      return;
    }
    SeenNow(old(store.domains), store.domains, key, now);
    ghost var w := store.domains;
    KeptIsOnly(n, t, store.samplerTables, store.tables, TableOf(key));
    ReadyTable(store, key, now);
    SeenSampling(old(store.domains), n, t, w, store.samplerTables, store.tables, key, now);
    store.TrackSequence(key, port, Be32(payload, 12));
    seen := store.domains;
    PositionsApart(w, seen, key, TrackPacket(w[key].positions, port, w[key].lastSeen, Be32(payload, 12)), store.tables,
                   port, now, store.ttl);
    PositionKeepsStamp(w, seen, key, TrackPacket(w[key].positions, port, w[key].lastSeen, Be32(payload, 12)));
    ghost var n1, t1 := store.samplerTables, store.tables;
    assert seen[key].lastSeen == now;
    out, failed, issues, handed, used := ApplyDatagram(store, key, port, payload, now, dst);
    OnlyTableOn(n, t, n1, t1, store.samplerTables, store.tables, TableOf(key));
  }
}
