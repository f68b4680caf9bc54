/** A device and the decoder over the same bytes: templates announced and
    records sent under them, in whatever sets and order the device chose. */
module MessageRoundTrips {
  import opened Uint
  import opened Wire
  import opened Templates
  import opened Net
  import opened IpfixRecords
  import opened IpfixMessages
  import opened StoreModel
  import opened StoreInvariants
  import opened TemplateStores
  import opened OptionsRecords
  import opened Sequences
  import opened IpfixDecoder
  import opened NetflowV9Decoder
  import opened MessageFraming
  import IpfixTemplates
  import V9Templates

  /** One set as its device means it. */
  datatype Chunk =
    | Announcing(wanted: seq<Wanted>, options: bool, padding: Bytes)
    | Sending(id: u16, layout: Template, records: seq<seq<Bytes>>, padding: Bytes)

  predicate Exports(proto: Protocol) {
    proto == Ipfix || proto == NetFlowV9
  }

  function AsAnnounced(proto: Protocol, wanted: seq<Wanted>, options: bool): seq<Announcement>
    requires Exports(proto)
  {
    if proto == Ipfix then IpfixTemplates.AsAnnouncements(wanted, options)
    else V9Templates.AsAnnouncements(wanted, options)
  }

  ghost predicate Announceable(proto: Protocol, w: Wanted, options: bool, maxFields: nat)
    requires Exports(proto)
  {
    if proto == Ipfix then
      IpfixTemplates.Announceable(w, options, maxFields) && 1 <= MinLength(w.fields) <= 65531
    else
      V9Templates.Announceable(w, options, maxFields) && 1 <= FixedLength(w.fields) <= 65531
  }

  /** A template set of templates whose records fit a set, or a data set of one
      record at least, either padded by less than would read as more. */
  ghost predicate Written(proto: Protocol, c: Chunk, maxFields: nat)
    requires Exports(proto)
  {
    match c
    case Announcing(wanted, options, padding) =>
      && (forall w :: w in wanted ==> Announceable(proto, w, options, maxFields))
      && |padding| < SET_HEADER
    case Sending(id, layout, records, padding) =>
      && id >= MIN_DATA_SET && Walkable(layout) && |padding| < layout.recordLen && records != []
      && forall r :: r in records ==> CarriesAll(layout.fields, r)
  }

  ghost function PutBody(proto: Protocol, c: Chunk, maxFields: nat): Bytes
    requires Exports(proto) && Written(proto, c, maxFields)
  {
    match c
    case Announcing(wanted, options, padding) =>
      if proto == Ipfix then IpfixTemplates.PutTemplates(wanted, options, maxFields) + padding
      else V9Templates.PutTemplates(wanted, options, maxFields) + padding
    case Sending(id, layout, records, padding) => PutRecords(layout.fields, records) + padding
  }

  function IDOf(proto: Protocol, c: Chunk): u16 {
    match c
    case Announcing(_, options, _) => if proto == Ipfix then (if options then 3 else 2) else (if options then 1 else 0)
    case Sending(id, _, _, _) => id
  }

  ghost function SetOf(proto: Protocol, c: Chunk, maxFields: nat): WireSet
    requires Exports(proto) && Written(proto, c, maxFields)
  {
    WireSet(IDOf(proto, c), PutBody(proto, c, maxFields))
  }

  ghost predicate AllWritten(proto: Protocol, chunks: seq<Chunk>, maxFields: nat)
    requires Exports(proto)
  {
    forall i :: 0 <= i < |chunks| ==> Written(proto, chunks[i], maxFields)
  }

  ghost function SetsOf(proto: Protocol, chunks: seq<Chunk>, maxFields: nat): (sets: seq<WireSet>)
    requires Exports(proto) && AllWritten(proto, chunks, maxFields)
    ensures |sets| == |chunks|
  {
    seq(|chunks|, i requires 0 <= i < |chunks| => SetOf(proto, chunks[i], maxFields))
  }

  /** What the device announces, set by set. */
  function Meant(proto: Protocol, c: Chunk): seq<Announcement>
    requires Exports(proto)
  {
    if c.Announcing? then AsAnnounced(proto, c.wanted, c.options) else []
  }

  function AllMeant(proto: Protocol, chunks: seq<Chunk>): (anns: seq<seq<Announcement>>)
    requires Exports(proto)
    ensures |anns| == |chunks|
  {
    seq(|chunks|, i requires 0 <= i < |chunks| => Meant(proto, chunks[i]))
  }

  // ---- What a device has announced -----------------------------------------------------

  /** The last layout announced for an id, or what stood before. */
  function Latest(anns: seq<Announcement>, id: u16, before: Option<Template>): Option<Template>
    decreases |anns|
  {
    if anns == [] then before
    else
      var n := |anns| - 1;
      if anns[n].id == id then anns[n].layout else Latest(anns[..n], id, before)
  }

  /** The layout a device's session has in force once it has sent n sets. */
  ghost function InForce(sight: Sight, anns: seq<seq<Announcement>>, n: nat, id: u16): Option<Template>
    requires n <= |anns|
  {
    if n == 0 then sight.Sees(id) else Latest(anns[n - 1], id, InForce(sight, anns, n - 1, id))
  }

  /** Data is sent under the layout its device has in force. */
  ghost predicate Coherent(proto: Protocol, sight: Sight, chunks: seq<Chunk>)
    requires Exports(proto)
  {
    forall i :: 0 <= i < |chunks| && chunks[i].Sending? ==>
      InForce(sight, AllMeant(proto, chunks), i, chunks[i].id) == Some(chunks[i].layout)
  }

  /** The flow records of one set; options records are not among them. */
  function SentBy(port: u16, c: Chunk): seq<FlowRecord> {
    if c.Sending? && !c.layout.options then
      seq(|c.records|, i requires 0 <= i < |c.records| =>
        FlowRecord(TemplateRef(port, c.id), c.layout.fields, c.records[i]))
    else []
  }

  /** The flow records sent, in order, each under its template. */
  function Sent(port: u16, chunks: seq<Chunk>, n: nat): seq<FlowRecord>
    requires n <= |chunks|
  {
    if n == 0 then [] else Sent(port, chunks, n - 1) + SentBy(port, chunks[n - 1])
  }

  function SentCount(chunks: seq<Chunk>, n: nat): nat
    requires n <= |chunks|
  {
    if n == 0 then 0
    else SentCount(chunks, n - 1) + if chunks[n - 1].Sending? then |chunks[n - 1].records| else 0
  }

  // ---- One set -----------------------------------------------------------------------------

  ghost predicate Usable(anns: seq<Announcement>) {
    forall i :: 0 <= i < |anns| ==> anns[i].layout.Some? && Effect(anns[i]) == anns[i].layout
  }

  /** A layout takes effect exactly where its record is 1 to 65531 bytes long. */
  lemma FittingTakesEffect(a: Announcement)
    ensures Effect(a) == a.layout <==> (a.layout.Some? ==> 1 <= a.layout.value.recordLen <= 65531)
  {
  }

  lemma {:induction false} MeantIsUsable(proto: Protocol, wanted: seq<Wanted>, options: bool, maxFields: nat)
    requires Exports(proto) && forall w :: w in wanted ==> Announceable(proto, w, options, maxFields)
    ensures Usable(AsAnnounced(proto, wanted, options))
  {
    hide MinLength, FixedLength, AnyVariable;
    if wanted != [] {
      assert wanted[0] in wanted;
      MeantIsUsable(proto, wanted[1..], options, maxFields);
      if proto == Ipfix {
        FittingTakesEffect(IpfixTemplates.Wanting(wanted[0], options));
      } else {
        FittingTakesEffect(V9Templates.Wanting(wanted[0], options));
      }
    }
  }

  function AnnouncedBy(proto: Protocol, s: WireSet, maxFields: nat): seq<Announcement> {
    if proto == Ipfix then AnnouncedIn(s, maxFields) else V9Announced(s, maxFields)
  }

  lemma SetAnnouncesMeant(proto: Protocol, c: Chunk, maxFields: nat)
    requires Exports(proto) && Written(proto, c, maxFields)
    ensures AnnouncedBy(proto, SetOf(proto, c, maxFields), maxFields) == Meant(proto, c) && Usable(Meant(proto, c))
    ensures c.Sending? <==> SetOf(proto, c, maxFields).IsData()
    ensures c.Sending? ==> SetOf(proto, c, maxFields).id == c.id
    ensures c.Announcing? <==> HoldsTemplates(proto, SetOf(proto, c, maxFields))
  {
    hide Usable, MinLength, FixedLength, IpfixTemplates.Announceable, V9Templates.Announceable;
    if c.Announcing? {
      MeantIsUsable(proto, c.wanted, c.options, maxFields);
      if proto == Ipfix {
        IpfixTemplates.TemplateSetRoundTrip(c.wanted, c.options, c.padding, maxFields);
      } else {
        V9Templates.TemplateSetRoundTrip(c.wanted, c.options, c.padding, maxFields);
      }
    } else {
      NothingMeant();
    }
  }

  lemma NothingMeant()
    ensures Usable([])
  {
  }

  lemma AnnouncedAsMeant(proto: Protocol, chunks: seq<Chunk>, maxFields: nat)
    requires Exports(proto) && AllWritten(proto, chunks, maxFields)
    ensures var sets := SetsOf(proto, chunks, maxFields);
            (if proto == Ipfix then AllAnnounced(sets, maxFields) else V9AllAnnounced(sets, maxFields)) ==
            AllMeant(proto, chunks)
  {
    hide Written, SetOf, AnnouncedIn, V9Announced, Meant;
    forall i | 0 <= i < |chunks|
      ensures AnnouncedBy(proto, SetOf(proto, chunks[i], maxFields), maxFields) == Meant(proto, chunks[i])
    {
      SetAnnouncesMeant(proto, chunks[i], maxFields);
    }
  }

  lemma SetReadsAsSent(proto: Protocol, c: Chunk, maxFields: nat)
    requires Exports(proto) && Written(proto, c, maxFields) && c.Sending?
    ensures var s := SetOf(proto, c, maxFields);
            && HoldsWhole(c.layout, s.body) && Records(c.layout, s.body) == Decoded(c.records, true)
            && |s.body| >= c.layout.recordLen
  {
    hide RecordsFrom, PutRecords, CarriesAll;
    DataSetRoundTrip(c.layout, c.records, c.padding);
    WholeIsLongEnough(c.layout, SetOf(proto, c, maxFields).body);
  }

  // ---- The check against what was announced ------------------------------------------------

  lemma {:induction false} FoldIsLatest(m: Announcements, anns: seq<Announcement>, sight: Sight, id: u16)
    requires Usable(anns)
    ensures Judged(sight, Fold(m, anns), id) == Latest(anns, id, Judged(sight, m, id))
    decreases |anns|
  {
    hide Effect, Sight.Sees;
    if anns != [] {
      var n := |anns| - 1;
      FoldIsLatest(m, anns[..n], sight, id);
      FoldAppend(m, anns[..n], anns[n]);
      assert anns[..n] + [anns[n]] == anns;
    }
  }

  lemma {:induction false} JudgedInForce(sight: Sight, chunks: seq<Chunk>, n: nat, id: u16, maxFields: nat)
    requires AllWritten(Ipfix, chunks, maxFields) && n <= |chunks|
    ensures Judged(sight, Ahead(SetsOf(Ipfix, chunks, maxFields), n, maxFields), id) ==
            InForce(sight, AllMeant(Ipfix, chunks), n, id)
  {
    hide Written, SetOf, AnnouncedIn, Meant, Usable, Fold, Latest, Sight.Sees;
    if n > 0 {
      JudgedInForce(sight, chunks, n - 1, id, maxFields);
      SetAnnouncesMeant(Ipfix, chunks[n - 1], maxFields);
      FoldIsLatest(Ahead(SetsOf(Ipfix, chunks, maxFields), n - 1, maxFields), Meant(Ipfix, chunks[n - 1]), sight, id);
    }
  }

  /** A message written by its device passes the length check. */
  lemma WrittenIsAccepted(sight: Sight, chunks: seq<Chunk>, maxFields: nat)
    requires AllWritten(Ipfix, chunks, maxFields) && Coherent(Ipfix, sight, chunks)
    ensures Accepts(sight, Framed(SetsOf(Ipfix, chunks, maxFields), true), maxFields)
  {
    hide Written, SetOf, Judged, InForce, Ahead, HoldsWhole;
    var sets := SetsOf(Ipfix, chunks, maxFields);
    forall i | 0 <= i < |sets|
      ensures SetPasses(sight, Ahead(sets, i, maxFields), sets[i])
    {
      SetAnnouncesMeant(Ipfix, chunks[i], maxFields);
      if chunks[i].Sending? {
        JudgedInForce(sight, chunks, i, chunks[i].id, maxFields);
        SetReadsAsSent(Ipfix, chunks[i], maxFields);
      }
    }
  }

  // ---- The store against what was announced -------------------------------------------------

  /** The session finds these layouts, and no others. */
  ghost predicate Finds(ts: Shelf, port: u16, now: int, ttl: int, sight: Sight, anns: seq<seq<Announcement>>, n: nat)
    requires n <= |anns|
  {
    forall id: u16 :: LookUp(ts, TemplateRef(port, id), now, ttl) == InForce(sight, anns, n, id)
  }

  /** Announcements none of which is refused are each in force, the last of an id
      standing. */
  lemma {:induction false} RegisteredIsLatest(ts: Shelf, used: int, port: u16, anns: seq<Announcement>, now: int,
                                              ttl: int, id: u16)
    requires Usable(anns) && ttl >= 0 && InvalidTemplate !in Refusals(ts, used, port, anns, now, ttl)
    ensures LookUp(RegisteredAll(ts, used, port, anns, now, ttl), TemplateRef(port, id), now, ttl) ==
            Latest(anns, id, LookUp(ts, TemplateRef(port, id), now, ttl))
    decreases |anns|
  {
    hide Effect, LookUp, Charged, StoreModel.Announced, Takes;
    if anns != [] {
      var n := |anns| - 1;
      var before := RegisteredAll(ts, used, port, anns[..n], now, ttl);
      RegisteredIsLatest(ts, used, port, anns[..n], now, ttl, id);
      AnnouncedLookups(before, Charged(used, ts, before), TemplateRef(port, anns[n].id), anns[n].layout.value, now, ttl,
                       TemplateRef(port, id));
    }
  }

  /** Over a whole message: where no announcement is reported refused, the domain
      holds after every set what its device had announced by then. */
  lemma {:induction false} StoredInForce(ts: Shelf, charge: int, sight: Sight, proto: Protocol, chunks: seq<Chunk>,
                                         used: seq<Option<Template>>, maxFields: nat)
    requires Exports(proto) && AllWritten(proto, chunks, maxFields) && |used| <= |chunks|
    requires sight.ts == ts && sight.ttl >= 0
    requires InvalidTemplate !in ReasonsAfter(ts, charge, sight.port, proto, SetsOf(proto, chunks, maxFields),
                                              AllMeant(proto, chunks), used, sight.now, sight.ttl)
    ensures Finds(ShelfAfter(ts, charge, sight.port, AllMeant(proto, chunks)[..|used|], sight.now, sight.ttl),
                  sight.port, sight.now, sight.ttl, sight, AllMeant(proto, chunks), |used|)
    decreases |used|
  {
    hide Written, SetOf, Meant, Usable, Latest, LookUp, Charged, RegisteredAll, Refusals, HoldsTemplates;
    if used != [] {
      var n, anns := |used| - 1, AllMeant(proto, chunks);
      var before := ShelfAfter(ts, charge, sight.port, anns[..n], sight.now, sight.ttl);
      StoredInForce(ts, charge, sight, proto, chunks, used[..n], maxFields);
      assert anns[..n + 1][..n] == anns[..n];
      SetAnnouncesMeant(proto, chunks[n], maxFields);
      if chunks[n].Sending? {
        NoRefusals(before, Charged(charge, ts, before), sight.port, sight.now, sight.ttl);
      }
      forall id: u16
        ensures LookUp(RegisteredAll(before, Charged(charge, ts, before), sight.port, anns[n], sight.now, sight.ttl),
                       TemplateRef(sight.port, id), sight.now, sight.ttl) ==
                Latest(anns[n], id, LookUp(before, TemplateRef(sight.port, id), sight.now, sight.ttl))
      {
        RegisteredIsLatest(before, Charged(charge, ts, before), sight.port, anns[n], sight.now, sight.ttl, id);
      }
    }
  }

  lemma NoRefusals(ts: Shelf, used: int, port: u16, now: int, ttl: int)
    ensures Refusals(ts, used, port, [], now, ttl) == []
  {
  }

  /** Every data set then meets the layout it was sent under, and no template set
      any. */
  ghost predicate MetAsSent(chunks: seq<Chunk>, used: seq<Option<Template>>) {
    && |used| == |chunks|
    && forall i :: 0 <= i < |used| ==> used[i] == if chunks[i].Sending? then Some(chunks[i].layout) else None
  }

  lemma {:induction false} ReasonsPrefix(ts: Shelf, charge: int, port: u16, proto: Protocol, sets: seq<WireSet>,
                                         anns: seq<seq<Announcement>>, used: seq<Option<Template>>, n: nat, now: int,
                                         ttl: int)
    requires n <= |used| <= |sets| && |used| <= |anns|
    ensures ReasonsAfter(ts, charge, port, proto, sets, anns, used[..n], now, ttl) <=
            ReasonsAfter(ts, charge, port, proto, sets, anns, used, now, ttl)
    decreases |used|
  {
    hide ReasonsOf, ShelfAfter;
    if n == |used| {
      assert used[..n] == used;
    } else {
      ReasonsPrefix(ts, charge, port, proto, sets, anns, used[..|used| - 1], n, now, ttl);
      assert used[..|used| - 1][..n] == used[..n];
    }
  }

  lemma AllMetAsSent(ts: Shelf, charge: int, sight: Sight, proto: Protocol, chunks: seq<Chunk>,
                     used: seq<Option<Template>>, maxFields: nat)
    requires Exports(proto) && AllWritten(proto, chunks, maxFields) && |used| == |chunks|
    requires sight.ts == ts && sight.ttl >= 0 && Coherent(proto, sight, chunks)
    requires var sets, anns := SetsOf(proto, chunks, maxFields), AllMeant(proto, chunks);
             && InvalidTemplate !in ReasonsAfter(ts, charge, sight.port, proto, sets, anns, used, sight.now, sight.ttl)
             && AsFound(ts, charge, sight.port, sets, anns, used, sight.now, sight.ttl)
    ensures MetAsSent(chunks, used)
  {
    hide Written, SetOf, Meant, InForce, LookUp, ShelfAfter, ReasonsAfter;
    var sets, anns := SetsOf(proto, chunks, maxFields), AllMeant(proto, chunks);
    forall i | 0 <= i < |used|
      ensures used[i] == if chunks[i].Sending? then Some(chunks[i].layout) else None
    {
      ReasonsPrefix(ts, charge, sight.port, proto, sets, anns, used, i, sight.now, sight.ttl);
      StoredInForce(ts, charge, sight, proto, chunks, used[..i], maxFields);
      SetAnnouncesMeant(proto, chunks[i], maxFields);
    }
  }

  // ---- What is read --------------------------------------------------------------------------

  lemma OneSetTaken(proto: Protocol, c: Chunk, port: u16, maxFields: nat)
    requires Exports(proto) && Written(proto, c, maxFields)
    ensures var s, met := SetOf(proto, c, maxFields), if c.Sending? then Some(c.layout) else None;
            && V9TakenFrom(s, port, met) == SentBy(port, c)
            && (proto == Ipfix ==> TakenFrom(s, port, met) == Taken(SentBy(port, c), SentCount([c], 1), true))
  {
    hide PutBody, Written, Records, FlowRecords;
    SetAnnouncesMeant(proto, c, maxFields);
    if c.Sending? {
      SetReadsAsSent(proto, c, maxFields);
    }
  }

  lemma {:induction false} TakenAsSent(chunks: seq<Chunk>, port: u16, used: seq<Option<Template>>, n: nat,
                                       maxFields: nat)
    requires AllWritten(Ipfix, chunks, maxFields) && MetAsSent(chunks, used) && n <= |chunks|
    ensures TakenBy(SetsOf(Ipfix, chunks, maxFields), port, used, n) ==
            Taken(Sent(port, chunks, n), SentCount(chunks, n), true)
  {
    hide SetOf, Written, TakenFrom, SentBy;
    if n > 0 {
      TakenAsSent(chunks, port, used, n - 1, maxFields);
      OneSetTaken(Ipfix, chunks[n - 1], port, maxFields);
    }
  }

  lemma {:induction false} V9TakenAsSent(chunks: seq<Chunk>, port: u16, used: seq<Option<Template>>, n: nat,
                                         maxFields: nat)
    requires AllWritten(NetFlowV9, chunks, maxFields) && MetAsSent(chunks, used) && n <= |chunks|
    ensures V9TakenBy(SetsOf(NetFlowV9, chunks, maxFields), port, used, n) == Sent(port, chunks, n)
  {
    hide SetOf, Written, V9TakenFrom, SentBy;
    if n > 0 {
      V9TakenAsSent(chunks, port, used, n - 1, maxFields);
      OneSetTaken(NetFlowV9, chunks[n - 1], port, maxFields);
    }
  }

  lemma {:induction false} OnlyRefusalsReported(ts: Shelf, charge: int, port: u16, proto: Protocol,
                                                chunks: seq<Chunk>, used: seq<Option<Template>>, n: nat, now: int,
                                                ttl: int, maxFields: nat)
    requires Exports(proto) && AllWritten(proto, chunks, maxFields) && MetAsSent(chunks, used) && n <= |used|
    ensures var reasons := ReasonsAfter(ts, charge, port, proto, SetsOf(proto, chunks, maxFields),
                                        AllMeant(proto, chunks), used[..n], now, ttl);
            forall r :: r in reasons ==> r == InvalidTemplate
  {
    hide Written, SetOf, Meant, ShelfAfter, ReasonsOf, ReasonsAfter;
    if n == 0 {
      NothingReported(ts, charge, port, proto, SetsOf(proto, chunks, maxFields), AllMeant(proto, chunks), now, ttl);
    } else {
      assert used[..n - 1] + [used[n - 1]] == used[..n];
      ReasonsOneMore(ts, charge, port, proto, SetsOf(proto, chunks, maxFields), AllMeant(proto, chunks),
                     used[..n - 1], used[n - 1], now, ttl);
      OnlyRefusalsReported(ts, charge, port, proto, chunks, used, n - 1, now, ttl, maxFields);
      var before := ShelfAfter(ts, charge, port, AllMeant(proto, chunks)[..n - 1], now, ttl);
      SetReportsRefusals(before, Charged(charge, ts, before), port, proto, chunks[n - 1], now, ttl, maxFields);
    }
  }

  lemma NothingReported(ts: Shelf, charge: int, port: u16, proto: Protocol, sets: seq<WireSet>,
                        anns: seq<seq<Announcement>>, now: int, ttl: int)
    ensures ReasonsAfter(ts, charge, port, proto, sets, anns, [], now, ttl) == []
  {
  }

  lemma SetReportsRefusals(ts: Shelf, used: int, port: u16, proto: Protocol, c: Chunk, now: int, ttl: int,
                           maxFields: nat)
    requires Exports(proto) && Written(proto, c, maxFields)
    ensures var reasons := ReasonsOf(ts, used, port, proto, SetOf(proto, c, maxFields), Meant(proto, c),
                                     if c.Sending? then Some(c.layout) else None, now, ttl);
            forall r :: r in reasons ==> r == InvalidTemplate
  {
    hide Written, SetOf, Meant, HoldsTemplates, Refusals;
    SetAnnouncesMeant(proto, c, maxFields);
    if c.Sending? {
      SetReadsAsSent(proto, c, maxFields);
    } else {
      OnlyInvalid(ts, used, port, Meant(proto, c), now, ttl);
    }
  }

  lemma {:induction false} OnlyInvalid(ts: Shelf, used: int, port: u16, anns: seq<Announcement>, now: int, ttl: int)
    ensures forall r :: r in Refusals(ts, used, port, anns, now, ttl) ==> r == InvalidTemplate
    decreases |anns|
  {
    hide Registers, RegisteredAll;
    if anns != [] {
      OnlyInvalid(ts, used, port, anns[..|anns| - 1], now, ttl);
    }
  }

  // ---- End to end -----------------------------------------------------------------------------

  /** The decoder did with these sets all that their device meant: each data set
      was read under the layout it was sent under, nothing is reported, and the
      session has in force what was announced last. */
  ghost predicate Understood(v: Domains, v': Domains, key: DomainKey, port: u16, chunks: seq<Chunk>,
                             used: seq<Option<Template>>, issues: seq<Reason>, now: int, ttl: int)
    requires Exports(key.proto)
  {
    && issues == [] && MetAsSent(chunks, used)
    && Finds(ShelfOf(v', key), port, now, ttl, Sight(ShelfOf(v, key), port, now, ttl), AllMeant(key.proto, chunks),
             |chunks|)
  }

  lemma UnrefusedIsUnderstood(v: Domains, v': Domains, key: DomainKey, port: u16, chunks: seq<Chunk>,
                              used: seq<Option<Template>>, issues: seq<Reason>, now: int, ttl: int, maxFields: nat)
    requires Exports(key.proto) && AllWritten(key.proto, chunks, maxFields) && |used| == |chunks| && ttl >= 0
    requires Coherent(key.proto, Sight(ShelfOf(v, key), port, now, ttl), chunks)
    requires StoredAsAnnounced(v, v', key, port, SetsOf(key.proto, chunks, maxFields), AllMeant(key.proto, chunks),
                               used, issues, now, ttl)
    requires InvalidTemplate !in issues
    ensures Understood(v, v', key, port, chunks, used, issues, now, ttl)
  {
    hide Written, SetOf, Meant, InForce, ReasonsAfter, ShelfAfter, AsFound, MetAsSent, Finds, Coherent, Used;
    var ts, charge := ShelfOf(v, key), Used(v, key.exporter);
    var sight := Sight(ts, port, now, ttl);
    AllMetAsSent(ts, charge, sight, key.proto, chunks, used, maxFields);
    StoredInForce(ts, charge, sight, key.proto, chunks, used, maxFields);
    OnlyRefusalsReported(ts, charge, port, key.proto, chunks, used, |used|, now, ttl, maxFields);
    assert used[..|used|] == used && AllMeant(key.proto, chunks)[..|used|] == AllMeant(key.proto, chunks);
    NothingOrSome(issues);
  }

  lemma NothingOrSome(reasons: seq<Reason>)
    ensures reasons == [] || exists r :: r in reasons
  {
    if reasons != [] {
      assert reasons[0] in reasons;
    }
  }

  /** How many templates a message announces, and the specifiers they hold. */
  function Asked(anns: seq<Announcement>): nat {
    if anns == [] then 0
    else
      var last := anns[|anns| - 1];
      Asked(anns[..|anns| - 1]) + if last.layout.Some? then |last.layout.value.fields| else 0
  }

  /** Room in the domain and on its device for so many more templates holding so
      many specifiers. */
  predicate RoomFor(ts: Shelf, used: int, templates: nat, fields: nat) {
    |ts| + templates <= MAX_TEMPLATES && used + fields <= MAX_FIELDS
  }

  lemma {:induction false} RoomRegistersAll(ts: Shelf, used: int, port: u16, anns: seq<Announcement>, templates: nat,
                                            fields: nat, now: int, ttl: int)
    requires Usable(anns) && RoomFor(ts, used, |anns| + templates, Asked(anns) + fields)
    ensures Refusals(ts, used, port, anns, now, ttl) == []
    ensures var after := RegisteredAll(ts, used, port, anns, now, ttl);
            RoomFor(after, Charged(used, ts, after), templates, fields)
    decreases |anns|
  {
    hide Effect, FieldCount, Live;
    if anns != [] {
      var n := |anns| - 1;
      var more := if anns[n].layout.Some? then |anns[n].layout.value.fields| else 0;
      RoomRegistersAll(ts, used, port, anns[..n], templates + 1, fields + more, now, ttl);
      var before := RegisteredAll(ts, used, port, anns[..n], now, ttl);
      var ref, held := TemplateRef(port, anns[n].id), Held(anns[n].layout.value, now);
      FieldsPut(before, ref, held);
      ShelfGrows(before, ref, held);
    }
  }

  function TemplatesAsked(anns: seq<seq<Announcement>>, n: nat): nat
    requires n <= |anns|
  {
    if n == 0 then 0 else TemplatesAsked(anns, n - 1) + |anns[n - 1]|
  }

  function FieldsAsked(anns: seq<seq<Announcement>>, n: nat): nat
    requires n <= |anns|
  {
    if n == 0 then 0 else FieldsAsked(anns, n - 1) + Asked(anns[n - 1])
  }

  /** With room for all it announces a message has nothing refused. */
  lemma {:induction false} RoomRefusesNothing(
    ts: Shelf, charge: int, port: u16, proto: Protocol, chunks: seq<Chunk>, used: seq<Option<Template>>,
    templates: nat, fields: nat, now: int, ttl: int, maxFields: nat)
    requires Exports(proto) && AllWritten(proto, chunks, maxFields) && |used| <= |chunks|
    requires var anns := AllMeant(proto, chunks);
             RoomFor(ts, charge, TemplatesAsked(anns, |used|) + templates, FieldsAsked(anns, |used|) + fields)
    ensures InvalidTemplate !in
              ReasonsAfter(ts, charge, port, proto, SetsOf(proto, chunks, maxFields), AllMeant(proto, chunks), used,
                           now, ttl)
    ensures var after := ShelfAfter(ts, charge, port, AllMeant(proto, chunks)[..|used|], now, ttl);
            RoomFor(after, Charged(charge, ts, after), templates, fields)
    decreases |used|
  {
    hide Written, SetOf, Meant, ReasonsOf, FieldCount, RegisteredAll, Usable, HoldsTemplates, Asked;
    if used != [] {
      var n, anns := |used| - 1, AllMeant(proto, chunks);
      RoomRefusesNothing(ts, charge, port, proto, chunks, used[..n], templates + |anns[n]|, fields + Asked(anns[n]),
                         now, ttl, maxFields);
      var before := ShelfAfter(ts, charge, port, anns[..n], now, ttl);
      assert anns[..n + 1][..n] == anns[..n];
      SetAnnouncesMeant(proto, chunks[n], maxFields);
      RoomRegistersAll(before, Charged(charge, ts, before), port, anns[n], templates, fields, now, ttl);
      NoneInvalid(before, Charged(charge, ts, before), port, proto, SetOf(proto, chunks[n], maxFields), anns[n],
                  used[n], now, ttl);
    }
  }

  lemma NoneInvalid(ts: Shelf, used: int, port: u16, proto: Protocol, s: WireSet, anns: seq<Announcement>,
                    found: Option<Template>, now: int, ttl: int)
    requires Refusals(ts, used, port, anns, now, ttl) == []
    ensures InvalidTemplate !in ReasonsOf(ts, used, port, proto, s, anns, found, now, ttl)
  {
  }

  /** What the decoder makes of a message its device wrote, whatever follows it
      in its datagram. Unless a template was reported refused, the records out
      are those sent, nothing is reported, the session has in force what was
      announced last, and the sequence moves by the records sent; and with room
      for what it announces nothing is refused. */
  method DecodeWrittenMessage(store: TemplateStore, exporter: Addr, port: u16, payload: Bytes, dst: seq<FlowRecord>,
                              now: int, ghost h: Header, ghost chunks: seq<Chunk>, ghost trailing: Bytes)
    returns (out: seq<FlowRecord>, failed: bool, issues: seq<Reason>)
    requires store.Valid() && store.clock <= now && AllWritten(Ipfix, chunks, store.maxFields)
    requires var sets := SetsOf(Ipfix, chunks, store.maxFields);
             Sendable(sets) && payload == PutMessage(h, sets) + trailing
    requires var key := DomainKey(exporter, h.domain, Ipfix);
             && Admits(store.domains, key)
             && Coherent(Ipfix, Sight(ShelfOf(store.domains, key), port, now, store.ttl), chunks)
    modifies store
    ensures store.Valid() && !failed
    ensures var key, anns := DomainKey(exporter, h.domain, Ipfix), AllMeant(Ipfix, chunks);
            var before := Sight(ShelfOf(old(store.domains), key), port, now, store.ttl);
            && key in store.domains
            && (InvalidTemplate !in issues ==>
                 && issues == [] && out == dst + Sent(port, chunks, |chunks|)
                 && Finds(ShelfOf(store.domains, key), port, now, store.ttl, before, anns, |chunks|)
                 && store.domains[key].positions ==
                    TrackRecords(PositionsOf(old(store.domains), key), port, now, h.sequence,
                                 Wrap32(SentCount(chunks, |chunks|)), 0, true))
            && (RoomFor(before.ts, Used(old(store.domains), exporter), TemplatesAsked(anns, |anns|),
                        FieldsAsked(anns, |anns|)) ==>
                 InvalidTemplate !in issues)
  {
    hide Accepts, Coherent, Applied, SetsOf, AllMeant, Finds, TrackRecords, PositionsOf, TakenBy, Sent, SentCount;
    hide SeenStep, Admits, Sound, OnlyTable, TablesKept, SamplingOf, SamplingBefore, AsJudged, HandedBy, Discarded;
    hide AllWritten, PutMessage, Sendable, MetAsSent, KeyOf, MessageOf, HeaderFits, Sets, Be32, TemplatesAsked;
    hide FieldsAsked, RoomFor, Used, ShelfOf, SightOf;
    ghost var key, v := DomainKey(exporter, h.domain, Ipfix), store.domains;
    ghost var sets := SetsOf(Ipfix, chunks, store.maxFields);
    MessageReadsBack(exporter, h, sets, trailing);
    var handed;
    ghost var seen, used;
    out, failed, issues, handed, seen, used := DecodeIpfix(store, exporter, port, payload, dst, now);
    SeenSame(v, seen, key, port, now, store.ttl);
    WrittenIsAccepted(SightOf(seen, key, port, now, store.ttl), chunks, store.maxFields);
    AppliedAsWritten(seen, SamplingBefore(v, old(store.samplerTables), old(store.tables), key), store.domains,
                     store.tables, key, port, now, h.sequence, chunks, used, issues, store.ttl, store.maxFields);
  }

  lemma AppliedAsWritten(
    seen: Domains, declared: Sampling, v': Domains, t': Tables, key: DomainKey, port: u16, now: int, number: u32,
    chunks: seq<Chunk>, used: seq<Option<Template>>, issues: seq<Reason>, ttl: nat, maxFields: nat)
    requires key.proto == Ipfix && key in seen && AllWritten(Ipfix, chunks, maxFields) && |used| == |chunks|
    requires Coherent(Ipfix, Sight(ShelfOf(seen, key), port, now, ttl), chunks)
    requires Applied(seen, declared, v', t', key, port, now, number, SetsOf(Ipfix, chunks, maxFields), used, issues,
                     ttl, maxFields)
    ensures key in v'
    ensures InvalidTemplate !in issues ==>
              && Understood(seen, v', key, port, chunks, used, issues, now, ttl)
              && TakenBy(SetsOf(Ipfix, chunks, maxFields), port, used, |used|).records == Sent(port, chunks, |chunks|)
              && v'[key].positions == TrackRecords(seen[key].positions, port, now, number,
                                                   Wrap32(SentCount(chunks, |chunks|)), 0, true)
    ensures var anns := AllMeant(Ipfix, chunks);
            RoomFor(ShelfOf(seen, key), Used(seen, key.exporter), TemplatesAsked(anns, |anns|),
                    FieldsAsked(anns, |anns|)) ==>
              InvalidTemplate !in issues
  {
    hide Written, SetOf, Meant, Coherent, Finds, Used, TrackRecords, ReasonsAfter, ShelfAfter, AsFound, RoomFor;
    hide TakenBy, MessageMoved, Agrees, SamplingOf, CommittedBy, Sent, SentCount;
    var anns := AllMeant(Ipfix, chunks);
    AnnouncedAsMeant(Ipfix, chunks, maxFields);
    if RoomFor(ShelfOf(seen, key), Used(seen, key.exporter), TemplatesAsked(anns, |anns|), FieldsAsked(anns, |anns|)) {
      RoomRefusesNothing(ShelfOf(seen, key), Used(seen, key.exporter), port, Ipfix, chunks, used, 0, 0, now, ttl,
                         maxFields);
    }
    if InvalidTemplate !in issues {
      UnrefusedIsUnderstood(seen, v', key, port, chunks, used, issues, now, ttl, maxFields);
      TakenAsSent(chunks, port, used, |used|, maxFields);
    }
  }

  ghost function PositionsOf(v: Domains, key: DomainKey): Positions {
    if key in v then v[key].positions else Positions(map[], 0)
  }

  /** Opening a domain, or seeing it again, moves no template and no charge. */
  lemma SeenSame(v: Domains, seen: Domains, key: DomainKey, port: u16, now: int, ttl: int)
    requires SeenStep(v, seen, key, now) && Admits(v, key)
    ensures key in seen && ShelfOf(seen, key) == ShelfOf(v, key) && seen[key].positions == PositionsOf(v, key)
    ensures SightOf(seen, key, port, now, ttl) == Sight(ShelfOf(v, key), port, now, ttl)
    ensures Used(seen, key.exporter) == Used(v, key.exporter)
  {
    hide Dues, FieldCount, DueTo, Admits;
    DuePut(v, key, seen[key], key.exporter);
    NoFields();
  }

  lemma NoFields()
    ensures FieldCount(map[]) == 0
  {
    assert FieldSizes(map[]) == map[];
  }

  /** The same of NetFlow v9, whose datagram may end in less than a flowset header
      or in a flowset whose length is broken: the flowsets ahead of it stand. */
  method DecodeWrittenDatagram(store: TemplateStore, exporter: Addr, port: u16, payload: Bytes, dst: seq<FlowRecord>,
                               now: int, ghost h: V9Header, ghost chunks: seq<Chunk>, ghost rest: Bytes)
    returns (out: seq<FlowRecord>, failed: bool, issues: seq<Reason>)
    requires store.Valid() && store.clock <= now && AllWritten(NetFlowV9, chunks, store.maxFields)
    requires var sets := SetsOf(NetFlowV9, chunks, store.maxFields);
             AllFit(sets) && payload == PutDatagram(h, sets) + rest && (|rest| < SET_HEADER || BreaksOff(rest))
    requires var key := DomainKey(exporter, h.source, NetFlowV9);
             && Admits(store.domains, key)
             && Coherent(NetFlowV9, Sight(ShelfOf(store.domains, key), port, now, store.ttl), chunks)
    modifies store
    ensures store.Valid() && failed == BreaksOff(rest)
    ensures var key, anns := DomainKey(exporter, h.source, NetFlowV9), AllMeant(NetFlowV9, chunks);
            var before := Sight(ShelfOf(old(store.domains), key), port, now, store.ttl);
            && key in store.domains
            && store.domains[key].positions == TrackPacket(PositionsOf(old(store.domains), key), port, now, h.sequence)
            && (InvalidTemplate !in issues ==>
                 && issues == [] && out == dst + Sent(port, chunks, |chunks|)
                 && Finds(ShelfOf(store.domains, key), port, now, store.ttl, before, anns, |chunks|))
            && (RoomFor(before.ts, Used(old(store.domains), exporter), TemplatesAsked(anns, |anns|),
                        FieldsAsked(anns, |anns|)) ==>
                 InvalidTemplate !in issues)
  {
    hide Coherent, SetsOf, AllMeant, Finds, TrackPacket, PositionsOf, V9TakenBy, Sent, RoomFor, Sound, SetsFrom;
    hide SeenStep, Admits, OnlyTable, SamplingOf, SamplingBefore, V9AsJudged, HandedBy, Used, Agrees, V9Ahead;
    hide AllWritten, PutDatagram, AllFit, MetAsSent, Be32, TemplatesAsked, FieldsAsked, StoredAsAnnounced;
    hide ShelfOf, SightOf, V9AllAnnounced, CommittedBy, PositionStep, MessageMoved;
    ghost var key, v := DomainKey(exporter, h.source, NetFlowV9), store.domains;
    ghost var sets := SetsOf(NetFlowV9, chunks, store.maxFields);
    DatagramReadsBack(h, sets, rest);
    var handed;
    ghost var seen, used;
    out, failed, issues, handed, seen, used := DecodeNetFlowV9(store, exporter, port, payload, dst, now);
    ghost var w: Domains :| SeenStep(v, w, key, now) && key in w
                            && PositionStep(w, seen, key, TrackPacket(w[key].positions, port, now, h.sequence));
    SeenSame(v, w, key, port, now, store.ttl);
    TrackedSame(w, seen, key, TrackPacket(w[key].positions, port, now, h.sequence));
    StoredAsWritten(seen, store.domains, key, port, now, chunks, used, issues, store.ttl, store.maxFields);
    MovedPositions(seen, store.domains, key);
  }

  /** Moving a position moves no template and no charge. */
  lemma TrackedSame(w: Domains, seen: Domains, key: DomainKey, p: Positions)
    requires PositionStep(w, seen, key, p)
    ensures key in seen && ShelfOf(seen, key) == ShelfOf(w, key) && seen[key].positions == p
    ensures Used(seen, key.exporter) == Used(w, key.exporter)
  {
    hide Dues, FieldCount, DueTo;
    DuePut(w, key, seen[key], key.exporter);
  }

  lemma MovedPositions(v: Domains, v': Domains, key: DomainKey)
    requires MessageMoved(v, v', key)
    ensures key in v' && v'[key].positions == v[key].positions
  {
  }

  lemma StoredAsWritten(
    seen: Domains, v': Domains, key: DomainKey, port: u16, now: int, chunks: seq<Chunk>, used: seq<Option<Template>>,
    issues: seq<Reason>, ttl: nat, maxFields: nat)
    requires key.proto == NetFlowV9 && AllWritten(NetFlowV9, chunks, maxFields) && |used| == |chunks|
    requires Coherent(NetFlowV9, Sight(ShelfOf(seen, key), port, now, ttl), chunks)
    requires var sets := SetsOf(NetFlowV9, chunks, maxFields);
             StoredAsAnnounced(seen, v', key, port, sets, V9AllAnnounced(sets, maxFields), used, issues, now, ttl)
    ensures InvalidTemplate !in issues ==>
              && Understood(seen, v', key, port, chunks, used, issues, now, ttl)
              && V9TakenBy(SetsOf(NetFlowV9, chunks, maxFields), port, used, |used|) == Sent(port, chunks, |chunks|)
    ensures var anns := AllMeant(NetFlowV9, chunks);
            RoomFor(ShelfOf(seen, key), Used(seen, key.exporter), TemplatesAsked(anns, |anns|),
                    FieldsAsked(anns, |anns|)) ==>
              InvalidTemplate !in issues
  {
    hide Written, SetOf, Meant, Coherent, Finds, Used, ReasonsAfter, ShelfAfter, AsFound, RoomFor, V9TakenBy, Sent;
    var anns := AllMeant(NetFlowV9, chunks);
    AnnouncedAsMeant(NetFlowV9, chunks, maxFields);
    if RoomFor(ShelfOf(seen, key), Used(seen, key.exporter), TemplatesAsked(anns, |anns|), FieldsAsked(anns, |anns|)) {
      RoomRefusesNothing(ShelfOf(seen, key), Used(seen, key.exporter), port, NetFlowV9, chunks, used, 0, 0, now, ttl,
                         maxFields);
    }
    if InvalidTemplate !in issues {
      UnrefusedIsUnderstood(seen, v', key, port, chunks, used, issues, now, ttl, maxFields);
      V9TakenAsSent(chunks, port, used, |used|, maxFields);
    }
  }
}
