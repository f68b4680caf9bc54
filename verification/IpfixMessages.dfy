/** One IPFIX message as its sets, what the length check makes of it, and why a
    second walk that checks nothing can rely on the first. */
module IpfixMessages {
  import opened Uint
  import opened Wire
  import opened Templates
  import opened IpfixTemplates
  import opened IpfixRecords
  import opened StoreModel

  const HEADER: nat := 16
  const TEMPLATE_SET: u16 := 2
  const OPTIONS_SET: u16 := 3

  datatype WireSet = WireSet(id: u16, body: Bytes)
  {
    predicate Announces() {
      id == TEMPLATE_SET || id == OPTIONS_SET
    }

    predicate IsData() {
      id >= MIN_DATA_SET
    }
  }

  /** The sets ahead of the first length that breaks the framing, and whether
      none does. */
  datatype Framed = Framed(sets: seq<WireSet>, whole: bool)

  predicate Frames(msg: Bytes, offset: nat)
    requires offset + SET_HEADER <= |msg|
  {
    SET_HEADER <= Be16(msg, offset + 2) && offset + Be16(msg, offset + 2) <= |msg|
  }

  function SetAt(msg: Bytes, offset: nat): WireSet
    requires offset + SET_HEADER <= |msg| && Frames(msg, offset)
  {
    WireSet(Be16(msg, offset), msg[offset + SET_HEADER..offset + Be16(msg, offset + 2)])
  }

  function SetsFrom(msg: Bytes, offset: nat, read: seq<WireSet>): Framed
    decreases |msg| - offset
  {
    if offset + SET_HEADER > |msg| then Framed(read, true)
    else if !Frames(msg, offset) then Framed(read, false)
    else SetsFrom(msg, offset + Be16(msg, offset + 2), read + [SetAt(msg, offset)])
  }

  function Sets(msg: Bytes): Framed {
    SetsFrom(msg, HEADER, [])
  }

  // ---- Announcements in order ------------------------------------------------------

  /** What the decoder makes of one announcement: a layout it can use, or a
      withdrawal of whatever its id held. */
  function Effect(a: Announcement): Option<Template> {
    if a.layout.Some? && a.layout.value.FitsASet() then a.layout else None
  }

  type Announcements = map<u16, Option<Template>>

  /** The last announcement of each id wins. */
  function Fold(m: Announcements, anns: seq<Announcement>): Announcements
    decreases |anns|
  {
    if anns == [] then m else Fold(m[anns[0].id := Effect(anns[0])], anns[1..])
  }

  function AnnouncedIn(s: WireSet, maxFields: nat): seq<Announcement> {
    if s.Announces() then IpfixTemplates.Announced(s.body, s.id == OPTIONS_SET, maxFields) else []
  }

  function After(m: Announcements, s: WireSet, maxFields: nat): Announcements {
    Fold(m, AnnouncedIn(s, maxFields))
  }

  /** Everything announced by the sets before the n-th. */
  function Ahead(sets: seq<WireSet>, n: nat, maxFields: nat): Announcements
    requires n <= |sets|
  {
    if n == 0 then map[] else After(Ahead(sets, n - 1, maxFields), sets[n - 1], maxFields)
  }

  lemma {:induction false} FoldAppend(m: Announcements, anns: seq<Announcement>, a: Announcement)
    ensures Fold(m, anns + [a]) == Fold(m, anns)[a.id := Effect(a)]
    decreases |anns|
  {
    if anns == [] {
      assert anns + [a] == [a] && [a][1..] == [];
    } else {
      assert (anns + [a])[1..] == anns[1..] + [a];
      FoldAppend(m[anns[0].id := Effect(anns[0])], anns[1..], a);
    }
  }

  // ---- The length check --------------------------------------------------------------

  /** The templates one transport session would decode with at one instant. */
  datatype Sight = Sight(ts: Shelf, port: u16, now: int, ttl: int)
  {
    function Sees(id: u16): Option<Template> {
      LookUp(ts, TemplateRef(port, id), now, ttl)
    }
  }

  /** The template the check holds a data set against: the one announced ahead
      of it in the message, or else the one stored. */
  function Judged(sight: Sight, ahead: Announcements, id: u16): Option<Template> {
    if id in ahead then ahead[id] else sight.Sees(id)
  }

  ghost predicate HoldsWhole(t: Template, body: Bytes) {
    Walkable(t) && WholeRecords(t, body)
  }

  ghost predicate SetPasses(sight: Sight, ahead: Announcements, s: WireSet) {
    s.IsData() && Judged(sight, ahead, s.id).Some? ==> HoldsWhole(Judged(sight, ahead, s.id).value, s.body)
  }

  /** Section 9.1 of RFC 7011: no length in the message disagrees with what
      encloses it. */
  ghost predicate Accepts(sight: Sight, framed: Framed, maxFields: nat) {
    && framed.whole
    && forall i :: 0 <= i < |framed.sets| ==> SetPasses(sight, Ahead(framed.sets, i, maxFields), framed.sets[i])
  }

  /** The ids a rejected message withdraws: those it redefined, ahead of any
      break in the framing, with no layout or with another one. */
  ghost predicate Redefined(sight: Sight, announced: Announcements, id: u16) {
    id in announced && sight.Sees(id).Some?
    && (announced[id].None? || !sight.Sees(id).value.SameLayout(announced[id].value))
  }

  /** What a session can decode with once a message is rejected: what it could
      before, save the ids last announced as anything else. */
  ghost predicate Withdrawn(judged: Sight, announced: Announcements, found: Sight) {
    forall id: u16 ::
      found.Sees(id) == if id in announced && announced[id] != judged.Sees(id) then None else judged.Sees(id)
  }

  /** So no data of the device's next message meets a layout it has replaced. */
  lemma WithdrawnAgrees(judged: Sight, announced: Announcements, found: Sight)
    requires Withdrawn(judged, announced, found)
    ensures Agrees(judged, announced, found)
  {
    hide Sight.Sees;
  }

  ghost predicate SeesWellFormed(sight: Sight) {
    forall id: u16 :: sight.Sees(id).Some? ==> WellFormed(Ipfix, sight.Sees(id).value)
  }

  /** Among templates the store may hold, redefined is announced as another. */
  lemma RedefinedIsOther(sight: Sight, announced: Announcements, id: u16)
    requires SeesWellFormed(sight) && AllWellFormed(announced)
    ensures Redefined(sight, announced, id) <==>
            id in announced && sight.Sees(id).Some? && announced[id] != sight.Sees(id)
  {
    hide WellFormed, LookUp;
    if id in announced && sight.Sees(id).Some? && announced[id].Some? {
      SameLayoutMeansSame(Ipfix, sight.Sees(id).value, announced[id].value);
    }
  }

  // ---- The applying walk against the check ---------------------------------------------

  /** What the walk finds stored is what the check judged, or nothing: the
      announcements ahead may each have been taken, refused or withdrawn, but
      no id holds a layout the check did not see. */
  ghost predicate Agrees(judged: Sight, ahead: Announcements, found: Sight) {
    forall id: u16 ::
      if id in ahead then found.Sees(id) == None || found.Sees(id) == ahead[id]
      else found.Sees(id) == judged.Sees(id)
  }

  /** One announcement, however the store takes it, keeps the agreement. */
  lemma AnnouncementAgrees(judged: Sight, ahead: Announcements, found: Sight, a: Announcement, found': Sight)
    requires Agrees(judged, ahead, found)
    requires found'.port == found.port && found'.now == found.now && found'.ttl == found.ttl
    requires forall id: u16 :: id != a.id ==> found'.Sees(id) == found.Sees(id)
    requires found'.Sees(a.id) == None || found'.Sees(a.id) == Effect(a)
    ensures Agrees(judged, ahead[a.id := Effect(a)], found')
  {
  }

  /** So a data set the check passed holds whole records of whatever template
      the walk looks up, and the walk needs no check of its own. */
  lemma JudgedSetsDecode(judged: Sight, ahead: Announcements, found: Sight, s: WireSet)
    requires Agrees(judged, ahead, found) && SetPasses(judged, ahead, s) && s.IsData()
    ensures found.Sees(s.id).Some? ==> HoldsWhole(found.Sees(s.id).value, s.body)
  {
  }

  /** Every layout an IPFIX announcement puts in force is one its records can be
      walked with. */
  lemma EffectIsWellFormed(s: WireSet, maxFields: nat, i: nat)
    requires i < |AnnouncedIn(s, maxFields)|
    ensures var a := AnnouncedIn(s, maxFields)[i];
            Effect(a).Some? ==> WellFormed(Ipfix, Effect(a).value)
  {
    var a := AnnouncedIn(s, maxFields)[i];
    AnnouncedCompile(s.body, s.id == OPTIONS_SET, maxFields, i);
    if Effect(a).Some? {
      FittingIsWellFormed(Ipfix, a.layout.value);
    }
  }

  lemma WellFormedWalks(t: Template)
    requires WellFormed(Ipfix, t)
    ensures Walkable(t)
  {
  }

  ghost predicate AllWellFormed(m: Announcements) {
    forall id :: id in m && m[id].Some? ==> WellFormed(Ipfix, m[id].value)
  }

  lemma {:induction false} FoldWellFormed(m: Announcements, s: WireSet, maxFields: nat, n: nat)
    requires AllWellFormed(m) && n <= |AnnouncedIn(s, maxFields)|
    ensures AllWellFormed(Fold(m, AnnouncedIn(s, maxFields)[..n]))
    decreases n
  {
    var anns := AnnouncedIn(s, maxFields);
    if n > 0 {
      FoldWellFormed(m, s, maxFields, n - 1);
      EffectIsWellFormed(s, maxFields, n - 1);
      assert anns[..n] == anns[..n - 1] + [anns[n - 1]];
      FoldAppend(m, anns[..n - 1], anns[n - 1]);
    }
  }

  // ---- What the walk reports -------------------------------------------------------------

  datatype Reason = DomainLimit | InvalidTemplate | MissingTemplate | ReservedSet | Malformed

  const V9_TEMPLATES: u16 := 0
  const V9_OPTIONS: u16 := 1

  /** Whether a set carries templates, by its protocol's numbering. */
  predicate HoldsTemplates(proto: Protocol, s: WireSet) {
    if proto == Ipfix then s.Announces() else s.id == V9_TEMPLATES || s.id == V9_OPTIONS
  }

  /** One reason for each announcement the domain did not take. */
  ghost function Refusals(ts: Shelf, used: int, port: u16, anns: seq<Announcement>, now: int, ttl: int): seq<Reason>
    decreases |anns|
  {
    if anns == [] then []
    else
      var n := |anns| - 1;
      var before := RegisteredAll(ts, used, port, anns[..n], now, ttl);
      Refusals(ts, used, port, anns[..n], now, ttl)
      + if Registers(before, Charged(used, ts, before), port, anns[n], now, ttl) then [] else [InvalidTemplate]
  }

  ghost predicate Registers(ts: Shelf, used: int, port: u16, a: Announcement, now: int, ttl: int) {
    Effect(a).Some? && Takes(ts, used, TemplateRef(port, a.id), Effect(a).value, now, ttl)
  }

  /** Why a set was passed over, in whole or in part. */
  ghost function ReasonsOf(ts: Shelf, used: int, port: u16, proto: Protocol, s: WireSet, anns: seq<Announcement>,
                           found: Option<Template>, now: int, ttl: int): seq<Reason>
  {
    if HoldsTemplates(proto, s) then Refusals(ts, used, port, anns, now, ttl)
    else if !s.IsData() then [ReservedSet]
    else if found.None? then [MissingTemplate]
    else if |s.body| < found.value.recordLen then [Malformed]
    else []
  }

  /** Everything reported of the sets found tells the templates of. */
  ghost function ReasonsAfter(ts: Shelf, used: int, port: u16, proto: Protocol, sets: seq<WireSet>,
                              anns: seq<seq<Announcement>>, found: seq<Option<Template>>,
                              now: int, ttl: int): seq<Reason>
    requires |found| <= |sets| && |found| <= |anns|
    decreases |found|
  {
    if found == [] then []
    else
      var n := |found| - 1;
      var before := ShelfAfter(ts, used, port, anns[..n], now, ttl);
      ReasonsAfter(ts, used, port, proto, sets, anns, found[..n], now, ttl)
      + ReasonsOf(before, Charged(used, ts, before), port, proto, sets[n], anns[n], found[n], now, ttl)
  }

  lemma RefusedOneMore(ts: Shelf, used: int, port: u16, anns: seq<Announcement>, a: Announcement, now: int, ttl: int)
    ensures var before := RegisteredAll(ts, used, port, anns, now, ttl);
            Refusals(ts, used, port, anns + [a], now, ttl) ==
            Refusals(ts, used, port, anns, now, ttl)
            + if Registers(before, Charged(used, ts, before), port, a, now, ttl) then [] else [InvalidTemplate]
  {
    assert (anns + [a])[..|anns|] == anns;
  }

  lemma ReasonsOneMore(ts: Shelf, used: int, port: u16, proto: Protocol, sets: seq<WireSet>,
                       anns: seq<seq<Announcement>>, found: seq<Option<Template>>, more: Option<Template>,
                       now: int, ttl: int)
    requires |found| < |sets| && |found| < |anns|
    ensures var n := |found|;
            var before := ShelfAfter(ts, used, port, anns[..n], now, ttl);
            ReasonsAfter(ts, used, port, proto, sets, anns, found + [more], now, ttl) ==
            ReasonsAfter(ts, used, port, proto, sets, anns, found, now, ttl)
            + ReasonsOf(before, Charged(used, ts, before), port, proto, sets[n], anns[n], more, now, ttl)
  {
    assert (found + [more])[..|found|] == found;
  }

  /** A message every set of which holds whole records reports none malformed. */
  lemma {:induction false} NoneMalformed(ts: Shelf, used: int, port: u16, anns: seq<Announcement>, now: int, ttl: int)
    ensures Malformed !in Refusals(ts, used, port, anns, now, ttl)
    decreases |anns|
  {
    if anns != [] {
      NoneMalformed(ts, used, port, anns[..|anns| - 1], now, ttl);
    }
  }

  // ---- What the walk leaves stored, announcement by announcement -------------------------

  /** One announcement on a domain holding ts, its device charged for used
      specifiers in all: withdrawn where it has no usable layout, and otherwise
      taken or refused by the budgets. */
  ghost function Registered(ts: Shelf, used: int, port: u16, a: Announcement, now: int, ttl: int): Shelf {
    match Effect(a)
    case None => ts - {TemplateRef(port, a.id)}
    case Some(t) => StoreModel.Announced(ts, used, TemplateRef(port, a.id), t, now, ttl)
  }

  /** What a device is charged once one of its domains holds after for before. */
  ghost function Charged(used: int, before: Shelf, after: Shelf): int {
    used - FieldCount(before) + FieldCount(after)
  }

  ghost function RegisteredAll(ts: Shelf, used: int, port: u16, anns: seq<Announcement>, now: int, ttl: int): Shelf
    decreases |anns|
  {
    if anns == [] then ts
    else
      var n := |anns| - 1;
      var before := RegisteredAll(ts, used, port, anns[..n], now, ttl);
      Registered(before, Charged(used, ts, before), port, anns[n], now, ttl)
  }

  /** The templates held after sets announcing these, in order. */
  ghost function ShelfAfter(ts: Shelf, used: int, port: u16, anns: seq<seq<Announcement>>, now: int, ttl: int): Shelf
    decreases |anns|
  {
    if anns == [] then ts
    else
      var n := |anns| - 1;
      var before := ShelfAfter(ts, used, port, anns[..n], now, ttl);
      RegisteredAll(before, Charged(used, ts, before), port, anns[n], now, ttl)
  }

  /** Each data set met the template then stored under its id, if any. */
  ghost predicate AsFound(ts: Shelf, charge: int, port: u16, sets: seq<WireSet>, anns: seq<seq<Announcement>>,
                          used: seq<Option<Template>>, now: int, ttl: int)
    requires |used| <= |sets| && |used| <= |anns|
  {
    forall i :: 0 <= i < |used| ==>
      used[i] == if sets[i].IsData()
                 then LookUp(ShelfAfter(ts, charge, port, anns[..i], now, ttl), TemplateRef(port, sets[i].id), now, ttl)
                 else None
  }

  lemma RegisteredOneMore(ts: Shelf, used: int, port: u16, anns: seq<Announcement>, a: Announcement, now: int, ttl: int)
    ensures var before := RegisteredAll(ts, used, port, anns, now, ttl);
            RegisteredAll(ts, used, port, anns + [a], now, ttl) ==
            Registered(before, Charged(used, ts, before), port, a, now, ttl)
  {
    assert (anns + [a])[..|anns|] == anns;
  }

  lemma ShelfOneMore(ts: Shelf, used: int, port: u16, anns: seq<seq<Announcement>>, more: seq<Announcement>,
                     now: int, ttl: int)
    ensures var before := ShelfAfter(ts, used, port, anns, now, ttl);
            ShelfAfter(ts, used, port, anns + [more], now, ttl) ==
            RegisteredAll(before, Charged(used, ts, before), port, more, now, ttl)
  {
    assert (anns + [more])[..|anns|] == anns;
  }
}
