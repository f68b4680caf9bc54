/** The export sequence positions one observation domain follows, one per
    transport session, and the unbounded counts their 32-bit readings stand for. */
module Sequences {
  import opened Uint
  import opened MapSums
  import opened Templates

  const FORWARD_WINDOW: int := 0x4000_0000
  const REORDER_WINDOW: int := 1024
  const MAX_LATE_RUN: nat := 4
  const MAX_SESSIONS: nat := 16

  datatype Session = Session(lastSeq: u32, lastSeen: int, engine: u16, lateRun: nat, init: bool)

  /** A domain's sessions by source port, and the losses summed across them. */
  datatype Positions = Positions(sessions: map<u16, Session>, missed: u64)

  /** sessionLocked: the session of one port, stamped as seen, or none where a
      new one would pass the bound. */
  function OpenSession(p: Positions, port: u16, at: int): Option<Session> {
    if port in p.sessions then Some(p.sessions[port].(lastSeen := at))
    else if |p.sessions| >= MAX_SESSIONS then None
    else Some(Session(0, at, 0, 0, false))
  }

  /** One session's move, and what it counts as missing. */
  datatype Move = Move(session: Session, skipped: nat)

  function PacketMove(s: Session, number: u32): Move {
    var diff := Sub32(number, s.lastSeq);
    if !s.init then Move(s.(init := true, lastSeq := number), 0)
    else if diff == 0 then Move(s, 0)
    else if diff < FORWARD_WINDOW then Move(s.(lastSeq := number), diff - 1)
    else if diff > TWO_32 - 1 - REORDER_WINDOW then Move(s, 0)
    else Move(s.(lastSeq := number), 0)
  }

  function RecordMove(s: Session, number: u32, records: u32, engine: u16, complete: bool): Move {
    var diff := Sub32(number, s.lastSeq);
    var next := Add32(number, records);
    if !s.init || engine != s.engine then
      Move(s.(init := complete, engine := engine, lastSeq := next, lateRun := 0), 0)
    else if diff > TWO_32 - 1 - REORDER_WINDOW && s.lateRun < MAX_LATE_RUN then
      Move(s.(lateRun := s.lateRun + 1), 0)
    else
      Move(s.(init := complete, lastSeq := next, lateRun := 0), if diff < FORWARD_WINDOW then diff else 0)
  }

  function Moved(p: Positions, port: u16, m: Move): Positions {
    Positions(p.sessions[port := m.session], Add64(p.missed, Wrap64(m.skipped)))
  }

  function TrackPacket(p: Positions, port: u16, at: int, number: u32): Positions {
    match OpenSession(p, port, at)
    case None => p
    case Some(s) => Moved(p, port, PacketMove(s, number))
  }

  function TrackRecords(
    p: Positions, port: u16, at: int, number: u32, records: u32, engine: u16, complete: bool): Positions
  {
    match OpenSession(p, port, at)
    case None => p
    case Some(s) => Moved(p, port, RecordMove(s, number, records, engine, complete))
  }

  /** The sessions a sweep leaves. */
  ghost function SessionsSince(sessions: map<u16, Session>, cutoff: int): map<u16, Session> {
    map port | port in sessions && sessions[port].lastSeen >= cutoff :: sessions[port]
  }

  // ---- Packet numbering against the device's true count ---------------------

  /** What the device really sent on one session: the true number of the first
      packet seen, the highest seen since, how many arrivals raised it, and when
      the last one came. */
  datatype PacketHistory = PacketHistory(first: int, highest: int, advances: nat, at: int)
  {
    function Lost(): int {
      highest - first - advances
    }
  }

  /** One packet as the device numbered it, before its counter wrapped. */
  datatype Packet = Packet(port: u16, at: int, number: int)

  type PacketHistories = map<u16, PacketHistory>

  function PacketSeen(h: PacketHistories, a: Packet): PacketHistories {
    if a.port in h then
      if a.number > h[a.port].highest then
        h[a.port := h[a.port].(highest := a.number, advances := h[a.port].advances + 1, at := a.at)]
      else h[a.port := h[a.port].(at := a.at)]
    else if |h| >= MAX_SESSIONS then h
    else h[a.port := PacketHistory(a.number, a.number, 0, a.at)]
  }

  /** The packet is reordered by no more than the window, or ahead by less than
      the forward one. */
  predicate PacketInReach(h: PacketHistories, a: Packet) {
    a.port in h ==> h[a.port].highest - REORDER_WINDOW <= a.number < h[a.port].highest + FORWARD_WINDOW
  }

  ghost function LostByPort(h: PacketHistories): map<u16, int> {
    map port | port in h :: h[port].Lost()
  }

  ghost predicate FollowsPackets(p: Positions, h: PacketHistories) {
    && p.sessions.Keys == h.Keys
    && (forall port :: port in h ==> p.sessions[port].init && p.sessions[port].lastSeq == Wrap32(h[port].highest))
    && (forall port :: port in h ==> p.sessions[port].lastSeen == h[port].at)
    && p.missed == Wrap64(Sum(LostByPort(h)))
  }

  lemma PacketReading(s: Session, highest: int, number: int)
    requires s.init && s.lastSeq == Wrap32(highest)
    requires highest - REORDER_WINDOW <= number < highest + FORWARD_WINDOW
    ensures var m := PacketMove(s, Wrap32(number));
            if number > highest
            then m.session == s.(lastSeq := Wrap32(number)) && m.skipped == number - highest - 1
            else m.session == s && m.skipped == 0
  {
    SubOfWraps(number, highest);
    var d := number - highest;
    if d < 0 {
      assert Wrap32(d) == d + TWO_32;
    } else {
      assert Wrap32(d) == d;
    }
  }

  lemma PacketMoveFollows(p: Positions, h: PacketHistories, port: u16, m: Move, e: PacketHistory)
    requires FollowsPackets(p, h)
    requires m.session.init && m.session.lastSeq == Wrap32(e.highest) && m.session.lastSeen == e.at
    requires e.Lost() == (if port in h then h[port].Lost() else 0) + m.skipped
    ensures FollowsPackets(Moved(p, port, m), h[port := e])
  {
    var p', h' := Moved(p, port, m), h[port := e];
    assert p'.sessions.Keys == p.sessions.Keys + {port} == h'.Keys;
    var total := Sum(LostByPort(h));
    LostMoves(h, port, e, m.skipped);
    AddOfWraps64(total, m.skipped);
  }

  lemma LostMoves(h: PacketHistories, port: u16, e: PacketHistory, skipped: int)
    requires e.Lost() == (if port in h then h[port].Lost() else 0) + skipped
    ensures Sum(LostByPort(h[port := e])) == Sum(LostByPort(h)) + skipped
  {
    SumUpdate(LostByPort(h), port, e.Lost());
    assert LostByPort(h[port := e]) == LostByPort(h)[port := e.Lost()];
  }

  lemma PacketStepFollows(p: Positions, h: PacketHistories, a: Packet)
    requires FollowsPackets(p, h) && PacketInReach(h, a)
    ensures FollowsPackets(TrackPacket(p, a.port, a.at, Wrap32(a.number)), PacketSeen(h, a))
  {
    assert |p.sessions| == |p.sessions.Keys| && |h| == |h.Keys|;
    match OpenSession(p, a.port, a.at)
    case None =>
    case Some(s) =>
      var m := PacketMove(s, Wrap32(a.number));
      var h' := PacketSeen(h, a);
      if a.port in h {
        PacketReading(s, h[a.port].highest, a.number);
      }
      PacketMoveFollows(p, h, a.port, m, h'[a.port]);
      assert h' == h[a.port := h'[a.port]];
  }

  ghost function PacketRun(arrivals: seq<Packet>): (Positions, PacketHistories) {
    if arrivals == [] then (Positions(map[], 0), map[])
    else
      var (p, h) := PacketRun(arrivals[..|arrivals| - 1]);
      var a := arrivals[|arrivals| - 1];
      (TrackPacket(p, a.port, a.at, Wrap32(a.number)), PacketSeen(h, a))
  }

  ghost predicate PacketsInReach(arrivals: seq<Packet>) {
    forall i :: 0 <= i < |arrivals| ==> PacketInReach(PacketRun(arrivals[..i]).1, arrivals[i])
  }

  /** Over a run of any length, and through any number of wraps, every tracked
      session reads the highest number its device reached and the domain counts
      exactly the numbers that never advanced it. */
  lemma {:induction false} PacketRunFollows(arrivals: seq<Packet>)
    requires PacketsInReach(arrivals)
    ensures FollowsPackets(PacketRun(arrivals).0, PacketRun(arrivals).1)
    decreases |arrivals|
  {
    if arrivals == [] {
      assert LostByPort(map[]) == map[];
    } else {
      var before := arrivals[..|arrivals| - 1];
      forall i | 0 <= i < |before|
        ensures PacketInReach(PacketRun(before[..i]).1, before[i])
      {
        assert before[..i] == arrivals[..i];
      }
      PacketRunFollows(before);
      var (p, h) := PacketRun(before);
      PacketStepFollows(p, h, arrivals[|arrivals| - 1]);
    }
  }

  /** Past either window the position rebases and nothing is counted. */
  lemma PacketRestart(s: Session, highest: int, number: int)
    requires s.init && s.lastSeq == Wrap32(highest)
    requires highest + FORWARD_WINDOW <= number < highest + TWO_32 - REORDER_WINDOW
             || highest - TWO_32 + FORWARD_WINDOW <= number < highest - REORDER_WINDOW
    ensures PacketMove(s, Wrap32(number)) == Move(s.(lastSeq := Wrap32(number)), 0)
  {
    SubOfWraps(number, highest);
    if number >= highest {
      assert Wrap32(number - highest) == number - highest;
    } else {
      assert Wrap32(number - highest) == number - highest + TWO_32;
    }
  }

  // ---- Record numbering against the device's true count ----------------------

  /** One message as the device numbered it: position is the true count of
      records it had sent before, records what this message carries. */
  datatype Message = Message(port: u16, at: int, position: int, records: u32, engine: u16, complete: bool)

  /** One session's true account. A segment opens where the position is rebased;
      within it, expected - first splits into records taken and records skipped.
      closed is what earlier segments skipped. */
  datatype Ledger = Ledger(
    first: int, expected: int, accepted: nat, skipped: nat,
    closed: nat, late: nat, engine: u16, open: bool, at: int)
  {
    predicate Balanced() {
      expected - first == accepted + skipped
    }
  }

  type Ledgers = map<u16, Ledger>

  function Reopen(closed: nat, m: Message): Ledger {
    Ledger(m.position + m.records, m.position + m.records, 0, 0, closed, 0, m.engine, m.complete, m.at)
  }

  /** The account of one message, told by the true distance from the position
      expected: held while a short run is late, taken with the gap before it,
      or the start of a new segment. */
  function Account(l: Ledger, m: Message): Ledger {
    var ahead := m.position - l.expected;
    if !l.open || m.engine != l.engine then Reopen(l.closed + l.skipped, m)
    else if -REORDER_WINDOW <= ahead < 0 && l.late < MAX_LATE_RUN then l.(late := l.late + 1, at := m.at)
    else if 0 <= ahead < FORWARD_WINDOW then
      l.(expected := m.position + m.records, accepted := l.accepted + m.records,
         skipped := l.skipped + ahead, late := 0, open := m.complete, at := m.at)
    else Reopen(l.closed + l.skipped, m)
  }

  function AccountAll(h: Ledgers, m: Message): Ledgers {
    if m.port in h then h[m.port := Account(h[m.port], m)]
    else if |h| >= MAX_SESSIONS then h
    else h[m.port := Reopen(0, m)]
  }

  /** On a session whose position is followed, the message stands nearer the one
      expected than its next aliases. */
  predicate RecordInReach(h: Ledgers, m: Message) {
    m.port in h && h[m.port].open && m.engine == h[m.port].engine ==>
      h[m.port].expected - TWO_32 + FORWARD_WINDOW <= m.position < h[m.port].expected + TWO_32 - REORDER_WINDOW
  }

  ghost function SkippedByPort(h: Ledgers): map<u16, int> {
    map port | port in h :: h[port].closed + h[port].skipped
  }

  ghost predicate Keeps(s: Session, l: Ledger) {
    s.lastSeq == Wrap32(l.expected) && s.lateRun == l.late && s.engine == l.engine && s.init == l.open && l.Balanced()
  }

  ghost predicate FollowsRecords(p: Positions, h: Ledgers) {
    && p.sessions.Keys == h.Keys
    && (forall port :: port in h ==> Keeps(p.sessions[port], h[port]))
    && (forall port :: port in h ==> p.sessions[port].lastSeen == h[port].at)
    && p.missed == Wrap64(Sum(SkippedByPort(h)))
  }

  lemma RecordReading(s: Session, l: Ledger, m: Message)
    requires Keeps(s, l)
    requires l.open && m.engine == l.engine ==>
               l.expected - TWO_32 + FORWARD_WINDOW <= m.position < l.expected + TWO_32 - REORDER_WINDOW
    ensures var move := RecordMove(s, Wrap32(m.position), m.records, m.engine, m.complete);
            var l' := Account(l, m);
            && Keeps(move.session, l') && l'.closed + l'.skipped == l.closed + l.skipped + move.skipped
            && move.session.lastSeen == s.lastSeen && l'.at == m.at
  {
    SubOfWraps(m.position, l.expected);
    AddOfWraps(m.position, m.records);
    assert Wrap32(m.records) == m.records;
    var d := m.position - l.expected;
    if l.open && m.engine == l.engine {
      assert Wrap32(d) == if d < 0 then d + TWO_32 else d;
    }
  }

  lemma RecordMoveFollows(p: Positions, h: Ledgers, port: u16, m: Move, l: Ledger)
    requires FollowsRecords(p, h) && Keeps(m.session, l) && m.session.lastSeen == l.at
    requires l.closed + l.skipped == (if port in h then h[port].closed + h[port].skipped else 0) + m.skipped
    ensures FollowsRecords(Moved(p, port, m), h[port := l])
  {
    var p', h' := Moved(p, port, m), h[port := l];
    assert p'.sessions.Keys == p.sessions.Keys + {port} == h'.Keys;
    var total := Sum(SkippedByPort(h));
    SkippedMoves(h, port, l, m.skipped);
    AddOfWraps64(total, m.skipped);
  }

  lemma SkippedMoves(h: Ledgers, port: u16, l: Ledger, skipped: int)
    requires l.closed + l.skipped == (if port in h then h[port].closed + h[port].skipped else 0) + skipped
    ensures Sum(SkippedByPort(h[port := l])) == Sum(SkippedByPort(h)) + skipped
  {
    SumUpdate(SkippedByPort(h), port, l.closed + l.skipped);
    assert SkippedByPort(h[port := l]) == SkippedByPort(h)[port := l.closed + l.skipped];
  }

  lemma FirstRecords(s: Session, m: Message)
    requires !s.init
    ensures var move := RecordMove(s, Wrap32(m.position), m.records, m.engine, m.complete);
            Keeps(move.session, Reopen(0, m)) && move.skipped == 0
  {
    AddOfWraps(m.position, m.records);
    assert Wrap32(m.records) == m.records;
  }

  lemma RecordStepFollows(p: Positions, h: Ledgers, m: Message)
    requires FollowsRecords(p, h) && RecordInReach(h, m)
    ensures FollowsRecords(TrackRecords(p, m.port, m.at, Wrap32(m.position), m.records, m.engine, m.complete),
                           AccountAll(h, m))
  {
    assert |p.sessions| == |p.sessions.Keys| && |h| == |h.Keys|;
    match OpenSession(p, m.port, m.at)
    case None =>
    case Some(s) =>
      var move := RecordMove(s, Wrap32(m.position), m.records, m.engine, m.complete);
      if m.port in h {
        RecordReading(s, h[m.port], m);
        RecordMoveFollows(p, h, m.port, move, Account(h[m.port], m));
      } else {
        FirstRecords(s, m);
        RecordMoveFollows(p, h, m.port, move, Reopen(0, m));
      }
  }

  ghost function RecordRun(messages: seq<Message>): (Positions, Ledgers) {
    if messages == [] then (Positions(map[], 0), map[])
    else
      var (p, h) := RecordRun(messages[..|messages| - 1]);
      var m := messages[|messages| - 1];
      (TrackRecords(p, m.port, m.at, Wrap32(m.position), m.records, m.engine, m.complete), AccountAll(h, m))
  }

  ghost predicate RecordsInReach(messages: seq<Message>) {
    forall i :: 0 <= i < |messages| ==> RecordInReach(RecordRun(messages[..i]).1, messages[i])
  }

  /** Conservation over a run of any length and any number of wraps: on every
      session the expected position less where its segment began is what was
      taken plus what was skipped, and the domain's counter is everything the
      sessions skipped, earlier segments included. */
  lemma {:induction false} RecordRunConserves(messages: seq<Message>)
    requires RecordsInReach(messages)
    ensures FollowsRecords(RecordRun(messages).0, RecordRun(messages).1)
    decreases |messages|
  {
    if messages == [] {
      assert SkippedByPort(map[]) == map[];
    } else {
      var before := messages[..|messages| - 1];
      forall i | 0 <= i < |before|
        ensures RecordInReach(RecordRun(before[..i]).1, before[i])
      {
        assert before[..i] == messages[..i];
      }
      RecordRunConserves(before);
      var (p, h) := RecordRun(before);
      RecordStepFollows(p, h, messages[|messages| - 1]);
    }
  }

  /** Up to four messages late in a row are held whole; the next one is a
      restart, which moves the position back and counts nothing. */
  lemma FifthLateRebases(s: Session, l: Ledger, m: Message)
    requires Keeps(s, l) && s.init && m.engine == s.engine
    requires l.expected - REORDER_WINDOW <= m.position < l.expected
    ensures var move := RecordMove(s, Wrap32(m.position), m.records, m.engine, m.complete);
            && move.skipped == 0
            && (if s.lateRun < MAX_LATE_RUN
                then move.session == s.(lateRun := s.lateRun + 1)
                else move.session == s.(lateRun := 0, init := m.complete, lastSeq := Wrap32(m.position + m.records)))
  {
    RecordReading(s, l, m);
  }

  /** What a sweep of the sessions goes by. After any run in either numbering it
      leaves exactly the ports on which a message was tracked since the cutoff. */
  lemma SweepFreesTheSilent(arrivals: seq<Packet>, messages: seq<Message>, cutoff: int)
    requires PacketsInReach(arrivals) && RecordsInReach(messages)
    ensures var (p, h) := PacketRun(arrivals);
            SessionsSince(p.sessions, cutoff).Keys == set port | port in h && h[port].at >= cutoff
    ensures var (p, h) := RecordRun(messages);
            SessionsSince(p.sessions, cutoff).Keys == set port | port in h && h[port].at >= cutoff
  {
    PacketRunFollows(arrivals);
    RecordRunConserves(messages);
  }

  /** A message goes untracked exactly where its port is new beside sixteen. */
  lemma RefusedExactly(p: Positions, port: u16, at: int)
    ensures OpenSession(p, port, at).None? <==> port !in p.sessions && |p.sessions| + 1 > 16
    ensures OpenSession(p, port, at).Some? ==>
              && OpenSession(p, port, at).value.lastSeen == at
              && (port in p.sessions ==>
                   OpenSession(p, port, at).value.(lastSeen := p.sessions[port].lastSeen) == p.sessions[port])
  {
  }
}
