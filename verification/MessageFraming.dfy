/** Messages as a device writes them, set by set behind a header, and that the
    walks find in them the very sets written. */
module MessageFraming {
  import opened Uint
  import opened Wire
  import opened Templates
  import opened Net
  import opened IpfixMessages
  import opened StoreModel
  import opened IpfixDecoder
  import opened NetflowV9Decoder

  /** A set has a length its header can state. */
  predicate AllFit(sets: seq<WireSet>) {
    forall i :: 0 <= i < |sets| ==> |sets[i].body| + SET_HEADER < TWO_16
  }

  function PutSet(s: WireSet): (bytes: Bytes)
    requires |s.body| + SET_HEADER < TWO_16
    ensures |bytes| == |s.body| + SET_HEADER
  {
    Put16(s.id) + Put16(|s.body| + SET_HEADER) + s.body
  }

  function PutSets(sets: seq<WireSet>): Bytes
    requires AllFit(sets)
  {
    if sets == [] then [] else PutSet(sets[0]) + PutSets(sets[1..])
  }

  lemma SetReadsBack(data: Bytes, offset: nat, s: WireSet)
    requires |s.body| + SET_HEADER < TWO_16 && At(data, offset, PutSet(s))
    ensures offset + |PutSet(s)| <= |data| && Frames(data, offset)
    ensures Be16(data, offset + 2) == |PutSet(s)| && SetAt(data, offset) == s
  {
    hide At, Be16;
    AtLength(data, offset, PutSet(s));
    var head := Put16(s.id) + Put16(|s.body| + SET_HEADER);
    AtSplit(data, offset, head, s.body);
    AtSplit(data, offset, Put16(s.id), Put16(|s.body| + SET_HEADER));
    ReadAt16(data, offset, s.id);
    ReadAt16(data, offset + 2, |s.body| + SET_HEADER);
    SliceIs(data, offset + SET_HEADER, s.body);
  }

  lemma SliceIs(data: Bytes, offset: nat, piece: Bytes)
    requires At(data, offset, piece)
    ensures offset + |piece| <= |data| && data[offset..offset + |piece|] == piece
  {
  }

  /** The walk over sets as written comes past them with exactly those sets. */
  lemma {:induction false} SetsReadBack(data: Bytes, offset: nat, sets: seq<WireSet>, read: seq<WireSet>)
    requires AllFit(sets) && At(data, offset, PutSets(sets))
    ensures SetsFrom(data, offset, read) == SetsFrom(data, offset + |PutSets(sets)|, read + sets)
    decreases |sets|
  {
    hide At, PutSet, SetAt, Frames;
    if sets == [] {
      assert read + sets == read;
    } else {
      AtSplit(data, offset, PutSet(sets[0]), PutSets(sets[1..]));
      SetReadsBack(data, offset, sets[0]);
      SetsReadBack(data, offset + |PutSet(sets[0])|, sets[1..], read + [sets[0]]);
      assert read + [sets[0]] + sets[1..] == read + sets;
    }
  }

  /** A length that states less than a header or more than there is. */
  predicate BreaksOff(rest: Bytes) {
    |rest| >= SET_HEADER && (Be16(rest, 2) < SET_HEADER || Be16(rest, 2) > |rest|)
  }

  /** Behind a header of any length: the sets written and nothing else, whole
      with less than a set header after them, and not whole before a break. */
  lemma FramingReadsBack(header: Bytes, sets: seq<WireSet>, rest: Bytes)
    requires AllFit(sets) && (|rest| < SET_HEADER || BreaksOff(rest))
    ensures SetsFrom(header + PutSets(sets) + rest, |header|, []) == Framed(sets, |rest| < SET_HEADER)
  {
    hide PutSets, Be16, At, SetsFrom;
    var body, data := PutSets(sets), header + PutSets(sets) + rest;
    Middle(header, body, rest);
    SetsReadBack(data, |header|, sets, []);
    assert [] + sets == sets;
    WalkEnds(data, |header| + |body|, rest, sets);
  }

  lemma Middle(a: Bytes, b: Bytes, c: Bytes)
    ensures At(a + b + c, |a|, b) && (a + b + c)[|a| + |b|..] == c
  {
  }

  lemma WalkEnds(data: Bytes, offset: nat, rest: Bytes, read: seq<WireSet>)
    requires offset <= |data| && data[offset..] == rest && (|rest| < SET_HEADER || BreaksOff(rest))
    ensures SetsFrom(data, offset, read) == Framed(read, |rest| < SET_HEADER)
  {
    if |rest| >= SET_HEADER {
      assert rest[2] == data[offset + 2] && rest[3] == data[offset + 3];
    }
  }

  // ---- IPFIX -----------------------------------------------------------------------

  /** Section 3.1 of RFC 7011. */
  datatype Header = Header(exportTime: u32, sequence: u32, domain: u32)

  predicate Sendable(sets: seq<WireSet>) {
    AllFit(sets) && HEADER + |PutSets(sets)| < TWO_16
  }

  function PutHeader(h: Header, length: u16): (bytes: Bytes)
    ensures |bytes| == HEADER
  {
    Put16(10) + Put16(length) + Put32(h.exportTime) + Put32(h.sequence) + Put32(h.domain)
  }

  function PutMessage(h: Header, sets: seq<WireSet>): Bytes
    requires Sendable(sets)
  {
    PutHeader(h, HEADER + |PutSets(sets)|) + PutSets(sets)
  }

  lemma HeaderReadsBack(payload: Bytes, h: Header, length: u16)
    requires At(payload, 0, PutHeader(h, length))
    ensures |payload| >= HEADER && Be16(payload, 2) == length
    ensures Be32(payload, 8) == h.sequence && Be32(payload, 12) == h.domain
  {
    hide At, Be16, Be32;
    AtLength(payload, 0, PutHeader(h, length));
    var first := Put16(10) + Put16(length);
    var second := first + Put32(h.exportTime);
    AtSplit(payload, 0, second + Put32(h.sequence), Put32(h.domain));
    AtSplit(payload, 0, second, Put32(h.sequence));
    AtSplit(payload, 0, first, Put32(h.exportTime));
    AtSplit(payload, 0, Put16(10), Put16(length));
    ReadAt16(payload, 2, length);
    ReadAt32(payload, 8, h.sequence);
    ReadAt32(payload, 12, h.domain);
  }

  lemma Front(a: Bytes, b: Bytes)
    ensures At(a + b, 0, a)
  {
  }

  /** A message is read as it was written whatever follows it in its datagram:
      its own extent, its domain, its sequence number and its sets. */
  lemma MessageReadsBack(exporter: Addr, h: Header, sets: seq<WireSet>, trailing: Bytes)
    requires Sendable(sets)
    ensures var payload := PutMessage(h, sets) + trailing;
            && HeaderFits(payload) && MessageOf(payload) == PutMessage(h, sets)
            && KeyOf(exporter, payload) == DomainKey(exporter, h.domain, Ipfix)
            && Be32(payload, 8) == h.sequence
            && Sets(MessageOf(payload)) == Framed(sets, true)
  {
    hide At, Be16, Be32, PutSets, PutHeader, SetsFrom;
    var length := HEADER + |PutSets(sets)|;
    var head, message := PutHeader(h, length), PutMessage(h, sets);
    var payload := message + trailing;
    assert payload == head + (PutSets(sets) + trailing);
    Front(head, PutSets(sets) + trailing);
    HeaderReadsBack(payload, h, length);
    assert payload[..length] == message;
    FramingReadsBack(head, sets, []);
    assert head + PutSets(sets) + [] == message;
  }

  /** Cut short anywhere, it is refused by its header. */
  lemma CutMessageIsRefused(h: Header, sets: seq<WireSet>, n: nat)
    requires Sendable(sets) && n <= |PutMessage(h, sets)|
    ensures HeaderFits(PutMessage(h, sets)[..n]) <==> n == |PutMessage(h, sets)|
  {
    hide At, Be16, Be32, PutSets, PutHeader;
    var message, head := PutMessage(h, sets), PutHeader(h, HEADER + |PutSets(sets)|);
    if n >= HEADER {
      assert message[..n] == head + message[HEADER..n];
      Front(head, message[HEADER..n]);
      HeaderReadsBack(message[..n], h, HEADER + |PutSets(sets)|);
    }
  }

  // ---- NetFlow v9 -------------------------------------------------------------------

  /** Section 5.1 of RFC 3954. */
  datatype V9Header = V9Header(count: u16, uptime: u32, seconds: u32, sequence: u32, source: u32)

  function PutV9Header(h: V9Header): (bytes: Bytes)
    ensures |bytes| == V9_HEADER
  {
    Put16(9) + Put16(h.count) + Put32(h.uptime) + Put32(h.seconds) + Put32(h.sequence) + Put32(h.source)
  }

  function PutDatagram(h: V9Header, sets: seq<WireSet>): Bytes
    requires AllFit(sets)
  {
    PutV9Header(h) + PutSets(sets)
  }

  /** A v9 datagram is read as it was written: its source, its sequence number
      and the flowsets ahead of a break, or all with less than a header after
      them. */
  lemma DatagramReadsBack(h: V9Header, sets: seq<WireSet>, rest: Bytes)
    requires AllFit(sets) && (|rest| < SET_HEADER || BreaksOff(rest))
    ensures var payload := PutDatagram(h, sets) + rest;
            && |payload| >= V9_HEADER
            && Be32(payload, 12) == h.sequence && Be32(payload, 16) == h.source
            && SetsFrom(payload, V9_HEADER, []) == Framed(sets, |rest| < SET_HEADER)
  {
    hide At, Be16, Be32, PutSets, SetsFrom;
    var head := PutV9Header(h);
    var payload := PutDatagram(h, sets) + rest;
    assert payload == head + (PutSets(sets) + rest);
    Front(head, PutSets(sets) + rest);
    FramingReadsBack(head, sets, rest);
    var start := Put16(9) + Put16(h.count) + Put32(h.uptime) + Put32(h.seconds);
    AtSplit(payload, 0, start + Put32(h.sequence), Put32(h.source));
    AtSplit(payload, 0, start, Put32(h.sequence));
    ReadAt32(payload, 12, h.sequence);
    ReadAt32(payload, 16, h.source);
  }
}
