/** Anchoring the uptime-relative flow clocks: 32-bit millisecond readings of a
    device's uptime turned into instants, held here in nanoseconds. */
module Clocks {
  import opened Uint
  import opened Templates

  const MILLISECOND: int := 1_000_000
  const SKEW_TOLERANCE: int := 3_600_000
  const MAX_DURATION: int := 0x7FFF_FFFF_FFFF_FFFF

  /** The time a header gives: the instant of export and, in the protocols that
      carry it, the uptime reading at that instant. */
  datatype ExportClock = ExportClock(at: int, uptimeMs: Option<u32>)

  /** A difference of instants, held to the range a duration has. */
  function Elapsed(from: int, to: int): int {
    if to - from > MAX_DURATION then MAX_DURATION
    else if to - from < -MAX_DURATION - 1 then -MAX_DURATION - 1
    else to - from
  }

  /** Whole milliseconds, truncated toward zero. */
  function Milliseconds(d: int): int {
    if d >= 0 then d / MILLISECOND else -(-d / MILLISECOND)
  }

  /** withBootTime. */
  function WithBootTime(c: ExportClock, boot: Option<int>): ExportClock {
    if c.uptimeMs.Some? || boot.None? then c
    else c.(uptimeMs := Some(Wrap32(Milliseconds(Elapsed(boot.value, c.at)))))
  }

  /** The age one modular difference is read as. */
  function AgeRead(difference: u32): int {
    if difference > TWO_32 - SKEW_TOLERANCE then difference - TWO_32 else difference
  }

  /** anchor. */
  function Anchor(c: ExportClock, valueMs: u32): int
    requires c.uptimeMs.Some?
  {
    c.at - AgeRead(Sub32(c.uptimeMs.value, valueMs)) * MILLISECOND
  }

  /** What a record's clocks came to. */
  datatype FlowTimes = Incomplete | Inverted | Times(start: int, end: int)

  /** withholdInverted. */
  function WithholdInverted(start: int, end: int): FlowTimes {
    if end < start then Inverted else Times(start, end)
  }

  /** anchorPair. */
  function AnchorPair(c: ExportClock, firstMs: u32, lastMs: u32): FlowTimes
    requires c.uptimeMs.Some?
  {
    WithholdInverted(Anchor(c, firstMs), Anchor(c, lastMs))
  }

  /** The clock elements one record carried. */
  datatype ClockFields = ClockFields(
    firstUptimeMs: Option<u32>, lastUptimeMs: Option<u32>, bootAt: Option<int>,
    startAbs: Option<int>, endAbs: Option<int>)

  /** flowClockPair, with the inversion rule its one caller applies. */
  function FlowClock(f: ClockFields, c: ExportClock): FlowTimes {
    if f.startAbs.Some? && f.endAbs.Some? then WithholdInverted(f.startAbs.value, f.endAbs.value)
    else if f.firstUptimeMs.None? || f.lastUptimeMs.None? then Incomplete
    else
      var clock := WithBootTime(c, f.bootAt);
      if clock.uptimeMs.None? then Incomplete
      else AnchorPair(clock, f.firstUptimeMs.value, f.lastUptimeMs.value)
  }

  /** What a domain counts of its clock pairs. */
  class ClockCounters {
    var clocksAnchored: bool
    var clockInversions: u64

    constructor ()
      ensures !clocksAnchored && clockInversions == 0
    {
      clocksAnchored, clockInversions := false, 0;
    }

    /** countClockPair. */
    method CountClockPair(inverted: bool)
      modifies this
      ensures clocksAnchored
      ensures clockInversions == if inverted then Add64(old(clockInversions), 1) else old(clockInversions)
    {
      if !clocksAnchored {
        clocksAnchored := true;
      }
      if inverted {
        clockInversions := Add64(clockInversions, 1);
      }
    }
  }

  /** resolveFlowClock. A record whose domain was refused keeps its times and
      loses the accounting. */
  method ResolveFlowClock(f: ClockFields, c: ExportClock, domain: ClockCounters?) returns (times: FlowTimes)
    modifies domain
    ensures times == FlowClock(f, c)
    ensures domain != null ==>
              && domain.clocksAnchored == (old(domain.clocksAnchored) || times != Incomplete)
              && domain.clockInversions ==
                 if times == Inverted then Add64(old(domain.clockInversions), 1) else old(domain.clockInversions)
  {
    times := FlowClock(f, c);
    if times != Incomplete && domain != null {
      domain.CountClockPair(times == Inverted);
    }
  }

  // ---- Readings against the device's true uptime -----------------------------

  /** The ages the modular difference tells apart: newer than the tolerance
      after the export, and no older than what a period leaves of it. */
  predicate InWindow(age: int) {
    -SKEW_TOLERANCE < age <= TWO_32 - SKEW_TOLERANCE
  }

  /** Every age is read as the one age of the window a whole number of periods
      from it. */
  lemma AgeReadIsTheWindowed(age: int)
    ensures var read := AgeRead(Wrap32(age));
            InWindow(read) && (age - read) % TWO_32 == 0 && (InWindow(age) <==> read == age)
  {
    var q := age / TWO_32;
    assert age == q * TWO_32 + Wrap32(age);
    var read := AgeRead(Wrap32(age));
    WholePeriods(if read < 0 then q + 1 else q);
  }

  lemma WholePeriods(k: int)
    ensures (k * TWO_32) % TWO_32 == 0
  {
  }

  /** The instant anchored is the true one exactly when its age lies in the
      window, whatever the counter had wrapped through by either reading. */
  lemma AnchorExactInWindow(at: int, uptime: int, instant: int)
    ensures var c := ExportClock(at, Some(Wrap32(uptime)));
            Anchor(c, Wrap32(instant)) == at - (uptime - instant) * MILLISECOND <==> InWindow(uptime - instant)
  {
    SubOfWraps(uptime, instant);
    AgeReadIsTheWindowed(uptime - instant);
  }

  /** n whole milliseconds of a span, the part of one beyond them dropped whichever
      way the span runs. */
  predicate InWholeMilliseconds(span: int, n: int) {
    if span >= 0 then n * MILLISECOND <= span < (n + 1) * MILLISECOND
    else (n - 1) * MILLISECOND < span <= n * MILLISECOND
  }

  /** An uptime derived from the boot instant reads as the counter itself would
      after any number of wraps. */
  lemma DerivedUptime(at: int, boot: int, uptime: int)
    requires InWholeMilliseconds(at - boot, uptime) && -MAX_DURATION - 1 <= at - boot <= MAX_DURATION
    ensures WithBootTime(ExportClock(at, None), Some(boot)) == ExportClock(at, Some(Wrap32(uptime)))
  {
    var d := at - boot;
    OneQuotient(if d >= 0 then d else -d, if d >= 0 then uptime else -uptime);
  }

  lemma OneQuotient(d: nat, n: int)
    requires n * MILLISECOND <= d < (n + 1) * MILLISECOND
    ensures d / MILLISECOND == n
  {
  }

  /** A boot instant further off than a duration reaches gives the longest uptime
      there is, either way. */
  lemma FarBootSaturates(at: int, boot: int)
    ensures at - boot > MAX_DURATION ==>
              WithBootTime(ExportClock(at, None), Some(boot)) == ExportClock(at, Some(Wrap32(9_223_372_036_854)))
    ensures at - boot < -MAX_DURATION - 1 ==>
              WithBootTime(ExportClock(at, None), Some(boot)) == ExportClock(at, Some(Wrap32(-9_223_372_036_854)))
  {
  }

  /** Where the header states no uptime, an instant lands where the device's own
      clock puts it, exactly on the same window. */
  lemma AnchorOnBootInstant(at: int, boot: int, uptime: int, instant: int)
    requires at - boot == uptime * MILLISECOND && -MAX_DURATION - 1 <= at - boot <= MAX_DURATION
    ensures var c := WithBootTime(ExportClock(at, None), Some(boot));
            && c.uptimeMs.Some?
            && (Anchor(c, Wrap32(instant)) == boot + instant * MILLISECOND <==> InWindow(uptime - instant))
  {
    DerivedUptime(at, boot, uptime);
    AnchorExactInWindow(at, uptime, instant);
  }

  /** Which period past the window an age falls in; the window's own is 0. */
  function Period(age: int): int {
    (age + SKEW_TOLERANCE - 1) / TWO_32
  }

  lemma AgeReadByPeriod(age: int)
    ensures AgeRead(Wrap32(age)) == age - Period(age) * TWO_32
    ensures Period(age) == 0 <==> InWindow(age)
  {
    var k := Period(age);
    assert 0 <= age + SKEW_TOLERANCE - 1 - k * TWO_32 < TWO_32;
    var windowed := age - k * TWO_32;
    SameReading(age, k);
    AgeReadIsTheWindowed(windowed);
  }

  lemma SameReading(age: int, k: int)
    ensures Wrap32(age - k * TWO_32) == Wrap32(age)
  {
    var q := age / TWO_32;
    assert age - k * TWO_32 == (q - k) * TWO_32 + Wrap32(age);
  }

  /** A pair keeps its true duration exactly when both ages fall in the same
      period. One that straddles the tolerance does not, which the constant's
      own comment says any pair would. */
  lemma PairKeepsItsDuration(at: int, uptime: int, first: int, last: int)
    ensures var c := ExportClock(at, Some(Wrap32(uptime)));
            Anchor(c, Wrap32(last)) - Anchor(c, Wrap32(first)) == (last - first) * MILLISECOND <==>
            Period(uptime - first) == Period(uptime - last)
  {
    SubOfWraps(uptime, first);
    SubOfWraps(uptime, last);
    AgeReadByPeriod(uptime - first);
    AgeReadByPeriod(uptime - last);
  }

  /** A flow one millisecond long, the older end just past the window. */
  lemma StraddlingPairIsWithheld(at: int)
    ensures var uptime := TWO_32;
            var first, last := SKEW_TOLERANCE - 1, SKEW_TOLERANCE;
            AnchorPair(ExportClock(at, Some(Wrap32(uptime))), Wrap32(first), Wrap32(last)) == Inverted
  {
  }

  /** Within one period a pair is withheld exactly when the flow truly ended
      before it began; inside the window what is not withheld is the truth. */
  lemma PairWithheldExactly(at: int, uptime: int, first: int, last: int)
    requires Period(uptime - first) == Period(uptime - last)
    ensures var times := AnchorPair(ExportClock(at, Some(Wrap32(uptime))), Wrap32(first), Wrap32(last));
            && (times == Inverted <==> last < first)
            && (InWindow(uptime - first) && first <= last ==>
                 times == Times(at - (uptime - first) * MILLISECOND, at - (uptime - last) * MILLISECOND))
  {
    PairKeepsItsDuration(at, uptime, first, last);
    AgeReadByPeriod(uptime - first);
    AgeReadByPeriod(uptime - last);
    AnchorExactInWindow(at, uptime, first);
    AnchorExactInWindow(at, uptime, last);
  }

  /** The whole path of one record that carries the uptime pair and the boot
      instant: the device's own times, or nothing of a flow that ran backwards. */
  lemma FlowClockIsTheDevices(f: ClockFields, at: int, uptime: int, first: int, last: int)
    requires f.startAbs.None? || f.endAbs.None?
    requires f.firstUptimeMs == Some(Wrap32(first)) && f.lastUptimeMs == Some(Wrap32(last)) && f.bootAt.Some?
    requires at - f.bootAt.value == uptime * MILLISECOND && -MAX_DURATION - 1 <= uptime * MILLISECOND <= MAX_DURATION
    requires InWindow(uptime - first) && InWindow(uptime - last)
    ensures FlowClock(f, ExportClock(at, None)) ==
            if last < first then Inverted
            else Times(f.bootAt.value + first * MILLISECOND, f.bootAt.value + last * MILLISECOND)
  {
    DerivedUptime(at, f.bootAt.value, uptime);
    AnchorOnBootInstant(at, f.bootAt.value, uptime, first);
    AnchorOnBootInstant(at, f.bootAt.value, uptime, last);
  }

  /** Where a record gives both absolute instants they are its times, and neither
      the header's clock nor its uptimes has a say. */
  lemma AbsolutePairAsWritten(f: ClockFields, c: ExportClock, start: int, end: int)
    requires f.startAbs == Some(start) && f.endAbs == Some(end)
    ensures FlowClock(f, c) == if end < start then Inverted else Times(start, end)
  {
  }

  /** Short of a complete absolute pair neither absolute instant has a say, and
      a header that states its uptime takes none from the record. */
  lemma LoneElementsDisplaceNothing(f: ClockFields, c: ExportClock)
    requires f.startAbs.None? || f.endAbs.None?
    ensures FlowClock(f, c) == FlowClock(f.(startAbs := None, endAbs := None), c)
    ensures c.uptimeMs.Some? ==> FlowClock(f, c) == FlowClock(f.(bootAt := None), c)
    ensures FlowClock(f, c) == Incomplete <==>
            || f.firstUptimeMs.None? || f.lastUptimeMs.None?
            || (c.uptimeMs.None? && f.bootAt.None?)
  {
  }
}
