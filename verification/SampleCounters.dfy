/** The flow samplers of one sFlow domain: 32-bit readings folded into totals,
    and the unbounded counts those totals stand for. */
module SampleCounters {
  import opened Uint
  import opened MapSums
  import opened Sequences
  import opened Templates

  const MAX_SAMPLERS: nat := 4096

  /** What one flow sample says about its sampler. */
  datatype Sample = Sample(id: u64, number: u32, rate: u32, pool: u32, drops: u32)

  /** One sampler's last reading. */
  datatype Reading = Reading(number: u32, rate: u32, pool: u32, drops: u32, lastSeen: int)

  /** A domain's samplers and what they have added up to. */
  datatype Counters = Counters(
    readings: map<u64, Reading>, lateRun: nat,
    pool: u64, drops: u64, poolMeasured: bool, dropsMeasured: bool)

  const NO_SAMPLES: Counters := Counters(map[], 0, 0, 0, false, false)

  function Read(x: Sample, at: int): Reading {
    Reading(x.number, x.rate, x.pool, x.drops, at)
  }

  predicate ReadsLate(last: Reading, lateRun: nat, x: Sample) {
    Sub32(x.number, last.number) > TWO_32 - 1 - REORDER_WINDOW && x.pool <= last.pool && lateRun < MAX_LATE_RUN
  }

  /** Too far ahead to be the next sample, or taken at another rate. */
  predicate ReadsRebased(last: Reading, x: Sample) {
    Sub32(x.number, last.number) >= FORWARD_WINDOW || x.rate != last.rate
  }

  /** One sample of a sampler already held. */
  function Advance(c: Counters, x: Sample, at: int): Counters
    requires x.id in c.readings
  {
    var last := c.readings[x.id];
    var moved := c.(readings := c.readings[x.id := Read(x, at)], lateRun := 0);
    if ReadsLate(last, c.lateRun, x) then c.(lateRun := c.lateRun + 1)
    else if ReadsRebased(last, x) then moved
    else
      var pool, drops := Sub32(x.pool, last.pool), Sub32(x.drops, last.drops);
      moved.(pool := if pool < FORWARD_WINDOW then Add64(c.pool, pool) else c.pool,
             drops := if drops < FORWARD_WINDOW then Add64(c.drops, drops) else c.drops,
             poolMeasured := c.poolMeasured || pool < FORWARD_WINDOW,
             dropsMeasured := c.dropsMeasured || drops < FORWARD_WINDOW)
  }

  /** The readings a sweep at one instant leaves. */
  ghost function ReadSince(readings: map<u64, Reading>, cutoff: int): map<u64, Reading> {
    map id | id in readings && readings[id].lastSeen >= cutoff :: readings[id]
  }

  /** The readings a new sampler finds, idle ones swept whenever the map is
      full, with no bound consulted on whether a sweep is worth it. */
  ghost function Room(readings: map<u64, Reading>, at: int, ttl: int): map<u64, Reading> {
    if |readings| >= MAX_SAMPLERS then ReadSince(readings, at - ttl) else readings
  }

  ghost predicate Refuses(c: Counters, x: Sample, at: int, ttl: int) {
    x.id !in c.readings && |Room(c.readings, at, ttl)| >= MAX_SAMPLERS
  }

  ghost function Track(c: Counters, x: Sample, at: int, ttl: int): Counters {
    if x.id in c.readings then Advance(c, x, at)
    else
      var room := Room(c.readings, at, ttl);
      c.(readings := if |room| >= MAX_SAMPLERS then room else room[x.id := Read(x, at)])
  }

  /** The identity of one sampler's state, which the map and the cache share. */
  type Cell = nat

  ghost function Readings(samplers: map<u64, Cell>, states: map<Cell, Reading>): map<u64, Reading>
    requires samplers.Values <= states.Keys
  {
    map id | id in samplers :: states[samplers[id]]
  }

  /** Each entry has a state of its own, the cache is the map's entry for the id
      it names, and oldest bounds every stamp from below. */
  ghost predicate Sound(samplers: map<u64, Cell>, states: map<Cell, Reading>, nextCell: Cell,
                        recentID: u64, recentOne: Option<Cell>, oldest: int, lastSeen: int)
  {
    && samplers.Values <= states.Keys
    && (forall cell :: cell in states ==> cell < nextCell)
    && (forall i, j :: i in samplers && j in samplers && samplers[i] == samplers[j] ==> i == j)
    && (recentOne.Some? ==> recentID in samplers && samplers[recentID] == recentOne.value)
    && |samplers| <= MAX_SAMPLERS
    && oldest <= lastSeen
    && StampedWithin(Readings(samplers, states), oldest, lastSeen)
  }

  ghost predicate StampedWithin(readings: map<u64, Reading>, oldest: int, lastSeen: int) {
    forall id :: id in readings ==> oldest <= readings[id].lastSeen <= lastSeen
  }

  /** The sweep's loop, which drops the idle and finds the oldest of the rest. */
  method DropIdle(samplers: map<u64, Cell>, states: map<Cell, Reading>, cutoff: int, now: int)
    returns (kept: map<u64, Cell>, oldest: int)
    requires samplers.Values <= states.Keys
    ensures kept == map id | id in samplers && Readings(samplers, states)[id].lastSeen >= cutoff :: samplers[id]
    ensures oldest <= now
    ensures forall id :: id in kept ==> oldest <= Readings(samplers, states)[id].lastSeen
  {
    ghost var readings := Readings(samplers, states);
    kept, oldest := samplers, now;
    var todo := samplers.Keys;
    while todo != {}
      invariant todo <= samplers.Keys
      invariant kept == map id | id in samplers && (id in todo || readings[id].lastSeen >= cutoff) :: samplers[id]
      invariant oldest <= now
      invariant forall id :: id in kept && id !in todo ==> oldest <= readings[id].lastSeen
      decreases |todo|
    {
      var id :| id in todo;
      todo := todo - {id};
      var last := states[samplers[id]];
      assert last == readings[id];
      if last.lastSeen < cutoff {
        kept := kept - {id};
      } else if last.lastSeen < oldest {
        oldest := last.lastSeen;
      }
    }
  }

  lemma RoomCases(readings: map<u64, Reading>, at: int, ttl: int)
    ensures Room(readings, at, ttl) ==
            if |readings| >= MAX_SAMPLERS then ReadSince(readings, at - ttl) else readings
  {
  }

  lemma TrackNew(c: Counters, x: Sample, at: int, ttl: int)
    requires x.id !in c.readings
    ensures var room := Room(c.readings, at, ttl);
            && (Refuses(c, x, at, ttl) <==> |room| >= MAX_SAMPLERS)
            && Track(c, x, at, ttl) ==
               c.(readings := if |room| >= MAX_SAMPLERS then room else room[x.id := Read(x, at)])
  {
  }

  /** A sampler is refused exactly where it is new beside 4096, not one of them
      idle past the TTL. */
  lemma RefusedExactly(c: Counters, x: Sample, at: int, ttl: int)
    requires |c.readings| <= 4096
    ensures Refuses(c, x, at, ttl) <==>
            && x.id !in c.readings && |c.readings| == 4096
            && forall id :: id in c.readings ==> at - c.readings[id].lastSeen <= ttl
  {
    var left := ReadSince(c.readings, at - ttl);
    SubmapFits(left, c.readings);
    forall id | id in c.readings && at - c.readings[id].lastSeen > ttl
      ensures |left| < |c.readings|
    {
      SubmapIsSmaller(left, c.readings, id);
    }
    assert (forall id :: id in c.readings ==> at - c.readings[id].lastSeen <= ttl) ==> left == c.readings;
  }

  lemma SubmapIsSmaller<K, V>(kept: map<K, V>, m: map<K, V>, k: K)
    requires kept.Keys <= m.Keys && k in m && k !in kept
    ensures |kept| < |m|
  {
    SubmapFits(kept, m - {k});
    assert m.Keys == (m - {k}).Keys + {k};
    assert |m| == |m.Keys| && |m - {k}| == |(m - {k}).Keys|;
  }

  /** While the bound is inside the TTL a sweep would free nothing. */
  lemma NothingIdle(readings: map<u64, Reading>, oldest: int, lastSeen: int, cutoff: int)
    requires StampedWithin(readings, oldest, lastSeen) && cutoff <= oldest
    ensures ReadSince(readings, cutoff) == readings
  {
  }

  /** The part of a domain its sampler lock guards. */
  class DomainSamplers {
    var samplers: map<u64, Cell>
    var states: map<Cell, Reading>
    var nextCell: Cell
    /** Which entry was used last, and its identifier. */
    var recentID: u64
    var recentOne: Option<Cell>
    var lateRun: nat
    /** Lower-bounds the stamps the samplers hold. */
    var samplersOldest: int
    var lastSeen: int
    var samplePool: u64
    var samplesDropped: u64
    var poolMeasured: bool
    var dropsMeasured: bool

    ghost predicate Valid()
      reads this
    {
      Sound(samplers, states, nextCell, recentID, recentOne, samplersOldest, lastSeen)
    }

    ghost function View(): Counters
      requires Valid()
      reads this
    {
      Counters(Readings(samplers, states), lateRun, samplePool, samplesDropped, poolMeasured, dropsMeasured)
    }

    constructor (now: int)
      requires now >= 0
      ensures Valid() && View() == NO_SAMPLES && lastSeen == now
    {
      samplers, states, nextCell, recentID, recentOne, lateRun := map[], map[], 0, 0, None, 0;
      samplersOldest, lastSeen := 0, now;
      samplePool, samplesDropped, poolMeasured, dropsMeasured := 0, 0, false, false;
    }

    /** The stamp every datagram of the domain leaves. */
    method Touch(now: int)
      requires Valid() && lastSeen <= now
      modifies this`lastSeen
      ensures Valid() && View() == old(View()) && lastSeen == now
    {
      lastSeen := now;
    }

    /** pruneIdleSamplersLocked. */
    method PruneIdleSamplersLocked(now: int, ttl: int)
      requires Valid() && now == lastSeen && ttl >= 0
      modifies this`samplers, this`samplersOldest, this`recentOne
      ensures Valid() && recentOne == None && samplers.Keys <= old(samplers.Keys)
      ensures View() == old(View()).(readings := ReadSince(old(View()).readings, now - ttl))
    {
      hide Sound, Readings, ReadSince;
      SoundParts(samplers, states, nextCell, recentID, recentOne, samplersOldest, lastSeen);
      ghost var c := View();
      var cutoff := now - ttl;
      var kept, oldest := DropIdle(samplers, states, cutoff, now);
      Swept(samplers, kept, states, nextCell, recentID, recentOne, samplersOldest, lastSeen, cutoff, oldest);
      samplers, samplersOldest, recentOne := kept, oldest, None;
      assert View() == c.(readings := ReadSince(c.readings, cutoff));
    }

    /** The path of a sampler not yet held. */
    method AdmitLocked(x: Sample, at: int, ttl: int) returns (refused: bool)
      requires Valid() && ttl >= 0 && at == lastSeen && x.id !in samplers
      modifies this`samplers, this`states, this`nextCell, this`recentID, this`recentOne, this`samplersOldest
      ensures Valid()
      ensures refused == Refuses(old(View()), x, at, ttl)
      ensures View() == Track(old(View()), x, at, ttl)
    {
      hide Sound, ReadSince, Room, Refuses, Track, Readings;
      SoundParts(samplers, states, nextCell, recentID, recentOne, samplersOldest, lastSeen);
      ghost var c := View();
      RoomCases(c.readings, at, ttl);
      if |samplers| >= MAX_SAMPLERS {
        if at - samplersOldest <= ttl {
          NothingIdle(c.readings, samplersOldest, at, at - ttl);
          TrackNew(c, x, at, ttl);
          return true;
        }
        PruneIdleSamplersLocked(at, ttl);
        SoundParts(samplers, states, nextCell, recentID, recentOne, samplersOldest, lastSeen);
        if |samplers| >= MAX_SAMPLERS {
          TrackNew(c, x, at, ttl);
          return true;
        }
      }
      TrackNew(c, x, at, ttl);
      Admitted(samplers, states, nextCell, recentID, recentOne, samplersOldest, lastSeen, x.id, Read(x, at));
      samplers, states := samplers[x.id := nextCell], states[nextCell := Read(x, at)];
      recentID, recentOne, nextCell := x.id, Some(nextCell), nextCell + 1;
      return false;
    }

    /** The path of a sampler already held, whose entry the caller reached. */
    method AdvanceLocked(x: Sample, entry: Cell, at: int)
      requires Valid() && at == lastSeen && x.id in samplers && samplers[x.id] == entry
      modifies this`states, this`lateRun, this`samplePool, this`samplesDropped, this`poolMeasured, this`dropsMeasured
      ensures Valid()
      ensures View() == Advance(old(View()), x, at)
    {
      hide Sound, Readings, Sub32, Add64;
      SoundParts(samplers, states, nextCell, recentID, recentOne, samplersOldest, lastSeen);
      var last := states[entry];
      assert last == View().readings[x.id] by {
        EntryReading(samplers, states, x.id);
      }
      var step := Sub32(x.number, last.number);
      if step > TWO_32 - 1 - REORDER_WINDOW && x.pool <= last.pool && lateRun < MAX_LATE_RUN {
        lateRun := lateRun + 1;
        return;
      }
      if !(step >= FORWARD_WINDOW || x.rate != last.rate) {
        var pool := Sub32(x.pool, last.pool);
        if pool < FORWARD_WINDOW {
          samplePool := Add64(samplePool, pool);
          poolMeasured := true;
        }
        var drops := Sub32(x.drops, last.drops);
        if drops < FORWARD_WINDOW {
          samplesDropped := Add64(samplesDropped, drops);
          dropsMeasured := true;
        }
      }
      lateRun := 0;
      Rewritten(samplers, states, nextCell, recentID, recentOne, samplersOldest, lastSeen, x.id, Read(x, at));
      states := states[entry := Read(x, at)];
    }

    /** trackSamplerLocked. */
    method TrackSamplerLocked(x: Sample, ttl: int) returns (refused: bool)
      requires Valid() && ttl >= 0
      modifies this
      ensures Valid() && lastSeen == old(lastSeen)
      ensures refused == Refuses(old(View()), x, lastSeen, ttl)
      ensures View() == Track(old(View()), x, lastSeen, ttl)
    {
      hide Sound, Advance, Room;
      SoundParts(samplers, states, nextCell, recentID, recentOne, samplersOldest, lastSeen);
      var last := recentOne;
      if last.None? || recentID != x.id {
        if x.id !in samplers {
          refused := AdmitLocked(x, lastSeen, ttl);
          return;
        }
        last := Some(samplers[x.id]);
        recentID, recentOne := x.id, last;
        Cached(samplers, states, nextCell, old(recentID), old(recentOne), samplersOldest, lastSeen, x.id);
      }
      AdvanceLocked(x, last.value, lastSeen);
      return false;
    }
  }

  lemma SoundParts(samplers: map<u64, Cell>, states: map<Cell, Reading>, nextCell: Cell,
                   recentID: u64, recentOne: Option<Cell>, oldest: int, lastSeen: int)
    requires Sound(samplers, states, nextCell, recentID, recentOne, oldest, lastSeen)
    ensures samplers.Values <= states.Keys && Readings(samplers, states).Keys == samplers.Keys
    ensures |Readings(samplers, states)| == |samplers| <= MAX_SAMPLERS
    ensures StampedWithin(Readings(samplers, states), oldest, lastSeen)
    ensures recentOne.Some? ==> recentID in samplers && samplers[recentID] == recentOne.value
  {
    var readings := Readings(samplers, states);
    assert |readings| == |readings.Keys| && |samplers| == |samplers.Keys|;
  }

  lemma Swept(samplers: map<u64, Cell>, kept: map<u64, Cell>, states: map<Cell, Reading>, nextCell: Cell,
              recentID: u64, recentOne: Option<Cell>, oldest: int, lastSeen: int, cutoff: int, oldest': int)
    requires Sound(samplers, states, nextCell, recentID, recentOne, oldest, lastSeen) && oldest' <= lastSeen
    requires kept == map id | id in samplers && Readings(samplers, states)[id].lastSeen >= cutoff :: samplers[id]
    requires forall id :: id in kept ==> oldest' <= Readings(samplers, states)[id].lastSeen
    ensures Sound(kept, states, nextCell, recentID, None, oldest', lastSeen)
    ensures Readings(kept, states) == ReadSince(Readings(samplers, states), cutoff)
  {
    SubmapFits(kept, samplers);
    assert kept.Values <= samplers.Values;
    assert Readings(kept, states) == ReadSince(Readings(samplers, states), cutoff);
  }

  lemma EntryReading(samplers: map<u64, Cell>, states: map<Cell, Reading>, id: u64)
    requires samplers.Values <= states.Keys && id in samplers
    ensures states[samplers[id]] == Readings(samplers, states)[id]
  {
  }

  lemma Cached(samplers: map<u64, Cell>, states: map<Cell, Reading>, nextCell: Cell,
               recentID: u64, recentOne: Option<Cell>, oldest: int, lastSeen: int, id: u64)
    requires Sound(samplers, states, nextCell, recentID, recentOne, oldest, lastSeen) && id in samplers
    ensures Sound(samplers, states, nextCell, id, Some(samplers[id]), oldest, lastSeen)
  {
  }

  lemma Admitted(samplers: map<u64, Cell>, states: map<Cell, Reading>, nextCell: Cell,
                 recentID: u64, recentOne: Option<Cell>, oldest: int, lastSeen: int, id: u64, first: Reading)
    requires Sound(samplers, states, nextCell, recentID, recentOne, oldest, lastSeen)
    requires id !in samplers && |samplers| < MAX_SAMPLERS && first.lastSeen == lastSeen
    ensures Sound(samplers[id := nextCell], states[nextCell := first], nextCell + 1, id, Some(nextCell), oldest,
        lastSeen)
    ensures Readings(samplers[id := nextCell], states[nextCell := first]) == Readings(samplers, states)[id := first]
  {
    var samplers', states' := samplers[id := nextCell], states[nextCell := first];
    assert nextCell !in states;
    assert samplers'.Values <= states'.Keys;
    assert Readings(samplers', states') == Readings(samplers, states)[id := first];
  }

  lemma Rewritten(samplers: map<u64, Cell>, states: map<Cell, Reading>, nextCell: Cell,
                  recentID: u64, recentOne: Option<Cell>, oldest: int, lastSeen: int, id: u64, next: Reading)
    requires Sound(samplers, states, nextCell, recentID, recentOne, oldest, lastSeen)
    requires id in samplers && next.lastSeen == lastSeen
    ensures Sound(samplers, states[samplers[id] := next], nextCell, recentID, recentOne, oldest, lastSeen)
    ensures Readings(samplers, states[samplers[id] := next]) == Readings(samplers, states)[id := next]
  {
    var states' := states[samplers[id] := next];
    assert samplers[id] in samplers.Values;
    assert states'.Keys == states.Keys;
    assert Readings(samplers, states') == Readings(samplers, states)[id := next];
  }

  lemma {:induction false} SubmapFits<K, V>(kept: map<K, V>, m: map<K, V>)
    requires kept.Keys <= m.Keys
    ensures |kept| <= |m|
    decreases |kept|
  {
    assert |kept| == |kept.Keys| && |m| == |m.Keys|;
    if kept != map[] {
      var k :| k in kept;
      SubmapFits(kept - {k}, m - {k});
      assert |kept - {k}| == |(kept - {k}).Keys| && |m - {k}| == |(m - {k}).Keys|;
      assert (kept - {k}).Keys == kept.Keys - {k} && (m - {k}).Keys == m.Keys - {k};
    }
  }

  // ---- The readings against the agent's true counts --------------------------

  /** One flow sample as the agent counted it, before its counters wrapped. boot
      tells apart the lives of an agent, whose counters begin anew in each. */
  datatype TrueSample = TrueSample(id: u64, boot: nat, number: int, rate: u32, pool: int, drops: int, at: int)
  {
    function OnWire(): Sample {
      Sample(id, Wrap32(number), rate, Wrap32(pool), Wrap32(drops))
    }
  }

  /** The sample a sampler's reading was taken from. */
  datatype Base = Base(boot: nat, number: int, rate: u32, pool: int, drops: int, lastSeen: int)
  {
    function Held(): Reading {
      Reading(Wrap32(number), rate, Wrap32(pool), Wrap32(drops), lastSeen)
    }
  }

  function BaseOf(x: TrueSample): Base {
    Base(x.boot, x.number, x.rate, x.pool, x.drops, x.at)
  }

  /** One counter over one life of a sampler: where it was first and last read,
      what was jumped over uncounted, what was stepped back over and so stands to
      be counted again, and how many differences were taken. */
  datatype Tally = Tally(first: int, last: int, skipped: nat, recounted: nat, taken: nat)
  {
    function Gained(): int {
      last - first - skipped + recounted
    }
  }

  datatype Life = Life(id: u64, boot: nat)
  datatype Account = Account(pool: Tally, drops: Tally)

  /** The two counters a sample carries. */
  datatype Meter = PoolMeter | DropMeter
  {
    function In(a: Account): Tally {
      match this
      case PoolMeter => a.pool
      case DropMeter => a.drops
    }

    function Total(c: Counters): u64 {
      match this
      case PoolMeter => c.pool
      case DropMeter => c.drops
    }

    function Measured(c: Counters): bool {
      match this
      case PoolMeter => c.poolMeasured
      case DropMeter => c.dropsMeasured
    }
  }

  /** The samplers held and an account of every life ever read. */
  datatype History = History(held: map<u64, Base>, lateRun: nat, accounts: map<Life, Account>)

  const NO_HISTORY: History := History(map[], 0, map[])

  predicate InForwardWindow(from: int, to: int) {
    0 <= to - from < FORWARD_WINDOW
  }

  /** What a sample truly is beside the one held: overtaken in flight and told
      as such, the next at the same rate, or one the counters do not span. Of
      another life the wire alone tells. */
  datatype Verdict = HeldLate | InOrder | Rebased

  function VerdictOf(b: Base, lateRun: nat, x: TrueSample): Verdict {
    if x.boot != b.boot then
      if ReadsLate(b.Held(), lateRun, x.OnWire()) then HeldLate else Rebased
    else if
      -REORDER_WINDOW <= x.number - b.number < 0 && lateRun < MAX_LATE_RUN && x.pool / TWO_32 == b.pool / TWO_32
    then HeldLate
    else if InForwardWindow(b.number, x.number) && x.rate == b.rate then InOrder
    else Rebased
  }

  /** Nearer its predecessor than the counter's next aliases. */
  predicate CounterInReach(from: int, to: int) {
    -TWO_32 + FORWARD_WINDOW <= to - from < TWO_32
  }

  /** Within one life the numbers stand nearer than their aliases and a late
      sample's pool is behind by less than a period; a new life is not mistaken
      for the next sample of the old one. */
  predicate SampleInReach(h: History, x: TrueSample) {
    x.id in h.held ==>
      var b := h.held[x.id];
      if x.boot != b.boot then
        ReadsLate(b.Held(), h.lateRun, x.OnWire()) || ReadsRebased(b.Held(), x.OnWire())
      else
        && -TWO_32 + FORWARD_WINDOW <= x.number - b.number < TWO_32 - REORDER_WINDOW
        && (-REORDER_WINDOW <= x.number - b.number < 0 ==> 0 <= b.pool - x.pool < TWO_32)
        && (InForwardWindow(b.number, x.number) && x.rate == b.rate ==>
             CounterInReach(b.pool, x.pool) && CounterInReach(b.drops, x.drops))
  }

  /** One counter read again, counting what lies between or passing over it. */
  function Taken(t: Tally, now: int, counts: bool): Tally {
    if counts && InForwardWindow(t.last, now) then t.(last := now, taken := t.taken + 1)
    else if now >= t.last then t.(last := now, skipped := t.skipped + (now - t.last))
    else t.(last := now, recounted := t.recounted + (t.last - now))
  }

  function AccountOf(accounts: map<Life, Account>, x: TrueSample, counts: bool): Account {
    var life := Life(x.id, x.boot);
    if life in accounts then
      Account(Taken(accounts[life].pool, x.pool, counts), Taken(accounts[life].drops, x.drops, counts))
    else
      Account(Tally(x.pool, x.pool, 0, 0, 0), Tally(x.drops, x.drops, 0, 0, 0))
  }

  function Booked(h: History, x: TrueSample, counts: bool): History {
    h.(held := h.held[x.id := BaseOf(x)],
       accounts := h.accounts[Life(x.id, x.boot) := AccountOf(h.accounts, x, counts)])
  }

  ghost function HeldSince(held: map<u64, Base>, cutoff: int): map<u64, Base> {
    map id | id in held && held[id].lastSeen >= cutoff :: held[id]
  }

  ghost function HeldRoom(held: map<u64, Base>, at: int, ttl: int): map<u64, Base> {
    if |held| >= MAX_SAMPLERS then HeldSince(held, at - ttl) else held
  }

  ghost function Noted(h: History, x: TrueSample, ttl: int): History {
    if x.id in h.held then
      match VerdictOf(h.held[x.id], h.lateRun, x)
      case HeldLate => h.(lateRun := h.lateRun + 1)
      case InOrder => Booked(h, x, true).(lateRun := 0)
      case Rebased => Booked(h, x, false).(lateRun := 0)
    else
      var room := HeldRoom(h.held, x.at, ttl);
      if |room| >= MAX_SAMPLERS then h.(held := room) else Booked(h.(held := room), x, false)
  }

  ghost function Gains(accounts: map<Life, Account>, m: Meter): map<Life, int> {
    map life | life in accounts :: m.In(accounts[life]).Gained()
  }

  /** Some life had a difference of this counter taken. */
  ghost predicate AnyTaken(accounts: map<Life, Account>, m: Meter) {
    exists life :: life in accounts && m.In(accounts[life]).taken > 0
  }

  /** Every reading is its sample's own counts, wrapped. */
  ghost predicate Shows(readings: map<u64, Reading>, held: map<u64, Base>) {
    && readings.Keys == held.Keys
    && forall id :: id in held ==> readings[id] == held[id].Held()
  }

  /** The account of the life being read stands where the reading does. */
  ghost predicate Anchored(held: map<u64, Base>, accounts: map<Life, Account>) {
    forall id :: id in held ==>
      var life := Life(id, held[id].boot);
      life in accounts && accounts[life].pool.last == held[id].pool && accounts[life].drops.last == held[id].drops
  }

  /** The totals are what every life of every sampler ever read comes to, and
      each is called measured once a difference of its own went into it. */
  ghost predicate Follows(c: Counters, h: History) {
    && Shows(c.readings, h.held) && Anchored(h.held, h.accounts)
    && c.lateRun == h.lateRun
    && (forall m: Meter :: m.Total(c) == Wrap64(Sum(Gains(h.accounts, m))))
    && forall m: Meter :: m.Measured(c) <==> AnyTaken(h.accounts, m)
  }

  // ---- One sample ------------------------------------------------------------------

  /** A sample of the same life from behind the one held is told as late if and
      only if the run of late ones is short and the pool did not wrap between
      the two. */
  lemma LateIsHeldExactly(b: Base, lateRun: nat, x: TrueSample)
    requires -REORDER_WINDOW <= x.number - b.number < 0
    requires 0 <= b.pool - x.pool < TWO_32
    ensures ReadsLate(b.Held(), lateRun, x.OnWire()) <==>
            lateRun < MAX_LATE_RUN && x.pool / TWO_32 == b.pool / TWO_32
  {
    SubOfWraps(x.number, b.number);
    assert Wrap32(x.number - b.number) == x.number - b.number + TWO_32;
  }

  /** The wire says of a sample what it truly is. */
  lemma VerdictReads(h: History, x: TrueSample)
    requires x.id in h.held && SampleInReach(h, x)
    ensures var b := h.held[x.id];
            match VerdictOf(b, h.lateRun, x)
            case HeldLate => ReadsLate(b.Held(), h.lateRun, x.OnWire())
            case InOrder => !ReadsLate(b.Held(), h.lateRun, x.OnWire()) && !ReadsRebased(b.Held(), x.OnWire())
            case Rebased => !ReadsLate(b.Held(), h.lateRun, x.OnWire()) && ReadsRebased(b.Held(), x.OnWire())
  {
    var b := h.held[x.id];
    if x.boot == b.boot {
      NumberReads(b.number, x.number);
      if -REORDER_WINDOW <= x.number - b.number < 0 {
        LateIsHeldExactly(b, h.lateRun, x);
      }
    }
  }

  lemma NumberReads(from: int, to: int)
    requires -TWO_32 + FORWARD_WINDOW <= to - from < TWO_32 - REORDER_WINDOW
    ensures var step := Sub32(Wrap32(to), Wrap32(from));
            && (step < FORWARD_WINDOW <==> InForwardWindow(from, to))
            && (step > TWO_32 - 1 - REORDER_WINDOW <==> -REORDER_WINDOW <= to - from < 0)
  {
    SubOfWraps(to, from);
    StepReads(to - from);
  }

  lemma StepReads(d: int)
    requires -TWO_32 < d < TWO_32
    ensures Wrap32(d) == if d < 0 then d + TWO_32 else d
  {
  }

  lemma CounterReads(from: int, to: int)
    requires CounterInReach(from, to)
    ensures var step := Sub32(Wrap32(to), Wrap32(from));
            && (step < FORWARD_WINDOW <==> InForwardWindow(from, to))
            && (step < FORWARD_WINDOW ==> step == to - from)
  {
    SubOfWraps(to, from);
    StepReads(to - from);
  }

  /** One account moved, and the sum over all of them with it. */
  lemma GainMoves(accounts: map<Life, Account>, x: TrueSample, counts: bool, m: Meter)
    ensures var life := Life(x.id, x.boot);
            var now := if m.PoolMeter? then x.pool else x.drops;
            Sum(Gains(accounts[life := AccountOf(accounts, x, counts)], m)) ==
            Sum(Gains(accounts, m)) +
            if life in accounts && counts && InForwardWindow(m.In(accounts[life]).last, now)
            then now - m.In(accounts[life]).last else 0
  {
    hide Sum;
    var life := Life(x.id, x.boot);
    var after := AccountOf(accounts, x, counts);
    SumUpdate(Gains(accounts, m), life, m.In(after).Gained());
    assert Gains(accounts[life := after], m) == Gains(accounts, m)[life := m.In(after).Gained()];
  }

  lemma TakenMoves(accounts: map<Life, Account>, x: TrueSample, counts: bool, m: Meter)
    ensures var life := Life(x.id, x.boot);
            var now := if m.PoolMeter? then x.pool else x.drops;
            AnyTaken(accounts[life := AccountOf(accounts, x, counts)], m) <==>
            || AnyTaken(accounts, m)
            || (life in accounts && counts && InForwardWindow(m.In(accounts[life]).last, now))
  {
    var life := Life(x.id, x.boot);
    var after := accounts[life := AccountOf(accounts, x, counts)];
    if AnyTaken(accounts, m) {
      var l :| l in accounts && m.In(accounts[l]).taken > 0;
      assert l in after && m.In(after[l]).taken > 0;
    }
    if AnyTaken(after, m) {
      var l :| l in after && m.In(after[l]).taken > 0;
      assert l != life ==> l in accounts && m.In(accounts[l]).taken > 0;
    }
    assert life in after;
  }

  lemma BookedAnchors(h: History, x: TrueSample, counts: bool)
    requires Anchored(h.held, h.accounts)
    ensures Anchored(Booked(h, x, counts).held, Booked(h, x, counts).accounts)
  {
    hide InForwardWindow;
    var after := Booked(h, x, counts);
    forall id | id in after.held
      ensures var life := Life(id, after.held[id].boot);
              && life in after.accounts
              && after.accounts[life].pool.last == after.held[id].pool
              && after.accounts[life].drops.last == after.held[id].drops
    {
      if id != x.id {
        assert Life(id, h.held[id].boot) != Life(x.id, x.boot);
      }
    }
  }

  lemma BookedShows(readings: map<u64, Reading>, h: History, x: TrueSample, counts: bool)
    requires Shows(readings, h.held)
    ensures Shows(readings[x.id := Read(x.OnWire(), x.at)], Booked(h, x, counts).held)
  {
    hide Wrap32;
  }

  /** What one sample adds to a total: the difference where it counts. */
  lemma AdvanceTotals(c: Counters, h: History, x: TrueSample, m: Meter)
    requires Follows(c, h) && x.id in h.held && SampleInReach(h, x)
    requires VerdictOf(h.held[x.id], h.lateRun, x) == InOrder
    ensures m.Total(Advance(c, x.OnWire(), x.at)) == Wrap64(Sum(Gains(Booked(h, x, true).accounts, m)))
    ensures m.Measured(Advance(c, x.OnWire(), x.at)) <==> AnyTaken(Booked(h, x, true).accounts, m)
  {
    hide Sum, Gains, AnyTaken, Wrap64, Wrap32, Sub32, Add64, Shows;
    var b := h.held[x.id];
    var from, now := if m.PoolMeter? then b.pool else b.drops, if m.PoolMeter? then x.pool else x.drops;
    ShownReading(c, h, x.id);
    VerdictReads(h, x);
    CounterReads(from, now);
    GainMoves(h.accounts, x, true, m);
    TakenMoves(h.accounts, x, true, m);
    if InForwardWindow(from, now) {
      AddOfWraps64(Sum(Gains(h.accounts, m)), now - from);
      SmallCounts(0, now - from);
    }
  }

  lemma ShownReading(c: Counters, h: History, id: u64)
    requires Shows(c.readings, h.held) && id in h.held
    ensures id in c.readings && c.readings[id] == h.held[id].Held()
  {
  }

  lemma HeldFollows(c: Counters, h: History, x: TrueSample, ttl: int)
    requires Follows(c, h) && x.id in h.held && SampleInReach(h, x)
    ensures Follows(Track(c, x.OnWire(), x.at, ttl), Noted(h, x, ttl))
  {
    hide Sum, Gains, AnyTaken, Wrap64, Wrap32, Sub32, Add64, Room, HeldRoom, Shows, Anchored, AccountOf, VerdictOf;
    hide SampleInReach;
    ShownReading(c, h, x.id);
    VerdictReads(h, x);
    match VerdictOf(h.held[x.id], h.lateRun, x)
    case HeldLate =>
    case InOrder =>
      BookedAnchors(h, x, true);
      BookedShows(c.readings, h, x, true);
      AdvanceTotals(c, h, x, PoolMeter);
      AdvanceTotals(c, h, x, DropMeter);
      BothMeters(Advance(c, x.OnWire(), x.at), Booked(h, x, true).accounts);
    case Rebased =>
      BookedAnchors(h, x, false);
      BookedShows(c.readings, h, x, false);
      UncountedMoves(h.accounts, x, PoolMeter);
      UncountedMoves(h.accounts, x, DropMeter);
      BothMeters(Advance(c, x.OnWire(), x.at), Booked(h, x, false).accounts);
  }

  lemma UncountedMoves(accounts: map<Life, Account>, x: TrueSample, m: Meter)
    ensures var after := accounts[Life(x.id, x.boot) := AccountOf(accounts, x, false)];
            Sum(Gains(after, m)) == Sum(Gains(accounts, m)) && (AnyTaken(after, m) <==> AnyTaken(accounts, m))
  {
    hide Sum, Gains, AnyTaken;
    GainMoves(accounts, x, false, m);
    TakenMoves(accounts, x, false, m);
  }

  lemma BothMeters(c: Counters, accounts: map<Life, Account>)
    requires PoolMeter.Total(c) == Wrap64(Sum(Gains(accounts, PoolMeter)))
    requires DropMeter.Total(c) == Wrap64(Sum(Gains(accounts, DropMeter)))
    requires PoolMeter.Measured(c) <==> AnyTaken(accounts, PoolMeter)
    requires DropMeter.Measured(c) <==> AnyTaken(accounts, DropMeter)
    ensures forall m: Meter :: m.Total(c) == Wrap64(Sum(Gains(accounts, m)))
    ensures forall m: Meter :: m.Measured(c) <==> AnyTaken(accounts, m)
  {
    hide Sum, Gains, AnyTaken, Wrap64;
  }

  lemma RoomShows(readings: map<u64, Reading>, held: map<u64, Base>, at: int, ttl: int)
    requires Shows(readings, held)
    ensures Shows(Room(readings, at, ttl), HeldRoom(held, at, ttl))
    ensures |Room(readings, at, ttl)| == |HeldRoom(held, at, ttl)|
    ensures forall id :: id in HeldRoom(held, at, ttl) ==> id in held && HeldRoom(held, at, ttl)[id] == held[id]
  {
    assert |readings| == |readings.Keys| && |held| == |held.Keys|;
    var room, left := Room(readings, at, ttl), HeldRoom(held, at, ttl);
    assert room.Keys == left.Keys;
    assert |room| == |room.Keys| && |left| == |left.Keys|;
  }

  lemma NewFollows(c: Counters, h: History, x: TrueSample, ttl: int)
    requires Follows(c, h) && x.id !in h.held
    ensures Follows(Track(c, x.OnWire(), x.at, ttl), Noted(h, x, ttl))
  {
    hide Sum, Gains, AnyTaken, Wrap64, Wrap32, Room, HeldRoom, AccountOf, Shows, Anchored;
    RoomShows(c.readings, h.held, x.at, ttl);
    var roomy := h.(held := HeldRoom(h.held, x.at, ttl));
    StillAnchored(h, roomy);
    NotShown(c, h, x.id);
    BookedAnchors(roomy, x, false);
    BookedShows(Room(c.readings, x.at, ttl), roomy, x, false);
    UncountedMoves(h.accounts, x, PoolMeter);
    UncountedMoves(h.accounts, x, DropMeter);
    BothMeters(Track(c, x.OnWire(), x.at, ttl), Noted(h, x, ttl).accounts);
  }

  lemma StillAnchored(h: History, roomy: History)
    requires Anchored(h.held, h.accounts) && roomy.accounts == h.accounts
    requires forall id :: id in roomy.held ==> id in h.held && roomy.held[id] == h.held[id]
    ensures Anchored(roomy.held, roomy.accounts)
  {
  }

  lemma NotShown(c: Counters, h: History, id: u64)
    requires Shows(c.readings, h.held) && id !in h.held
    ensures id !in c.readings
  {
  }

  // ---- Whole runs --------------------------------------------------------------------

  ghost function SampleRun(samples: seq<TrueSample>, ttl: int): (Counters, History) {
    if samples == [] then (NO_SAMPLES, NO_HISTORY)
    else
      var (c, h) := SampleRun(samples[..|samples| - 1], ttl);
      var x := samples[|samples| - 1];
      (Track(c, x.OnWire(), x.at, ttl), Noted(h, x, ttl))
  }

  ghost predicate SamplesInReach(samples: seq<TrueSample>, ttl: int) {
    forall i :: 0 <= i < |samples| ==> SampleInReach(SampleRun(samples[..i], ttl).1, samples[i])
  }

  lemma NothingFollows()
    ensures Follows(NO_SAMPLES, NO_HISTORY)
  {
    forall m: Meter
      ensures Sum(Gains(map[], m)) == 0 && !m.Measured(NO_SAMPLES)
    {
      assert Gains(map[], m) == map[];
    }
  }

  /** Over a run of any length and any number of wraps, with samplers coming,
      idling out, returning and restarting, the totals are, summed over every
      life of every sampler, its last reading less its first, less what was
      skipped and with what was counted twice. */
  lemma {:induction false} SampleRunTelescopes(samples: seq<TrueSample>, ttl: int)
    requires SamplesInReach(samples, ttl)
    ensures Follows(SampleRun(samples, ttl).0, SampleRun(samples, ttl).1)
    decreases |samples|
  {
    hide Follows, Track, Noted, SampleInReach;
    if samples == [] {
      NothingFollows();
    } else {
      var before := samples[..|samples| - 1];
      forall i | 0 <= i < |before|
        ensures SampleInReach(SampleRun(before[..i], ttl).1, before[i])
      {
        assert before[..i] == samples[..i];
      }
      SampleRunTelescopes(before, ttl);
      var (c, h) := SampleRun(before, ttl);
      var x := samples[|samples| - 1];
      if x.id in h.held {
        HeldFollows(c, h, x, ttl);
      } else {
        NewFollows(c, h, x, ttl);
      }
    }
  }

  /** Told late and held, counted whole, or the first of its life. */
  predicate Smooth(h: History, x: TrueSample) {
    if x.id in h.held then
      var b := h.held[x.id];
      || VerdictOf(b, h.lateRun, x) == HeldLate
      || (VerdictOf(b, h.lateRun, x) == InOrder
          && InForwardWindow(b.pool, x.pool) && InForwardWindow(b.drops, x.drops))
    else Life(x.id, x.boot) !in h.accounts
  }

  ghost predicate AllSmooth(samples: seq<TrueSample>, ttl: int) {
    forall i :: 0 <= i < |samples| ==> Smooth(SampleRun(samples[..i], ttl).1, samples[i])
  }

  ghost predicate Exact(accounts: map<Life, Account>) {
    forall life :: life in accounts ==>
      && accounts[life].pool.skipped == 0 == accounts[life].pool.recounted
      && accounts[life].drops.skipped == 0 == accounts[life].drops.recounted
  }

  lemma SmoothStaysExact(h: History, x: TrueSample, ttl: int)
    requires Smooth(h, x) && Anchored(h.held, h.accounts) && Exact(h.accounts)
    ensures Exact(Noted(h, x, ttl).accounts)
  {
    hide HeldRoom, ReadsLate, Wrap32;
  }

  /** Where every sample is smooth, late ones among them, nothing is skipped or
      counted twice: the totals are every life's last reading less its first. */
  lemma {:induction false} SmoothRunIsExact(samples: seq<TrueSample>, ttl: int)
    requires SamplesInReach(samples, ttl) && AllSmooth(samples, ttl)
    ensures Exact(SampleRun(samples, ttl).1.accounts)
    decreases |samples|
  {
    hide Follows, Track, Noted, SampleInReach, Smooth, Exact;
    if samples == [] {
      NothingExact();
    } else {
      var before := samples[..|samples| - 1];
      forall i | 0 <= i < |before|
        ensures SampleInReach(SampleRun(before[..i], ttl).1, before[i])
        ensures Smooth(SampleRun(before[..i], ttl).1, before[i])
      {
        assert before[..i] == samples[..i] && before[i] == samples[i];
      }
      SmoothRunIsExact(before, ttl);
      SampleRunTelescopes(before, ttl);
      var (c, h) := SampleRun(before, ttl);
      FollowsAnchored(c, h);
      SmoothStaysExact(h, samples[|samples| - 1], ttl);
    }
  }

  lemma NothingExact()
    ensures Exact(NO_HISTORY.accounts)
  {
  }

  lemma FollowsAnchored(c: Counters, h: History)
    requires Follows(c, h)
    ensures Anchored(h.held, h.accounts)
  {
  }

  /** One life of one sampler, read in order at one rate. */
  ghost predicate Steady(samples: seq<TrueSample>) {
    forall i :: 0 < i < |samples| ==> Next(samples[i - 1], samples[i])
  }

  predicate Next(last: TrueSample, x: TrueSample) {
    && x.id == last.id && x.boot == last.boot && x.rate == last.rate
    && InForwardWindow(last.number, x.number)
    && InForwardWindow(last.pool, x.pool) && InForwardWindow(last.drops, x.drops)
  }

  function SteadyAt(first: TrueSample, last: TrueSample, taken: nat): History {
    History(map[last.id := BaseOf(last)], 0,
            map[Life(first.id, first.boot) :=
                Account(Tally(first.pool, last.pool, 0, 0, taken), Tally(first.drops, last.drops, 0, 0, taken))])
  }

  lemma SteadyStep(first: TrueSample, last: TrueSample, x: TrueSample, taken: nat, ttl: int)
    requires first.id == last.id && first.boot == last.boot && Next(last, x)
    ensures SampleInReach(SteadyAt(first, last, taken), x)
    ensures Noted(SteadyAt(first, last, taken), x, ttl) == SteadyAt(first, x, taken + 1)
  {
    hide Wrap32, HeldRoom;
  }

  lemma SteadyBegins(x: TrueSample, ttl: int)
    ensures SampleInReach(NO_HISTORY, x) && Noted(NO_HISTORY, x, ttl) == SteadyAt(x, x, 0)
  {
  }

  lemma {:induction false} SteadyHistory(samples: seq<TrueSample>, ttl: int)
    requires samples != [] && Steady(samples)
    ensures var first, last := samples[0], samples[|samples| - 1];
            && first.id == last.id && first.boot == last.boot
            && SampleRun(samples, ttl).1 == SteadyAt(first, last, |samples| - 1)
    ensures SamplesInReach(samples, ttl)
    decreases |samples|
  {
    hide Track, Noted, SteadyAt, SampleInReach;
    var n := |samples| - 1;
    var before := samples[..n];
    if n == 0 {
      assert before == [];
      SteadyBegins(samples[0], ttl);
    } else {
      SteadyHistory(before, ttl);
      assert samples[n - 1] == before[n - 1];
      SteadyStep(samples[0], samples[n - 1], samples[n], n - 1, ttl);
      OneMoreInReach(samples, ttl);
    }
  }

  lemma OneMoreInReach(samples: seq<TrueSample>, ttl: int)
    requires samples != [] && SamplesInReach(samples[..|samples| - 1], ttl)
    requires SampleInReach(SampleRun(samples[..|samples| - 1], ttl).1, samples[|samples| - 1])
    ensures SamplesInReach(samples, ttl)
  {
    hide SampleRun, SampleInReach;
    var before := samples[..|samples| - 1];
    forall i | 0 <= i < |samples|
      ensures SampleInReach(SampleRun(samples[..i], ttl).1, samples[i])
    {
      if i < |before| {
        assert before[..i] == samples[..i] && before[i] == samples[i];
      }
    }
  }

  lemma OneLife(first: TrueSample, last: TrueSample, taken: nat, m: Meter)
    ensures AnyTaken(SteadyAt(first, last, taken).accounts, m) <==> taken > 0
    ensures Sum(Gains(SteadyAt(first, last, taken).accounts, m)) ==
            if m.PoolMeter? then last.pool - first.pool else last.drops - first.drops
  {
    hide Sum;
    var accounts := SteadyAt(first, last, taken).accounts;
    var life := Life(first.id, first.boot);
    assert life in accounts;
    SumRemove(Gains(accounts, m), life);
    assert Gains(accounts, m) - {life} == map[];
    NoSum<Life>();
  }

  lemma NoSum<K>()
    ensures Sum<K>(map[]) == 0
  {
  }

  /** The pool added is the agent's own difference between its last reading and
      its first, however often its counter wrapped in between. */
  lemma SteadySamplerTelescopes(samples: seq<TrueSample>, ttl: int)
    requires samples != [] && Steady(samples)
    ensures var c := SampleRun(samples, ttl).0;
            var first, last := samples[0], samples[|samples| - 1];
            && c.pool == Wrap64(last.pool - first.pool)
            && c.drops == Wrap64(last.drops - first.drops)
            && c.poolMeasured == c.dropsMeasured == (|samples| > 1)
  {
    hide Sum, Gains, AnyTaken, SampleRun, Steady, Wrap64, SteadyAt, Shows, Anchored;
    SteadyHistory(samples, ttl);
    SampleRunTelescopes(samples, ttl);
    OneLife(samples[0], samples[|samples| - 1], |samples| - 1, PoolMeter);
    OneLife(samples[0], samples[|samples| - 1], |samples| - 1, DropMeter);
    var c := SampleRun(samples, ttl).0;
    assert PoolMeter.Total(c) == c.pool && DropMeter.Total(c) == c.drops;
    assert PoolMeter.Measured(c) == c.poolMeasured && DropMeter.Measured(c) == c.dropsMeasured;
  }

  /** A late sample alters no reading and no total exactly where it is the
      fourth in a row at most and the pool did not wrap past it; otherwise it
      becomes the base, and adds nothing itself. */
  lemma LateSampleRebasesExactly(c: Counters, h: History, x: TrueSample)
    requires Follows(c, h) && x.id in h.held && x.boot == h.held[x.id].boot
    requires -REORDER_WINDOW <= x.number - h.held[x.id].number < 0
    requires 0 <= h.held[x.id].pool - x.pool < TWO_32
    ensures Advance(c, x.OnWire(), x.at) ==
            if h.lateRun < MAX_LATE_RUN && x.pool / TWO_32 == h.held[x.id].pool / TWO_32
            then c.(lateRun := c.lateRun + 1)
            else c.(readings := c.readings[x.id := Read(x.OnWire(), x.at)], lateRun := 0)
  {
    var b := h.held[x.id];
    LateIsHeldExactly(b, h.lateRun, x);
    SubOfWraps(x.number, b.number);
    StepReads(x.number - b.number);
  }

  // ---- A late sample across a wrap ------------------------------------------------------

  function WrapSample(number: int, pool: int): TrueSample {
    TrueSample(0, 0, number, 1, pool, 0, 0)
  }

  const BEFORE: TrueSample := WrapSample(10, TWO_32 - 100)
  const AHEAD: TrueSample := WrapSample(12, TWO_32 + 10)
  const OVERTAKEN: TrueSample := WrapSample(11, TWO_32 - 5)
  const AFTER: TrueSample := WrapSample(13, TWO_32 + 20)

  const ACROSS_WRAP: seq<TrueSample> := [BEFORE] + [AHEAD] + [OVERTAKEN] + [AFTER]

  /** The one account once the overtaken sample has stepped it back. */
  function WrapHistory(last: TrueSample, taken: nat): History {
    History(map[0 := BaseOf(last)], 0,
            map[Life(0, 0) := Account(Tally(BEFORE.pool, last.pool, 0, 15, taken), Tally(0, 0, 0, 0, taken))])
  }

  lemma OvertakenVerdict()
    ensures VerdictOf(BaseOf(AHEAD), 0, OVERTAKEN) == Rebased
  {
    hide ReadsLate, Wrap32;
    assert OVERTAKEN.pool / TWO_32 == 0 && AHEAD.pool / TWO_32 == 1;
  }

  lemma OvertakenInReach()
    ensures SampleInReach(SteadyAt(BEFORE, AHEAD, 1), OVERTAKEN)
  {
    hide ReadsLate, ReadsRebased, Wrap32;
  }

  lemma OvertakenRebases(ttl: int)
    ensures Noted(SteadyAt(BEFORE, AHEAD, 1), OVERTAKEN, ttl) == WrapHistory(OVERTAKEN, 1)
  {
    hide HeldRoom, VerdictOf, Wrap32;
    OvertakenVerdict();
  }

  lemma AfterCounts(ttl: int)
    ensures SampleInReach(WrapHistory(OVERTAKEN, 1), AFTER)
    ensures Noted(WrapHistory(OVERTAKEN, 1), AFTER, ttl) == WrapHistory(AFTER, 2)
  {
  }

  lemma RunGrows(samples: seq<TrueSample>, x: TrueSample, ttl: int)
    requires SamplesInReach(samples, ttl) && SampleInReach(SampleRun(samples, ttl).1, x)
    ensures SamplesInReach(samples + [x], ttl)
    ensures SampleRun(samples + [x], ttl).1 == Noted(SampleRun(samples, ttl).1, x, ttl)
  {
    hide SampleInReach, Noted, Track;
    assert (samples + [x])[..|samples|] == samples;
    OneMoreInReach(samples + [x], ttl);
  }

  lemma WrapGains()
    ensures Sum(Gains(WrapHistory(AFTER, 2).accounts, PoolMeter)) == 135
  {
    hide Sum;
    var gains := Gains(WrapHistory(AFTER, 2).accounts, PoolMeter);
    SumRemove(gains, Life(0, 0));
    assert gains - {Life(0, 0)} == map[];
    NoSum<Life>();
  }

  /** Four samples of one life at one rate, the third overtaken across the wrap
      of the pool: 120 packets passed between the first and the last, and 135
      are counted, the 15 the third stepped back over twice. */
  lemma LateAcrossWrapRecounts(ttl: int)
    ensures SamplesInReach(ACROSS_WRAP, ttl)
    ensures SampleRun(ACROSS_WRAP, ttl).0.pool == 135 && AFTER.pool - BEFORE.pool == 120
    ensures SampleRun(ACROSS_WRAP, ttl).1 == WrapHistory(AFTER, 2)
  {
    hide Sum, Gains, AnyTaken, SampleRun, SamplesInReach, SampleInReach, Noted, SteadyAt, Shows, Anchored;
    NothingRun(ttl);
    SteadyBegins(BEFORE, ttl);
    assert [] + [BEFORE] == [BEFORE];
    RunGrows([], BEFORE, ttl);
    SteadyStep(BEFORE, BEFORE, AHEAD, 0, ttl);
    RunGrows([BEFORE], AHEAD, ttl);
    OvertakenInReach();
    OvertakenRebases(ttl);
    RunGrows([BEFORE] + [AHEAD], OVERTAKEN, ttl);
    AfterCounts(ttl);
    RunGrows([BEFORE] + [AHEAD] + [OVERTAKEN], AFTER, ttl);
    SampleRunTelescopes(ACROSS_WRAP, ttl);
    WrapGains();
    assert PoolMeter.Total(SampleRun(ACROSS_WRAP, ttl).0) == SampleRun(ACROSS_WRAP, ttl).0.pool;
  }

  lemma NothingRun(ttl: int)
    ensures SampleRun([], ttl) == (NO_SAMPLES, NO_HISTORY) && SamplesInReach([], ttl)
  {
  }
}
