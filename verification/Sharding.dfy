/** The dispatcher that keeps each device's datagrams in sequence: its input
    queue, its bounded shards and their workers as one state machine. */
module Sharding {
  import opened Uint
  import opened Templates
  import opened Net

  const SHARD_QUEUE_SIZE: nat := 64

  datatype Packet = Packet(src: Addr, data: seq<u8>)

  /** What an address hashes to in its 16-byte form. */
  type Hash = seq<bool> -> u64

  /** shardOf. */
  function ShardOf(hash: Hash, src: Addr, workers: nat): (k: nat)
    requires workers >= 1
    ensures k < workers
  {
    hash(As16(src)) % workers
  }

  /** Two exporters share a shard exactly where their hashes are a whole number
      of workers apart, an address and its mapped form always; and a hash below
      the workers is its own shard. */
  lemma ShardsFollowTheHash(hash: Hash, a: Addr, b: Addr, workers: nat)
    requires workers >= 1
    ensures ShardOf(hash, a, workers) == ShardOf(hash, b, workers) <==>
            (hash(As16(a)) - hash(As16(b))) % workers == 0
    ensures a.family == IPv4 ==> ShardOf(hash, a, workers) == ShardOf(hash, Addr(IPv6, As16(a)), workers)
    ensures hash(As16(a)) < workers ==> ShardOf(hash, a, workers) == hash(As16(a))
  {
    SameRemainder(hash(As16(a)), hash(As16(b)), workers);
  }

  lemma SameRemainder(x: nat, y: nat, n: nat)
    requires n >= 1
    ensures x % n == y % n <==> (x - y) % n == 0
    ensures x < n ==> x % n == x
  {
    ModuloSplits(x, y, x / n, y / n, x % n, y % n, n);
    if x < n {
      OneDivision(x, n, 0, x);
    }
  }

  lemma ModuloSplits(x: nat, y: nat, p: nat, q: nat, r: nat, s: nat, n: nat)
    requires r < n && s < n && x == p * n + r && y == q * n + s
    ensures r == s <==> (x - y) % n == 0
  {
    assert p * n - q * n == (p - q) * n;
    if r >= s {
      OneDivision(x - y, n, p - q, r - s);
    } else {
      assert (p - q) * n == (p - q - 1) * n + n;
      OneDivision(x - y, n, p - q - 1, r - s + n);
    }
  }

  lemma OneDivision(x: int, n: nat, q: int, r: nat)
    requires r < n && x == q * n + r
    ensures x % n == r
  {
    var d := x / n - q;
    assert d * n == r - x % n;
    if d >= 1 {
      AtLeast(d, n);
    } else if d <= -1 {
      AtLeast(-d, n);
    }
  }

  lemma AtLeast(d: nat, n: nat)
    requires d >= 1
    ensures d * n >= n
  {
  }

  /** done is the order decodes end in, over all workers. */
  datatype State = State(
    arrived: seq<Packet>, input: seq<Packet>, held: Option<Packet>,
    shards: seq<seq<Packet>>, decoding: seq<Option<Packet>>, done: seq<Packet>)

  datatype Step = Arrive(packet: Packet) | Take | Deliver | Begin(worker: nat) | Finish(worker: nat)

  function Initial(workers: nat): State {
    State([], [], None, seq(workers, _ => []), seq(workers, _ => None), [])
  }

  /** A step waits for what it needs: a packet, an idle hand, or room in the
      one shard the packet is bound for. */
  predicate Enabled(s: State, step: Step, hash: Hash)
    requires |s.shards| == |s.decoding| >= 1
  {
    match step
    case Arrive(_) => true
    case Take => s.held.None? && s.input != []
    case Deliver => s.held.Some? && |s.shards[ShardOf(hash, s.held.value.src, |s.shards|)]| < SHARD_QUEUE_SIZE
    case Begin(worker) => worker < |s.shards| && s.decoding[worker].None? && s.shards[worker] != []
    case Finish(worker) => worker < |s.shards| && s.decoding[worker].Some?
  }

  function Apply(s: State, step: Step, hash: Hash): (next: State)
    requires |s.shards| == |s.decoding| >= 1
    ensures |next.shards| == |next.decoding| == |s.shards|
  {
    if !Enabled(s, step, hash) then s
    else
      match step
      case Arrive(packet) => s.(arrived := s.arrived + [packet], input := s.input + [packet])
      case Take => s.(held := Some(s.input[0]), input := s.input[1..])
      case Deliver =>
        var k := ShardOf(hash, s.held.value.src, |s.shards|);
        s.(held := None, shards := s.shards[k := s.shards[k] + [s.held.value]])
      case Begin(worker) =>
        s.(decoding := s.decoding[worker := Some(s.shards[worker][0])],
           shards := s.shards[worker := s.shards[worker][1..]])
      case Finish(worker) =>
        s.(done := s.done + [s.decoding[worker].value], decoding := s.decoding[worker := None])
  }

  function Run(steps: seq<Step>, workers: nat, hash: Hash): (s: State)
    requires workers >= 1
    ensures |s.shards| == |s.decoding| == workers
  {
    if steps == [] then Initial(workers)
    else Apply(Run(steps[..|steps| - 1], workers, hash), steps[|steps| - 1], hash)
  }

  /** One exporter's packets, in order. */
  function From(src: Addr, packets: seq<Packet>): seq<Packet> {
    if packets == [] then []
    else (if packets[0].src == src then [packets[0]] else []) + From(src, packets[1..])
  }

  function One(p: Option<Packet>): seq<Packet> {
    if p.Some? then [p.value] else []
  }

  lemma {:induction false} FromJoins(src: Addr, a: seq<Packet>, b: seq<Packet>)
    ensures From(src, a + b) == From(src, a) + From(src, b)
  {
    if a == [] {
      assert a + b == b;
    } else {
      FromJoins(src, a[1..], b);
      assert (a + b)[0] == a[0] && (a + b)[1..] == a[1..] + b;
      var first := if a[0].src == src then [a[0]] else [];
      assert first + (From(src, a[1..]) + From(src, b)) == first + From(src, a[1..]) + From(src, b);
    }
  }

  /** One exporter's packets from the oldest stage to the newest. */
  function InOrder(s: State, hash: Hash, src: Addr): seq<Packet>
    requires |s.shards| == |s.decoding| >= 1
  {
    var k := ShardOf(hash, src, |s.shards|);
    From(src, s.done) + From(src, One(s.decoding[k])) + From(src, s.shards[k]) + From(src, One(s.held)) + From(src,
        s.input)
  }

  ghost predicate Routed(s: State, hash: Hash)
    requires |s.shards| == |s.decoding| >= 1
  {
    && (forall i, j :: 0 <= i < |s.shards| && 0 <= j < |s.shards[i]| ==>
         ShardOf(hash, s.shards[i][j].src, |s.shards|) == i)
    && (forall i :: 0 <= i < |s.shards| ==>
         && |s.shards[i]| <= SHARD_QUEUE_SIZE
         && (s.decoding[i].Some? ==> ShardOf(hash, s.decoding[i].value.src, |s.shards|) == i))
  }

  lemma StepRoutes(s: State, step: Step, hash: Hash)
    requires |s.shards| == |s.decoding| >= 1 && Routed(s, hash)
    ensures Routed(Apply(s, step, hash), hash)
  {
    hide ShardOf;
  }

  lemma FromOne(src: Addr, p: Packet)
    ensures From(src, [p]) == if p.src == src then [p] else []
  {
    assert [p][1..] == [];
  }

  lemma FromFirst(src: Addr, packets: seq<Packet>)
    requires packets != []
    ensures From(src, packets) == From(src, [packets[0]]) + From(src, packets[1..])
  {
    FromOne(src, packets[0]);
  }

  lemma ArriveKeepsOrder(s: State, hash: Hash, src: Addr, packet: Packet)
    requires |s.shards| == |s.decoding| >= 1 && Routed(s, hash) && Enabled(s, Arrive(packet), hash)
    requires From(src, s.arrived) == InOrder(s, hash, src)
    ensures From(src, Apply(s, Arrive(packet), hash).arrived) == InOrder(Apply(s, Arrive(packet), hash), hash, src)
  {
    hide ShardOf, From;
    FromJoins(src, s.arrived, [packet]);
    FromJoins(src, s.input, [packet]);
  }

  lemma TakeKeepsOrder(s: State, hash: Hash, src: Addr)
    requires |s.shards| == |s.decoding| >= 1 && Routed(s, hash) && Enabled(s, Take, hash)
    requires From(src, s.arrived) == InOrder(s, hash, src)
    ensures From(src, Apply(s, Take, hash).arrived) == InOrder(Apply(s, Take, hash), hash, src)
  {
    hide ShardOf, From;
    NoneFrom(src);
    FromFirst(src, s.input);
    var k := ShardOf(hash, src, |s.shards|);
    var ahead := From(src, s.done) + From(src, One(s.decoding[k])) + From(src, s.shards[k]);
    var first, rest := From(src, [s.input[0]]), From(src, s.input[1..]);
    assert ahead + [] + (first + rest) == ahead + first + rest;
  }

  lemma DeliverKeepsOrder(s: State, hash: Hash, src: Addr)
    requires |s.shards| == |s.decoding| >= 1 && Routed(s, hash) && Enabled(s, Deliver, hash)
    requires From(src, s.arrived) == InOrder(s, hash, src)
    ensures From(src, Apply(s, Deliver, hash).arrived) == InOrder(Apply(s, Deliver, hash), hash, src)
  {
    hide ShardOf, From;
    NoneFrom(src);
    var k := ShardOf(hash, src, |s.shards|);
    var to := ShardOf(hash, s.held.value.src, |s.shards|);
    FromJoins(src, s.shards[to], [s.held.value]);
    FromOne(src, s.held.value);
    var ahead, queued := From(src, s.done) + From(src, One(s.decoding[k])), From(src, s.shards[k]);
    var held := From(src, [s.held.value]);
    assert ahead + queued + held == ahead + (queued + held) + [];
  }

  lemma BeginKeepsOrder(s: State, hash: Hash, src: Addr, worker: nat)
    requires |s.shards| == |s.decoding| >= 1 && Routed(s, hash) && Enabled(s, Begin(worker), hash)
    requires From(src, s.arrived) == InOrder(s, hash, src)
    ensures From(src, Apply(s, Begin(worker), hash).arrived) == InOrder(Apply(s, Begin(worker), hash), hash, src)
  {
    hide ShardOf, From;
    NoneFrom(src);
    FromFirst(src, s.shards[worker]);
    var before, first, rest := From(src, s.done), From(src, [s.shards[worker][0]]), From(src, s.shards[worker][1..]);
    assert before + [] + (first + rest) == before + first + rest;
  }

  lemma FinishKeepsOrder(s: State, hash: Hash, src: Addr, worker: nat)
    requires |s.shards| == |s.decoding| >= 1 && Routed(s, hash) && Enabled(s, Finish(worker), hash)
    requires From(src, s.arrived) == InOrder(s, hash, src)
    ensures From(src, Apply(s, Finish(worker), hash).arrived) == InOrder(Apply(s, Finish(worker), hash), hash, src)
  {
    hide ShardOf, From;
    NoneFrom(src);
    FromJoins(src, s.done, [s.decoding[worker].value]);
    FromOne(src, s.decoding[worker].value);
    var before, last := From(src, s.done), From(src, [s.decoding[worker].value]);
    assert before + last + [] == before + last;
  }

  lemma StepKeepsOrder(s: State, step: Step, hash: Hash, src: Addr)
    requires |s.shards| == |s.decoding| >= 1 && Routed(s, hash)
    requires From(src, s.arrived) == InOrder(s, hash, src)
    ensures From(src, Apply(s, step, hash).arrived) == InOrder(Apply(s, step, hash), hash, src)
  {
    hide InOrder, Routed;
    if Enabled(s, step, hash) {
      match step
      case Arrive(packet) => ArriveKeepsOrder(s, hash, src, packet);
      case Take => TakeKeepsOrder(s, hash, src);
      case Deliver => DeliverKeepsOrder(s, hash, src);
      case Begin(worker) => BeginKeepsOrder(s, hash, src, worker);
      case Finish(worker) => FinishKeepsOrder(s, hash, src, worker);
    }
  }

  lemma NoneFrom(src: Addr)
    ensures From(src, []) == []
  {
  }

  /** In every reachable state, for any worker count and any hash, one exporter's
      arrivals are its packets done, in decode, queued for its one worker, held
      by the dispatcher and still in the queue, in that order and each once. */
  lemma {:induction false} OrderIsKept(steps: seq<Step>, workers: nat, hash: Hash, src: Addr)
    requires workers >= 1
    ensures var s := Run(steps, workers, hash);
            Routed(s, hash) && From(src, s.arrived) == InOrder(s, hash, src)
    decreases |steps|
  {
    hide ShardOf, InOrder, Apply;
    if steps == [] {
      BeginsInOrder(workers, hash, src);
    } else {
      OrderIsKept(steps[..|steps| - 1], workers, hash, src);
      var s := Run(steps[..|steps| - 1], workers, hash);
      StepRoutes(s, steps[|steps| - 1], hash);
      StepKeepsOrder(s, steps[|steps| - 1], hash, src);
    }
  }

  lemma BeginsInOrder(workers: nat, hash: Hash, src: Addr)
    requires workers >= 1
    ensures Routed(Initial(workers), hash)
    ensures From(src, Initial(workers).arrived) == InOrder(Initial(workers), hash, src)
  {
  }

  /** No two of an exporter's packets are ever in decode at once. */
  lemma OneDecodeEach(steps: seq<Step>, workers: nat, hash: Hash, i: nat, j: nat)
    requires workers >= 1 && i < workers && j < workers
    requires var s := Run(steps, workers, hash);
             s.decoding[i].Some? && s.decoding[j].Some? && s.decoding[i].value.src == s.decoding[j].value.src
    ensures i == j
  {
    OrderIsKept(steps, workers, hash, Run(steps, workers, hash).decoding[i].value.src);
  }

  // ---- Nothing is ever stuck ---------------------------------------------------------

  predicate Drained(s: State) {
    && s.input == [] && s.held.None?
    && (forall i :: 0 <= i < |s.shards| ==> s.shards[i] == [])
    && (forall i :: 0 <= i < |s.decoding| ==> s.decoding[i].None?)
  }

  /** The dispatcher waits exactly while the shard of the packet it holds has 64
      queued, whatever the other shards hold. */
  lemma DeliverWaitsExactly(steps: seq<Step>, workers: nat, hash: Hash)
    requires workers >= 1 && Run(steps, workers, hash).held.Some?
    ensures var s := Run(steps, workers, hash);
            !Enabled(s, Deliver, hash) <==> |s.shards[ShardOf(hash, s.held.value.src, workers)]| == 64
  {
    hide Run, InOrder, From;
    var s := Run(steps, workers, hash);
    OrderIsKept(steps, workers, hash, s.held.value.src);
    assert |s.shards[ShardOf(hash, s.held.value.src, workers)]| <= SHARD_QUEUE_SIZE;
  }

  /** The dispatcher blocks only on a full shard, and a full shard has a worker
      that can move: while a packet is anywhere in between, some step other than
      an arrival is enabled. */
  lemma SomeoneCanMove(s: State, hash: Hash) returns (step: Step)
    requires |s.shards| == |s.decoding| >= 1 && !Drained(s)
    ensures !step.Arrive? && Enabled(s, step, hash)
  {
    if i: nat :| i < |s.decoding| && s.decoding[i].Some? {
      step := Finish(i);
    } else if i: nat :| i < |s.shards| && s.shards[i] != [] {
      step := Begin(i);
    } else if s.held.Some? {
      step := Deliver;
    } else {
      step := Take;
    }
  }

  ghost function Queued(shards: seq<seq<Packet>>): nat {
    if shards == [] then 0 else |shards[0]| + Queued(shards[1..])
  }

  ghost function Busy(decoding: seq<Option<Packet>>): nat {
    if decoding == [] then 0 else |One(decoding[0])| + Busy(decoding[1..])
  }

  /** The stages every packet in between still has before it. */
  ghost function Ahead(s: State): nat {
    4 * |s.input| + 3 * |One(s.held)| + 2 * Queued(s.shards) + Busy(s.decoding)
  }

  lemma {:induction false} QueuedUpdate(shards: seq<seq<Packet>>, k: nat, packets: seq<Packet>)
    requires k < |shards|
    ensures Queued(shards[k := packets]) == Queued(shards) - |shards[k]| + |packets|
  {
    if k > 0 {
      QueuedUpdate(shards[1..], k - 1, packets);
      assert shards[k := packets][1..] == shards[1..][k - 1 := packets];
    } else {
      assert shards[k := packets][1..] == shards[1..];
    }
  }

  lemma {:induction false} BusyUpdate(decoding: seq<Option<Packet>>, k: nat, p: Option<Packet>)
    requires k < |decoding|
    ensures Busy(decoding[k := p]) == Busy(decoding) - |One(decoding[k])| + |One(p)|
  {
    if k > 0 {
      BusyUpdate(decoding[1..], k - 1, p);
      assert decoding[k := p][1..] == decoding[1..][k - 1 := p];
    } else {
      assert decoding[k := p][1..] == decoding[1..];
    }
  }

  /** Every step but an arrival brings one packet one stage on, so once nothing
      more arrives the machine drains. */
  lemma EveryStepAdvances(s: State, step: Step, hash: Hash)
    requires |s.shards| == |s.decoding| >= 1 && Enabled(s, step, hash) && !step.Arrive?
    ensures Ahead(Apply(s, step, hash)) == Ahead(s) - 1
  {
    hide ShardOf, Queued, Busy;
    match step
    case Take =>
    case Deliver =>
      var k := ShardOf(hash, s.held.value.src, |s.shards|);
      QueuedUpdate(s.shards, k, s.shards[k] + [s.held.value]);
    case Begin(worker) =>
      QueuedUpdate(s.shards, worker, s.shards[worker][1..]);
      BusyUpdate(s.decoding, worker, Some(s.shards[worker][0]));
    case Finish(worker) =>
      BusyUpdate(s.decoding, worker, None);
  }

  /** Drained, each exporter's packets were decoded exactly as they arrived. */
  lemma DrainedInArrivalOrder(steps: seq<Step>, workers: nat, hash: Hash, src: Addr)
    requires workers >= 1 && Drained(Run(steps, workers, hash))
    ensures From(src, Run(steps, workers, hash).done) == From(src, Run(steps, workers, hash).arrived)
  {
    OrderIsKept(steps, workers, hash, src);
    var s := Run(steps, workers, hash);
    assert s.shards[ShardOf(hash, src, workers)] == [];
  }

  /** These steps from a state on. */
  function RunFrom(s: State, steps: seq<Step>, hash: Hash): (next: State)
    requires |s.shards| == |s.decoding| >= 1
    ensures |next.shards| == |next.decoding| == |s.shards|
    decreases |steps|
  {
    if steps == [] then s else RunFrom(Apply(s, steps[0], hash), steps[1..], hash)
  }

  lemma {:induction false} RunOn(before: seq<Step>, steps: seq<Step>, workers: nat, hash: Hash)
    requires workers >= 1
    ensures Run(before + steps, workers, hash) == RunFrom(Run(before, workers, hash), steps, hash)
    decreases |steps|
  {
    if steps == [] {
      assert before + steps == before;
    } else {
      RunOn(before + [steps[0]], steps[1..], workers, hash);
      assert before + [steps[0]] + steps[1..] == before + steps;
      assert (before + [steps[0]])[..|before|] == before;
    }
  }

  /** Every step is one the machine can take, and none of them an arrival. */
  ghost predicate Advancing(s: State, steps: seq<Step>, hash: Hash)
    requires |s.shards| == |s.decoding| >= 1
    decreases |steps|
  {
    steps != [] ==>
      Enabled(s, steps[0], hash) && !steps[0].Arrive? && Advancing(Apply(s, steps[0], hash), steps[1..], hash)
  }

  lemma {:induction false} NothingQueued(shards: seq<seq<Packet>>)
    ensures Queued(shards) == 0 <==> forall i :: 0 <= i < |shards| ==> shards[i] == []
  {
    if shards != [] {
      NothingQueued(shards[1..]);
      assert forall i :: 0 < i < |shards| ==> shards[i] == shards[1..][i - 1];
      assert forall i :: 0 <= i < |shards| - 1 ==> shards[1..][i] == shards[i + 1];
    }
  }

  lemma {:induction false} NothingBusy(decoding: seq<Option<Packet>>)
    ensures Busy(decoding) == 0 <==> forall i :: 0 <= i < |decoding| ==> decoding[i].None?
  {
    if decoding != [] {
      NothingBusy(decoding[1..]);
      assert forall i :: 0 < i < |decoding| ==> decoding[i] == decoding[1..][i - 1];
      assert forall i :: 0 <= i < |decoding| - 1 ==> decoding[1..][i] == decoding[i + 1];
    }
  }

  lemma NothingAhead(s: State)
    ensures Ahead(s) == 0 <==> Drained(s)
  {
    NothingQueued(s.shards);
    NothingBusy(s.decoding);
  }

  /** Once nothing arrives, however the machine moves it drains in exactly the
      steps ahead of it: as long as it moves it is short of them, and when it can
      move no further it is drained. */
  lemma {:induction false} EveryAdvanceDrains(s: State, steps: seq<Step>, hash: Hash)
    requires |s.shards| == |s.decoding| >= 1 && Advancing(s, steps, hash)
    ensures |steps| <= Ahead(s) && (|steps| == Ahead(s) <==> Drained(RunFrom(s, steps, hash)))
    decreases |steps|
  {
    hide Ahead, Drained, Apply;
    if steps == [] {
      NothingAhead(s);
    } else {
      EveryStepAdvances(s, steps[0], hash);
      EveryAdvanceDrains(Apply(s, steps[0], hash), steps[1..], hash);
    }
  }

  /** And there is always such a run. */
  lemma {:induction false} SomeAdvanceDrains(s: State, hash: Hash) returns (steps: seq<Step>)
    requires |s.shards| == |s.decoding| >= 1
    ensures Advancing(s, steps, hash) && |steps| == Ahead(s) && Drained(RunFrom(s, steps, hash))
    decreases Ahead(s)
  {
    hide Ahead, Drained, Apply, Enabled;
    NothingAhead(s);
    steps := [];
    if !Drained(s) {
      var step := SomeoneCanMove(s, hash);
      EveryStepAdvances(s, step, hash);
      var rest := SomeAdvanceDrains(Apply(s, step, hash), hash);
      steps := [step] + rest;
      assert steps[1..] == rest;
    }
  }

  /** From every reachable state, then, decoding catches up with what arrived:
      some run with no further arrival ends with each exporter's packets decoded
      exactly as they came. */
  lemma EveryReachableStateDrains(steps: seq<Step>, workers: nat, hash: Hash, src: Addr) returns (more: seq<Step>)
    requires workers >= 1
    ensures Advancing(Run(steps, workers, hash), more, hash) && |more| == Ahead(Run(steps, workers, hash))
    ensures var s := Run(steps + more, workers, hash);
            Drained(s) && From(src, s.done) == From(src, s.arrived)
  {
    hide Ahead, Drained, Advancing, Run, From;
    more := SomeAdvanceDrains(Run(steps, workers, hash), hash);
    RunOn(steps, more, workers, hash);
    DrainedInArrivalOrder(steps + more, workers, hash, src);
  }
}
