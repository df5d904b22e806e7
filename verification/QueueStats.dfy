/**
 * Lock-free queue accounting. Producers count an item before they publish it, consumers deduct it after
 * they have received it, and every access to a counter is one atomic step, so a run is any interleaving
 * of the steps below.
 */
module QueueStats {
  import opened Integers

  /** Where a thread stands between two atomic steps; `size` is the byte size of its item. */
  datatype Phase =
    | Idle
    | DepthCounted(size: nat)
    | Accounted(size: nat)
    | LoadingDepth(size: nat)
    | SwappingDepth(size: nat, current: nat)
    | LoadingBytes(size: nat)
    | SwappingBytes(size: nat, current: nat)

  /** The two counters, the sizes of the items in the channel, and the threads. */
  datatype State = State(depth: nat, bytes: nat, channel: seq<nat>, threads: seq<Phase>)

  /** One atomic step of a thread. */
  datatype Action =
    | CountDepth(size: nat)     // depth.fetch_add(1)
    | CountBytes                // bytes.fetch_add(size)
    | Publish                   // the channel takes the item
    | Refuse                    // the channel is full or closed
    | Receive                   // the head of the channel is taken
    | Load(observed: nat)       // the load before a compare-exchange loop
    | Exchange                  // compare_exchange_weak succeeds
    | Retry(observed: nat)      // it fails, because the counter moved or spuriously

  function SaturatingSub(a: nat, b: nat): nat {
    if a < b then 0 else a - b
  }

  /** What the step of a thread requires. A load may observe any value, an old one included. */
  predicate Enabled(s: State, i: nat, a: Action) {
    && i < |s.threads|
    && match a
       case CountDepth(size) => s.threads[i].Idle? && size < U64
       case CountBytes => s.threads[i].DepthCounted?
       case Publish => s.threads[i].Accounted?
       case Refuse => s.threads[i].Accounted?
       case Receive => s.threads[i].Idle? && s.channel != []
       case Load(observed) => s.threads[i].LoadingDepth? || s.threads[i].LoadingBytes?
       case Exchange =>
         || (s.threads[i].SwappingDepth? && s.threads[i].current == s.depth)
         || (s.threads[i].SwappingBytes? && s.threads[i].current == s.bytes)
       case Retry(observed) => s.threads[i].SwappingDepth? || s.threads[i].SwappingBytes?
  }

  function Next(s: State, i: nat, a: Action): State
    requires Enabled(s, i, a)
  {
    var p := s.threads[i];
    match a
    case CountDepth(size) => Moved(s, i, DepthCounted(size)).(depth := (s.depth + 1) % U64)
    case CountBytes => Moved(s, i, Accounted(p.size)).(bytes := (s.bytes + p.size) % U64)
    case Publish => Moved(s, i, Idle).(channel := s.channel + [p.size])
    case Refuse => Moved(s, i, LoadingDepth(p.size))
    case Receive => Moved(s, i, LoadingDepth(s.channel[0])).(channel := s.channel[1..])
    case Load(observed) =>
      Moved(s, i, if p.LoadingDepth? then SwappingDepth(p.size, observed) else SwappingBytes(p.size, observed))
    case Exchange =>
      if p.SwappingDepth? then Moved(s, i, LoadingBytes(p.size)).(depth := SaturatingSub(p.current, 1))
      else Moved(s, i, Idle).(bytes := SaturatingSub(p.current, p.size))
    case Retry(observed) => Moved(s, i, p.(current := observed))
  }

  function Moved(s: State, i: nat, p: Phase): State
    requires i < |s.threads|
  {
    s.(threads := s.threads[i := p])
  }

  // ------------------------------------------------------------ outstanding

  /** Accounted but not published, or received but not deducted. */
  function DepthHeld(p: Phase): nat {
    match p
    case Idle => 0
    case LoadingBytes(_) => 0
    case SwappingBytes(_, _) => 0
    case _ => 1
  }

  function BytesHeld(p: Phase): nat {
    match p
    case Idle => 0
    case DepthCounted(_) => 0
    case _ => p.size
  }

  function Total<T>(s: seq<T>, weight: T -> nat): nat {
    if |s| == 0 then 0 else weight(s[0]) + Total(s[1..], weight)
  }

  function Size(size: nat): nat { size }

  /** Items in the channel, accounted and not yet published, or received and not yet deducted. */
  function Items(s: State): nat {
    |s.channel| + Total(s.threads, DepthHeld)
  }

  function ItemBytes(s: State): nat {
    Total(s.channel, Size) + Total(s.threads, BytesHeld)
  }

  predicate Exact(s: State) {
    s.depth == Items(s) && s.bytes == ItemBytes(s)
  }

  predicate Fits(s: State) {
    Items(s) < U64 && ItemBytes(s) < U64
  }

  predicate Quiescent(s: State) {
    forall i :: 0 <= i < |s.threads| ==> s.threads[i].Idle?
  }

  lemma {:induction false} TotalAppend<T>(s: seq<T>, x: T, weight: T -> nat)
    ensures Total(s + [x], weight) == Total(s, weight) + weight(x)
  {
    if |s| == 0 {
      assert s + [x] == [x];
    } else {
      assert (s + [x])[1..] == s[1..] + [x];
      TotalAppend(s[1..], x, weight);
    }
  }

  lemma {:induction false} TotalUpdate<T>(s: seq<T>, i: nat, x: T, weight: T -> nat)
    requires i < |s|
    ensures Total(s[i := x], weight) + weight(s[i]) == Total(s, weight) + weight(x)
  {
    if i == 0 {
      assert s[i := x][1..] == s[1..];
    } else {
      assert s[i := x][1..] == s[1..][i - 1 := x];
      TotalUpdate(s[1..], i - 1, x, weight);
    }
  }

  lemma {:induction false} TotalAtLeast<T>(s: seq<T>, i: nat, weight: T -> nat)
    requires i < |s|
    ensures weight(s[i]) <= Total(s, weight)
  {
    if i > 0 { TotalAtLeast(s[1..], i - 1, weight); }
  }

  lemma {:induction false} TotalOfNothing<T>(s: seq<T>, weight: T -> nat)
    requires forall i :: 0 <= i < |s| ==> weight(s[i]) == 0
    ensures Total(s, weight) == 0
  {
    if |s| > 0 { TotalOfNothing(s[1..], weight); }
  }

  // --------------------------------------------------------------- one step

  /** No thread ever waits for another: whatever the counters hold, each can take its next step, and a
      compare-exchange may fail at any time and succeeds exactly when nobody moved the counter. */
  lemma NeverBlocked(s: State, i: nat)
    requires i < |s.threads|
    ensures match s.threads[i]
      case Idle =>
        && (forall size: nat :: size < 18446744073709551616 <==> Enabled(s, i, CountDepth(size)))
        && (Enabled(s, i, Receive) <==> |s.channel| > 0)
      case DepthCounted(_) => Enabled(s, i, CountBytes)
      case Accounted(_) => Enabled(s, i, Publish) && Enabled(s, i, Refuse)
      case LoadingDepth(_) => forall observed: nat :: Enabled(s, i, Load(observed))
      case LoadingBytes(_) => forall observed: nat :: Enabled(s, i, Load(observed))
      case SwappingDepth(_, current) =>
        (forall observed: nat :: Enabled(s, i, Retry(observed))) && (Enabled(s, i, Exchange) <==> current == s.depth)
      case SwappingBytes(_, current) =>
        (forall observed: nat :: Enabled(s, i, Retry(observed))) && (Enabled(s, i, Exchange) <==> current == s.bytes)
  {
  }

  /** The saturating subtraction never clamps while the counters are exact. */
  lemma NeverClamps(s: State, i: nat)
    requires Exact(s) && Enabled(s, i, Exchange)
    ensures s.threads[i].SwappingDepth? ==> s.threads[i].current >= 1
    ensures s.threads[i].SwappingBytes? ==> s.threads[i].current >= s.threads[i].size
  {
    TotalAtLeast(s.threads, i, DepthHeld);
    TotalAtLeast(s.threads, i, BytesHeld);
  }

  /** A step keeps the counters exact exactly when what is then outstanding fits them. */
  lemma StepKeepsExact(s: State, i: nat, a: Action)
    requires Exact(s) && Fits(s) && Enabled(s, i, a)
    ensures Exact(Next(s, i, a)) <==> Fits(Next(s, i, a))
  {
    var t := Next(s, i, a);
    TotalUpdate(s.threads, i, t.threads[i], DepthHeld);
    TotalUpdate(s.threads, i, t.threads[i], BytesHeld);
    match a
    case Publish => TotalAppend(s.channel, s.threads[i].size, Size);
    case Exchange => NeverClamps(s, i);
    case _ =>
  }

  // -------------------------------------------------------------- whole runs

  predicate Initial(s: State) {
    s.depth == 0 && s.bytes == 0 && s.channel == [] && Quiescent(s)
  }

  /** The states of a run: each follows from the one before by one step of one thread. */
  ghost predicate IsRun(states: seq<State>, steps: seq<(nat, Action)>) {
    && |states| == |steps| + 1
    && Initial(states[0])
    && forall k :: 0 <= k < |steps| ==>
         Enabled(states[k], steps[k].0, steps[k].1) && states[k + 1] == Next(states[k], steps[k].0, steps[k].1)
  }

  /** The counters are exact throughout a run exactly when what is outstanding always fits them. */
  lemma {:induction false} RunIsExact(states: seq<State>, steps: seq<(nat, Action)>)
    requires IsRun(states, steps)
    ensures (forall k :: 0 <= k < |states| ==> Exact(states[k]))
              <==> (forall k :: 0 <= k < |states| ==> Fits(states[k]))
  {
    hide Exact, Fits, Next, Enabled, Initial;
    StartsExact(states[0]);
    if forall k :: 0 <= k < |states| ==> Fits(states[k]) {
      RunStaysExact(states, steps, |steps|);
    }
    if forall k :: 0 <= k < |states| ==> Exact(states[k]) {
      RunStaysFitting(states, steps, |steps|);
    }
  }

  lemma StartsExact(s: State)
    requires Initial(s)
    ensures Exact(s) && Fits(s)
  {
    TotalOfNothing(s.threads, DepthHeld);
    TotalOfNothing(s.threads, BytesHeld);
  }

  lemma {:induction false} RunStaysExact(states: seq<State>, steps: seq<(nat, Action)>, n: nat)
    requires IsRun(states, steps) && n <= |steps|
    requires forall k :: 0 <= k <= n ==> Fits(states[k])
    ensures forall k :: 0 <= k <= n ==> Exact(states[k])
  {
    hide Exact, Fits, Next, Enabled, Initial;
    if n == 0 {
      StartsExact(states[0]);
    } else {
      RunStaysExact(states, steps, n - 1);
      StepKeepsExact(states[n - 1], steps[n - 1].0, steps[n - 1].1);
    }
  }

  lemma {:induction false} RunStaysFitting(states: seq<State>, steps: seq<(nat, Action)>, n: nat)
    requires IsRun(states, steps) && n <= |steps|
    requires forall k :: 0 <= k <= n ==> Exact(states[k])
    ensures forall k :: 0 <= k <= n ==> Fits(states[k])
  {
    hide Exact, Fits, Next, Enabled, Initial;
    if n == 0 {
      StartsExact(states[0]);
    } else {
      RunStaysFitting(states, steps, n - 1);
      StepKeepsExact(states[n - 1], steps[n - 1].0, steps[n - 1].1);
    }
  }

  /** At rest the counters are the channel's contents. */
  lemma AtRestCountersAreTheChannel(s: State)
    requires Exact(s) && Quiescent(s)
    ensures s.depth == |s.channel| && s.bytes == Total(s.channel, Size)
  {
    TotalOfNothing(s.threads, DepthHeld);
    TotalOfNothing(s.threads, BytesHeld);
  }

  /** No consumer can receive an item the counters have not seen, whatever the interleaving. */
  lemma NeverUnderCounts(states: seq<State>, steps: seq<(nat, Action)>, k: nat)
    requires IsRun(states, steps) && k < |states|
    requires forall j :: 0 <= j <= k ==> Fits(states[j])
    ensures |states[k].channel| <= states[k].depth && Total(states[k].channel, Size) <= states[k].bytes
    ensures Quiescent(states[k]) ==>
              states[k].depth == |states[k].channel| && states[k].bytes == Total(states[k].channel, Size)
  {
    RunStaysExact(states, steps, k);
    if Quiescent(states[k]) { AtRestCountersAreTheChannel(states[k]); }
  }

  // ------------------------------------------------- what the channel carries

  /** The size of the item a thread last began to account. */
  ghost function Announced(steps: seq<(nat, Action)>, i: nat): nat
    decreases |steps|
  {
    if steps == [] then 0
    else
      var (init, last) := (steps[..|steps| - 1], steps[|steps| - 1]);
      if last.0 == i && last.1.CountDepth? then last.1.size else Announced(init, i)
  }

  /** The sizes of the items sent, in order. A refused item is none of them. */
  ghost function Sent(steps: seq<(nat, Action)>): seq<nat>
    decreases |steps|
  {
    if steps == [] then []
    else
      var (init, last) := (steps[..|steps| - 1], steps[|steps| - 1]);
      if last.1.Publish? then Sent(init) + [Announced(init, last.0)] else Sent(init)
  }

  ghost function Received(steps: seq<(nat, Action)>): nat
    decreases |steps|
  {
    if steps == [] then 0
    else Received(steps[..|steps| - 1]) + if steps[|steps| - 1].1.Receive? then 1 else 0
  }

  ghost predicate HoldsAnnounced(s: State, steps: seq<(nat, Action)>) {
    forall i :: 0 <= i < |s.threads| && (s.threads[i].DepthCounted? || s.threads[i].Accounted?)
      ==> s.threads[i].size == Announced(steps, i)
  }

  /** In every run the channel holds what was sent and not yet received, in order: by the actions alone,
      nothing is lost, doubled, changed or overtaken, and no refused item gets in. */
  lemma {:induction false} ChannelIsFifo(states: seq<State>, steps: seq<(nat, Action)>, k: nat)
    requires IsRun(states, steps) && k <= |steps|
    ensures Received(steps[..k]) <= |Sent(steps[..k])|
    ensures states[k].channel == Sent(steps[..k])[Received(steps[..k])..]
    ensures HoldsAnnounced(states[k], steps[..k])
  {
    if k > 0 {
      ChannelIsFifo(states, steps, k - 1);
      assert steps[..k][..k - 1] == steps[..k - 1];
      FifoStep(states[k - 1], steps[..k - 1], steps[k - 1]);
      assert steps[..k - 1] + [steps[k - 1]] == steps[..k];
    }
  }

  lemma FifoStep(s: State, steps: seq<(nat, Action)>, step: (nat, Action))
    requires Enabled(s, step.0, step.1) && HoldsAnnounced(s, steps)
    requires Received(steps) <= |Sent(steps)| && s.channel == Sent(steps)[Received(steps)..]
    ensures var (t, more) := (Next(s, step.0, step.1), steps + [step]);
      && Received(more) <= |Sent(more)| && t.channel == Sent(more)[Received(more)..] && HoldsAnnounced(t, more)
  {
    var more := steps + [step];
    assert more[..|more| - 1] == steps;
    assert forall i :: i != step.0 ==> Announced(more, i) == Announced(steps, i);
  }

  /** A thread on its own: the step taken at each moment, and the state before it. */
  function OverflowStep(half: nat, k: nat): Action {
    match k
    case 0 => CountDepth(half)
    case 1 => CountBytes
    case 2 => Publish
    case 3 => CountDepth(half)
    case 4 => CountBytes
    case 5 => Publish
    case 6 => Receive
    case 7 => Load(2)
    case 8 => Exchange
    case 9 => Load(0)
    case _ => Exchange
  }

  function OverflowState(half: nat, k: nat): State {
    match k
    case 0 => State(0, 0, [], [Idle])
    case 1 => State(1, 0, [], [DepthCounted(half)])
    case 2 => State(1, half, [], [Accounted(half)])
    case 3 => State(1, half, [half], [Idle])
    case 4 => State(2, half, [half], [DepthCounted(half)])
    case 5 => State(2, 0, [half], [Accounted(half)])
    case 6 => State(2, 0, [half, half], [Idle])
    case 7 => State(2, 0, [half], [LoadingDepth(half)])
    case 8 => State(2, 0, [half], [SwappingDepth(half, 2)])
    case 9 => State(1, 0, [half], [LoadingBytes(half)])
    case 10 => State(1, 0, [half], [SwappingBytes(half, 0)])
    case _ => State(1, 0, [half], [Idle])
  }

  /**
   * Once what is outstanding has overflowed, the counters stay wrong at rest, also when it fits again:
   * two items of half the counter's range wrap it to zero, and deducting one of them clamps.
   */
  lemma OverflowIsNotForgotten(half: nat, states: seq<State>, steps: seq<(nat, Action)>)
    requires half == U64 / 2
    requires |states| == 12 && forall k :: 0 <= k < 12 ==> states[k] == OverflowState(half, k)
    requires |steps| == 11 && forall k :: 0 <= k < 11 ==> steps[k] == (0, OverflowStep(half, k))
    ensures IsRun(states, steps)
    ensures Quiescent(states[11]) && Fits(states[11]) && !Exact(states[11])
  {
    forall k | 0 <= k < 11
      ensures Enabled(states[k], 0, steps[k].1) && states[k + 1] == Next(states[k], 0, steps[k].1)
    {
      OverflowRuns(half, k);
    }
    var end := states[11];
    assert end == State(1, 0, [half], [Idle]);
    assert end.channel[1..] == [] && end.threads[1..] == [];
    assert Total(end.channel, Size) == half;
  }

  lemma OverflowRuns(half: nat, k: nat)
    requires half == U64 / 2 && k < 11
    ensures Enabled(OverflowState(half, k), 0, OverflowStep(half, k))
    ensures Next(OverflowState(half, k), 0, OverflowStep(half, k)) == OverflowState(half, k + 1)
  {
  }
}
