/** The outbound priority queue as a step system: enqueues, timer ticks and handler completions interleave. */
module BatchQueue {
  import opened StableSort

  datatype Item = Item(message: string, priority: real, enqueuedAt: nat)

  datatype Config = Config(maxQueueSize: nat, batchSize: nat, handlerSet: bool)

  predicate Positive(c: Config) {
    c.maxQueueSize > 0 && c.batchSize > 0
  }

  function Configured(maxQueueSize: nat, batchSize: nat, handlerSet: bool): (c: Config)
    ensures Positive(c)
  {
    Config(if maxQueueSize == 0 then 1000 else maxQueueSize, if batchSize == 0 then 10 else batchSize, handlerSet)
  }

  function Priority(i: Item): real {
    i.priority
  }

  function Min(a: nat, b: nat): nat {
    if a < b then a else b
  }

  /** The queue with its flag, the timers set and not yet fired, and the batches whose handler is still
      running; then what the calls so far have put in and taken out. */
  datatype World = World(
    queue: seq<Item>, processing: bool, timers: nat, running: seq<seq<Item>>,
    enqueued: seq<Item>, removed: seq<Item>, delivered: seq<Item>, failures: nat)

  const START := World([], false, 0, [], [], [], [], 0)

  datatype Event =
    | Enqueue(item: Item)
    | Tick             // a timer fires and a batch is taken
    | Complete(k: nat) // the handler of a running batch is done
    | Fail(k: nat)     // the handler of a running batch throws
    | Clear

  function Full(c: Config, w: World): bool {
    |w.queue| >= c.maxQueueSize
  }

  /** Set a timer unless the flag says that processing is under way. */
  function Schedule(w: World): World {
    if w.processing then w else w.(processing := true, timers := w.timers + 1)
  }

  /** After a batch: another timer while messages are left, else the flag is lowered. */
  function Continue(w: World): World {
    if |w.queue| > 0 then w.(timers := w.timers + 1) else w.(processing := false)
  }

  function Batch(c: Config, w: World): seq<Item> {
    w.queue[..Min(c.batchSize, |w.queue|)]
  }

  function TakeBatch(c: Config, w: World): World {
    if w.queue == [] then w.(processing := false)
    else
      var batch := Batch(c, w);
      var taken := w.(queue := w.queue[|batch|..], removed := w.removed + batch);
      if c.handlerSet then taken.(running := w.running + [batch]) else Continue(taken)
  }

  function Finished(w: World, k: nat): World
    requires k < |w.running|
  {
    w.(running := w.running[..k] + w.running[k + 1..])
  }

  function Step(c: Config, w: World, e: Event): World {
    match e
    case Enqueue(item) =>
      if Full(c, w) then w
      else Schedule(w.(queue := Sort(w.queue + [item], Priority), enqueued := w.enqueued + [item]))
    case Tick => if w.timers == 0 then w else TakeBatch(c, w.(timers := w.timers - 1))
    case Complete(k) =>
      if k >= |w.running| then w else Continue(Finished(w, k).(delivered := w.delivered + w.running[k]))
    case Fail(k) => if k >= |w.running| then w else Finished(w, k).(failures := w.failures + 1)
    case Clear => w.(queue := [], removed := w.removed + w.queue)
  }

  function Run(c: Config, events: seq<Event>): World {
    if events == [] then START else Step(c, Run(c, events[..|events| - 1]), events[|events| - 1])
  }

  // ------------------------------------------------------- order and content

  /** What was put in with one priority is what was taken out followed by what is queued, in the same order. */
  predicate FirstInFirstOut(removed: seq<Item>, queue: seq<Item>, enqueued: seq<Item>, p: real) {
    OfKey(removed + queue, Priority, p) == OfKey(enqueued, Priority, p)
  }

  ghost predicate InOrder(c: Config, w: World) {
    && Sorted(w.queue, Priority)
    && |w.queue| <= c.maxQueueSize
    && forall p :: FirstInFirstOut(w.removed, w.queue, w.enqueued, p)
  }

  lemma {:induction false} OfKeyConcat(a: seq<Item>, b: seq<Item>, p: real)
    ensures OfKey(a + b, Priority, p) == OfKey(a, Priority, p) + OfKey(b, Priority, p)
  {
    if b == [] {
      assert a + b == a;
    } else {
      OfKeyConcat(a, b[..|b| - 1], p);
      assert (a + b)[..|a + b| - 1] == a + b[..|b| - 1];
    }
  }

  lemma EnqueueInOrder(w: World, item: Item, p: real)
    requires FirstInFirstOut(w.removed, w.queue, w.enqueued, p)
    ensures FirstInFirstOut(w.removed, Sort(w.queue + [item], Priority), w.enqueued + [item], p)
  {
    SortLaws(w.queue + [item], Priority);
    OfKeyConcat(w.removed, Sort(w.queue + [item], Priority), p);
    OfKeyAppend(w.queue, item, Priority, p);
    OfKeyConcat(w.removed, w.queue, p);
    OfKeyAppend(w.enqueued, item, Priority, p);
  }

  lemma RemoveInOrder(removed: seq<Item>, queue: seq<Item>, enqueued: seq<Item>, n: nat)
    requires n <= |queue| && forall p :: FirstInFirstOut(removed, queue, enqueued, p)
    ensures forall p :: FirstInFirstOut(removed + queue[..n], queue[n..], enqueued, p)
  {
    assert (removed + queue[..n]) + queue[n..] == removed + queue;
    forall p ensures FirstInFirstOut(removed + queue[..n], queue[n..], enqueued, p) {
      assert FirstInFirstOut(removed, queue, enqueued, p);
    }
  }

  lemma StepInOrder(c: Config, w: World, e: Event)
    requires InOrder(c, w)
    ensures InOrder(c, Step(c, w, e))
  {
    match e
    case Enqueue(item) =>
      if !Full(c, w) {
        SortLaws(w.queue + [item], Priority);
        forall p ensures FirstInFirstOut(w.removed, Sort(w.queue + [item], Priority), w.enqueued + [item], p) {
          EnqueueInOrder(w, item, p);
        }
      }
    case Tick => RemoveInOrder(w.removed, w.queue, w.enqueued, |Batch(c, w)|);
    case Clear =>
      RemoveInOrder(w.removed, w.queue, w.enqueued, |w.queue|);
      assert w.queue[..|w.queue|] == w.queue && w.queue[|w.queue|..] == [];
    case _ =>
  }

  lemma {:induction false} RunInOrder(c: Config, events: seq<Event>)
    ensures InOrder(c, Run(c, events))
  {
    if events != [] {
      RunInOrder(c, events[..|events| - 1]);
      StepInOrder(c, Run(c, events[..|events| - 1]), events[|events| - 1]);
    }
  }

  /** A batch holds the `batchSize` least elements of the queue, or all of them. */
  lemma BatchIsLeast(c: Config, events: seq<Event>, w: World)
    requires Positive(c) && w == Run(c, events)
    ensures |Batch(c, w)| == Min(c.batchSize, |w.queue|) && Batch(c, w) <= w.queue
    ensures forall i, j :: 0 <= i < |Batch(c, w)| <= j < |w.queue| ==> Batch(c, w)[i].priority <= w.queue[j].priority
  {
    RunInOrder(c, events);
    assert Sorted(w.queue, Priority);
    forall i, j | 0 <= i < |Batch(c, w)| <= j < |w.queue| ensures Batch(c, w)[i].priority <= w.queue[j].priority {
      assert Priority(w.queue[i]) <= Priority(w.queue[j]);
    }
  }

  /** Options that are not given, or zero, are a queue of 1000 and batches of 10. */
  lemma OptionsOrDefaults(maxQueueSize: nat, batchSize: nat, handlerSet: bool)
    ensures var c := Configured(maxQueueSize, batchSize, handlerSet);
            && c.maxQueueSize == (if maxQueueSize > 0 then maxQueueSize else 1000)
            && c.batchSize == (if batchSize > 0 then batchSize else 10) && c.handlerSet == handlerSet
  {
  }

  // ------------------------------------------------------ what is accepted

  lemma RunNext(c: Config, events: seq<Event>, e: Event)
    ensures Run(c, events + [e]) == Step(c, Run(c, events), e)
  {
    assert (events + [e])[..|events|] == events;
  }

  /** After any run a message is accepted exactly if fewer than `maxQueueSize` are queued: then it counts as
      enqueued, is in the queue with all that were there, and processing is under way; otherwise nothing
      changes. */
  lemma AcceptsExactly(c: Config, events: seq<Event>, item: Item, w: World, w': World)
    requires w == Run(c, events) && w' == Run(c, events + [Enqueue(item)])
    ensures |w.queue| < c.maxQueueSize ==>
      && w'.enqueued == w.enqueued + [item] && multiset(w'.queue) == multiset(w.queue) + multiset{item}
      && |w'.queue| == |w.queue| + 1 && w'.processing && w'.timers == w.timers + (if w.processing then 0 else 1)
      && w' == w.(enqueued := w'.enqueued, queue := w'.queue, processing := true, timers := w'.timers)
    ensures |w.queue| >= c.maxQueueSize ==> w' == w
  {
    RunNext(c, events, Enqueue(item));
    SortLaws(w.queue + [item], Priority);
    assert multiset(w.queue + [item]) == multiset(w.queue) + multiset{item};
  }

  /** Enqueues with nothing in between. */
  function Enqueues(items: seq<Item>): seq<Event> {
    if items == [] then [] else Enqueues(items[..|items| - 1]) + [Enqueue(items[|items| - 1])]
  }

  lemma FirstOnes(items: seq<Item>, max: nat)
    requires items != []
    ensures var before := items[..|items| - 1];
            items[..Min(|items|, max)]
            == before[..Min(|before|, max)] + if |before| < max then [items[|items| - 1]] else []
  {
  }

  lemma OneMoreEnqueued(c: Config, before: seq<Item>, item: Item, w: World, w': World)
    requires w == Run(c, Enqueues(before)) && w' == Run(c, Enqueues(before + [item]))
    ensures if |w.queue| < c.maxQueueSize
            then w'.enqueued == w.enqueued + [item] && |w'.queue| == |w.queue| + 1 else w' == w
  {
    assert (before + [item])[..|before|] == before;
    AcceptsExactly(c, Enqueues(before), item, w, w');
  }

  /** Of messages enqueued from the start the first `maxQueueSize` are accepted and the others refused. */
  lemma {:induction false} FillsUp(c: Config, items: seq<Item>)
    ensures var w := Run(c, Enqueues(items));
            w.enqueued == items[..Min(|items|, c.maxQueueSize)] && |w.queue| == Min(|items|, c.maxQueueSize)
  {
    if items != [] {
      var before, item := items[..|items| - 1], items[|items| - 1];
      FillsUp(c, before);
      FirstOnes(items, c.maxQueueSize);
      assert before + [item] == items;
      OneMoreEnqueued(c, before, item, Run(c, Enqueues(before)), Run(c, Enqueues(items)));
    }
  }

  /** Clearing takes every queued message out for good and touches nothing else: not the messages in flight,
      not the flag, not the timer, which finds the queue empty and lowers the flag. */
  lemma ClearExactly(c: Config, events: seq<Event>, w: World, w': World, w'': World)
    requires w == Run(c, events) && w' == Run(c, events + [Clear]) && w'' == Run(c, events + [Clear] + [Tick])
    ensures w' == w.(queue := [], removed := w.removed + w.queue)
    ensures w.timers > 0 ==> w'' == w'.(timers := w.timers - 1, processing := false)
  {
    RunNext(c, events, Clear);
    RunNext(c, events + [Clear], Tick);
  }

  /** Without a handler messages are taken out in batches and never delivered. */
  lemma {:induction false} NoHandlerNoDelivery(c: Config, events: seq<Event>)
    requires !c.handlerSet
    ensures Run(c, events).delivered == [] && Run(c, events).running == []
  {
    if events != [] {
      NoHandlerNoDelivery(c, events[..|events| - 1]);
    }
  }

  // --------------------------------------------------------- timers and flag

  /** One timer or one running batch while the flag is up, nothing otherwise, and no message waits without. */
  predicate Healthy(w: World) {
    && w.timers + |w.running| == (if w.processing then 1 else 0)
    && (w.queue != [] ==> w.processing)
  }

  /** The flag is up and nobody is left to lower it. */
  predicate Stalled(w: World) {
    w.processing && w.timers == 0 && w.running == []
  }

  lemma StepHealth(c: Config, w: World, e: Event)
    requires Positive(c)
    requires if w.failures == 0 then Healthy(w) else Stalled(w)
    ensures var w' := Step(c, w, e);
            if w'.failures == 0 then Healthy(w') else Stalled(w')
  {
    if e.Enqueue? && !Full(c, w) {
      SortLaws(w.queue + [e.item], Priority);
    }
  }

  /** Over every interleaving: unless a handler has thrown, a queue that is not empty has one and only one
      pending timer or running batch; once one has thrown, it has none and never will. */
  lemma {:induction false} HealthyUntilFailure(c: Config, events: seq<Event>)
    requires Positive(c)
    ensures Run(c, events).failures == 0 <==> Healthy(Run(c, events))
    ensures Run(c, events).failures > 0 <==> Stalled(Run(c, events))
  {
    if events != [] {
      HealthyUntilFailure(c, events[..|events| - 1]);
      StepHealth(c, Run(c, events[..|events| - 1]), events[|events| - 1]);
    }
  }

  /** After a failure messages are still accepted and none is delivered again. */
  lemma StalledDeliversNothing(c: Config, w: World, e: Event)
    requires Stalled(w)
    ensures Stalled(Step(c, w, e)) && Step(c, w, e).delivered == w.delivered && Step(c, w, e).failures == w.failures
  {
  }

  lemma {:induction false} NothingAfterFailure(c: Config, events: seq<Event>, more: seq<Event>)
    requires Positive(c) && Run(c, events).failures > 0
    ensures Stalled(Run(c, events + more)) && Run(c, events + more).delivered == Run(c, events).delivered
  {
    if more == [] {
      assert events + more == events;
      HealthyUntilFailure(c, events);
    } else {
      NothingAfterFailure(c, events, more[..|more| - 1]);
      assert (events + more)[..|events + more| - 1] == events + more[..|more| - 1];
      StalledDeliversNothing(c, Run(c, events + more[..|more| - 1]), more[|more| - 1]);
    }
  }

  // ------------------------------------------------------------ conservation

  function Flat(batches: seq<seq<Item>>): seq<Item> {
    if batches == [] then [] else batches[0] + Flat(batches[1..])
  }

  /** Runs in which nothing is cleared and no handler throws. */
  predicate Smooth(events: seq<Event>) {
    forall k :: 0 <= k < |events| ==> !events[k].Clear? && !events[k].Fail?
  }

  lemma StepConserves(c: Config, w: World, e: Event)
    requires Positive(c) && c.handlerSet && Healthy(w) && !e.Clear? && !e.Fail?
    requires w.removed == w.delivered + Flat(w.running)
    ensures Step(c, w, e).removed == Step(c, w, e).delivered + Flat(Step(c, w, e).running)
  {
    match e
    case Tick =>
      if w.timers > 0 && w.queue != [] {
        assert w.running == [];
        assert Step(c, w, e).running == [Batch(c, w)];
        assert Flat([Batch(c, w)]) == Batch(c, w) + Flat([Batch(c, w)][1..]);
        assert w.delivered + [] == w.delivered;
      }
    case Complete(k) =>
      if k < |w.running| {
        assert w.running == [w.running[0]];
        assert Flat(w.running) == w.running[0] + Flat(w.running[1..]);
        assert w.running[..0] + w.running[1..] == [];
      }
    case _ =>
  }

  lemma {:induction false} RunConserves(c: Config, events: seq<Event>)
    requires Positive(c) && c.handlerSet && Smooth(events)
    ensures Run(c, events).failures == 0
    ensures Run(c, events).removed == Run(c, events).delivered + Flat(Run(c, events).running)
  {
    if events != [] {
      var before := events[..|events| - 1];
      assert !events[|events| - 1].Clear? && !events[|events| - 1].Fail?;
      RunConserves(c, before);
      HealthyUntilFailure(c, before);
      StepConserves(c, Run(c, before), events[|events| - 1]);
    }
  }

  /** With a handler that never throws and no clearing, what was enqueued is exactly what was delivered,
      what is in flight and what is queued, first come first served within each priority. */
  lemma NothingLost(c: Config, events: seq<Event>, p: real)
    requires Positive(c) && c.handlerSet && Smooth(events)
    ensures var w := Run(c, events);
            OfKey(w.delivered + Flat(w.running) + w.queue, Priority, p) == OfKey(w.enqueued, Priority, p)
  {
    RunInOrder(c, events);
    RunConserves(c, events);
    assert FirstInFirstOut(Run(c, events).removed, Run(c, events).queue, Run(c, events).enqueued, p);
  }

  // ---------------------------------------------------------------- draining

  /** A tick and the completion of the batch it took, `n` times over. */
  function Rounds(c: Config, w: World, n: nat): World
    decreases n
  {
    if n == 0 then w else Rounds(c, Step(c, Step(c, w, Tick), Complete(0)), n - 1)
  }

  lemma OneRound(c: Config, w: World)
    requires Positive(c) && c.handlerSet && Healthy(w) && w.timers == 1
    ensures var w' := Step(c, Step(c, w, Tick), Complete(0));
            && w'.queue == w.queue[Min(c.batchSize, |w.queue|)..]
            && Healthy(w') && w'.timers == (if |w.queue| > c.batchSize then 1 else 0) && w'.running == []
            && w'.delivered == w.delivered + w.queue[..Min(c.batchSize, |w.queue|)]
  {
    if w.queue != [] {
      var taken := Step(c, w, Tick);
      assert w.running == [] && taken.running == [Batch(c, w)];
      assert taken.running[..0] + taken.running[1..] == [];
    }
  }

  /** The number of batches that `n` messages need. */
  function Batches(n: nat, batchSize: nat): nat
    requires batchSize > 0
  {
    if n == 0 then 0 else 1 + Batches(n - Min(batchSize, n), batchSize)
  }

  lemma {:induction false} BatchesIsCeiling(n: nat, batchSize: nat)
    requires batchSize > 0
    ensures || (Batches(n, batchSize) - 1) * batchSize < n <= Batches(n, batchSize) * batchSize
            || n == Batches(n, batchSize) == 0
  {
    if n > 0 {
      BatchesIsCeiling(n - Min(batchSize, n), batchSize);
      Factor(Batches(n - Min(batchSize, n), batchSize), batchSize);
    }
  }

  lemma Factor(k: nat, b: nat)
    ensures (k + 1) * b == k * b + b && (k - 1) * b == k * b - b
  {
  }

  /** With nothing new enqueued, the queue is delivered in its order and is empty after as many batches as
      its length divided by the batch size, rounded up, and not before. */
  lemma {:induction false} Drains(c: Config, w: World, n: nat)
    requires Positive(c) && c.handlerSet && Healthy(w) && w.timers == 1 && w.queue != []
    requires n <= Batches(|w.queue|, c.batchSize)
    ensures Rounds(c, w, n).queue == [] <==> n == Batches(|w.queue|, c.batchSize)
    ensures Rounds(c, w, n).delivered + Rounds(c, w, n).queue == w.delivered + w.queue
    ensures n == Batches(|w.queue|, c.batchSize) ==> !Rounds(c, w, n).processing && Rounds(c, w, n).timers == 0
    decreases n
  {
    if n > 0 {
      var w' := Step(c, Step(c, w, Tick), Complete(0));
      OneRound(c, w);
      assert w'.delivered + w'.queue == w.delivered + w.queue;
      if w'.queue != [] {
        Drains(c, w', n - 1);
      }
    }
  }
}
