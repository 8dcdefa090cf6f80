/** The queue object, split at the `await` of its batch handler; timers and running handlers are counted,
    and ghost fields record what went in and out. */
module MessageQueue {
  import opened StableSort
  import opened BatchQueue

  class MessageQueue {
    const config: Config
    const batchIntervalMs: nat
    var queue: seq<Item>
    var processing: bool
    var timers: nat
    var running: seq<seq<Item>>
    ghost var enqueued: seq<Item>
    ghost var removed: seq<Item>
    ghost var delivered: seq<Item>
    ghost var failures: nat

    ghost function Contents(): World
      reads this
    {
      World(queue, processing, timers, running, enqueued, removed, delivered, failures)
    }

    constructor (maxQueueSize: nat, batchSize: nat, interval: nat, handlerSet: bool)
      ensures batchIntervalMs == (if interval == 0 then 100 else interval)
      ensures config == Configured(maxQueueSize, batchSize, handlerSet) && Contents() == Run(config, [])
    {
      config := Configured(maxQueueSize, batchSize, handlerSet);
      batchIntervalMs := if interval == 0 then 100 else interval;
      queue, processing, timers, running := [], false, 0, [];
      enqueued, removed, delivered, failures := [], [], [], 0;
    }

    /** Refused when the queue is full. */
    method EnqueueItem(item: Item) returns (ok: bool)
      modifies this
      ensures ok <==> |old(queue)| < config.maxQueueSize
      ensures ok ==> multiset(queue) == multiset(old(queue)) + multiset{item} && enqueued == old(enqueued) + [item]
      ensures !ok ==> Contents() == old(Contents())
      ensures Contents() == Step(config, old(Contents()), Enqueue(item))
    {
      if |queue| >= config.maxQueueSize {
        return false;
      }
      queue := queue + [item];
      SortLaws(queue, Priority);
      assert multiset(queue) == multiset(old(queue)) + multiset{item};
      queue := Sort(queue, Priority);
      enqueued := enqueued + [item];
      ScheduleBatchProcess();
      ok := true;
    }

    method ScheduleBatchProcess()
      modifies this`processing, this`timers
      ensures Contents() == Schedule(old(Contents()))
    {
      if !processing {
        processing := true;
        timers := timers + 1;
      }
    }

    /** A timer fires: the batch is cut off the front and handed to the handler, if there is one. */
    method ProcessBatch()
      requires timers > 0
      modifies this
      ensures Contents() == Step(config, old(Contents()), Tick)
    {
      timers := timers - 1;
      if |queue| == 0 {
        processing := false;
        return;
      }
      var size := if config.batchSize < |queue| then config.batchSize else |queue|;
      var batch := queue[..size];
      queue := queue[size..];
      removed := removed + batch;
      if config.handlerSet {
        running := running + [batch];
      } else {
        ContinueProcessing();
      }
    }

    /** The handler of a running batch returns, and the rest of the call runs. */
    method BatchHandled(k: nat)
      requires k < |running|
      modifies this
      ensures Contents() == Step(config, old(Contents()), Complete(k))
    {
      delivered := delivered + running[k];
      running := running[..k] + running[k + 1..];
      ContinueProcessing();
    }

    /** The handler of a running batch throws: the rest of the call does not run. */
    method HandlerThrew(k: nat)
      requires k < |running|
      modifies this
      ensures Contents() == Step(config, old(Contents()), Fail(k))
      ensures processing == old(processing) && timers == old(timers)
    {
      running := running[..k] + running[k + 1..];
      failures := failures + 1;
    }

    method ContinueProcessing()
      modifies this`processing, this`timers
      ensures Contents() == Continue(old(Contents()))
    {
      if |queue| > 0 {
        timers := timers + 1;
      } else {
        processing := false;
      }
    }

    method ClearQueue()
      modifies this
      ensures Contents() == Step(config, old(Contents()), Clear)
    {
      removed := removed + queue;
      queue := [];
    }
  }
}
