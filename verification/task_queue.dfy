/**
 * The batching task queue: tasks are added under an id that may not already
 * be in flight, and when the collection delay ends the whole queue is taken
 * and handed to the processor in consecutive batches, until one is
 * rejected. The processor is a parameter; the timers are left out, so the
 * batches of a drain run back to back.
 */
module TaskQueue {
  import opened Base
  import opened Strings
  import opened Seqs
  import Arith

  datatype Config = Config(batchSize: int, delay: int, processingDelay: int)

  const DEFAULT_CONFIG := Config(3, 1000, 500)

  /** The fields a caller may override. */
  datatype ConfigPatch = ConfigPatch(batchSize: Option<int>, delay: Option<int>, processingDelay: Option<int>)

  /** `{ ...DEFAULT_CONFIG, ...config }`. */
  function MakeConfig(patch: ConfigPatch): (r: Config)
    ensures r.batchSize == patch.batchSize.GetOr(3)
    ensures r.delay == patch.delay.GetOr(1000)
    ensures r.processingDelay == patch.processingDelay.GetOr(500)
  {
    Config(patch.batchSize.GetOr(DEFAULT_CONFIG.batchSize), patch.delay.GetOr(DEFAULT_CONFIG.delay),
      patch.processingDelay.GetOr(DEFAULT_CONFIG.processingDelay))
  }

  datatype Item<D> = Item(id: string, data: D)

  /** What the processor reports for one task. */
  datatype Outcome = Outcome(id: string, success: bool)

  /** One task's completion callback call: its id and the success flag it received. */
  datatype Completion = Completion(id: string, success: bool)

  datatype QueueState<D> = QueueState(queue: seq<Item<D>>, processing: set<string>, isProcessing: bool)

  function Ids<D>(items: seq<Item<D>>): (r: set<string>)
    ensures forall id :: id in r <==> exists k :: 0 <= k < |items| && items[k].id == id
  {
    set k | 0 <= k < |items| :: items[k].id
  }

  /**
   * `addTask`: an id already in flight is refused and nothing changes;
   * otherwise it is marked in flight and queued at the end.
   */
  function AddTask<D>(s: QueueState<D>, id: string, data: D): (r: (bool, QueueState<D>))
    ensures !r.0 <==> id in s.processing
    ensures !r.0 ==> r.1 == s
    ensures r.0 ==> r.1.queue == s.queue + [Item(id, data)] && r.1.processing == s.processing + {id}
    ensures r.1.isProcessing == s.isProcessing
  {
    if id in s.processing then (false, s)
    else (true, s.(queue := s.queue + [Item(id, data)], processing := s.processing + {id}))
  }

  /** Adding never takes an id out of flight, and an id stays in flight until its completion runs. */
  lemma AddKeepsInFlight<D>(s: QueueState<D>, id: string, data: D, other: string)
    requires other in s.processing
    ensures other in AddTask(s, id, data).1.processing
    ensures !AddTask(s, other, data).0
  {
  }

  /**
   * `result?.success || false` for the first result with the item's id:
   * that result's flag decides, whatever later results with the id say.
   */
  function SuccessOf(results: seq<Outcome>, id: string): (r: bool)
    ensures r ==> exists o :: o in results && o.id == id && o.success
    ensures (forall o :: o in results ==> o.id != id) ==> !r
    ensures forall i :: 0 <= i < |results| && results[i].id == id && NoneBefore(results, id, i) ==> r == results[i].success
    decreases |results|
  {
    if results == [] then false
    else if results[0].id == id then results[0].success
    else
      var r := SuccessOf(results[1..], id);
      assert forall i :: 1 <= i < |results| && NoneBefore(results, id, i) ==> NoneBefore(results[1..], id, i - 1);
      r
  }

  /** No result before position `i` carries the id. */
  predicate NoneBefore(results: seq<Outcome>, id: string, i: nat)
    requires i <= |results|
  {
    forall j :: 0 <= j < i ==> results[j].id != id
  }

  /** The completions of one batch, in batch order. */
  function CompleteBatch<D>(batch: seq<Item<D>>, results: seq<Outcome>): (r: seq<Completion>)
    ensures |r| == |batch|
    ensures forall j :: 0 <= j < |batch| ==> r[j] == Completion(batch[j].id, SuccessOf(results, batch[j].id))
  {
    seq(|batch|, j requires 0 <= j < |batch| => Completion(batch[j].id, SuccessOf(results, batch[j].id)))
  }

  /**
   * What the processor does with a batch: the results it resolves with, or
   * the rejection it throws.
   */
  type Processor<!D> = seq<Item<D>> -> Result<seq<Outcome>>

  /**
   * The tasks whose batch ran: the batches in turn up to the first one the
   * processor rejects. The rejection leaves the `for` loop, so no later
   * batch runs.
   */
  function RanItems<D>(batches: seq<seq<Item<D>>>, processor: Processor<D>): (r: seq<Item<D>>)
    decreases |batches|
  {
    if batches == [] || processor(batches[0]).Err? then [] else batches[0] + RanItems(batches[1..], processor)
  }

  /** The completions of the batches that ran, each against its own batch's results. */
  function CompleteAll<D>(batches: seq<seq<Item<D>>>, processor: Processor<D>): (r: seq<Completion>)
    decreases |batches|
  {
    if batches == [] || processor(batches[0]).Err? then []
    else CompleteBatch(batches[0], processor(batches[0]).value) + CompleteAll(batches[1..], processor)
  }

  /** All the results the processor reported, batch after batch, until a rejection. */
  function ResultsAll<D>(batches: seq<seq<Item<D>>>, processor: Processor<D>): (r: seq<Outcome>)
    decreases |batches|
  {
    if batches == [] || processor(batches[0]).Err? then [] else processor(batches[0]).value + ResultsAll(batches[1..], processor)
  }

  /** Whether some batch is rejected. */
  predicate SomeRejected<D>(batches: seq<seq<Item<D>>>, processor: Processor<D>)
  {
    exists k :: 0 <= k < |batches| && processor(batches[k]).Err?
  }

  /**
   * Every task whose batch ran gets exactly one completion, in queue order;
   * the tasks that ran are a prefix of the queue, all of it when no batch
   * is rejected, and a strict prefix when one is and batches are not empty.
   */
  lemma {:induction false} CompletionsFollowQueue<D>(batches: seq<seq<Item<D>>>, processor: Processor<D>)
    ensures var ran := RanItems(batches, processor);
      |CompleteAll(batches, processor)| == |ran|
      && (forall k :: 0 <= k < |ran| ==> CompleteAll(batches, processor)[k].id == ran[k].id)
      && |ran| <= |Flatten(batches)| && ran == Flatten(batches)[..|ran|]
    ensures !SomeRejected(batches, processor) ==> RanItems(batches, processor) == Flatten(batches)
    ensures SomeRejected(batches, processor) && (forall k :: 0 <= k < |batches| ==> batches[k] != []) ==>
      |RanItems(batches, processor)| < |Flatten(batches)|
    decreases |batches|
  {
    if batches != [] && processor(batches[0]).Err? {
      assert SomeRejected(batches, processor);
      if forall k :: 0 <= k < |batches| ==> batches[k] != [] {
        assert batches[0] != [];
        assert Flatten(batches) == batches[0] + Flatten(batches[1..]);
      }
    } else if batches != [] {
      CompletionsFollowQueue(batches[1..], processor);
      var head := CompleteBatch(batches[0], processor(batches[0]).value);
      var tail := CompleteAll(batches[1..], processor);
      var ran := RanItems(batches, processor);
      assert ran == batches[0] + RanItems(batches[1..], processor);
      assert Flatten(batches) == batches[0] + Flatten(batches[1..]);
      forall k | 0 <= k < |ran|
        ensures CompleteAll(batches, processor)[k].id == ran[k].id
      {
        if k >= |batches[0]| {
          assert CompleteAll(batches, processor)[k] == tail[k - |head|];
        }
      }
      if SomeRejected(batches, processor) {
        var k :| 0 <= k < |batches| && processor(batches[k]).Err?;
        assert k > 0 && batches[1..][k - 1] == batches[k];
        assert SomeRejected(batches[1..], processor);
      } else {
        forall k | 0 <= k < |batches[1..]| ensures processor(batches[1..][k]).Ok? {
          assert batches[1..][k] == batches[k + 1];
        }
      }
    }
  }

  /**
   * The timer's drain: the whole queue is taken, split into consecutive
   * batches of `batchSize`, each handed to the processor in turn, and each
   * task's completion called with the success its batch reported for it
   * (false when none), which takes its id out of flight. A batch the
   * processor rejects ends the drain: it and every later batch get no
   * completion, and their ids stay in flight. Either way the queue is left
   * not processing.
   */
  method Drain<D>(s: QueueState<D>, config: Config, processor: Processor<D>)
    returns (r: QueueState<D>, batches: seq<seq<Item<D>>>, completions: seq<Completion>, results: seq<Outcome>)
    requires config.batchSize > 0
    ensures batches == Chunks(s.queue, config.batchSize)
    ensures |batches| == Arith.CeilDiv(|s.queue|, config.batchSize)
    ensures completions == CompleteAll(batches, processor) && results == ResultsAll(batches, processor)
    ensures var n := |completions|;
      n <= |s.queue| && (forall k :: 0 <= k < n ==> completions[k].id == s.queue[k].id)
      && r.processing == s.processing - Ids(s.queue[..n])
    ensures !SomeRejected(batches, processor) ==> |completions| == |s.queue| && r.processing == s.processing - Ids(s.queue)
    ensures SomeRejected(batches, processor) ==> |completions| < |s.queue|
    ensures r.queue == [] && !r.isProcessing
  {
    batches := Chunks(s.queue, config.batchSize);
    ChunkCount(s.queue, config.batchSize);
    CompletionsFollowQueue(batches, processor);
    completions := [];
    results := [];
    var done: seq<Item<D>> := [];
    var processing := s.processing;
    var k := 0;
    while k < |batches|
      invariant 0 <= k <= |batches|
      invariant completions + CompleteAll(batches[k..], processor) == CompleteAll(batches, processor)
      invariant results + ResultsAll(batches[k..], processor) == ResultsAll(batches, processor)
      invariant done + RanItems(batches[k..], processor) == RanItems(batches, processor)
      invariant processing == s.processing - Ids(done)
      decreases |batches| - k
    {
      var batch := batches[k];
      var outcome := processor(batch);
      if outcome.Err? {
        assert batches[k..][0] == batch;
        break;
      }
      DrainStep(batches, k, processor, completions, results, done);
      completions := completions + CompleteBatch(batch, outcome.value);
      results := results + outcome.value;
      IdsAppend(done, batch);
      done := done + batch;
      processing := processing - Ids(batch);
      k := k + 1;
    }
    assert RanItems(batches[k..], processor) == [] && CompleteAll(batches[k..], processor) == [];
    assert ResultsAll(batches[k..], processor) == [];
    assert done == RanItems(batches, processor);
    r := QueueState([], processing, false);
  }

  /** Running batch `k`, which the processor accepts, keeps the accumulated completions, results and items in step with the batches still to run. */
  lemma DrainStep<D>(batches: seq<seq<Item<D>>>, k: nat, processor: Processor<D>,
                     completions: seq<Completion>, results: seq<Outcome>, done: seq<Item<D>>)
    requires k < |batches| && processor(batches[k]).Ok?
    requires completions + CompleteAll(batches[k..], processor) == CompleteAll(batches, processor)
    requires results + ResultsAll(batches[k..], processor) == ResultsAll(batches, processor)
    requires done + RanItems(batches[k..], processor) == RanItems(batches, processor)
    ensures (completions + CompleteBatch(batches[k], processor(batches[k]).value)) + CompleteAll(batches[k + 1..], processor) == CompleteAll(batches, processor)
    ensures (results + processor(batches[k]).value) + ResultsAll(batches[k + 1..], processor) == ResultsAll(batches, processor)
    ensures (done + batches[k]) + RanItems(batches[k + 1..], processor) == RanItems(batches, processor)
  {
    var rest := batches[k..];
    assert rest[1..] == batches[k + 1..] && rest[0] == batches[k];
    Shift(completions, CompleteBatch(batches[k], processor(batches[k]).value), CompleteAll(batches[k + 1..], processor), CompleteAll(batches, processor));
    Shift(results, processor(batches[k]).value, ResultsAll(batches[k + 1..], processor), ResultsAll(batches, processor));
    Shift(done, batches[k], RanItems(batches[k + 1..], processor), RanItems(batches, processor));
  }

  /** Moving the head of what is left onto what is done. */
  lemma Shift<T>(acc: seq<T>, head: seq<T>, tail: seq<T>, whole: seq<T>)
    requires acc + (head + tail) == whole
    ensures (acc + head) + tail == whole
  {
    assert acc + (head + tail) == (acc + head) + tail;
  }

  /** The ids of two lists together. */
  lemma IdsAppend<D>(a: seq<Item<D>>, b: seq<Item<D>>)
    ensures Ids(a + b) == Ids(a) + Ids(b)
  {
    forall id | id in Ids(a + b) ensures id in Ids(a) + Ids(b) {
      var k :| 0 <= k < |a + b| && (a + b)[k].id == id;
      if k >= |a| {
        assert b[k - |a|].id == id;
      }
    }
    forall id | id in Ids(b) ensures id in Ids(a + b) {
      var k :| 0 <= k < |b| && b[k].id == id;
      assert (a + b)[|a| + k].id == id;
    }
    forall id | id in Ids(a) ensures id in Ids(a + b) {
      var k :| 0 <= k < |a| && a[k].id == id;
      assert (a + b)[k].id == id;
    }
  }

  /** Successes and failures of a drain together are all its results. */
  function SuccessCounts(results: seq<Outcome>): (r: (nat, nat))
    ensures r.0 == Count((o: Outcome) => o.success, results)
    ensures r.1 == Count((o: Outcome) => !o.success, results)
    ensures r.0 + r.1 == |results|
  {
    CountSplit(results);
    (Count((o: Outcome) => o.success, results), |results| - Count((o: Outcome) => o.success, results))
  }

  lemma {:induction false} CountSplit(results: seq<Outcome>)
    ensures Count((o: Outcome) => o.success, results) + Count((o: Outcome) => !o.success, results) == |results|
    decreases |results|
  {
    if results != [] {
      CountSplit(results[1..]);
    }
  }

  /** The message after a drain of several tasks. */
  function BatchSummary(results: seq<Outcome>): (r: string)
    ensures SuccessCounts(results).1 == 0 ==> r == "批量处理完成，成功 " + NatToString(SuccessCounts(results).0) + " 个任务"
    ensures SuccessCounts(results).1 != 0 ==>
      r == "批量处理完成，成功 " + NatToString(SuccessCounts(results).0) + " 个，失败 " + NatToString(SuccessCounts(results).1) + " 个"
  {
    var (ok, failed) := SuccessCounts(results);
    if failed == 0 then "批量处理完成，成功 " + NatToString(ok) + " 个任务"
    else "批量处理完成，成功 " + NatToString(ok) + " 个，失败 " + NatToString(failed) + " 个"
  }

  /** `cleanup`: nothing queued, nothing in flight, not processing; afterwards no id is in flight, so any may be added again. */
  function Cleanup<D>(s: QueueState<D>): (r: QueueState<D>)
    ensures r.queue == [] && r.processing == {} && !r.isProcessing
    ensures forall id :: id !in r.processing
  {
    QueueState([], {}, false)
  }
}
