// The bounded worker pool of the discovery client: workers that share one index into the items.
// A worker runs without interruption from one await to the next, so its steps are: take the next
// item and start its task, see that task finish or fail, or find no item left and stop.

module WorkerPool {
  import opened Basics

  datatype Worker = Ready | Busy(item: nat) | Stopped | Failed

  // `started` lists the items in the order their tasks were started.
  datatype Pool = Pool(index: nat, workers: seq<Worker>, started: seq<nat>, finished: set<nat>, failed: set<nat>)

  datatype Step = Take(worker: nat) | Finish(worker: nat) | Fail(worker: nat) | Stop(worker: nat)

  function WorkerCount(concurrency: int, items: nat): nat { Min(Max(concurrency, 1), items) }

  function Fresh(concurrency: int, items: nat): Pool {
    Pool(0, seq(WorkerCount(concurrency, items), _ => Ready), [], {}, {})
  }

  predicate Enabled(items: nat, p: Pool, step: Step) {
    step.worker < |p.workers|
    && match step
       case Take(w) => p.workers[w].Ready? && p.index < items
       case Finish(w) => p.workers[w].Busy?
       case Fail(w) => p.workers[w].Busy?
       case Stop(w) => p.workers[w].Ready? && p.index >= items
  }

  function Apply(items: nat, p: Pool, step: Step): Pool
    requires Enabled(items, p, step)
  {
    match step
    case Take(w) =>
      p.(index := p.index + 1, workers := p.workers[w := Busy(p.index)], started := p.started + [p.index])
    case Finish(w) => p.(workers := p.workers[w := Ready], finished := p.finished + {p.workers[w].item})
    case Fail(w) => p.(workers := p.workers[w := Failed], failed := p.failed + {p.workers[w].item})
    case Stop(w) => p.(workers := p.workers[w := Stopped])
  }

  ghost predicate Run(concurrency: int, items: nat, steps: seq<Step>, pools: seq<Pool>) {
    |pools| == |steps| + 1 && pools[0] == Fresh(concurrency, items)
    && forall i :: 0 <= i < |steps| ==> Enabled(items, pools[i], steps[i]) && pools[i + 1] == Apply(items, pools[i], steps[i])
  }

  // ----- the invariant

  function Upto(n: nat): seq<nat> { seq(n, i requires 0 <= i < n => i) }

  function InFlight(workers: seq<Worker>): set<nat> { set w | 0 <= w < |workers| && workers[w].Busy? :: workers[w].item }

  predicate Holds(p: Pool, k: nat) { k in p.finished || k in p.failed || k in InFlight(p.workers) }

  // Every item before the index is with one worker, or finished, or failed, and no other item is.
  ghost predicate Accounted(p: Pool) {
    (forall k: nat :: k < p.index <==> Holds(p, k))
    && p.finished !! p.failed && InFlight(p.workers) !! p.finished + p.failed
    && forall v, w :: 0 <= v < w < |p.workers| && p.workers[v].Busy? && p.workers[w].Busy? ==>
         p.workers[v].item != p.workers[w].item
  }

  ghost predicate Inv(concurrency: int, items: nat, p: Pool) {
    |p.workers| == WorkerCount(concurrency, items) && p.index <= items && p.started == Upto(p.index) && Accounted(p)
    && (forall w :: 0 <= w < |p.workers| && p.workers[w].Stopped? ==> p.index == items)
    && (p.failed == {} ==> forall w :: 0 <= w < |p.workers| ==> !p.workers[w].Failed?)
  }

  // The first k workers have each taken one item.
  predicate Taken(items: nat, p: Pool, k: nat) {
    k <= |p.workers| && p.index == k && p.started == Upto(k) && p.finished == {} && p.failed == {}
    && (forall w :: 0 <= w < k ==> p.workers[w] == Busy(w)) && forall w :: k <= w < |p.workers| ==> p.workers[w].Ready?
  }

  lemma {:induction false} OneTakenEach(concurrency: int, items: nat, k: nat) returns (steps: seq<Step>, pools: seq<Pool>)
    requires k <= WorkerCount(concurrency, items)
    ensures Run(concurrency, items, steps, pools) && |steps| == k && Taken(items, pools[k], k)
    ensures |pools[k].workers| == WorkerCount(concurrency, items)
  {
    if k == 0 {
      steps, pools := [], [Fresh(concurrency, items)];
    } else {
      var before, states := OneTakenEach(concurrency, items, k - 1);
      steps := before + [Take(k - 1)];
      pools := states + [Apply(items, states[k - 1], Take(k - 1))];
      assert Upto(k - 1) + [k - 1] == Upto(k);
    }
  }

  /** The bound on the tasks in flight is reached: some run has as many tasks going at once as the
      concurrency, but at least one, and as there are items. */
  lemma AllWorkersCanBeBusy(concurrency: int, items: nat)
    ensures var k := if concurrency > items then items else if concurrency >= 1 then concurrency else if items == 0 then 0 else 1;
      exists steps, pools :: Run(concurrency, items, steps, pools) && |steps| == k && Taken(items, pools[k], k)
  {
    var k := WorkerCount(concurrency, items);
    var steps, pools := OneTakenEach(concurrency, items, k);
  }

  lemma TakeInFlight(workers: seq<Worker>, w: nat, k: nat)
    requires w < |workers| && !workers[w].Busy?
    ensures InFlight(workers[w := Busy(k)]) == InFlight(workers) + {k}
  {
    var after := workers[w := Busy(k)];
    assert after[w] == Busy(k);
    forall j | j in InFlight(workers) ensures j in InFlight(after) {
      var v :| 0 <= v < |workers| && workers[v].Busy? && workers[v].item == j;
      assert after[v] == workers[v];
    }
  }

  lemma ReleaseInFlight(workers: seq<Worker>, w: nat, next: Worker)
    requires w < |workers| && workers[w].Busy? && !next.Busy?
    requires forall v :: 0 <= v < |workers| && v != w && workers[v].Busy? ==> workers[v].item != workers[w].item
    ensures InFlight(workers[w := next]) == InFlight(workers) - {workers[w].item}
  {
    var after := workers[w := next];
    forall j | j in InFlight(workers) && j != workers[w].item ensures j in InFlight(after) {
      var v :| 0 <= v < |workers| && workers[v].Busy? && workers[v].item == j;
      assert after[v] == workers[v];
    }
  }

  lemma IdleInFlight(workers: seq<Worker>, w: nat, next: Worker)
    requires w < |workers| && !workers[w].Busy? && !next.Busy?
    ensures InFlight(workers[w := next]) == InFlight(workers)
  {
    var after := workers[w := next];
    forall j | j in InFlight(workers) ensures j in InFlight(after) {
      var v :| 0 <= v < |workers| && workers[v].Busy? && workers[v].item == j;
      assert after[v] == workers[v];
    }
  }

  lemma StepKeepsAccounts(items: nat, p: Pool, step: Step)
    requires Accounted(p) && Enabled(items, p, step)
    ensures Accounted(Apply(items, p, step))
  {
    var z, w := Apply(items, p, step), step.worker;
    if step.Take? {
      TakeInFlight(p.workers, w, p.index);
      assert !Holds(p, p.index);
    } else if step.Stop? {
      IdleInFlight(p.workers, w, Stopped);
    } else {
      assert p.workers[w].item in InFlight(p.workers);
      ReleaseInFlight(p.workers, w, z.workers[w]);
    }
    forall k: nat ensures k < z.index <==> Holds(z, k) {
      assert k < p.index <==> Holds(p, k);
    }
  }

  lemma StepKeepsInv(concurrency: int, items: nat, p: Pool, step: Step)
    requires Inv(concurrency, items, p) && Enabled(items, p, step)
    ensures Inv(concurrency, items, Apply(items, p, step))
  {
    StepKeepsAccounts(items, p, step);
    assert Upto(p.index) + [p.index] == Upto(p.index + 1);
    if step.Fail? {
      assert p.workers[step.worker].item in Apply(items, p, step).failed;
    }
  }

  lemma {:induction false} InvAlways(concurrency: int, items: nat, steps: seq<Step>, pools: seq<Pool>, i: nat)
    requires Run(concurrency, items, steps, pools) && i < |pools|
    ensures Inv(concurrency, items, pools[i])
  {
    if i > 0 {
      InvAlways(concurrency, items, steps, pools, i - 1);
      StepKeepsInv(concurrency, items, pools[i - 1], steps[i - 1]);
    }
  }

  // ----- what callers rely on

  lemma {:induction false} InFlightIsBounded(workers: seq<Worker>)
    ensures |InFlight(workers)| <= |workers|
  {
    if workers != [] {
      var front, last := workers[..|workers| - 1], workers[|workers| - 1];
      InFlightIsBounded(front);
      var extra := if last.Busy? then {last.item} else {};
      assert InFlight(workers) == InFlight(front) + extra by {
        forall j ensures j in InFlight(workers) <==> j in InFlight(front) + extra {
          if j in InFlight(front) {
            var v :| 0 <= v < |front| && front[v].Busy? && front[v].item == j;
            assert workers[v] == front[v];
          }
          if last.Busy? && j == last.item {
            assert workers[|workers| - 1].item == j;
          }
        }
      }
    }
  }

  /** At any moment of any run, with tasks finishing or failing as they like: the tasks started are
      those of the first items in order, each started once, and at most
      min(max(concurrency, 1), items) of them are in flight. */
  lemma StartedOnceInOrder(concurrency: int, items: nat, steps: seq<Step>, pools: seq<Pool>, i: nat)
    requires Run(concurrency, items, steps, pools) && i < |pools|
    ensures pools[i].index <= items && pools[i].started == Upto(pools[i].index)
    ensures |InFlight(pools[i].workers)| <= Min(Max(concurrency, 1), items)
  {
    InvAlways(concurrency, items, steps, pools, i);
    InFlightIsBounded(pools[i].workers);
  }

  predicate Over(p: Pool) { forall w :: 0 <= w < |p.workers| ==> p.workers[w].Stopped? || p.workers[w].Failed? }

  /** When all workers are done, every started task has ended; and unless every worker failed, every
      item was started. Without failures every task has finished. */
  lemma WhenOver(concurrency: int, items: nat, steps: seq<Step>, pools: seq<Pool>)
    requires Run(concurrency, items, steps, pools) && Over(pools[|steps|])
    ensures var p := pools[|steps|];
      (forall k: nat :: k < p.index <==> k in p.finished || k in p.failed)
      && (p.index == items || forall w :: 0 <= w < |p.workers| ==> p.workers[w].Failed?)
      && (p.failed == {} ==> forall k: nat :: k < items <==> k in p.finished)
  {
    var p := pools[|steps|];
    InvAlways(concurrency, items, steps, pools, |steps|);
    forall k: nat ensures k < p.index <==> k in p.finished || k in p.failed {
      assert k < p.index <==> Holds(p, k);
    }
    if p.failed == {} && p.index < items {
      assert |p.workers| == 0 || p.workers[0].Stopped?;
    }
  }

  // ----- every run ends

  function Left(worker: Worker): nat {
    match worker
    case Ready => 1
    case Busy(_) => 2
    case Stopped => 0
    case Failed => 0
  }

  function Work(workers: seq<Worker>): nat {
    if workers == [] then 0 else Left(workers[0]) + Work(workers[1..])
  }

  function Measure(items: nat, p: Pool): int { 3 * (items - p.index) + Work(p.workers) }

  lemma {:induction false} WorkUpdate(workers: seq<Worker>, w: nat, next: Worker)
    requires w < |workers|
    ensures Work(workers[w := next]) == Work(workers) - Left(workers[w]) + Left(next)
  {
    if w > 0 {
      WorkUpdate(workers[1..], w - 1, next);
      assert workers[w := next][1..] == workers[1..][w - 1 := next];
    } else {
      assert workers[w := next][1..] == workers[1..];
    }
  }

  lemma StepDecreases(items: nat, p: Pool, step: Step)
    requires Enabled(items, p, step)
    ensures Measure(items, Apply(items, p, step)) < Measure(items, p)
  {
    WorkUpdate(p.workers, step.worker, Apply(items, p, step).workers[step.worker]);
  }

  lemma {:induction false} FreshWork(n: nat)
    ensures Work(seq(n, _ => Ready)) == n
  {
    if n > 0 {
      FreshWork(n - 1);
      assert seq(n, _ => Ready)[1..] == seq(n - 1, _ => Ready);
    }
  }

  lemma {:induction false} MeasureAfter(concurrency: int, items: nat, steps: seq<Step>, pools: seq<Pool>, i: nat)
    requires Run(concurrency, items, steps, pools) && i < |pools|
    ensures Measure(items, pools[i]) + i <= 3 * items + WorkerCount(concurrency, items)
  {
    if i == 0 {
      FreshWork(WorkerCount(concurrency, items));
    } else {
      MeasureAfter(concurrency, items, steps, pools, i - 1);
      StepDecreases(items, pools[i - 1], steps[i - 1]);
    }
  }

  /** A run has at most 3n + workers steps, and can only end with all workers done. */
  lemma EveryRunEnds(concurrency: int, items: nat, steps: seq<Step>, pools: seq<Pool>)
    requires Run(concurrency, items, steps, pools)
    ensures |steps| <= 3 * items + WorkerCount(concurrency, items)
    ensures (forall step :: !Enabled(items, pools[|steps|], step)) <==> Over(pools[|steps|])
  {
    var p := pools[|steps|];
    MeasureAfter(concurrency, items, steps, pools, |steps|);
    InvAlways(concurrency, items, steps, pools, |steps|);
    if !Over(p) {
      var w: nat :| w < |p.workers| && !p.workers[w].Stopped? && !p.workers[w].Failed?;
      assert Enabled(items, p, Take(w)) || Enabled(items, p, Finish(w)) || Enabled(items, p, Stop(w));
    }
  }

  // ----- the shared state, updated in place

  class SharedPool {
    const items: nat
    var index: nat
    var workers: seq<Worker>
    ghost var started: seq<nat>
    ghost var finished: set<nat>
    ghost var failed: set<nat>

    ghost function State(): Pool
      reads this
    {
      Pool(index, workers, started, finished, failed)
    }

    constructor (items: nat, concurrency: int)
      ensures State() == Fresh(concurrency, items) && this.items == items
    {
      this.items := items;
      index := 0;
      workers := seq(WorkerCount(concurrency, items), _ => Ready);
      started, finished, failed := [], {}, {};
    }

    // The body of a worker's loop up to its await: the item it starts, or none when it stops.
    method Next(worker: nat) returns (item: Option<nat>)
      requires worker < |workers| && workers[worker].Ready?
      modifies this
      ensures item == if old(index) < items then Some(old(index)) else None
      ensures State() == Apply(items, old(State()), if old(index) < items then Take(worker) else Stop(worker))
    {
      if index < items {
        item := Some(index);
        started := started + [index];
        workers := workers[worker := Busy(index)];
        index := index + 1;
      } else {
        item := None;
        workers := workers[worker := Stopped];
      }
    }

    // The await returns or throws.
    method TaskEnded(worker: nat, ok: bool)
      requires worker < |workers| && workers[worker].Busy?
      modifies this
      ensures State() == Apply(items, old(State()), if ok then Finish(worker) else Fail(worker))
    {
      if ok {
        finished := finished + {workers[worker].item};
        workers := workers[worker := Ready];
      } else {
        failed := failed + {workers[worker].item};
        workers := workers[worker := Failed];
      }
    }
  }
}
