/**
 The work-sharing loop: workers draw indices from a shared counter and run the task of each index
 they draw, one memory access at a time, in any interleaving. Every index runs exactly once, every
 run ends, and tasks with disjoint footprints leave the memory that running them in order leaves.
 */
module ParallelFor {
  import opened Layout

  // ----- what a task does to shared memory -----

  /** `Add` reads the cell and then writes it, as two accesses; `Put` only writes. */
  datatype Update = Add(at: nat, v: real) | Put(at: nat, v: real)

  type Program = seq<Update>
  type Memory = seq<real>

  predicate Fits(p: Program, size: nat) { forall k :: 0 <= k < |p| ==> p[k].at < size }

  function ApplyOne(u: Update, m: Memory): (r: Memory)
    requires u.at < |m|
    ensures |r| == |m|
  {
    m[u.at := match u case Add(at, v) => m[at] + v case Put(_, v) => v]
  }

  /** The first `k` updates of a program, with nothing in between. */
  function Apply(p: Program, m: Memory, k: nat): (r: Memory)
    requires Fits(p, |m|) && k <= |p|
    ensures |r| == |m|
  {
    if k == 0 then m else ApplyOne(p[k - 1], Apply(p, m, k - 1))
  }

  /** The tasks 0, ..., i-1 one after the other. */
  function RunAll(tasks: seq<Program>, m: Memory, i: nat): (r: Memory)
    requires i <= |tasks| && forall j :: 0 <= j < |tasks| ==> Fits(tasks[j], |m|)
    ensures |r| == |m|
  {
    if i == 0 then m else Apply(tasks[i - 1], RunAll(tasks, m, i - 1), |tasks[i - 1]|)
  }

  predicate Touches(p: Program, x: nat) { exists k :: 0 <= k < |p| && p[k].at == x }

  ghost predicate Disjoint(tasks: seq<Program>) {
    forall i, j, x :: 0 <= i < |tasks| && 0 <= j < |tasks| && Touches(tasks[i], x) && Touches(tasks[j], x) ==> i == j
  }

  /** What a cell holds depends only on what that cell held. */
  lemma {:induction false} ApplyLocal(p: Program, a: Memory, b: Memory, k: nat, x: nat)
    requires |a| == |b| && Fits(p, |a|) && k <= |p| && x < |a| && a[x] == b[x]
    ensures Apply(p, a, k)[x] == Apply(p, b, k)[x]
  {
    if k > 0 { ApplyLocal(p, a, b, k - 1, x); }
  }

  lemma {:induction false} ApplyUntouched(p: Program, m: Memory, k: nat, x: nat)
    requires Fits(p, |m|) && k <= |p| && x < |m| && !Touches(p, x)
    ensures Apply(p, m, k)[x] == m[x]
  {
    if k > 0 { ApplyUntouched(p, m, k - 1, x); }
  }

  /** After the first `i` tasks in order, a cell of task `o` holds what that task alone makes of it. */
  lemma {:induction false} RunAllAt(tasks: seq<Program>, m: Memory, i: nat, x: nat, o: nat)
    requires i <= |tasks| && (forall j :: 0 <= j < |tasks| ==> Fits(tasks[j], |m|)) && Disjoint(tasks) && x < |m|
    requires o < |tasks| && Touches(tasks[o], x)
    ensures RunAll(tasks, m, i)[x] == if o < i then Apply(tasks[o], m, |tasks[o]|)[x] else m[x]
  {
    if i > 0 {
      RunAllAt(tasks, m, i - 1, x, o);
      if i - 1 == o {
        ApplyLocal(tasks[o], RunAll(tasks, m, o), m, |tasks[o]|, x);
      } else {
        ApplyUntouched(tasks[i - 1], RunAll(tasks, m, i - 1), |tasks[i - 1]|, x);
      }
    }
  }

  lemma {:induction false} RunAllUntouched(tasks: seq<Program>, m: Memory, i: nat, x: nat)
    requires i <= |tasks| && (forall j :: 0 <= j < |tasks| ==> Fits(tasks[j], |m|)) && x < |m|
    requires forall o :: 0 <= o < |tasks| ==> !Touches(tasks[o], x)
    ensures RunAll(tasks, m, i)[x] == m[x]
  {
    if i > 0 {
      RunAllUntouched(tasks, m, i - 1, x);
      ApplyUntouched(tasks[i - 1], RunAll(tasks, m, i - 1), |tasks[i - 1]|, x);
    }
  }

  // ----- the machine -----

  /** About to draw an index; inside a task at an update, having possibly read its cell; finished. */
  datatype Worker = Drawing | Running(task: nat, pc: nat, loaded: Option<real>) | Done

  /** Where an index stands: not drawn yet, held by a worker, or completed. */
  datatype Status = Waiting | Held(worker: nat) | Finished

  /** `status`, `progress` and `runs` record, per index, where it stands, how many updates it has made, how often it has completed. */
  datatype State = State(next: nat, workers: seq<Worker>, mem: Memory, status: seq<Status>, progress: seq<nat>, runs: seq<nat>)

  function Start(n: nat, workers: nat, m: Memory): State {
    State(0, seq(workers, _ => Drawing), m, seq(n, _ => Waiting), seq(n, _ => 0), seq(n, _ => 0))
  }

  ghost predicate TypedWorker(tasks: seq<Program>, x: Worker) {
    x.Running? ==>
      && x.task < |tasks| && x.pc <= |tasks[x.task]|
      && (x.loaded.Some? ==> x.pc < |tasks[x.task]| && tasks[x.task][x.pc].Add?)
  }

  ghost predicate Typed(tasks: seq<Program>, s: State) {
    && |s.progress| == |s.runs| == |s.status| == |tasks| && (forall i :: 0 <= i < |tasks| ==> Fits(tasks[i], |s.mem|))
    && forall w :: 0 <= w < |s.workers| ==> TypedWorker(tasks, s.workers[w])
  }

  /** One atomic step of worker `w`. */
  function Step(tasks: seq<Program>, s: State, w: nat): State
    requires Typed(tasks, s) && w < |s.workers| && !s.workers[w].Done?
  {
    match s.workers[w]
    case Drawing =>
      if s.next >= |tasks| then s.(next := s.next + 1, workers := s.workers[w := Done])
      else s.(next := s.next + 1, workers := s.workers[w := Running(s.next, 0, None)], status := s.status[s.next := Held(w)])
    case Running(i, pc, loaded) =>
      assert TypedWorker(tasks, s.workers[w]);
      if pc == |tasks[i]| then
        s.(workers := s.workers[w := Drawing], status := s.status[i := Finished], runs := s.runs[i := s.runs[i] + 1])
      else
        var u := tasks[i][pc];
        if u.Add? && loaded.None? then s.(workers := s.workers[w := Running(i, pc, Some(s.mem[u.at]))])
        else
          var v := if u.Add? then loaded.value + u.v else u.v;
          s.(workers := s.workers[w := Running(i, pc + 1, None)], mem := s.mem[u.at := v], progress := s.progress[i := pc + 1])
    case Done => s
  }

  // ----- the invariant -----

  function CountDone(ws: seq<Worker>): nat {
    if ws == [] then 0 else CountDone(ws[..|ws| - 1]) + if ws[|ws| - 1].Done? then 1 else 0
  }

  /** What is recorded of index `i` agrees with the workers. */
  ghost predicate Recorded(tasks: seq<Program>, s: State, i: nat)
    requires Typed(tasks, s) && i < |tasks|
  {
    && (s.status[i].Waiting? <==> i >= s.next)
    && s.runs[i] == (if s.status[i].Finished? then 1 else 0)
    && match s.status[i]
       case Waiting => s.progress[i] == 0
       case Held(w) => w < |s.workers| && s.workers[w].Running? && s.workers[w].task == i && s.progress[i] == s.workers[w].pc
       case Finished => s.progress[i] == |tasks[i]|
  }

  /** Drawn tasks are either completed once or held by exactly one worker; undrawn tasks are untouched. */
  ghost predicate Shared(tasks: seq<Program>, s: State) {
    && Typed(tasks, s)
    && (forall i: nat :: i < |tasks| ==> Recorded(tasks, s, i))
    && (forall w: nat :: w < |s.workers| && s.workers[w].Running? ==> s.status[s.workers[w].task] == Held(w))
    && s.next == Min(s.next, |tasks|) + CountDone(s.workers)
  }

  lemma {:induction false} CountDoneUpdate(ws: seq<Worker>, w: nat, x: Worker)
    requires w < |ws| && !ws[w].Done?
    ensures CountDone(ws[w := x]) == CountDone(ws) + if x.Done? then 1 else 0
  {
    var k := |ws| - 1;
    if w < k {
      assert ws[w := x][..k] == ws[..k][w := x];
      CountDoneUpdate(ws[..k], w, x);
    } else {
      assert ws[w := x][..k] == ws[..k];
    }
  }

  lemma {:induction false} CountDoneIs(ws: seq<Worker>)
    ensures CountDone(ws) <= |ws|
    ensures CountDone(ws) == |ws| <==> forall w :: 0 <= w < |ws| ==> ws[w].Done?
    ensures (forall w :: 0 <= w < |ws| ==> !ws[w].Done?) ==> CountDone(ws) == 0
  {
    if ws != [] {
      CountDoneIs(ws[..|ws| - 1]);
      assert ws == ws[..|ws| - 1] + [ws[|ws| - 1]];
    }
  }

  lemma StepShared(tasks: seq<Program>, s: State, w: nat)
    requires Shared(tasks, s) && w < |s.workers| && !s.workers[w].Done?
    ensures Shared(tasks, Step(tasks, s, w))
  {
    var s' := Step(tasks, s, w);
    assert s'.workers == s.workers[w := s'.workers[w]];
    CountDoneUpdate(s.workers, w, s'.workers[w]);
    assert TypedWorker(tasks, s.workers[w]);
    StepTyped(tasks, s, w);
    forall i: nat | i < |tasks| ensures Recorded(tasks, s', i) {
      assert Recorded(tasks, s, i);
    }
    if s.workers[w].Drawing? && s.next < |tasks| { assert Recorded(tasks, s, s.next); }
  }

  lemma StepTyped(tasks: seq<Program>, s: State, w: nat)
    requires Typed(tasks, s) && w < |s.workers| && !s.workers[w].Done?
    ensures Typed(tasks, Step(tasks, s, w))
  {
    assert TypedWorker(tasks, s.workers[w]);
    var s' := Step(tasks, s, w);
    forall v | 0 <= v < |s'.workers| ensures TypedWorker(tasks, s'.workers[v]) {
      if v != w { assert TypedWorker(tasks, s.workers[v]); }
    }
  }

  // ----- memory -----

  /** Each cell holds what its owner's progress makes of the initial memory. */
  ghost predicate Owned(tasks: seq<Program>, s: State, m: Memory)
    requires Typed(tasks, s) && |s.mem| == |m|
  {
    && (forall i: nat :: i < |tasks| ==> s.progress[i] <= |tasks[i]|)
    && (forall i: nat, x: nat :: i < |tasks| && x < |m| && Touches(tasks[i], x) ==> s.mem[x] == Apply(tasks[i], m, s.progress[i])[x])
    && (forall x: nat :: x < |m| && (forall i: nat :: i < |tasks| ==> !Touches(tasks[i], x)) ==> s.mem[x] == m[x])
  }

  /** A value read and not yet used is what the cell still holds. */
  ghost predicate Current(tasks: seq<Program>, s: State, w: nat)
    requires Typed(tasks, s) && w < |s.workers|
  {
    assert TypedWorker(tasks, s.workers[w]);
    var x := s.workers[w];
    x.Running? && x.loaded.Some? ==> x.loaded.value == s.mem[tasks[x.task][x.pc].at]
  }

  ghost predicate Faithful(tasks: seq<Program>, s: State, m: Memory)
    requires Typed(tasks, s)
  {
    |s.mem| == |m| && Owned(tasks, s, m) && forall w: nat :: w < |s.workers| ==> Current(tasks, s, w)
  }

  lemma StartInv(tasks: seq<Program>, workers: nat, m: Memory)
    requires forall i :: 0 <= i < |tasks| ==> Fits(tasks[i], |m|)
    ensures Shared(tasks, Start(|tasks|, workers, m)) && Faithful(tasks, Start(|tasks|, workers, m), m)
  {
    var s := Start(|tasks|, workers, m);
    CountDoneIs(s.workers);
    assert forall w :: 0 <= w < |s.workers| ==> s.workers[w] == Drawing;
  }

  /** The step writes one cell: the owner's progress explains it, and no other task touches it. */
  lemma WriteOwned(tasks: seq<Program>, s: State, m: Memory, w: nat)
    requires Disjoint(tasks) && Shared(tasks, s) && Faithful(tasks, s, m) && w < |s.workers| && s.workers[w].Running?
    requires s.workers[w].pc < |tasks[s.workers[w].task]|
    requires tasks[s.workers[w].task][s.workers[w].pc].Put? || s.workers[w].loaded.Some?
    ensures Typed(tasks, Step(tasks, s, w)) && Owned(tasks, Step(tasks, s, w), m)
  {
    StepTyped(tasks, s, w);
    var s' := Step(tasks, s, w);
    var i0, pc := s.workers[w].task, s.workers[w].pc;
    assert TypedWorker(tasks, s.workers[w]) && Recorded(tasks, s, i0) && Current(tasks, s, w);
    var at := tasks[i0][pc].at;
    assert Touches(tasks[i0], at);
    forall i: nat, x: nat | i < |tasks| && x < |m| && Touches(tasks[i], x) ensures s'.mem[x] == Apply(tasks[i], m, s'.progress[i])[x] {
      if i == i0 { assert Apply(tasks[i0], m, pc + 1) == ApplyOne(tasks[i0][pc], Apply(tasks[i0], m, pc)); }
    }
  }

  lemma StepFaithful(tasks: seq<Program>, s: State, m: Memory, w: nat)
    requires Disjoint(tasks) && Shared(tasks, s) && Faithful(tasks, s, m) && w < |s.workers| && !s.workers[w].Done?
    ensures Shared(tasks, Step(tasks, s, w)) && Faithful(tasks, Step(tasks, s, w), m)
  {
    StepShared(tasks, s, w);
    var s' := Step(tasks, s, w);
    var x := s.workers[w];
    assert TypedWorker(tasks, x) && Current(tasks, s, w);
    if x.Running? && x.pc < |tasks[x.task]| && (tasks[x.task][x.pc].Put? || x.loaded.Some?) {
      WriteOwned(tasks, s, m, w);
    }
    forall v: nat | v < |s'.workers| ensures Current(tasks, s', v) {
      if v != w { OthersCurrent(tasks, s, w, v); }
    }
  }

  /** A write by one worker does not disturb what another has read: they hold different tasks. */
  lemma OthersCurrent(tasks: seq<Program>, s: State, w: nat, v: nat)
    requires Disjoint(tasks) && Shared(tasks, s) && w < |s.workers| && !s.workers[w].Done? && v < |s.workers| && v != w
    requires Current(tasks, s, v)
    ensures Typed(tasks, Step(tasks, s, w)) && Current(tasks, Step(tasks, s, w), v)
  {
    StepTyped(tasks, s, w);
    var x, y := s.workers[w], s.workers[v];
    assert TypedWorker(tasks, x) && TypedWorker(tasks, y);
    if x.Running? && x.pc < |tasks[x.task]| && y.Running? && y.loaded.Some? {
      assert s.status[x.task] == Held(w) && s.status[y.task] == Held(v);
      assert Touches(tasks[x.task], tasks[x.task][x.pc].at) && Touches(tasks[y.task], tasks[y.task][y.pc].at);
    }
  }

  // ----- runs -----

  /** A schedule names, step by step, the worker that moves; a finished worker cannot move. */
  ghost predicate Runs(tasks: seq<Program>, s: State, sched: seq<nat>)
    requires Typed(tasks, s)
    decreases |sched|
  {
    sched == [] ||
    (sched[0] < |s.workers| && !s.workers[sched[0]].Done? && (StepTyped(tasks, s, sched[0]); Runs(tasks, Step(tasks, s, sched[0]), sched[1..])))
  }

  ghost function After(tasks: seq<Program>, s: State, sched: seq<nat>): (r: State)
    requires Typed(tasks, s) && Runs(tasks, s, sched)
    ensures Typed(tasks, r) && |r.workers| == |s.workers|
    decreases |sched|
  {
    if sched == [] then s
    else
      StepTyped(tasks, s, sched[0]);
      After(tasks, Step(tasks, s, sched[0]), sched[1..])
  }

  predicate Joined(s: State) { forall w :: 0 <= w < |s.workers| ==> s.workers[w].Done? }

  lemma {:induction false} RunKeeps(tasks: seq<Program>, s: State, m: Memory, sched: seq<nat>)
    requires Disjoint(tasks) && Shared(tasks, s) && Faithful(tasks, s, m) && Runs(tasks, s, sched)
    ensures Shared(tasks, After(tasks, s, sched)) && Faithful(tasks, After(tasks, s, sched), m)
    decreases |sched|
  {
    if sched != [] {
      StepFaithful(tasks, s, m, sched[0]);
      RunKeeps(tasks, Step(tasks, s, sched[0]), m, sched[1..]);
    }
  }

  lemma {:induction false} RunShares(tasks: seq<Program>, s: State, sched: seq<nat>)
    requires Shared(tasks, s) && Runs(tasks, s, sched)
    ensures Shared(tasks, After(tasks, s, sched))
    decreases |sched|
  {
    if sched != [] {
      StepShared(tasks, s, sched[0]);
      RunShares(tasks, Step(tasks, s, sched[0]), sched[1..]);
    }
  }

  /**
   Whatever the interleaving, and whatever the tasks do to memory, once all workers have joined
   every index has run exactly once and the counter stands at n plus the number of workers.
   */
  lemma EachIndexOnce(tasks: seq<Program>, workers: nat, m: Memory, sched: seq<nat>)
    requires (forall i :: 0 <= i < |tasks| ==> Fits(tasks[i], |m|)) && workers > 0
    requires Runs(tasks, Start(|tasks|, workers, m), sched) && Joined(After(tasks, Start(|tasks|, workers, m), sched))
    ensures var s := After(tasks, Start(|tasks|, workers, m), sched);
      s.next == |tasks| + workers && forall i :: 0 <= i < |tasks| ==> s.runs[i] == 1
  {
    StartInv(tasks, workers, m);
    RunShares(tasks, Start(|tasks|, workers, m), sched);
    JoinedAll(tasks, After(tasks, Start(|tasks|, workers, m), sched));
  }

  lemma JoinedAll(tasks: seq<Program>, s: State)
    requires Shared(tasks, s) && Joined(s) && |s.workers| > 0
    ensures s.next == |tasks| + |s.workers| && forall i: nat :: i < |tasks| ==> s.status[i].Finished? && s.runs[i] == 1
  {
    CountDoneIs(s.workers);
    forall i: nat | i < |tasks| ensures s.status[i].Finished? && s.runs[i] == 1 { assert Recorded(tasks, s, i); }
  }

  /** With disjoint footprints, every interleaving leaves the memory that the tasks in index order leave. */
  lemma AnyScheduleIsSequential(tasks: seq<Program>, workers: nat, m: Memory, sched: seq<nat>)
    requires (forall i :: 0 <= i < |tasks| ==> Fits(tasks[i], |m|)) && workers > 0 && Disjoint(tasks)
    requires Runs(tasks, Start(|tasks|, workers, m), sched) && Joined(After(tasks, Start(|tasks|, workers, m), sched))
    ensures After(tasks, Start(|tasks|, workers, m), sched).mem == RunAll(tasks, m, |tasks|)
  {
    StartInv(tasks, workers, m);
    RunKeeps(tasks, Start(|tasks|, workers, m), m, sched);
    var s := After(tasks, Start(|tasks|, workers, m), sched);
    JoinedAll(tasks, s);
    forall x: nat | x < |m| ensures s.mem[x] == RunAll(tasks, m, |tasks|)[x] {
      if o: nat :| o < |tasks| && Touches(tasks[o], x) {
        assert Recorded(tasks, s, o);
        RunAllAt(tasks, m, |tasks|, x, o);
      } else {
        RunAllUntouched(tasks, m, |tasks|, x);
      }
    }
  }

  // ----- termination -----

  function TaskCost(p: Program): nat { 2 * |p| + 2 }

  /** Cost of the tasks not drawn yet. */
  function Pending(tasks: seq<Program>, next: nat): nat
    decreases |tasks| - next
  {
    if next >= |tasks| then 0 else TaskCost(tasks[next]) + Pending(tasks, next + 1)
  }

  function WorkerCost(tasks: seq<Program>, x: Worker): nat
    requires TypedWorker(tasks, x)
  {
    match x
    case Drawing => 1
    case Running(i, pc, loaded) => 2 + 2 * (|tasks[i]| - pc) - if loaded.Some? then 1 else 0
    case Done => 0
  }

  function WorkersCost(tasks: seq<Program>, ws: seq<Worker>): nat
    requires forall w :: 0 <= w < |ws| ==> TypedWorker(tasks, ws[w])
  {
    if ws == [] then 0 else WorkersCost(tasks, ws[..|ws| - 1]) + WorkerCost(tasks, ws[|ws| - 1])
  }

  /** Accesses left to perform, plus the draws. */
  function Rank(tasks: seq<Program>, s: State): nat
    requires Typed(tasks, s)
  {
    Pending(tasks, s.next) + WorkersCost(tasks, s.workers)
  }

  lemma {:induction false} WorkersCostUpdate(tasks: seq<Program>, ws: seq<Worker>, w: nat, x: Worker)
    requires w < |ws| && TypedWorker(tasks, x) && forall v :: 0 <= v < |ws| ==> TypedWorker(tasks, ws[v])
    ensures WorkersCost(tasks, ws[w := x]) == WorkersCost(tasks, ws) - WorkerCost(tasks, ws[w]) + WorkerCost(tasks, x)
  {
    var k := |ws| - 1;
    if w < k {
      assert ws[w := x][..k] == ws[..k][w := x];
      WorkersCostUpdate(tasks, ws[..k], w, x);
    } else {
      assert ws[w := x][..k] == ws[..k];
    }
  }

  lemma StepDescends(tasks: seq<Program>, s: State, w: nat)
    requires Typed(tasks, s) && w < |s.workers| && !s.workers[w].Done?
    ensures Typed(tasks, Step(tasks, s, w)) && Rank(tasks, Step(tasks, s, w)) < Rank(tasks, s)
  {
    StepTyped(tasks, s, w);
    var s' := Step(tasks, s, w);
    assert TypedWorker(tasks, s.workers[w]) && TypedWorker(tasks, s'.workers[w]);
    WorkersCostUpdate(tasks, s.workers, w, s'.workers[w]);
    assert s'.workers == s.workers[w := s'.workers[w]];
  }

  /** No run is longer than the initial rank, and a run that has not joined can always go on. */
  lemma {:induction false} EveryRunEnds(tasks: seq<Program>, s: State, sched: seq<nat>)
    requires Typed(tasks, s) && Runs(tasks, s, sched)
    ensures |sched| <= Rank(tasks, s)
    ensures !Joined(After(tasks, s, sched)) ==> exists w :: Runs(tasks, s, sched + [w])
    decreases |sched|
  {
    if sched != [] {
      var next, rest := Step(tasks, s, sched[0]), sched[1..];
      StepDescends(tasks, s, sched[0]);
      EveryRunEnds(tasks, next, rest);
      if !Joined(After(tasks, s, sched)) {
        var w :| Runs(tasks, next, rest + [w]);
        assert (sched + [w])[1..] == rest + [w];
        assert Runs(tasks, s, sched + [w]);
      }
    } else if !Joined(s) {
      var w: nat :| w < |s.workers| && !s.workers[w].Done?;
      assert Runs(tasks, s, sched + [w]);
    }
  }

  /** Every state can be run until all workers have joined. */
  lemma {:induction false} Finish(tasks: seq<Program>, s: State) returns (sched: seq<nat>)
    requires Typed(tasks, s)
    ensures Runs(tasks, s, sched) && Joined(After(tasks, s, sched))
    decreases Rank(tasks, s)
  {
    if Joined(s) { return []; }
    var w: nat :| w < |s.workers| && !s.workers[w].Done?;
    StepDescends(tasks, s, w);
    var rest := Finish(tasks, Step(tasks, s, w));
    sched := [w] + rest;
    assert sched[1..] == rest;
  }

  // ----- the call -----

  /** Few indices or one worker: the loop runs in order, on the calling thread. */
  predicate RunsInline(n: nat, hardware: nat) { n <= 1 || Min(n, hardware) <= 1 }

  /** The memories that a call may leave: that of the inline loop, or that of any complete interleaving. */
  ghost predicate MayLeave(tasks: seq<Program>, hardware: nat, m: Memory, m': Memory)
    requires forall i :: 0 <= i < |tasks| ==> Fits(tasks[i], |m|)
  {
    if RunsInline(|tasks|, hardware) then m' == RunAll(tasks, m, |tasks|)
    else exists sched :: Leaves(tasks, Min(|tasks|, hardware), m, sched, m')
  }

  ghost predicate Leaves(tasks: seq<Program>, workers: nat, m: Memory, sched: seq<nat>, m': Memory)
    requires forall i :: 0 <= i < |tasks| ==> Fits(tasks[i], |m|)
  {
    var s := Start(|tasks|, workers, m);
    && Runs(tasks, s, sched) && Joined(After(tasks, s, sched)) && After(tasks, s, sched).mem == m'
  }

  lemma CallIsSequential(tasks: seq<Program>, hardware: nat, m: Memory, m': Memory)
    requires (forall i :: 0 <= i < |tasks| ==> Fits(tasks[i], |m|)) && Disjoint(tasks) && MayLeave(tasks, hardware, m, m')
    ensures m' == RunAll(tasks, m, |tasks|)
  {
    if !RunsInline(|tasks|, hardware) {
      var sched :| Leaves(tasks, Min(|tasks|, hardware), m, sched, m');
      AnyScheduleIsSequential(tasks, Min(|tasks|, hardware), m, sched);
    }
  }
}
