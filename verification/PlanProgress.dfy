/** What a run of the plan interpreter gets done: passes counted, lists finished, finished steps left alone. */
module PlanProgress {
  import opened Options
  import opened PlanInterpretation
  import opened PlanBounds

  /** No node is written twice in the tree. */
  ghost predicate Distinct(steps: seq<Step>)
    decreases steps, 1
  {
    steps != [] ==> StepIds(steps[0]) !! Ids(steps[1..]) && DistinctStep(steps[0]) && Distinct(steps[1..])
  }

  ghost predicate DistinctStep(step: Step)
    decreases step, 2
  {
    && step.id !in Below(step) && Distinct(step.thenSteps) && Distinct(step.elseSteps) && Distinct(step.body)
    && DistinctBranches(step.branches)
    && Ids(step.thenSteps) !! Ids(step.elseSteps) !! Ids(step.body) !! BranchIds(step.branches)
  }

  ghost predicate DistinctBranches(branches: seq<PlanBranch>)
    decreases branches, 1
  {
    branches != [] ==>
      Distinct(branches[0].steps) && DistinctBranches(branches[1..]) && Ids(branches[0].steps) !! BranchIds(branches[1..])
  }

  // ----- passes -----

  /** Passes completed since the loop was last left. */
  ghost function Since(laps: seq<Lap>, id: StepId): nat
  {
    if laps == [] then 0 else
    var last, before := laps[|laps| - 1], Since(laps[..|laps| - 1], id);
    if last.loop.id != id then before else if last.Left? then 0 else before + 1
  }

  /** No activation of a loop ever passes its limit. */
  ghost predicate WithinLimits(laps: seq<Lap>)
  {
    forall k | 0 <= k < |laps| && laps[k].Passed? ::
      var loop, passes := laps[k].loop, Since(laps[..k + 1], laps[k].loop.id);
      passes <= loop.maxIterations && (loop.kind == Repeat ==> passes <= loop.repeatCount)
  }

  /** The saved counters are the passes made. */
  ghost predicate Counted(laps: seq<Lap>, row: Row)
  {
    WithinLimits(laps) && forall id :: Iteration(row, id) == Since(laps, id)
  }

  lemma {:induction false} SinceStep(laps: seq<Lap>, lap: Lap, id: StepId)
    ensures Since(laps + [lap], id) ==
              if lap.loop.id != id then Since(laps, id) else if lap.Left? then 0 else Since(laps, id) + 1
  {
    assert (laps + [lap])[..|laps|] == laps;
  }

  lemma {:induction false} CountedStep(m: Machine, lap: Lap, row: Row)
    requires Counted(m.laps, m.row)
    requires forall id | id != lap.loop.id :: Iteration(row, id) == Iteration(m.row, id)
    requires Iteration(row, lap.loop.id) == if lap.Left? then 0 else Iteration(m.row, lap.loop.id) + 1
    requires lap.Passed? ==> Iteration(row, lap.loop.id) <= Limit(lap.loop)
    ensures Counted(m.laps + [lap], row)
  {
    var laps := m.laps + [lap];
    forall id ensures Iteration(row, id) == Since(laps, id) { SinceStep(m.laps, lap, id); }
    forall k | 0 <= k < |laps| && laps[k].Passed?
      ensures var loop, passes := laps[k].loop, Since(laps[..k + 1], laps[k].loop.id);
              passes <= loop.maxIterations && (loop.kind == Repeat ==> passes <= loop.repeatCount)
    {
      if k == |m.laps| { assert laps[..k + 1] == laps; } else { assert laps[..k + 1] == m.laps[..k + 1]; }
    }
  }

  lemma {:induction false} PassingCounted(m: Machine, loop: Step, iteration: nat, asked: nat)
    requires Counted(m.laps, m.row) && Iteration(m.row, loop.id) + 1 == iteration <= Limit(loop)
    ensures Counted(Passing(m, loop, iteration, asked).laps, Passing(m, loop, iteration, asked).row)
  {
    CountedStep(m, Passed(loop, asked), Passing(m, loop, iteration, asked).row);
  }

  lemma {:induction false} LeaveCounted(m: Machine, loop: Step, asked: nat)
    requires Counted(m.laps, m.row)
    ensures Counted(Leave(m, loop, asked).laps, Leave(m, loop, asked).row)
  {
    CountedStep(m, Left(loop, asked), Leave(m, loop, asked).row);
  }

  lemma {:induction false} SameCounted(m: Machine, m': Machine)
    requires Counted(m.laps, m.row) && m'.laps == m.laps && m'.row.loops == m.row.loops
    ensures Counted(m'.laps, m'.row)
  {
    assert forall id :: Iteration(m'.row, id) == Iteration(m.row, id);
  }

  /** Nothing is sent, no pass counted, and no other node changed but for updates of those not yet started. */
  ghost predicate OthersKept(id: StepId, m: Machine, m': Machine)
  {
    && m'.sent == m.sent && m'.laps == m.laps && m'.row.loops == m.row.loops
    && forall d | d != id :: Kept(At(m.row, d), At(m'.row, d))
  }

  lemma {:induction false} WaitedFacts(env: Env, m: Machine, id: StepId)
    ensures OthersKept(id, m, Waited(env, m).m)
    ensures Waited(env, m).signal == Finished || Waited(env, m).signal == Crashed
  {
  }

  lemma {:induction false} AnswerFacts(env: Env, step: Step, m: Machine)
    ensures var v := Answer(env, step, m);
            && OthersKept(step.id, m, MachineOf(v))
            && (v.Over? && v.out.signal == Finished ==> At(v.out.m.row, step.id).status == Done)
  {
    hide Waited;
    WaitedFacts(env, m, step.id);
  }

  lemma {:induction false} FailureFacts(env: Env, step: Step, seen: set<Code>, code: Code, m: Machine)
    ensures var v := Failure(env, step, seen, code, m);
            OthersKept(step.id, m, MachineOf(v)) && (v.Over? ==> v.out.signal != Finished)
  {
    hide Waited;
    WaitedFacts(env, Put(Tick(m), step.id, NodeState(Running, At(m.row, step.id).retries + 1, None)), step.id);
  }

  /** An attempt up to the moment the request is out. */
  function SentOff(env: Env, step: Step, m: Machine): Machine
  {
    var n := At(m.row, step.id);
    var attempt := NextAttempt(n);
    Send(Save(env, Put(Tick(m), step.id, NodeState(Running, n.retries, Some(attempt)))).m, step, attempt)
  }

  lemma {:induction false} SentOffFacts(env: Env, step: Step, m: Machine)
    ensures var m' := SentOff(env, step, m);
            && m'.laps == m.laps && m'.row.loops == m.row.loops && At(m'.row, step.id).retries == At(m.row, step.id).retries
            && (forall d | d != step.id :: At(m'.row, d) == At(m.row, d))
            && |m'.sent| == |m.sent| + 1 && m'.sent[..|m.sent|] == m.sent && m'.sent[|m.sent|].step == step
  {
  }

  lemma {:induction false} AttemptsFacts(env: Env, step: Step, seen: set<Code>, m: Machine)
    ensures var out := Attempts(env, step, seen, m);
            && out.m.laps == m.laps && out.m.row.loops == m.row.loops
            && (forall d | d != step.id :: Kept(At(m.row, d), At(out.m.row, d)))
            && (out.signal == Finished ==> At(out.m.row, step.id).status == Done)
    decreases AttemptsLeft(step, At(m.row, step.id).retries)
  {
    hide Answer, Failure;
    if At(m.row, step.id).retries > step.maxRetries || env.interrupt(m.tick).Some? { return; }
    SentOffFacts(env, step, m);
    AnswerFacts(env, step, SentOff(env, step, m));
    var answer := Answer(env, step, SentOff(env, step, m));
    if answer.Over? { return; }
    FailureFacts(env, step, seen, answer.code, answer.m);
    var failure := Failure(env, step, seen, answer.code, answer.m);
    if failure.Again? { AttemptsFacts(env, step, seen + {answer.code}, failure.m); }
  }

  lemma {:induction false} NodesCounted(env: Env, steps: seq<Step>, m: Machine)
    requires Counted(m.laps, m.row) && Distinct(steps)
    ensures var m' := Nodes(env, steps, m).m; Counted(m'.laps, m'.row)
    decreases steps, 0, 0
  {
    hide Counted;
    if steps != [] {
      NodeCounted(env, steps[0], m);
      NodesCounted(env, steps[1..], Node(env, steps[0], m).m);
    }
  }

  lemma {:induction false} NodeCounted(env: Env, step: Step, m: Machine)
    requires Counted(m.laps, m.row) && DistinctStep(step)
    ensures var m' := Node(env, step, m).m; Counted(m'.laps, m'.row)
    decreases step, 3, 0
  {
    hide Counted, ByKind, DistinctStep;
    var seen := Tick(Tick(Save(env, m).m));
    SameCounted(m, seen);
    ByKindCounted(env, step, seen);
    var ran := ByKind(env, step, seen);
    SameCounted(ran.m, Adjusted(env, ran.m).m);
    var m' := Node(env, step, m).m;
    if m'.laps == m.laps && m'.row.loops == m.row.loops { SameCounted(m, m'); }
  }

  lemma {:induction false} ByKindCounted(env: Env, step: Step, m: Machine)
    requires Counted(m.laps, m.row) && DistinctStep(step)
    ensures var m' := ByKind(env, step, m).m; Counted(m'.laps, m'.row)
    decreases step, 2, 0
  {
    hide Counted, Nodes, FirstBranch, Passes, Attempts;
    var m' := ByKind(env, step, m).m;
    match step.kind
    case Action =>
      AttemptsFacts(env, step, {}, m.(tick := m.tick + 2));
      SameCounted(m, m');
    case If =>
      var started := Tick(Mark(m, step.id, Running));
      SameCounted(m, started);
      var chosen := if env.holds(m.tick) then step.thenSteps else step.elseSteps;
      NodesCounted(env, chosen, started);
      SameCounted(Nodes(env, chosen, started).m, m');
    case Branching =>
      var started := Mark(m, step.id, Running);
      SameCounted(m, started);
      FirstBranchCounted(env, step, 0, started);
      SameCounted(FirstBranch(env, step, 0, started).m, m');
    case Abort => SameCounted(m, m');
    case Pause => SameCounted(m, m');
    case _ =>
      var started := Mark(Enter(m, step.id), step.id, Running);
      StartCounted(m, step.id);
      PassesCounted(env, step, Iteration(m.row, step.id), started);
  }

  lemma {:induction false} StartCounted(m: Machine, id: StepId)
    requires Counted(m.laps, m.row)
    ensures var m' := Mark(Enter(m, id), id, Running); Counted(m'.laps, m'.row) && Iteration(m'.row, id) == Iteration(m.row, id)
  {
    var m' := Mark(Enter(m, id), id, Running);
    assert forall d :: Iteration(m'.row, d) == Iteration(m.row, d);
  }

  lemma {:induction false} FirstBranchCounted(env: Env, step: Step, k: nat, m: Machine)
    requires k <= |step.branches| && Counted(m.laps, m.row) && DistinctStep(step)
    ensures var m' := FirstBranch(env, step, k, m).m; Counted(m'.laps, m'.row)
    decreases step, 1, |step.branches| - k
  {
    hide Counted;
    SameCounted(m, Tick(m));
    if k == |step.branches| { NodesCounted(env, step.elseSteps, m); }
    else if env.holds(m.tick) {
      DistinctBranch(step.branches, k);
      NodesCounted(env, step.branches[k].steps, Tick(m));
    } else { FirstBranchCounted(env, step, k + 1, Tick(m)); }
  }

  lemma {:induction false} DistinctBranch(branches: seq<PlanBranch>, k: nat)
    requires k < |branches| && DistinctBranches(branches)
    ensures Distinct(branches[k].steps)
  {
    if k > 0 { DistinctBranch(branches[1..], k - 1); }
  }

  /** A pass leaves the loop's own counter to the loop. */
  lemma {:induction false} OnePassCounted(env: Env, step: Step, iteration: nat, m: Machine)
    requires Counted(m.laps, m.row) && DistinctStep(step) && Iteration(m.row, step.id) == iteration < Limit(step)
    ensures var out := OnePass(env, step, iteration, m);
            Counted(out.m.laps, out.m.row) && (out.signal == Finished ==> Iteration(out.m.row, step.id) == iteration + 1)
    decreases step, 0, 0
  {
    hide Counted, Nodes, PassStart;
    var start, out := PassStart(step, iteration, m), OnePass(env, step, iteration, m);
    StartOfPass(step, iteration, m);
    SameCounted(m, start);
    NodesCounted(env, step.body, start);
    var ran := Nodes(env, step.body, start);
    if ran.signal == Finished {
      NodesEffect(env, step.body, start);
      assert step.id !in Ids(step.body);
      assert Framed(Ids(step.body), start.row, ran.m.row);
      PassingCounted(ran.m, step, iteration + 1, m.tick);
    }
  }

  lemma {:induction false} StartOfPass(step: Step, iteration: nat, m: Machine)
    ensures var start := PassStart(step, iteration, m);
            start.laps == m.laps && start.row.loops == m.row.loops && start.sent == m.sent
  {
  }

  lemma {:induction false} LoopEndCounted(env: Env, step: Step, iteration: nat, m: Machine)
    requires Counted(m.laps, m.row)
    ensures var m' := LoopEnd(env, step, iteration, m).m; Counted(m'.laps, m'.row)
  {
    hide Counted;
    var out := LoopEnd(env, step, iteration, m);
    if out.signal == Finished {
      SameCounted(m, m.(tick := out.m.tick));
      LeaveCounted(m.(tick := out.m.tick), step, m.tick);
    } else { SameCounted(m, out.m); }
  }

  lemma {:induction false} PassesCounted(env: Env, step: Step, iteration: nat, m: Machine)
    requires Counted(m.laps, m.row) && DistinctStep(step) && Iteration(m.row, step.id) == iteration
    ensures var m' := Passes(env, step, iteration, m).m; Counted(m'.laps, m'.row)
    decreases step, 1, if iteration < step.maxIterations then step.maxIterations - iteration else 0
  {
    hide Counted, DistinctStep, OnePass, Leave;
    if !GoesOn(env, step, iteration, m) {
      LoopEndCounted(env, step, iteration, m);
      return;
    }
    OnePassCounted(env, step, iteration, m);
    var passed := OnePass(env, step, iteration, m);
    if passed.signal != Finished { return; }
    if step.kind == Repeat && iteration + 1 >= step.repeatCount { LeaveCounted(passed.m, step, m.tick); }
    else { PassesCounted(env, step, iteration + 1, passed.m); }
  }

  // ----- finished lists -----

  lemma {:induction false} PassesFinish(env: Env, step: Step, iteration: nat, m: Machine)
    ensures var out := Passes(env, step, iteration, m); out.signal == Finished ==> At(out.m.row, step.id).status == Done
    decreases step, 1, if iteration < step.maxIterations then step.maxIterations - iteration else 0
  {
    hide OnePass;
    if GoesOn(env, step, iteration, m) { PassesFinish(env, step, iteration + 1, OnePass(env, step, iteration, m).m); }
  }

  lemma {:induction false} ByKindFinishes(env: Env, step: Step, m: Machine)
    ensures var out := ByKind(env, step, m); out.signal == Finished ==> At(out.m.row, step.id).status == Done
  {
    hide Attempts, Nodes, FirstBranch, Passes;
    AttemptsFacts(env, step, {}, m.(tick := m.tick + 2));
    if IsLoop(step.kind) { PassesFinish(env, step, Iteration(m.row, step.id), Mark(Enter(m, step.id), step.id, Running)); }
  }

  lemma {:induction false} NodeFinishes(env: Env, step: Step, m: Machine)
    ensures var out := Node(env, step, m); out.signal == Finished ==> IsSettled(out.m.row, step.id)
  {
    hide ByKind, Adjusted;
    var seen := Tick(Tick(Save(env, m).m));
    ByKindFinishes(env, step, seen);
    AdjustedEffect(env, ByKind(env, step, seen).m);
  }

  /** A list that ends DONE has every node of it done or skipped. */
  lemma {:induction false} FinishedListIsSettled(env: Env, steps: seq<Step>, m: Machine)
    requires Distinct(steps)
    ensures var out := Nodes(env, steps, m);
            out.signal == Finished ==> forall k | 0 <= k < |steps| :: IsSettled(out.m.row, steps[k].id)
  {
    hide Node;
    var out := Nodes(env, steps, m);
    if steps != [] && out.signal == Finished {
      NodeFinishes(env, steps[0], m);
      var first := Node(env, steps[0], m);
      FinishedListIsSettled(env, steps[1..], first.m);
      NodesEffect(env, steps[1..], first.m);
      assert steps[0].id !in Ids(steps[1..]);
      forall k | 0 <= k < |steps| ensures IsSettled(out.m.row, steps[k].id) {
        if k > 0 { assert steps[k] == steps[1..][k - 1]; }
      }
    }
  }

  // ----- finished steps are left alone -----

  predicate IsLoop(kind: Kind) { kind == Repeat || kind == While || kind == Until }

  /** Nodes inside the body of some loop. */
  ghost function Looped(steps: seq<Step>): set<StepId>
    decreases steps, 1
  {
    if steps == [] then {} else LoopedIn(steps[0]) + Looped(steps[1..])
  }

  ghost function LoopedIn(step: Step): set<StepId>
    decreases step, 2
  {
    (if IsLoop(step.kind) then Ids(step.body) else {}) + Looped(step.thenSteps) + Looped(step.elseSteps) + Looped(step.body)
      + LoopedBranches(step.branches)
  }

  ghost function LoopedBranches(branches: seq<PlanBranch>): set<StepId>
    decreases branches, 1
  {
    if branches == [] then {} else Looped(branches[0].steps) + LoopedBranches(branches[1..])
  }

  /** The run ended with this interruption, at the node. */
  ghost predicate StoppedBy(i: Option<Interruption>, id: StepId, s: Signal, m: Machine, m': Machine)
  {
    i.Some? && s == Stopped(PlanStop(i.value)) && At(m'.row, id) == At(m.row, id).(status := NodeStop(i.value))
  }

  /** From m to m' the node is not dispatched, and keeps its state unless the surroundings interrupted the run at it. */
  ghost predicate LeftAlone(env: Env, id: StepId, s: Signal, m: Machine, m': Machine)
  {
    && m.sent <= m'.sent && (forall k | |m.sent| <= k < |m'.sent| :: m'.sent[k].step.id != id)
    && (At(m'.row, id) == At(m.row, id)
        || exists t: nat :: StoppedBy(env.interrupt(t), id, s, m, m'))
  }

  lemma {:induction false} AloneThen(env: Env, id: StepId, m: Machine, m1: Machine, s: Signal, m2: Machine)
    requires LeftAlone(env, id, Finished, m, m1) && LeftAlone(env, id, s, m1, m2)
    ensures LeftAlone(env, id, s, m, m2)
  {
    forall k | |m.sent| <= k < |m2.sent| ensures m2.sent[k].step.id != id {
      assert k < |m1.sent| ==> m2.sent[k] == m1.sent[k];
    }
  }

  lemma {:induction false} Elsewhere(env: Env, id: StepId, s: Signal, m: Machine, m': Machine)
    requires m'.sent == m.sent && At(m'.row, id) == At(m.row, id)
    ensures LeftAlone(env, id, s, m, m')
  {
  }

  lemma {:induction false} AttemptsAlone(env: Env, step: Step, seen: set<Code>, m: Machine, id: StepId)
    requires step.id != id && IsSettled(m.row, id)
    ensures var out := Attempts(env, step, seen, m); LeftAlone(env, id, out.signal, m, out.m)
  {
    AttemptsEffect(env, step, seen, m);
    AttemptsFacts(env, step, seen, m);
    hide Attempts;
  }

  lemma {:induction false} NodesAlone(env: Env, steps: seq<Step>, m: Machine, id: StepId)
    requires IsSettled(m.row, id) && id !in Looped(steps)
    ensures var out := Nodes(env, steps, m); LeftAlone(env, id, out.signal, m, out.m)
    decreases steps, 0, 0
  {
    hide LeftAlone;
    if steps == [] { Elsewhere(env, id, Finished, m, m); return; }
    NodeAlone(env, steps[0], m, id);
    var first, out := Node(env, steps[0], m), Nodes(env, steps, m);
    if first.signal == Finished {
      StillSettled(env, id, m, first.m);
      NodesAlone(env, steps[1..], first.m, id);
      AloneThen(env, id, m, first.m, out.signal, out.m);
    }
  }

  lemma {:induction false} StillSettled(env: Env, id: StepId, m: Machine, m': Machine)
    requires LeftAlone(env, id, Finished, m, m') && IsSettled(m.row, id)
    ensures IsSettled(m'.row, id)
  {
  }

  lemma {:induction false} NodeAlone(env: Env, step: Step, m: Machine, id: StepId)
    requires IsSettled(m.row, id) && id !in LoopedIn(step)
    ensures var out := Node(env, step, m); LeftAlone(env, id, out.signal, m, out.m)
    decreases step, 3, 0
  {
    hide ByKind, Adjusted, LoopedIn;
    var out, written := Node(env, step, m), Save(env, m);
    if written.signal == Crashed || env.interrupt(written.m.tick).Some? || IsSettled(written.m.row, step.id)
       || !env.holds(written.m.tick + 1) {
      assert step.id == id && written.signal == Finished && env.interrupt(written.m.tick).Some? ==>
        At(out.m.row, id) == At(m.row, id).(status := NodeStop(env.interrupt(written.m.tick).value));
      return;
    }
    assert step.id != id;
    hide LeftAlone;
    var seen := Tick(Tick(written.m));
    Elsewhere(env, id, Finished, m, seen);
    ByKindAlone(env, step, seen, id);
    var ran := ByKind(env, step, seen);
    AloneThen(env, id, m, seen, ran.signal, ran.m);
    if ran.signal == Finished {
      StillSettled(env, id, m, ran.m);
      AdjustedAlone(env, ran.m, id);
      AloneThen(env, id, m, ran.m, out.signal, out.m);
    }
  }

  lemma {:induction false} AdjustedAlone(env: Env, m: Machine, id: StepId)
    requires IsSettled(m.row, id)
    ensures LeftAlone(env, id, Adjusted(env, m).signal, m, Adjusted(env, m).m)
  {
    assert At(Adjusted(env, m).m.row, id) == At(m.row, id);
  }

  lemma {:induction false} ByKindAlone(env: Env, step: Step, m: Machine, id: StepId)
    requires IsSettled(m.row, id) && id !in LoopedIn(step) && step.id != id
    ensures var out := ByKind(env, step, m); LeftAlone(env, id, out.signal, m, out.m)
    decreases step, 2, 0
  {
    hide LeftAlone, Nodes, FirstBranch, Passes, Attempts, Looped, LoopedBranches;
    var out := ByKind(env, step, m);
    match step.kind
    case Action =>
      var m' := m.(tick := m.tick + 2);
      Elsewhere(env, id, Finished, m, m');
      AttemptsAlone(env, step, {}, m', id);
      var tried := Attempts(env, step, {}, m');
      AloneThen(env, id, m, m', tried.signal, tried.m);
      if tried.signal == Finished {
        Elsewhere(env, id, out.signal, tried.m, Tick(tried.m));
        AloneThen(env, id, m, tried.m, out.signal, Tick(tried.m));
      }
      if (step.tool.stateProvable && env.holds(m.tick)) || !env.holds(m.tick + 1) { Elsewhere(env, id, out.signal, m, out.m); }
    case If =>
      var started := Tick(Mark(m, step.id, Running));
      Elsewhere(env, id, Finished, m, started);
      var chosen := if env.holds(m.tick) then step.thenSteps else step.elseSteps;
      NodesAlone(env, chosen, started, id);
      AloneClosed(env, step, m, started, Nodes(env, chosen, started), out, id);
    case Branching =>
      var started := Mark(m, step.id, Running);
      Elsewhere(env, id, Finished, m, started);
      FirstBranchAlone(env, step, 0, started, id);
      AloneClosed(env, step, m, started, FirstBranch(env, step, 0, started), out, id);
    case Abort => Elsewhere(env, id, out.signal, m, out.m);
    case Pause => Elsewhere(env, id, out.signal, m, out.m);
    case _ =>
      var started := Mark(Enter(m, step.id), step.id, Running);
      Elsewhere(env, id, Finished, m, started);
      PassesAlone(env, step, Iteration(m.row, step.id), started, id);
      AloneThen(env, id, m, started, out.signal, out.m);
  }

  lemma {:induction false} AloneClosed(env: Env, step: Step, m: Machine, started: Machine, ran: Out, out: Out, id: StepId)
    requires LeftAlone(env, id, Finished, m, started) && LeftAlone(env, id, ran.signal, started, ran.m) && step.id != id
    requires out == ran || (out.signal == ran.signal && out.m == Mark(ran.m, step.id, Done))
    ensures LeftAlone(env, id, out.signal, m, out.m)
  {
    AloneThen(env, id, m, started, ran.signal, ran.m);
  }

  lemma {:induction false} FirstBranchAlone(env: Env, step: Step, k: nat, m: Machine, id: StepId)
    requires k <= |step.branches| && IsSettled(m.row, id) && id !in LoopedIn(step)
    ensures var out := FirstBranch(env, step, k, m); LeftAlone(env, id, out.signal, m, out.m)
    decreases step, 1, |step.branches| - k
  {
    hide LeftAlone;
    var out := FirstBranch(env, step, k, m);
    Elsewhere(env, id, Finished, m, Tick(m));
    if k == |step.branches| { NodesAlone(env, step.elseSteps, m, id); }
    else if env.holds(m.tick) {
      LoopedBranch(step.branches, k);
      NodesAlone(env, step.branches[k].steps, Tick(m), id);
      AloneThen(env, id, m, Tick(m), out.signal, out.m);
    } else {
      FirstBranchAlone(env, step, k + 1, Tick(m), id);
      AloneThen(env, id, m, Tick(m), out.signal, out.m);
    }
  }

  lemma {:induction false} LoopedBranch(branches: seq<PlanBranch>, k: nat)
    requires k < |branches|
    ensures Looped(branches[k].steps) <= LoopedBranches(branches)
  {
    if k > 0 { LoopedBranch(branches[1..], k - 1); }
  }

  lemma {:induction false} OnePassAlone(env: Env, step: Step, iteration: nat, m: Machine, id: StepId)
    requires IsSettled(m.row, id) && id !in Ids(step.body) && id !in Looped(step.body)
    ensures var out := OnePass(env, step, iteration, m); LeftAlone(env, id, out.signal, m, out.m)
    decreases step, 0, 0
  {
    hide LeftAlone, Looped, Ids;
    var start, out := PassStart(step, iteration, m), OnePass(env, step, iteration, m);
    Elsewhere(env, id, Finished, m, start);
    NodesAlone(env, step.body, start, id);
    var ran := Nodes(env, step.body, start);
    AloneThen(env, id, m, start, ran.signal, ran.m);
    if ran.signal == Finished {
      Elsewhere(env, id, out.signal, ran.m, out.m);
      AloneThen(env, id, m, ran.m, out.signal, out.m);
    }
  }

  lemma {:induction false} PassesAlone(env: Env, step: Step, iteration: nat, m: Machine, id: StepId)
    requires IsSettled(m.row, id) && id !in LoopedIn(step) && IsLoop(step.kind) && step.id != id
    ensures var out := Passes(env, step, iteration, m); LeftAlone(env, id, out.signal, m, out.m)
    decreases step, 1, if iteration < step.maxIterations then step.maxIterations - iteration else 0
  {
    hide LeftAlone, OnePass, Looped, Ids, LoopedBranches;
    var out := Passes(env, step, iteration, m);
    if !GoesOn(env, step, iteration, m) {
      Elsewhere(env, id, out.signal, m, out.m);
      return;
    }
    OnePassAlone(env, step, iteration, m, id);
    var passed := OnePass(env, step, iteration, m);
    if passed.signal != Finished { return; }
    StillSettled(env, id, m, passed.m);
    if step.kind == Repeat && iteration + 1 >= step.repeatCount {
      Elsewhere(env, id, Finished, passed.m, out.m);
    } else {
      PassesAlone(env, step, iteration + 1, passed.m, id);
    }
    AloneThen(env, id, m, passed.m, out.signal, out.m);
  }

  // ----- request ids after a reset or an update -----

  ghost predicate Unsent(id: StepId, sent: seq<Dispatch>, from: nat, to: nat)
    requires from <= to <= |sent|
  {
    forall k | from <= k < to :: sent[k].step.id != id
  }

  predicate AtAttempt(n: NodeState, a: nat) { n.retries == a && NextAttempt(n) == a }

  /** From m to m' the node is either not dispatched and still at attempt a, or dispatched first under it. */
  ghost predicate FirstUnder(id: StepId, a: nat, m: Machine, m': Machine)
  {
    && m.sent <= m'.sent
    && ((Unsent(id, m'.sent, |m.sent|, |m'.sent|) && AtAttempt(At(m'.row, id), a)) || SentFirst(id, a, m, m'))
  }

  ghost predicate SentFirst(id: StepId, a: nat, m: Machine, m': Machine)
    requires m.sent <= m'.sent
  {
    exists k :: |m.sent| <= k < |m'.sent| && m'.sent[k].step.id == id && m'.sent[k].attempt == a && Unsent(id, m'.sent, |m.sent|, k)
  }

  lemma {:induction false} FirstThen(id: StepId, a: nat, m: Machine, m1: Machine, m2: Machine)
    requires FirstUnder(id, a, m, m1) && m1.sent <= m2.sent && (AtAttempt(At(m1.row, id), a) ==> FirstUnder(id, a, m1, m2))
    ensures FirstUnder(id, a, m, m2)
  {
    if SentFirst(id, a, m, m1) {
      var k :| |m.sent| <= k < |m1.sent| && m1.sent[k].step.id == id && m1.sent[k].attempt == a && Unsent(id, m1.sent, |m.sent|, k);
      assert m2.sent[k] == m1.sent[k];
      assert forall j | |m.sent| <= j < k :: m2.sent[j] == m1.sent[j];
      assert Unsent(id, m2.sent, |m.sent|, k);
    } else {
      assert forall j | |m.sent| <= j < |m1.sent| :: m2.sent[j] == m1.sent[j];
      if SentFirst(id, a, m1, m2) {
        var k :| |m1.sent| <= k < |m2.sent| && m2.sent[k].step.id == id && m2.sent[k].attempt == a && Unsent(id, m2.sent, |m1.sent|, k);
        assert Unsent(id, m2.sent, |m.sent|, k);
      }
    }
  }

  /** Nothing sent, and the node not given an attempt. */
  lemma {:induction false} FirstStays(id: StepId, a: nat, m: Machine, m': Machine)
    requires m'.sent == m.sent && AtAttempt(At(m.row, id), a)
    requires AtAttempt(At(m'.row, id), a)
    ensures FirstUnder(id, a, m, m')
  {
  }

  /** Others dispatched, and the node at most updated. */
  lemma {:induction false} FirstAside(id: StepId, a: nat, m: Machine, m': Machine)
    requires m.sent <= m'.sent && Unsent(id, m'.sent, |m.sent|, |m'.sent|)
    requires AtAttempt(At(m.row, id), a) && Kept(At(m.row, id), At(m'.row, id))
    ensures FirstUnder(id, a, m, m')
  {
  }

  lemma {:induction false} AttemptsFirstUnder(env: Env, step: Step, seen: set<Code>, m: Machine, id: StepId, a: nat)
    requires AtAttempt(At(m.row, id), a)
    ensures FirstUnder(id, a, m, Attempts(env, step, seen, m).m)
  {
    var out, sent := Attempts(env, step, seen, m), SentOff(env, step, m);
    if At(m.row, step.id).retries > step.maxRetries || env.interrupt(m.tick).Some? || env.dies(m.tick + 1) {
      FirstStays(id, a, m, out.m);
      return;
    }
    AttemptsEffect(env, step, seen, m);
    if step.id != id {
      AttemptsFacts(env, step, seen, m);
      FirstAside(id, a, m, out.m);
      return;
    }
    FirstIsSentOff(env, step, seen, m);
    assert Unsent(id, out.m.sent, |m.sent|, |m.sent|);
    assert out.m.sent[|m.sent|] == sent.sent[|m.sent|];
  }

  lemma {:induction false} FirstIsSentOff(env: Env, step: Step, seen: set<Code>, m: Machine)
    requires At(m.row, step.id).retries <= step.maxRetries && env.interrupt(m.tick).None? && !env.dies(m.tick + 1)
    ensures SentOff(env, step, m).sent <= Attempts(env, step, seen, m).m.sent
    ensures var d := SentOff(env, step, m).sent[|m.sent|]; d.step == step && d.attempt == NextAttempt(At(m.row, step.id))
  {
    hide Answer, Failure;
    var sent := SentOff(env, step, m);
    SentOffFacts(env, step, m);
    AnswerFacts(env, step, sent);
    var answer := Answer(env, step, sent);
    if answer.Again? {
      FailureFacts(env, step, seen, answer.code, answer.m);
      var failure := Failure(env, step, seen, answer.code, answer.m);
      if failure.Again? { AttemptsEffect(env, step, seen + {answer.code}, failure.m); }
    }
  }

  lemma {:induction false} NodesFirstUnder(env: Env, steps: seq<Step>, m: Machine, id: StepId, a: nat)
    requires AtAttempt(At(m.row, id), a) && (a == 0 || id !in Looped(steps))
    ensures FirstUnder(id, a, m, Nodes(env, steps, m).m)
    decreases steps, 0, 0
  {
    hide FirstUnder;
    if steps == [] { FirstStays(id, a, m, m); return; }
    NodeFirstUnder(env, steps[0], m, id, a);
    var first := Node(env, steps[0], m);
    if first.signal == Finished {
      NodesEffect(env, steps[1..], first.m);
      if AtAttempt(At(first.m.row, id), a) { NodesFirstUnder(env, steps[1..], first.m, id, a); }
      FirstThen(id, a, m, first.m, Nodes(env, steps[1..], first.m).m);
    }
  }

  lemma {:induction false} NodeFirstUnder(env: Env, step: Step, m: Machine, id: StepId, a: nat)
    requires AtAttempt(At(m.row, id), a) && (a == 0 || id !in LoopedIn(step))
    ensures FirstUnder(id, a, m, Node(env, step, m).m)
    decreases step, 3, 0
  {
    hide FirstUnder, ByKind, Adjusted;
    var out, written := Node(env, step, m), Save(env, m);
    if written.signal == Crashed || env.interrupt(written.m.tick).Some? || IsSettled(written.m.row, step.id)
       || !env.holds(written.m.tick + 1) {
      FirstStays(id, a, m, out.m);
      return;
    }
    var seen := Tick(Tick(written.m));
    FirstStays(id, a, m, seen);
    ByKindFirstUnder(env, step, seen, id, a);
    var ran := ByKind(env, step, seen);
    ByKindEffect(env, step, seen);
    FirstThen(id, a, m, seen, ran.m);
    if ran.signal == Finished {
      AdjustedEffect(env, ran.m);
      if AtAttempt(At(ran.m.row, id), a) { AdjustedFirstUnder(env, ran.m, id, a); }
      FirstThen(id, a, m, ran.m, out.m);
    }
  }

  lemma {:induction false} AdjustedFirstUnder(env: Env, m: Machine, id: StepId, a: nat)
    requires AtAttempt(At(m.row, id), a)
    ensures FirstUnder(id, a, m, Adjusted(env, m).m)
  {
    FirstStays(id, a, m, Adjusted(env, m).m);
  }

  lemma {:induction false} ByKindFirstUnder(env: Env, step: Step, m: Machine, id: StepId, a: nat)
    requires AtAttempt(At(m.row, id), a) && (a == 0 || id !in LoopedIn(step))
    ensures FirstUnder(id, a, m, ByKind(env, step, m).m)
    decreases step, 2, 0
  {
    hide FirstUnder, Nodes, FirstBranch, Passes, Attempts, Looped, LoopedBranches;
    var out := ByKind(env, step, m);
    match step.kind
    case Action =>
      var m' := m.(tick := m.tick + 2);
      if (step.tool.stateProvable && env.holds(m.tick)) || !env.holds(m.tick + 1) {
        FirstStays(id, a, m, out.m);
      } else {
        FirstStays(id, a, m, m');
        AttemptsFirstUnder(env, step, {}, m', id, a);
        FirstLike(id, a, m, m', Attempts(env, step, {}, m').m, out.m);
      }
    case If =>
      var started := Tick(Mark(m, step.id, Running));
      FirstStays(id, a, m, started);
      var chosen := if env.holds(m.tick) then step.thenSteps else step.elseSteps;
      NodesFirstUnder(env, chosen, started, id, a);
      FirstLike(id, a, m, started, Nodes(env, chosen, started).m, out.m);
    case Branching =>
      var started := Mark(m, step.id, Running);
      FirstStays(id, a, m, started);
      FirstBranchFirstUnder(env, step, 0, started, id, a);
      FirstLike(id, a, m, started, FirstBranch(env, step, 0, started).m, out.m);
    case Abort => FirstStays(id, a, m, out.m);
    case Pause => FirstStays(id, a, m, out.m);
    case _ =>
      var started := Mark(Enter(m, step.id), step.id, Running);
      FirstStays(id, a, m, started);
      PassesFirstUnder(env, step, Iteration(m.row, step.id), started, id, a);
      FirstLike(id, a, m, started, out.m, out.m);
  }

  /** Before and after a stretch, only statuses change. */
  lemma {:induction false} FirstLike(id: StepId, a: nat, m: Machine, started: Machine, ran: Machine, m': Machine)
    requires FirstUnder(id, a, m, started) && FirstUnder(id, a, started, ran)
    requires m'.sent == ran.sent && (AtAttempt(At(m'.row, id), a) <==> AtAttempt(At(ran.row, id), a))
    ensures FirstUnder(id, a, m, m')
  {
    FirstThen(id, a, m, started, ran);
  }

  lemma {:induction false} FirstBranchFirstUnder(env: Env, step: Step, k: nat, m: Machine, id: StepId, a: nat)
    requires k <= |step.branches| && AtAttempt(At(m.row, id), a) && (a == 0 || id !in LoopedIn(step))
    ensures FirstUnder(id, a, m, FirstBranch(env, step, k, m).m)
    decreases step, 1, |step.branches| - k
  {
    hide FirstUnder;
    FirstStays(id, a, m, Tick(m));
    if k == |step.branches| { NodesFirstUnder(env, step.elseSteps, m, id, a); }
    else if env.holds(m.tick) {
      LoopedBranch(step.branches, k);
      NodesFirstUnder(env, step.branches[k].steps, Tick(m), id, a);
      FirstLike(id, a, m, Tick(m), FirstBranch(env, step, k, m).m, FirstBranch(env, step, k, m).m);
    } else {
      FirstBranchFirstUnder(env, step, k + 1, Tick(m), id, a);
      FirstLike(id, a, m, Tick(m), FirstBranch(env, step, k, m).m, FirstBranch(env, step, k, m).m);
    }
  }

  lemma {:induction false} LoopEndFirstUnder(env: Env, step: Step, iteration: nat, m: Machine, id: StepId, a: nat)
    requires AtAttempt(At(m.row, id), a)
    ensures FirstUnder(id, a, m, LoopEnd(env, step, iteration, m).m)
  {
    FirstStays(id, a, m, LoopEnd(env, step, iteration, m).m);
  }

  lemma {:induction false} PassesFirstUnder(env: Env, step: Step, iteration: nat, m: Machine, id: StepId, a: nat)
    requires AtAttempt(At(m.row, id), a) && (a == 0 || (IsLoop(step.kind) && id !in LoopedIn(step)))
    ensures FirstUnder(id, a, m, Passes(env, step, iteration, m).m)
    decreases step, 1, if iteration < step.maxIterations then step.maxIterations - iteration else 0
  {
    hide FirstUnder, OnePass, Ids, Looped, LoopedBranches;
    var out := Passes(env, step, iteration, m);
    if !GoesOn(env, step, iteration, m) { LoopEndFirstUnder(env, step, iteration, m, id, a); return; }
    hide GoesOn, LoopEnd;
    OnePassFirstUnder(env, step, iteration, m, id, a);
    var passed := OnePass(env, step, iteration, m);
    if passed.signal != Finished { return; }
    if step.kind == Repeat && iteration + 1 >= step.repeatCount {
      FirstStays(id, a, m, m);
      FirstLike(id, a, m, m, passed.m, out.m);
    } else {
      PassesEffect(env, step, iteration + 1, passed.m);
      if AtAttempt(At(passed.m.row, id), a) { PassesFirstUnder(env, step, iteration + 1, passed.m, id, a); }
      FirstThen(id, a, m, passed.m, out.m);
    }
  }

  lemma {:induction false} OnePassFirstUnder(env: Env, step: Step, iteration: nat, m: Machine, id: StepId, a: nat)
    requires || (AtAttempt(At(m.row, id), a) && (a == 0 || (id !in Ids(step.body) && id !in Looped(step.body))))
             || (a == 0 && iteration > 0 && id in Ids(step.body))
    ensures FirstUnder(id, a, m, OnePass(env, step, iteration, m).m)
    decreases step, 0, 0
  {
    hide FirstUnder;
    var start := PassStart(step, iteration, m);
    NodesFirstUnder(env, step.body, start, id, a);
    FirstPassed(id, a, m, start, Nodes(env, step.body, start).m, OnePass(env, step, iteration, m).m);
  }

  lemma {:induction false} FirstPassed(id: StepId, a: nat, m: Machine, start: Machine, ran: Machine, m': Machine)
    requires start.sent == m.sent && FirstUnder(id, a, start, ran) && m'.sent == ran.sent && At(m'.row, id) == At(ran.row, id)
    ensures FirstUnder(id, a, m, m')
  {
  }
}
