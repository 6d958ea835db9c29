/** How much a run of the plan interpreter can do: dispatches, passes, and the nodes it touches. */
module PlanBounds {
  import opened Integers
  import opened Options
  import opened PlanInterpretation

  /** The most passes one activation of a loop can make. */
  function Limit(loop: Step): nat
  {
    if loop.kind == Repeat && loop.repeatCount < loop.maxIterations then loop.repeatCount else loop.maxIterations
  }

  /** Dispatches a list can cost: all attempts of each action, the dearest branch, every pass of each loop. */
  ghost function CostOf(steps: seq<Step>): nat
    decreases steps, 0
  {
    if steps == [] then 0 else Cost(steps[0]) + CostOf(steps[1..])
  }

  ghost function Cost(step: Step): nat
    decreases step, 1
  {
    match step.kind
    case Action => step.maxRetries + 1
    case If => Max(CostOf(step.thenSteps), CostOf(step.elseSteps))
    case Branching => BranchCost(step.branches, CostOf(step.elseSteps))
    case Abort => 0
    case Pause => 0
    case _ => Limit(step) * CostOf(step.body)
  }

  ghost function BranchCost(branches: seq<PlanBranch>, otherwise: nat): nat
    decreases branches, 0
  {
    if branches == [] then otherwise else Max(CostOf(branches[0].steps), BranchCost(branches[1..], otherwise))
  }

  /** Unchanged, or given new arguments while not yet started. */
  ghost predicate Kept(a: NodeState, b: NodeState)
  {
    a == b || (PendingLike(a.status) && b == a.(status := Pending, request := None))
  }

  ghost predicate Framed(ids: set<StepId>, a: Row, b: Row)
  {
    forall id | id !in ids :: Kept(At(a, id), At(b, id)) && Iteration(a, id) == Iteration(b, id)
  }

  /** From m to m' at most `budget` requests went out, and nothing but the nodes in ids was run. */
  ghost predicate Effect(ids: set<StepId>, budget: nat, s: Signal, m: Machine, m': Machine)
  {
    && m.sent <= m'.sent && |m'.sent| <= |m.sent| + budget && m.laps <= m'.laps
    && (forall i | |m.sent| <= i < |m'.sent| :: m'.sent[i].step.id in ids)
    && (s != Replaced && s != Crashed ==> Framed(ids, m.row, m'.row))
  }

  lemma {:induction false} Then(a: set<StepId>, x: nat, m: Machine, m1: Machine, b: set<StepId>, y: nat, s: Signal, m2: Machine, ids: set<StepId>, budget: nat)
    requires Effect(a, x, Finished, m, m1) && Effect(b, y, s, m1, m2) && a <= ids && b <= ids && x + y <= budget
    ensures Effect(ids, budget, s, m, m2)
  {
    forall i | |m.sent| <= i < |m2.sent| ensures m2.sent[i].step.id in ids {
      assert i < |m1.sent| ==> m2.sent[i] == m1.sent[i];
    }
    if s != Replaced && s != Crashed {
      forall id | id !in ids ensures Kept(At(m.row, id), At(m2.row, id)) && Iteration(m.row, id) == Iteration(m2.row, id) {
        assert Kept(At(m.row, id), At(m1.row, id)) && Kept(At(m1.row, id), At(m2.row, id));
        assert Iteration(m.row, id) == Iteration(m1.row, id);
      }
    }
  }

  lemma {:induction false} Wider(a: set<StepId>, x: nat, s: Signal, m: Machine, m': Machine, ids: set<StepId>, budget: nat)
    requires Effect(a, x, s, m, m') && a <= ids && x <= budget
    ensures Effect(ids, budget, s, m, m')
  {
  }

  /** At most one node written, nothing sent. */
  lemma {:induction false} Quiet(ids: set<StepId>, s: Signal, m: Machine, m': Machine, id: StepId, n: NodeState)
    requires m'.sent == m.sent && m'.laps == m.laps && m'.row.loops == m.row.loops
    requires m'.row.nodes == m.row.nodes || (id in ids && m'.row.nodes == m.row.nodes[id := n])
    ensures Effect(ids, 0, s, m, m')
  {
  }

  lemma {:induction false} WaitedEffect(env: Env, m: Machine)
    ensures var waited := Waited(env, m); Effect({}, 0, waited.signal, m, waited.m) && Framed({}, m.row, waited.m.row)
  {
    var m' := Waited(env, m).m;
    forall id ensures Kept(At(m.row, id), At(m'.row, id)) && Iteration(m.row, id) == Iteration(m'.row, id) {}
  }

  lemma {:induction false} WaitedEnds(env: Env, m: Machine)
    ensures Waited(env, m).signal == Finished || Waited(env, m).signal == Crashed
    ensures forall id :: At(Waited(env, m).m.row, id).retries == At(m.row, id).retries
  {
  }

  lemma {:induction false} AnswerEffect(env: Env, step: Step, m: Machine)
    ensures var v := Answer(env, step, m);
            Effect({step.id}, 0, SignalOf(v), m, MachineOf(v))
  {
    hide Effect, Framed, Waited, Replied;
    WaitedEffect(env, m);
    WaitedEnds(env, m);
    var waited, v := Waited(env, m), Answer(env, step, m);
    if waited.signal == Crashed {
      Wider({}, 0, waited.signal, m, waited.m, {step.id}, 0);
    } else {
      RepliedEffect(env, step, waited.m);
      Then({}, 0, m, waited.m, {step.id}, 0, SignalOf(v), MachineOf(v), {step.id}, 0);
    }
  }

  lemma {:induction false} RepliedEffect(env: Env, step: Step, m: Machine)
    ensures var v := Replied(env, step, m); Effect({step.id}, 0, SignalOf(v), m, MachineOf(v))
  {
    var v := Replied(env, step, m);
    Quiet({step.id}, SignalOf(v), m, MachineOf(v), step.id, At(MachineOf(v).row, step.id));
  }

  lemma {:induction false} FailureEffect(env: Env, step: Step, seen: set<Code>, code: Code, m: Machine)
    ensures var v := Failure(env, step, seen, code, m);
            Effect({step.id}, 0, SignalOf(v), m, MachineOf(v))
  {
    hide Effect, Retried;
    var v, ids := Failure(env, step, seen, code, m), {step.id};
    if code == TargetGone || (code == NoMaterial && step.tool.building && env.holds(m.tick)) {
      Quiet(ids, v.out.signal, m, v.out.m, step.id, At(v.out.m.row, step.id));
    } else {
      Quiet(ids, Finished, m, Tick(m), step.id, FRESH);
      RetriedEffect(env, step, seen, code, Tick(m));
      Then(ids, 0, m, Tick(m), ids, 0, SignalOf(v), MachineOf(v), ids, 0);
    }
  }

  function SignalOf(v: Verdict): Signal { if v.Over? then v.out.signal else Finished }

  function MachineOf(v: Verdict): Machine { if v.Over? then v.out.m else v.m }

  lemma {:induction false} RetriedEffect(env: Env, step: Step, seen: set<Code>, code: Code, m: Machine)
    ensures var v := Retried(env, step, seen, code, m); Effect({step.id}, 0, SignalOf(v), m, MachineOf(v))
  {
    hide Effect, Waited;
    var v, ids, retries := Retried(env, step, seen, code, m), {step.id}, At(m.row, step.id).retries + 1;
    if retries > step.maxRetries || code in seen || !code.Transient? {
      Quiet(ids, v.out.signal, m, v.out.m, step.id, NodeState(Failed, retries, None));
    } else {
      var counted := Put(m, step.id, NodeState(Running, retries, None));
      Quiet(ids, Finished, m, counted, step.id, NodeState(Running, retries, None));
      WaitedEffect(env, counted);
      var waited := Waited(env, counted);
      Then(ids, 0, m, counted, {}, 0, waited.signal, waited.m, ids, 0);
      if waited.signal != Crashed {
        WaitedEnds(env, counted);
        Quiet({}, SignalOf(v), waited.m, MachineOf(v), 0, FRESH);
        Then(ids, 0, m, waited.m, {}, 0, SignalOf(v), MachineOf(v), ids, 0);
      }
    }
  }

  function AttemptsLeft(step: Step, retries: nat): nat { if retries <= step.maxRetries then step.maxRetries + 1 - retries else 0 }

  lemma {:induction false} AttemptsEffect(env: Env, step: Step, seen: set<Code>, m: Machine)
    ensures var out := Attempts(env, step, seen, m); Effect({step.id}, AttemptsLeft(step, At(m.row, step.id).retries), out.signal, m, out.m)
    decreases AttemptsLeft(step, At(m.row, step.id).retries)
  {
    hide Effect, Answer, Failure;
    var ids, n, out := {step.id}, At(m.row, step.id), Attempts(env, step, seen, m);
    var left := AttemptsLeft(step, n.retries);
    if n.retries > step.maxRetries || env.interrupt(m.tick).Some? {
      Quiet(ids, out.signal, m, out.m, step.id, At(out.m.row, step.id));
      Wider(ids, 0, out.signal, m, out.m, ids, left);
      return;
    }
    var attempt := NextAttempt(n);
    var written := Save(env, Put(Tick(m), step.id, NodeState(Running, n.retries, Some(attempt))));
    Quiet(ids, written.signal, m, written.m, step.id, NodeState(Running, n.retries, Some(attempt)));
    if written.signal == Crashed {
      Wider(ids, 0, out.signal, m, out.m, ids, left);
      return;
    }
    var sent := Send(written.m, step, attempt);
    SendEffect(ids, written.m, step, attempt);
    Then(ids, 0, m, written.m, ids, 1, Finished, sent, ids, 1);
    AnswerEffect(env, step, sent);
    var answer := Answer(env, step, sent);
    if answer.Over? {
      Then(ids, 1, m, sent, ids, 0, out.signal, out.m, ids, left);
      return;
    }
    Then(ids, 1, m, sent, ids, 0, Finished, answer.m, ids, 1);
    FailureEffect(env, step, seen, answer.code, answer.m);
    var failure := Failure(env, step, seen, answer.code, answer.m);
    if failure.Over? {
      Then(ids, 1, m, answer.m, ids, 0, out.signal, out.m, ids, left);
      return;
    }
    Then(ids, 1, m, answer.m, ids, 0, Finished, failure.m, ids, 1);
    assert At(failure.m.row, step.id).retries == n.retries + 1;
    AttemptsEffect(env, step, seen + {answer.code}, failure.m);
    Then(ids, 1, m, failure.m, ids, left - 1, out.signal, out.m, ids, left);
  }

  lemma {:induction false} SendEffect(ids: set<StepId>, m: Machine, step: Step, attempt: nat)
    requires step.id in ids
    ensures Effect(ids, 1, Finished, m, Send(m, step, attempt))
  {
  }

  lemma {:induction false} ActionEffect(env: Env, step: Step, m: Machine)
    ensures var out := ActionStep(env, step, m); Effect({step.id}, step.maxRetries + 1, out.signal, m, out.m)
  {
    hide Effect, Attempts;
    var ids, out := {step.id}, ActionStep(env, step, m);
    if (step.tool.stateProvable && env.holds(m.tick)) || !env.holds(m.tick + 1) {
      Quiet(ids, out.signal, m, out.m, step.id, At(out.m.row, step.id));
      Wider(ids, 0, out.signal, m, out.m, ids, step.maxRetries + 1);
    } else {
      var m' := m.(tick := m.tick + 2);
      Quiet(ids, Finished, m, m', step.id, FRESH);
      AttemptsEffect(env, step, {}, m');
      Then(ids, 0, m, m', ids, AttemptsLeft(step, At(m.row, step.id).retries), out.signal, out.m, ids, step.maxRetries + 1);
    }
  }

  lemma {:induction false} AdjustedEffect(env: Env, m: Machine)
    ensures var out := Adjusted(env, m); Effect({}, 0, out.signal, m, out.m)
  {
    hide Effect, Framed, Waited, Decided;
    WaitedEffect(env, m);
    WaitedEnds(env, m);
    var waited := Waited(env, m);
    if waited.signal != Crashed {
      DecidedEffect(env, waited.m);
      var out := Decided(env, waited.m);
      Then({}, 0, m, waited.m, {}, 0, out.signal, out.m, {}, 0);
    }
  }

  lemma {:induction false} DecidedEffect(env: Env, m: Machine)
    ensures var out := Decided(env, m); Effect({}, 0, out.signal, m, out.m)
  {
    if env.adjust(m.tick).Update? {
      var m' := Decided(env, m).m;
      forall id ensures Kept(At(m.row, id), At(m'.row, id)) && Iteration(m.row, id) == Iteration(m'.row, id) {}
    }
  }

  lemma {:induction false} NodesEffect(env: Env, steps: seq<Step>, m: Machine)
    ensures var out := Nodes(env, steps, m); Effect(Ids(steps), CostOf(steps), out.signal, m, out.m)
    decreases steps, 0, 0
  {
    hide Effect;
    var out := Nodes(env, steps, m);
    if steps == [] {
      Quiet({}, Finished, m, m, 0, FRESH);
      return;
    }
    NodeEffect(env, steps[0], m);
    var first := Node(env, steps[0], m);
    if first.signal != Finished {
      Wider(StepIds(steps[0]), Cost(steps[0]), out.signal, m, out.m, Ids(steps), CostOf(steps));
      return;
    }
    NodesEffect(env, steps[1..], first.m);
    Then(StepIds(steps[0]), Cost(steps[0]), m, first.m, Ids(steps[1..]), CostOf(steps[1..]), out.signal, out.m, Ids(steps), CostOf(steps));
  }

  lemma {:induction false} NodeEffect(env: Env, step: Step, m: Machine)
    ensures var out := Node(env, step, m); Effect(StepIds(step), Cost(step), out.signal, m, out.m)
    decreases step, 3, 0
  {
    hide Effect, ByKind, Adjusted, Cost;
    var ids, out, written := StepIds(step), Node(env, step, m), Save(env, m);
    if written.signal == Crashed || env.interrupt(written.m.tick).Some? || IsSettled(written.m.row, step.id)
       || !env.holds(written.m.tick + 1) {
      Quiet(ids, out.signal, m, out.m, step.id, At(out.m.row, step.id));
      Wider(ids, 0, out.signal, m, out.m, ids, Cost(step));
      return;
    }
    var seen := Tick(Tick(written.m));
    Quiet(ids, Finished, m, seen, step.id, FRESH);
    ByKindEffect(env, step, seen);
    var ran := ByKind(env, step, seen);
    Then(ids, 0, m, seen, ids, Cost(step), ran.signal, ran.m, ids, Cost(step));
    if ran.signal == Finished {
      AdjustedEffect(env, ran.m);
      Then(ids, Cost(step), m, ran.m, {}, 0, out.signal, out.m, ids, Cost(step));
    }
  }

  lemma {:induction false} ByKindEffect(env: Env, step: Step, m: Machine)
    ensures var out := ByKind(env, step, m); Effect(StepIds(step), Cost(step), out.signal, m, out.m)
    decreases step, 2, 0
  {
    hide Effect, StepIds, Ids, BranchIds, PassCost, ActionStep, Attempts, Passes, FirstBranch, Nodes, Node, Leave;
    ChildrenBelow(step);
    var ids, out := StepIds(step), ByKind(env, step, m);
    match step.kind
    case Action =>
      ActionEffect(env, step, m);
      var acted := ActionStep(env, step, m);
      if acted.signal == Finished {
        Quiet({step.id}, out.signal, acted.m, out.m, 0, FRESH);
        Then({step.id}, Cost(step), m, acted.m, {step.id}, 0, out.signal, out.m, ids, Cost(step));
      } else {
        Wider({step.id}, Cost(step), out.signal, m, out.m, ids, Cost(step));
      }
    case If =>
      var started := Tick(Mark(m, step.id, Running));
      Quiet(ids, Finished, m, started, step.id, At(started.row, step.id));
      var chosen := if env.holds(m.tick) then step.thenSteps else step.elseSteps;
      NodesEffect(env, chosen, started);
      var ran := Nodes(env, chosen, started);
      Then(ids, 0, m, started, Ids(chosen), CostOf(chosen), ran.signal, ran.m, ids, Cost(step));
      ClosedEffect(step, ids, Cost(step), ran.signal, m, ran.m, out);
    case Branching =>
      var started := Mark(m, step.id, Running);
      Quiet(ids, Finished, m, started, step.id, At(started.row, step.id));
      FirstBranchEffect(env, step, 0, started);
      assert step.branches[0..] == step.branches;
      var ran := FirstBranch(env, step, 0, started);
      Then(ids, 0, m, started, ids, Cost(step), ran.signal, ran.m, ids, Cost(step));
      ClosedEffect(step, ids, Cost(step), ran.signal, m, ran.m, out);
    case Abort => Quiet(ids, out.signal, m, out.m, step.id, At(out.m.row, step.id));
    case Pause => Quiet(ids, out.signal, m, out.m, step.id, At(out.m.row, step.id));
    case _ =>
      var iteration := Iteration(m.row, step.id);
      var started := Mark(Enter(m, step.id), step.id, Running);
      StartEffect(ids, m, step.id);
      PassesEffect(env, step, iteration, started);
      PassCostStep(step, iteration);
      Then(ids, 0, m, started, ids, PassCost(step, iteration), out.signal, out.m, ids, Cost(step));
  }

  /** A flow node marked DONE after its children, or left as they left it. */
  lemma {:induction false} ClosedEffect(step: Step, ids: set<StepId>, budget: nat, s: Signal, m: Machine, ran: Machine, out: Out)
    requires Effect(ids, budget, s, m, ran) && step.id in ids && out.signal == s
    requires out.m == ran || ((s == Finished || s == GoalReached) && out.m == Mark(ran, step.id, Done))
    ensures Effect(ids, budget, s, m, out.m)
  {
    assert forall id | id != step.id :: At(Mark(ran, step.id, Done).row, id) == At(ran.row, id);
  }

  lemma {:induction false} StartEffect(ids: set<StepId>, m: Machine, id: StepId)
    requires id in ids
    ensures Effect(ids, 0, Finished, m, Mark(Enter(m, id), id, Running))
  {
  }

  /** What the passes still open can cost. */
  ghost function PassCost(loop: Step, iteration: nat): nat
  {
    if iteration < Limit(loop) then (Limit(loop) - iteration) * CostOf(loop.body) else 0
  }

  lemma {:induction false} PassCostStep(loop: Step, iteration: nat)
    ensures PassCost(loop, iteration) <= Limit(loop) * CostOf(loop.body)
    ensures iteration < Limit(loop) ==> PassCost(loop, iteration) == CostOf(loop.body) + PassCost(loop, iteration + 1)
  {
    var n, c := Limit(loop) - iteration, CostOf(loop.body);
    if iteration < Limit(loop) {
      assert n * c == c + (n - 1) * c;
      MulOrder(n, Limit(loop), c);
    }
  }

  lemma {:induction false} ChildrenBelow(step: Step)
    ensures step.id in StepIds(step) && Ids(step.thenSteps) <= StepIds(step) && Ids(step.elseSteps) <= StepIds(step)
    ensures Ids(step.body) <= StepIds(step)
    ensures forall k | 0 <= k < |step.branches| :: Ids(step.branches[k].steps) <= StepIds(step)
  {
    forall k | 0 <= k < |step.branches| ensures Ids(step.branches[k].steps) <= StepIds(step) {
      BranchBelow(step.branches, k);
      assert BranchIds(step.branches) <= Below(step);
    }
    assert Ids(step.thenSteps) <= Below(step) && Ids(step.elseSteps) <= Below(step) && Ids(step.body) <= Below(step);
  }

  lemma {:induction false} BranchBelow(branches: seq<PlanBranch>, k: nat)
    requires k < |branches|
    ensures Ids(branches[k].steps) <= BranchIds(branches)
  {
    if k > 0 { BranchBelow(branches[1..], k - 1); }
  }

  lemma {:induction false} FirstBranchEffect(env: Env, step: Step, k: nat, m: Machine)
    requires k <= |step.branches|
    ensures var out := FirstBranch(env, step, k, m);
            Effect(StepIds(step), BranchCost(step.branches[k..], CostOf(step.elseSteps)), out.signal, m, out.m)
    decreases step, 1, |step.branches| - k
  {
    hide Effect, StepIds, Ids;
    ChildrenBelow(step);
    var ids, out, cost := StepIds(step), FirstBranch(env, step, k, m), BranchCost(step.branches[k..], CostOf(step.elseSteps));
    if k == |step.branches| {
      NodesEffect(env, step.elseSteps, m);
      Wider(Ids(step.elseSteps), CostOf(step.elseSteps), out.signal, m, out.m, ids, cost);
      return;
    }
    assert step.branches[k..][0] == step.branches[k] && step.branches[k..][1..] == step.branches[k + 1..];
    Quiet(ids, Finished, m, Tick(m), 0, FRESH);
    if env.holds(m.tick) {
      NodesEffect(env, step.branches[k].steps, Tick(m));
      Then(ids, 0, m, Tick(m), Ids(step.branches[k].steps), CostOf(step.branches[k].steps), out.signal, out.m, ids, cost);
    } else {
      FirstBranchEffect(env, step, k + 1, Tick(m));
      Then(ids, 0, m, Tick(m), ids, BranchCost(step.branches[k + 1..], CostOf(step.elseSteps)), out.signal, out.m, ids, cost);
    }
  }

  lemma {:induction false} LoopEndEffect(env: Env, step: Step, iteration: nat, m: Machine, ids: set<StepId>)
    requires step.id in ids
    ensures Effect(ids, 0, LoopEnd(env, step, iteration, m).signal, m, LoopEnd(env, step, iteration, m).m)
  {
    var out := LoopEnd(env, step, iteration, m);
    hide Effect;
    if out.signal == Finished { LeaveEffect(m, out.m.tick, m.tick, step, ids); }
    else { Quiet(ids, out.signal, m, out.m, step.id, At(out.m.row, step.id)); }
  }

  lemma {:induction false} LeaveEffect(m: Machine, tick: nat, asked: nat, loop: Step, ids: set<StepId>)
    requires loop.id in ids
    ensures Effect(ids, 0, Finished, m, Leave(m.(tick := tick), loop, asked))
  {
    assert forall id | id != loop.id :: At(Leave(m, loop, asked).row, id) == At(m.row, id) && Iteration(Leave(m, loop, asked).row, id) == Iteration(m.row, id);
  }

  lemma {:induction false} StartPassEffect(step: Step, iteration: nat, m: Machine, ids: set<StepId>)
    requires Ids(step.body) <= ids
    ensures Effect(ids, 0, Finished, m, PassStart(step, iteration, m))
  {
    var m' := PassStart(step, iteration, m);
    assert forall id | id !in ids :: At(m'.row, id) == At(m.row, id) && Iteration(m'.row, id) == Iteration(m.row, id);
  }

  lemma {:induction false} PassedEffect(env: Env, step: Step, iteration: nat, asked: nat, m: Machine, ids: set<StepId>)
    requires step.id in ids
    ensures var written := Save(env, Passing(m, step, iteration, asked)); Effect(ids, 0, written.signal, m, written.m)
  {
  }

  lemma {:induction false} OnePassEffect(env: Env, step: Step, iteration: nat, m: Machine)
    ensures var out := OnePass(env, step, iteration, m); Effect(StepIds(step), CostOf(step.body), out.signal, m, out.m)
    decreases step, 0, 0
  {
    hide Effect, StepIds, Ids, CostOf, PassStart;
    ChildrenBelow(step);
    var ids, out, c, start := StepIds(step), OnePass(env, step, iteration, m), CostOf(step.body), PassStart(step, iteration, m);
    StartPassEffect(step, iteration, m, ids);
    NodesEffect(env, step.body, start);
    var ran := Nodes(env, step.body, start);
    Then(ids, 0, m, start, Ids(step.body), c, ran.signal, ran.m, ids, c);
    if ran.signal == Finished {
      PassedEffect(env, step, iteration + 1, m.tick, ran.m, ids);
      Then(ids, c, m, ran.m, ids, 0, out.signal, out.m, ids, c);
    }
  }

  lemma {:induction false} PassesEffect(env: Env, step: Step, iteration: nat, m: Machine)
    ensures var out := Passes(env, step, iteration, m); Effect(StepIds(step), PassCost(step, iteration), out.signal, m, out.m)
    decreases step, 1, if iteration < step.maxIterations then step.maxIterations - iteration else 0
  {
    hide Effect, StepIds, Ids, PassCost, CostOf, LoopEnd, OnePass, Leave;
    var ids, out, c, cost := StepIds(step), Passes(env, step, iteration, m), CostOf(step.body), PassCost(step, iteration);
    ChildrenBelow(step);
    if !GoesOn(env, step, iteration, m) {
      LoopEndEffect(env, step, iteration, m, ids);
      Wider(ids, 0, out.signal, m, out.m, ids, cost);
      return;
    }
    PassCostStep(step, iteration);
    OnePassEffect(env, step, iteration, m);
    var passed := OnePass(env, step, iteration, m);
    if passed.signal != Finished {
      Wider(ids, c, out.signal, m, out.m, ids, cost);
    } else if step.kind == Repeat && iteration + 1 >= step.repeatCount {
      LeaveEffect(passed.m, passed.m.tick, m.tick, step, ids);
      Then(ids, c, m, passed.m, ids, 0, out.signal, out.m, ids, cost);
    } else {
      PassesEffect(env, step, iteration + 1, passed.m);
      Then(ids, c, m, passed.m, ids, PassCost(step, iteration + 1), out.signal, out.m, ids, cost);
    }
  }
}
