/** The plan interpreter as it runs: one object whose fields are changed step by step. */
module PlanRunning {
  import opened Options
  import opened PlanInterpretation

  lemma {:induction false} ClearedTwice(nodes: map<StepId, NodeState>, a: set<StepId>, b: set<StepId>)
    ensures Cleared(Cleared(nodes, a), b) == Cleared(nodes, a + b)
  {
  }

  lemma {:induction false} ClearedOne(nodes: map<StepId, NodeState>, id: StepId)
    ensures (if id in nodes then nodes[id := FRESH] else nodes) == Cleared(nodes, {id})
    ensures Cleared(nodes, {}) == nodes
  {
  }

  class PlanRunner {
    const env: Env
    const steps: seq<Step>
    var plan: Status
    var nodes: map<StepId, NodeState>
    var loops: map<StepId, nat>
    var saved: Row
    var tick: nat
    ghost var sent: seq<Dispatch>
    ghost var inFlight: Option<Dispatch>
    ghost var laps: seq<Lap>

    constructor (env: Env, steps: seq<Step>, row: Row, tick: nat)
      ensures this.env == env && this.steps == steps && Now() == Machine(row, row, [], None, [], tick)
    {
      this.env, this.steps, this.tick := env, steps, tick;
      plan, nodes, loops, saved := row.plan, row.nodes, row.loops, row;
      sent, inFlight, laps := [], None, [];
    }

    ghost function Now(): Machine
      reads this
    {
      Machine(Row(plan, nodes, loops), saved, sent, inFlight, laps, tick)
    }

    function StateOf(id: StepId): (n: NodeState)
      reads this
      ensures n == At(Row(plan, nodes, loops), id)
    {
      if id in nodes then nodes[id] else FRESH
    }

    method Ask() returns (answer: bool)
      modifies this`tick
      ensures answer == env.holds(old(tick)) && tick == old(tick) + 1
    {
      answer := env.holds(tick);
      tick := tick + 1;
    }

    method SetStatus(id: StepId, status: Status)
      modifies this`nodes
      ensures Now() == Mark(old(Now()), id, status)
    {
      nodes := nodes[id := StateOf(id).(status := status)];
    }

    /** `_save_plan`, after which the process may die. */
    method SavePlan() returns (signal: Signal)
      modifies this`saved, this`tick
      ensures Out(signal, Now()) == Save(env, old(Now()))
    {
      saved := Row(plan, nodes, loops);
      signal := if env.dies(tick) then Crashed else Finished;
      tick := tick + 1;
    }

    /** An await: `update_pending_plan_step` may come in meanwhile, and saves. */
    method Wait() returns (signal: Signal)
      modifies this`nodes, this`saved, this`tick
      ensures Out(signal, Now()) == Waited(env, old(Now()))
    {
      var ids := env.updates(tick);
      if !Applies(Row(plan, nodes, loops), ids) { return Finished; }
      nodes := Updated(nodes, ids);
      signal := SavePlan();
    }

    /** `_plan_interrupt`. */
    method PlanInterrupt(id: StepId) returns (stopped: Option<Signal>)
      modifies this`nodes, this`tick
      ensures var i := env.interrupt(old(tick));
              if i.Some? then stopped.Some? && Out(stopped.value, Now()) == Interrupted(i.value, id, old(Now()))
              else stopped.None? && Now() == Tick(old(Now()))
    {
      var i := env.interrupt(tick);
      tick := tick + 1;
      if i.None? { return None; }
      SetStatus(id, NodeStop(i.value));
      return Some(Stopped(PlanStop(i.value)));
    }

    /** `_reset_nodes`. */
    method ResetNodes(list: seq<Step>)
      modifies this`nodes
      ensures nodes == Cleared(old(nodes), Ids(list))
      decreases list, 1
    {
      hide Cleared;
      ClearedOne(nodes, 0);
      if list == [] { return; }
      ResetNode(list[0]);
      ghost var first := nodes;
      ResetNodes(list[1..]);
      ClearedTwice(old(nodes), StepIds(list[0]), Ids(list[1..]));
    }

    method ResetNode(step: Step)
      modifies this`nodes
      ensures nodes == Cleared(old(nodes), StepIds(step))
      decreases step, 2
    {
      hide Cleared;
      ClearedOne(nodes, step.id);
      if step.id in nodes { nodes := nodes[step.id := FRESH]; }
      ResetNodes(step.thenSteps);
      ClearedTwice(old(nodes), {step.id}, Ids(step.thenSteps));
      ResetNodes(step.elseSteps);
      ghost var ids := {step.id} + Ids(step.thenSteps);
      ClearedTwice(old(nodes), ids, Ids(step.elseSteps));
      ResetNodes(step.body);
      ids := ids + Ids(step.elseSteps);
      ClearedTwice(old(nodes), ids, Ids(step.body));
      ResetBranches(step.branches);
      ids := ids + Ids(step.body);
      ClearedTwice(old(nodes), ids, BranchIds(step.branches));
      assert ids + BranchIds(step.branches) == StepIds(step);
    }

    method ResetBranches(branches: seq<PlanBranch>)
      modifies this`nodes
      ensures nodes == Cleared(old(nodes), BranchIds(branches))
      decreases branches, 1
    {
      hide Cleared;
      ClearedOne(nodes, 0);
      if branches == [] { return; }
      ResetNodes(branches[0].steps);
      ResetBranches(branches[1..]);
      ClearedTwice(old(nodes), Ids(branches[0].steps), BranchIds(branches[1..]));
    }

    /** `_execute_nodes`. */
    method ExecuteNodes(list: seq<Step>) returns (signal: Signal)
      modifies this
      ensures Out(signal, Now()) == Nodes(env, list, old(Now()))
      decreases list, 0, 0
    {
      hide Node;
      for index := 0 to |list|
        invariant Nodes(env, list, old(Now())) == Nodes(env, list[index..], Now())
      {
        assert list[index..][0] == list[index] && list[index..][1..] == list[index + 1..];
        signal := ExecuteNode(list[index]);
        if signal != Finished { return; }
      }
      return Finished;
    }

    method ExecuteNode(node: Step) returns (signal: Signal)
      modifies this
      ensures Out(signal, Now()) == Node(env, node, old(Now()))
      decreases node, 3, 0
    {
      hide ByKind, Adjusted;
      signal := SavePlan();
      if signal == Crashed { return; }
      var stopped := PlanInterrupt(node.id);
      if stopped.Some? { return stopped.value; }
      var status := StateOf(node.id).status;
      if status == Done || status == Skipped { return Finished; }
      var ready := Ask();
      if !ready {
        SetStatus(node.id, Blocked);
        return Stopped(Blocked);
      }
      signal := ExecuteByKind(node);
      if signal == Finished { signal := AdjustPlan(); }
    }

    method ExecuteByKind(node: Step) returns (signal: Signal)
      modifies this
      ensures Out(signal, Now()) == ByKind(env, node, old(Now()))
      decreases node, 2, 0
    {
      hide Nodes, FirstBranch, Passes, ActionStep;
      match node.kind
      case Action =>
        signal := ExecuteActionStep(node);
        if signal == Finished {
          var reached := Ask();
          signal := if reached then GoalReached else Finished;
        }
      case If =>
        SetStatus(node.id, Running);
        var chosen := Ask();
        signal := ExecuteNodes(if chosen then node.thenSteps else node.elseSteps);
        if signal == Finished || signal == GoalReached { SetStatus(node.id, Done); }
      case Branching =>
        SetStatus(node.id, Running);
        signal := ExecuteFirstBranch(node);
        if signal == Finished { SetStatus(node.id, Done); }
      case Abort =>
        SetStatus(node.id, Aborted);
        return Stopped(Aborted);
      case Pause =>
        SetStatus(node.id, Paused);
        return Stopped(Paused);
      case _ =>
        signal := ExecuteLoop(node);
    }

    method ExecuteFirstBranch(node: Step) returns (signal: Signal)
      modifies this
      ensures Out(signal, Now()) == FirstBranch(env, node, 0, old(Now()))
      decreases node, 1, 0
    {
      hide Nodes;
      for k := 0 to |node.branches|
        invariant FirstBranch(env, node, 0, old(Now())) == FirstBranch(env, node, k, Now())
      {
        var holds := Ask();
        if holds {
          signal := ExecuteNodes(node.branches[k].steps);
          return;
        }
      }
      signal := ExecuteNodes(node.elseSteps);
    }

    method CloseLoop(node: Step, ghost asked: nat)
      modifies this`nodes, this`loops, this`laps
      ensures Now() == Leave(old(Now()), node, asked)
    {
      SetStatus(node.id, Done);
      loops, laps := loops - {node.id}, laps + [Left(node, asked)];
    }

    /** `_execute_loop`. */
    method ExecuteLoop(node: Step) returns (signal: Signal)
      modifies this
      ensures var m := old(Now());
              Out(signal, Now()) == Passes(env, node, Iteration(m.row, node.id), Mark(Enter(m, node.id), node.id, Running))
      decreases node, 1, 0
    {
      hide OnePass, GoesOn, LoopEnd, Leave;
      var iteration := if node.id in loops then loops[node.id] else 0;
      loops := loops[node.id := iteration];
      SetStatus(node.id, Running);
      ghost var first, started := iteration, Now();
      while true
        invariant Passes(env, node, first, started) == Passes(env, node, iteration, Now())
        decreases if iteration < node.maxIterations then node.maxIterations - iteration else 0
      {
        ghost var m := Now();
        var ended;
        ended, signal := CheckLoop(node, iteration);
        if ended { return; }
        signal := ExecutePass(node, iteration, m);
        if signal != Finished { return; }
        iteration := iteration + 1;
        if node.kind == Repeat && iteration >= node.repeatCount {
          CloseLoop(node, m.tick);
          return Finished;
        }
      }
    }

    /** What is looked at before each pass, and when no pass is left. */
    method CheckLoop(node: Step, iteration: nat) returns (ended: bool, signal: Signal)
      modifies this
      ensures ended <==> !GoesOn(env, node, iteration, old(Now()))
      ensures if ended then Out(signal, Now()) == LoopEnd(env, node, iteration, old(Now()))
              else Now() == old(Now()).(tick := old(tick) + 4) && iteration < node.maxIterations
    {
      ended, signal := true, Finished;
      ghost var asked := tick;
      var exit;
      if iteration < node.maxIterations {
        var stopped := PlanInterrupt(node.id);
        if stopped.Some? { return true, stopped.value; }
        var late := Ask();
        if late {
          SetStatus(node.id, Failed);
          return true, Stopped(Timeout);
        }
        exit := Ask();
        if !exit {
          var goesOn := Ask();
          exit := (node.kind == While && !goesOn) || (node.kind == Repeat && iteration >= node.repeatCount);
          if !exit { return false, Finished; }
        }
      } else if node.kind == Repeat {
        exit := true;
      } else {
        exit := Ask();
      }
      if exit {
        CloseLoop(node, asked);
      } else {
        SetStatus(node.id, Failed);
        signal := Stopped(Blocked);
      }
    }

    /** One turn of the loop, its conditions checked since m. */
    method ExecutePass(node: Step, iteration: nat, ghost m: Machine) returns (signal: Signal)
      requires Now() == m.(tick := m.tick + 4)
      modifies this
      ensures Out(signal, Now()) == OnePass(env, node, iteration, m)
      decreases node, 0, 0
    {
      hide Nodes, Cleared;
      if iteration > 0 { ResetNodes(node.body); }
      assert Now() == PassStart(node, iteration, m);
      signal := ExecuteNodes(node.body);
      if signal != Finished { return; }
      loops, laps := loops[node.id := iteration + 1], laps + [Passed(node, m.tick)];
      signal := SavePlan();
    }

    /** `_execute_action_step`. */
    method ExecuteActionStep(step: Step) returns (signal: Signal)
      modifies this
      ensures Out(signal, Now()) == ActionStep(env, step, old(Now()))
    {
      hide Attempts;
      var satisfied := Ask();
      if step.tool.stateProvable && satisfied {
        SetStatus(step.id, Done);
        return Finished;
      }
      var usable := Ask();
      if !usable {
        SetStatus(step.id, Blocked);
        return Stopped(Blocked);
      }
      signal := RetryAction(step);
    }

    method RetryAction(step: Step) returns (signal: Signal)
      modifies this
      ensures Out(signal, Now()) == Attempts(env, step, {}, old(Now()))
    {
      hide Answer, Failure;
      var seen: set<Code> := {};
      while StateOf(step.id).retries <= step.maxRetries
        invariant Attempts(env, step, {}, old(Now())) == Attempts(env, step, seen, Now())
        decreases step.maxRetries + 1 - StateOf(step.id).retries
      {
        ghost var m := Now();
        var stopped := PlanInterrupt(step.id);
        if stopped.Some? { return stopped.value; }
        signal := SendRequest(step, m);
        if signal == Crashed { return; }
        var over, code;
        over, signal, code := ReadReply(step);
        if over { return; }
        over, signal := HandleFailure(step, seen, code);
        if over { return; }
        seen := seen + {code};
      }
      return Stopped(Blocked);
    }

    /** Save the step as RUNNING with its request id, then hand the request over. */
    method SendRequest(step: Step, ghost m: Machine) returns (signal: Signal)
      requires Now() == Tick(m)
      modifies this
      ensures var n := At(m.row, step.id);
              var attempt := NextAttempt(n);
              var written := Save(env, Put(Tick(m), step.id, NodeState(Running, n.retries, Some(attempt))));
              signal == written.signal && Now() == if signal == Crashed then written.m else Send(written.m, step, attempt)
      ensures signal != Crashed ==>
                && |sent| == |m.sent| + 1 && sent[|m.sent|].step == step && sent[|m.sent|].written == saved == Now().row
                && At(saved, step.id).status == Running && At(saved, step.id).request == Some(sent[|m.sent|].attempt)
    {
      var n := StateOf(step.id);
      var attempt := NextAttempt(n);
      nodes := nodes[step.id := NodeState(Running, n.retries, Some(attempt))];
      signal := SavePlan();
      if signal == Crashed { return; }
      ghost var d := Dispatch(step, attempt, saved);
      sent, inFlight := sent + [d], Some(d);
    }

    /** The wait for the reply to the request in flight, and what it means. */
    method ReadReply(step: Step) returns (over: bool, signal: Signal, code: Code)
      modifies this
      ensures (if over then Over(Out(signal, Now())) else Again(code, Now())) == Answer(env, step, old(Now()))
    {
      hide Waited;
      code := TRANSPORT_ERROR;
      signal := Wait();
      if signal == Crashed { return true, signal, code; }
      var reply := env.reply(tick);
      tick := tick + 1;
      over, signal, code := true, Crashed, TRANSPORT_ERROR;
      if reply.NoReply? { return; }
      if reply.TaskCancel? { return true, TaskCancelled, code; }
      inFlight := None;
      match reply
      case PreemptedReply =>
        SetStatus(step.id, Preempted);
        signal := Stopped(Preempted);
      case CancelledReply(userPaused) =>
        SetStatus(step.id, Cancelled);
        signal := Stopped(if userPaused then Paused else Aborted);
      case Succeeded(verified) =>
        if !verified { return false, signal, POSTCONDITION_FAILED; }
        SetStatus(step.id, Done);
        signal := SavePlan();
      case FailedReply(failure, proven) =>
        if !(step.tool.stateProvable && proven) { return false, signal, failure; }
        SetStatus(step.id, Done);
        signal := SavePlan();
      case Raised =>
        over := false;
    }

    /** What a failure code means: stop, or count a retry and go on. */
    method HandleFailure(step: Step, seen: set<Code>, code: Code) returns (over: bool, signal: Signal)
      modifies this
      ensures (if over then Over(Out(signal, Now())) else Again(code, Now())) == Failure(env, step, seen, code, old(Now()))
    {
      hide Retried;
      over, signal := true, Stopped(Aborted);
      if code == TargetGone {
        SetStatus(step.id, Aborted);
        return;
      }
      if code == NoMaterial && step.tool.building && env.holds(tick) {
        plan := Paused;
        signal := SavePlan();
        if signal == Crashed { return; }
        SetStatus(step.id, Paused);
        return true, Material;
      }
      tick := tick + 1;
      over, signal := CountRetry(step, seen, code);
    }

    method CountRetry(step: Step, seen: set<Code>, code: Code) returns (over: bool, signal: Signal)
      modifies this
      ensures (if over then Over(Out(signal, Now())) else Again(code, Now())) == Retried(env, step, seen, code, old(Now()))
    {
      hide Waited;
      var retries := StateOf(step.id).retries + 1;
      if retries > step.maxRetries || code in seen || !code.Transient? {
        nodes := nodes[step.id := NodeState(Failed, retries, None)];
        signal := SavePlan();
        return true, if signal == Crashed then Crashed else Stopped(Blocked);
      }
      nodes := nodes[step.id := NodeState(Running, retries, None)];
      signal := Wait();
      if signal == Crashed { return true, Crashed; }
      over, signal := env.cancelled(tick), TaskCancelled;
      tick := tick + 1;
    }

    /** `_maybe_adjust_plan`. */
    method AdjustPlan() returns (signal: Signal)
      modifies this
      ensures Out(signal, Now()) == Adjusted(env, old(Now()))
    {
      hide Waited, Updated, Remarked;
      signal := Wait();
      if signal == Crashed { return; }
      var adjustment := env.adjust(tick);
      tick := tick + 1;
      match adjustment
      case Keep => signal := Finished;
      case CancelAdjusting => signal := TaskCancelled;
      case Update(ids) =>
        nodes := Updated(nodes, ids);
        signal := SavePlan();
      case Replace =>
        plan, nodes := Aborted, Remarked(nodes, {Pending, Paused, NeedsRevalidation, Running}, Aborted);
        signal := SavePlan();
        if signal == Finished { signal := Replaced; }
    }

    /** `_execute_plan`. */
    method ExecutePlan() returns (signal: Signal)
      modifies this
      ensures Out(signal, Now()) == Execute(env, steps, old(Now()))
    {
      hide Nodes;
      plan, inFlight := Running, None;
      signal := SavePlan();
      if signal == Crashed { return; }
      signal := ExecuteNodes(steps);
      match signal {
      case Finished => plan := Done;
      case GoalReached => plan, nodes := Done, Remarked(nodes, {Pending, Paused, NeedsRevalidation}, Skipped);
      case Stopped(status) => plan := status;
      case Replaced => plan := Aborted;
      case TaskCancelled => plan, nodes := Paused, Remarked(nodes, {Running}, Paused);
      case Material => return;
      case Crashed => return;
      }
      var last := SavePlan();
    }
  }
}
