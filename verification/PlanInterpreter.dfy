/** The plan interpreter: actions, branches and bounded loops, with retries, pauses and saving ahead. */
module PlanInterpretation {
  import opened Options

  type StepId = nat

  /** A WAIT node runs exactly as an ACTION. */
  datatype Kind = Action | If | Branching | Repeat | While | Until | Abort | Pause

  /** What the tool catalogue says: has a side effect, may be replayed, can be confirmed from the state alone, builds. */
  datatype Tool = Tool(sideEffect: bool, replaySafe: bool, stateProvable: bool, building: bool)

  datatype PlanBranch = PlanBranch(steps: seq<Step>)

  /** The fixed part of a plan node. */
  datatype Step = Step(id: StepId, kind: Kind, tool: Tool, maxRetries: nat, repeatCount: nat, maxIterations: nat,
                       thenSteps: seq<Step>, elseSteps: seq<Step>, body: seq<Step>, branches: seq<PlanBranch>)

  /** Of a node or of the plan. */
  datatype Status = Pending | Running | Done | Skipped | Paused | Aborted | Preempted | Failed | Blocked | Cancelled
                  | Timeout | NeedsRevalidation

  /** The changing part of a node. A request id is the plan, the node and an attempt number; only the last is kept. */
  datatype NodeState = NodeState(status: Status, retries: nat, request: Option<nat>)

  const FRESH := NodeState(Pending, 0, None)

  /** The plan as it is saved: statuses and, per open loop, the passes completed. */
  datatype Row = Row(plan: Status, nodes: map<StepId, NodeState>, loops: map<StepId, nat>)

  /** One request handed to the executor, with the row that was on disk at that moment. */
  datatype Dispatch = Dispatch(step: Step, attempt: nat, written: Row)

  /** A pass made or a loop left, and the moment from which its conditions were last asked. */
  datatype Lap = Passed(loop: Step, asked: nat) | Left(loop: Step, asked: nat)

  /** Memory, disk, and what has happened. `inFlight` is a dispatch whose reply has not been seen. */
  datatype Machine = Machine(row: Row, saved: Row, sent: seq<Dispatch>, inFlight: Option<Dispatch>, laps: seq<Lap>, tick: nat)

  datatype Interruption = UserPaused | WorldLost | Reflex | PlanTimeout

  datatype Code = TargetGone | NoMaterial | Transient(kind: nat) | Permanent(kind: nat)

  const TRANSPORT_ERROR := Transient(0)
  const POSTCONDITION_FAILED := Permanent(0)

  datatype Reply = NoReply | TaskCancel | PreemptedReply | CancelledReply(userPaused: bool)
                 | Succeeded(verified: bool) | FailedReply(code: Code, proven: bool) | Raised

  datatype Adjustment = Keep | CancelAdjusting | Update(ids: set<StepId>) | Replace

  /** Everything the interpreter asks of its surroundings, by the moment it asks. `dies` ends the process after a save;
      `updates` are the actions given new arguments by the user while the interpreter waits. */
  datatype Env = Env(interrupt: nat -> Option<Interruption>, holds: nat -> bool, reply: nat -> Reply,
                     dies: nat -> bool, cancelled: nat -> bool, adjust: nat -> Adjustment, updates: nat -> set<StepId>)

  /** How a list of nodes ends. `Stopped` carries the status the plan gets. */
  datatype Signal = Finished | GoalReached | Stopped(status: Status) | Replaced | Material | TaskCancelled | Crashed

  datatype Out = Out(signal: Signal, m: Machine)

  datatype Verdict = Over(out: Out) | Again(code: Code, m: Machine)

  // ----- elementary changes -----

  function At(row: Row, id: StepId): NodeState { if id in row.nodes then row.nodes[id] else FRESH }

  /** The attempt number the node's next request carries: a request id once given is kept. */
  function NextAttempt(n: NodeState): nat { if n.request.Some? then n.request.value else n.retries }

  function Iteration(row: Row, id: StepId): nat { if id in row.loops then row.loops[id] else 0 }

  predicate IsSettled(row: Row, id: StepId) { At(row, id).status == Done || At(row, id).status == Skipped }

  predicate PendingLike(s: Status) { s == Pending || s == Paused || s == NeedsRevalidation }

  function Tick(m: Machine): Machine { m.(tick := m.tick + 1) }

  function Put(m: Machine, id: StepId, n: NodeState): Machine { m.(row := m.row.(nodes := m.row.nodes[id := n])) }

  function Mark(m: Machine, id: StepId, s: Status): Machine { Put(m, id, At(m.row, id).(status := s)) }

  function Enter(m: Machine, id: StepId): Machine { m.(row := m.row.(loops := m.row.loops[id := Iteration(m.row, id)])) }

  function Passing(m: Machine, loop: Step, iteration: nat, asked: nat): Machine
  {
    m.(row := m.row.(loops := m.row.loops[loop.id := iteration]), laps := m.laps + [Passed(loop, asked)])
  }

  /** The loop is done and its state dropped. */
  function Leave(m: Machine, loop: Step, asked: nat): Machine
  {
    var marked := Mark(m, loop.id, Done);
    marked.(row := marked.row.(loops := marked.row.loops - {loop.id}), laps := marked.laps + [Left(loop, asked)])
  }

  function Cleared(nodes: map<StepId, NodeState>, ids: set<StepId>): map<StepId, NodeState>
  {
    map id | id in nodes :: if id in ids then FRESH else nodes[id]
  }

  function Reset(m: Machine, ids: set<StepId>): Machine { m.(row := m.row.(nodes := Cleared(m.row.nodes, ids))) }

  /** Every node whose status is in `from` gets the status `to`. */
  function Remarked(nodes: map<StepId, NodeState>, from: set<Status>, to: Status): map<StepId, NodeState>
  {
    map id | id in nodes :: if nodes[id].status in from then nodes[id].(status := to) else nodes[id]
  }

  /** `update_pending_step` for each of the ids. */
  function Updated(nodes: map<StepId, NodeState>, ids: set<StepId>): map<StepId, NodeState>
  {
    map id | id in nodes ::
      if id in ids && PendingLike(nodes[id].status) then nodes[id].(status := Pending, request := None) else nodes[id]
  }

  /** Some of the ids are of steps not yet started, so that an update is made and saved. */
  predicate Applies(row: Row, ids: set<StepId>) { exists id | id in ids :: PendingLike(At(row, id).status) }

  function Save(env: Env, m: Machine): Out { Out(if env.dies(m.tick) then Crashed else Finished, Tick(m.(saved := m.row))) }

  /** A wait, for a reply, between two attempts or for a decision, in which the user may update steps not yet started. */
  function Waited(env: Env, m: Machine): Out
  {
    if !Applies(m.row, env.updates(m.tick)) then Out(Finished, m)
    else Save(env, m.(row := m.row.(nodes := Updated(m.row.nodes, env.updates(m.tick)))))
  }

  function Send(m: Machine, step: Step, attempt: nat): Machine
  {
    var d := Dispatch(step, attempt, m.saved);
    m.(sent := m.sent + [d], inFlight := Some(d))
  }

  function NodeStop(i: Interruption): Status
  {
    match i case UserPaused => Paused case WorldLost => Aborted case Reflex => Preempted case PlanTimeout => Failed
  }

  function PlanStop(i: Interruption): Status { if i.PlanTimeout? then Timeout else NodeStop(i) }

  function Interrupted(i: Interruption, id: StepId, m: Machine): Out { Out(Stopped(PlanStop(i)), Mark(Tick(m), id, NodeStop(i))) }

  /** All nodes below a list, the list included. */
  ghost function Ids(steps: seq<Step>): set<StepId>
    decreases steps, 1
  {
    if steps == [] then {} else StepIds(steps[0]) + Ids(steps[1..])
  }

  ghost function StepIds(step: Step): set<StepId>
    decreases step, 2
  {
    {step.id} + Below(step)
  }

  ghost function Below(step: Step): set<StepId>
    decreases step, 1
  {
    Ids(step.thenSteps) + Ids(step.elseSteps) + Ids(step.body) + BranchIds(step.branches)
  }

  ghost function BranchIds(branches: seq<PlanBranch>): set<StepId>
    decreases branches, 1
  {
    if branches == [] then {} else Ids(branches[0].steps) + BranchIds(branches[1..])
  }

  // ----- what a run does -----

  /** `_execute_nodes`. */
  ghost function Nodes(env: Env, steps: seq<Step>, m: Machine): Out
    decreases steps, 0, 0
  {
    if steps == [] then Out(Finished, m) else
    var first := Node(env, steps[0], m);
    if first.signal != Finished then first else Nodes(env, steps[1..], first.m)
  }

  /** One turn of its loop: save, look for an interruption, skip what is settled, check preconditions, run, adjust. */
  ghost function Node(env: Env, step: Step, m: Machine): Out
    decreases step, 3, 0
  {
    var written := Save(env, m);
    if written.signal == Crashed then written else
    var interrupt := env.interrupt(written.m.tick);
    if interrupt.Some? then Interrupted(interrupt.value, step.id, written.m) else
    var seen := Tick(written.m);
    if IsSettled(seen.row, step.id) then Out(Finished, seen)
    else if !env.holds(seen.tick) then Out(Stopped(Blocked), Mark(Tick(seen), step.id, Blocked))
    else
      var ran := ByKind(env, step, Tick(seen));
      if ran.signal == Finished then Adjusted(env, ran.m) else ran
  }

  ghost function ByKind(env: Env, step: Step, m: Machine): Out
    decreases step, 2, 0
  {
    match step.kind
    case Action =>
      var acted := ActionStep(env, step, m);
      if acted.signal != Finished then acted
      else Out(if env.holds(acted.m.tick) then GoalReached else Finished, Tick(acted.m))
    case If =>
      var chosen := if env.holds(m.tick) then step.thenSteps else step.elseSteps;
      var ran := Nodes(env, chosen, Tick(Mark(m, step.id, Running)));
      if ran.signal == Finished || ran.signal == GoalReached then Out(ran.signal, Mark(ran.m, step.id, Done)) else ran
    case Branching =>
      var ran := FirstBranch(env, step, 0, Mark(m, step.id, Running));
      if ran.signal == Finished then Out(Finished, Mark(ran.m, step.id, Done)) else ran
    case Abort => Out(Stopped(Aborted), Mark(m, step.id, Aborted))
    case Pause => Out(Stopped(Paused), Mark(m, step.id, Paused))
    case _ => Passes(env, step, Iteration(m.row, step.id), Mark(Enter(m, step.id), step.id, Running))
  }

  /** The first branch from k on whose condition holds, or the else steps. */
  ghost function FirstBranch(env: Env, step: Step, k: nat, m: Machine): Out
    requires k <= |step.branches|
    decreases step, 1, |step.branches| - k
  {
    if k == |step.branches| then Nodes(env, step.elseSteps, m)
    else if env.holds(m.tick) then Nodes(env, step.branches[k].steps, Tick(m))
    else FirstBranch(env, step, k + 1, Tick(m))
  }

  /** No pass limit, interruption, timeout or condition keeps the loop from another pass. */
  ghost predicate GoesOn(env: Env, step: Step, iteration: nat, m: Machine)
  {
    && iteration < step.maxIterations && env.interrupt(m.tick).None? && !env.holds(m.tick + 1) && !env.holds(m.tick + 2)
    && (step.kind == While ==> env.holds(m.tick + 3)) && (step.kind == Repeat ==> iteration < step.repeatCount)
  }

  /** How a loop ends that does not go on. */
  ghost function LoopEnd(env: Env, step: Step, iteration: nat, m: Machine): Out
  {
    if iteration >= step.maxIterations then
      if step.kind == Repeat then Out(Finished, Leave(m, step, m.tick))
      else if env.holds(m.tick) then Out(Finished, Leave(Tick(m), step, m.tick))
      else Out(Stopped(Blocked), Mark(Tick(m), step.id, Failed))
    else
      var interrupt := env.interrupt(m.tick);
      if interrupt.Some? then Interrupted(interrupt.value, step.id, m)
      else if env.holds(m.tick + 1) then Out(Stopped(Timeout), Mark(m.(tick := m.tick + 2), step.id, Failed))
      else if env.holds(m.tick + 2) then Out(Finished, Leave(m.(tick := m.tick + 3), step, m.tick))
      else Out(Finished, Leave(m.(tick := m.tick + 4), step, m.tick))
  }

  /** Before a pass; from the second on, the whole body starts afresh. */
  ghost function PassStart(step: Step, iteration: nat, m: Machine): Machine
  {
    var checked := m.(tick := m.tick + 4);
    if iteration > 0 then Reset(checked, Ids(step.body)) else checked
  }

  ghost function OnePass(env: Env, step: Step, iteration: nat, m: Machine): Out
    decreases step, 0, 0
  {
    var ran := Nodes(env, step.body, PassStart(step, iteration, m));
    if ran.signal != Finished then ran else Save(env, Passing(ran.m, step, iteration + 1, m.tick))
  }

  /** The loop of `_execute_loop`, with `iteration` passes behind it. */
  ghost function Passes(env: Env, step: Step, iteration: nat, m: Machine): Out
    decreases step, 1, if iteration < step.maxIterations then step.maxIterations - iteration else 0
  {
    if !GoesOn(env, step, iteration, m) then LoopEnd(env, step, iteration, m) else
    var passed := OnePass(env, step, iteration, m);
    if passed.signal != Finished then passed
    else if step.kind == Repeat && iteration + 1 >= step.repeatCount then Out(Finished, Leave(passed.m, step, m.tick))
    else Passes(env, step, iteration + 1, passed.m)
  }

  /** `_execute_action_step`: done already by the state, unusable arguments, or attempts. */
  ghost function ActionStep(env: Env, step: Step, m: Machine): Out
  {
    if step.tool.stateProvable && env.holds(m.tick) then Out(Finished, Mark(Tick(m), step.id, Done))
    else if !env.holds(m.tick + 1) then Out(Stopped(Blocked), Mark(m.(tick := m.tick + 2), step.id, Blocked))
    else Attempts(env, step, {}, m.(tick := m.tick + 2))
  }

  /** The retry loop. The row is on disk, RUNNING and with its request id, before the request goes out. */
  ghost function Attempts(env: Env, step: Step, seen: set<Code>, m: Machine): Out
    decreases if At(m.row, step.id).retries <= step.maxRetries then step.maxRetries + 1 - At(m.row, step.id).retries else 0
  {
    var n := At(m.row, step.id);
    if n.retries > step.maxRetries then Out(Stopped(Blocked), m) else
    var interrupt := env.interrupt(m.tick);
    if interrupt.Some? then Interrupted(interrupt.value, step.id, m) else
    var attempt := NextAttempt(n);
    var written := Save(env, Put(Tick(m), step.id, NodeState(Running, n.retries, Some(attempt))));
    if written.signal == Crashed then written else
    var answer := Answer(env, step, Send(written.m, step, attempt));
    if answer.Over? then answer.out else
    var failure := Failure(env, step, seen, answer.code, answer.m);
    if failure.Over? then failure.out else Attempts(env, step, seen + {answer.code}, failure.m)
  }

  /** The wait for a reply, and what the reply means. */
  ghost function Answer(env: Env, step: Step, m: Machine): (v: Verdict)
    ensures v.Again? ==> At(v.m.row, step.id).retries == At(m.row, step.id).retries
  {
    var waited := Waited(env, m);
    if waited.signal == Crashed then Over(waited) else Replied(env, step, waited.m)
  }

  /** The end of the step, or a failure code. */
  ghost function Replied(env: Env, step: Step, m: Machine): (v: Verdict)
    ensures v.Again? ==> v.m.row == m.row
  {
    var got := Tick(m.(inFlight := None));
    match env.reply(m.tick)
    case NoReply => Over(Out(Crashed, Tick(m)))
    case TaskCancel => Over(Out(TaskCancelled, Tick(m)))
    case PreemptedReply => Over(Out(Stopped(Preempted), Mark(got, step.id, Preempted)))
    case CancelledReply(userPaused) => Over(Out(Stopped(if userPaused then Paused else Aborted), Mark(got, step.id, Cancelled)))
    case Succeeded(verified) => if verified then Over(Save(env, Mark(got, step.id, Done))) else Again(POSTCONDITION_FAILED, got)
    case FailedReply(code, proven) =>
      if step.tool.stateProvable && proven then Over(Save(env, Mark(got, step.id, Done))) else Again(code, got)
    case Raised => Again(TRANSPORT_ERROR, got)
  }

  /** What a failure code means: the end of the step, or another attempt. */
  ghost function Failure(env: Env, step: Step, seen: set<Code>, code: Code, m: Machine): (v: Verdict)
    ensures v.Again? ==> At(v.m.row, step.id).retries == At(m.row, step.id).retries + 1
  {
    if code == TargetGone then Over(Out(Stopped(Aborted), Mark(m, step.id, Aborted)))
    else if code == NoMaterial && step.tool.building && env.holds(m.tick) then
      var parked := Save(env, m.(row := m.row.(plan := Paused)));
      Over(if parked.signal == Crashed then parked else Out(Material, Mark(parked.m, step.id, Paused)))
    else Retried(env, step, seen, code, Tick(m))
  }

  /** A retry is counted; it is made only for a transient code not seen before, while retries are left. */
  ghost function Retried(env: Env, step: Step, seen: set<Code>, code: Code, m: Machine): (v: Verdict)
    ensures v.Again? ==> At(v.m.row, step.id).retries == At(m.row, step.id).retries + 1
  {
    var retries := At(m.row, step.id).retries + 1;
    if retries > step.maxRetries || code in seen || !code.Transient? then
      var failed := Save(env, Put(m, step.id, NodeState(Failed, retries, None)));
      Over(if failed.signal == Crashed then failed else Out(Stopped(Blocked), failed.m))
    else
      var waited := Waited(env, Put(m, step.id, NodeState(Running, retries, None)));
      if waited.signal == Crashed then Over(waited)
      else if env.cancelled(waited.m.tick) then Over(Out(TaskCancelled, Tick(waited.m)))
      else Again(code, Tick(waited.m))
  }

  /** `_maybe_adjust_plan`. */
  ghost function Adjusted(env: Env, m: Machine): Out
  {
    var waited := Waited(env, m);
    if waited.signal == Crashed then waited else Decided(env, waited.m)
  }

  ghost function Decided(env: Env, m: Machine): Out
  {
    match env.adjust(m.tick)
    case Keep => Out(Finished, Tick(m))
    case CancelAdjusting => Out(TaskCancelled, Tick(m))
    case Update(ids) => Save(env, Tick(m.(row := m.row.(nodes := Updated(m.row.nodes, ids)))))
    case Replace =>
      var ended := Remarked(m.row.nodes, {Pending, Paused, NeedsRevalidation, Running}, Aborted);
      var written := Save(env, Tick(m.(row := m.row.(plan := Aborted, nodes := ended))));
      if written.signal == Crashed then written else Out(Replaced, written.m)
  }

  /** `_execute_plan`. */
  ghost function Execute(env: Env, steps: seq<Step>, m: Machine): Out
  {
    var started := Save(env, m.(row := m.row.(plan := Running), inFlight := None));
    if started.signal == Crashed then started else
    var ran := Nodes(env, steps, started.m);
    Out(ran.signal, Concluded(env, ran))
  }

  /** The plan status a signal leads to, and the last save. */
  ghost function Concluded(env: Env, ran: Out): Machine
  {
    var row := ran.m.row;
    match ran.signal
    case Finished => Save(env, ran.m.(row := row.(plan := Done))).m
    case GoalReached =>
      Save(env, ran.m.(row := row.(plan := Done, nodes := Remarked(row.nodes, {Pending, Paused, NeedsRevalidation}, Skipped)))).m
    case Stopped(status) => Save(env, ran.m.(row := row.(plan := status))).m
    case Replaced => Save(env, ran.m.(row := row.(plan := Aborted))).m
    case TaskCancelled => Save(env, ran.m.(row := row.(plan := Paused, nodes := Remarked(row.nodes, {Running}, Paused)))).m
    case Material => ran.m
    case Crashed => ran.m
  }
}
