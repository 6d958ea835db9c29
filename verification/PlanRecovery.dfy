/** Plans across pauses, crashes and restarts: what is revalidated, what is refused, what can never happen twice. */
module PlanRecovery {
  import opened Options
  import opened PlanBounds
  import opened PlanInterpretation
  import opened PlanProgress
  import opened PlanSafety

  /** `iter_nodes`. */
  function AllNodes(steps: seq<Step>): seq<Step>
    decreases steps, 1
  {
    if steps == [] then [] else NodesOf(steps[0]) + AllNodes(steps[1..])
  }

  function NodesOf(step: Step): seq<Step>
    decreases step, 2
  {
    [step] + AllNodes(step.thenSteps) + AllNodes(step.elseSteps) + AllNodes(step.body) + BranchNodes(step.branches)
  }

  function BranchNodes(branches: seq<PlanBranch>): seq<Step>
    decreases branches, 1
  {
    if branches == [] then [] else AllNodes(branches[0].steps) + BranchNodes(branches[1..])
  }

  /** The nodes of a list have these ids, each once. */
  ghost predicate Lists(list: seq<Step>, ids: set<StepId>)
  {
    && (forall i, j | 0 <= i < j < |list| :: list[i].id != list[j].id)
    && (forall k | 0 <= k < |list| :: list[k].id in ids)
    && (forall id | id in ids :: exists k :: 0 <= k < |list| && list[k].id == id)
  }

  lemma {:induction false} ListsJoin(a: seq<Step>, x: set<StepId>, b: seq<Step>, y: set<StepId>)
    requires Lists(a, x) && Lists(b, y) && x !! y
    ensures Lists(a + b, x + y)
  {
    var list := a + b;
    forall id | id in x + y ensures exists k :: 0 <= k < |list| && list[k].id == id {
      if id in x {
        var k :| 0 <= k < |a| && a[k].id == id;
        assert list[k].id == id;
      } else {
        var k :| 0 <= k < |b| && b[k].id == id;
        assert list[|a| + k].id == id;
      }
    }
  }

  /** The traversal meets every node of the tree exactly once. */
  lemma {:induction false} EveryNodeOnce(steps: seq<Step>)
    requires Distinct(steps)
    ensures Lists(AllNodes(steps), Ids(steps))
    decreases steps, 1
  {
    hide Lists;
    if steps == [] { NoneListed(); return; }
    EveryNodeOfStepOnce(steps[0]);
    EveryNodeOnce(steps[1..]);
    ListsJoin(NodesOf(steps[0]), StepIds(steps[0]), AllNodes(steps[1..]), Ids(steps[1..]));
  }

  lemma {:induction false} NoneListed()
    ensures Lists([], {})
  {
  }

  lemma {:induction false} OneListed(step: Step)
    ensures Lists([step], {step.id})
  {
    assert [step][0] == step;
  }

  lemma {:induction false} EveryNodeOfStepOnce(step: Step)
    requires DistinctStep(step)
    ensures Lists(NodesOf(step), StepIds(step))
    decreases step, 2
  {
    hide Lists, Ids, BranchIds, AllNodes, BranchNodes, Distinct, DistinctBranches;
    var a, b, c, d := Ids(step.thenSteps), Ids(step.elseSteps), Ids(step.body), BranchIds(step.branches);
    OneListed(step);
    EveryNodeOnce(step.thenSteps);
    EveryNodeOnce(step.elseSteps);
    EveryNodeOnce(step.body);
    EveryBranchNodeOnce(step.branches);
    assert step.id !in a + b + c + d;
    var list := [step] + AllNodes(step.thenSteps);
    ListsJoin([step], {step.id}, AllNodes(step.thenSteps), a);
    ListsJoin(list, {step.id} + a, AllNodes(step.elseSteps), b);
    list := list + AllNodes(step.elseSteps);
    ListsJoin(list, {step.id} + a + b, AllNodes(step.body), c);
    list := list + AllNodes(step.body);
    ListsJoin(list, {step.id} + a + b + c, BranchNodes(step.branches), d);
    assert StepIds(step) == {step.id} + a + b + c + d;
  }

  lemma {:induction false} EveryBranchNodeOnce(branches: seq<PlanBranch>)
    requires DistinctBranches(branches)
    ensures Lists(BranchNodes(branches), BranchIds(branches))
    decreases branches, 1
  {
    hide Lists;
    if branches == [] { NoneListed(); return; }
    EveryNodeOnce(branches[0].steps);
    EveryBranchNodeOnce(branches[1..]);
    ListsJoin(AllNodes(branches[0].steps), Ids(branches[0].steps), BranchNodes(branches[1..]), BranchIds(branches[1..]));
  }

  // ----- revalidation -----

  predicate Unsafe(step: Step) { step.kind == Action && step.tool.sideEffect && !step.tool.replaySafe }

  /** Saved as under way when the process ended. */
  predicate UnderWay(n: NodeState) { n.status == Running || n.status == NeedsRevalidation }

  /** A node that blocks the plan: under way, not confirmed from the new state, and out of retries or not to be replayed. */
  predicate Refused(step: Step, n: NodeState, confirmed: bool)
  {
    step.kind == Action && UnderWay(n) && !confirmed && (n.retries >= step.maxRetries || Unsafe(step))
  }

  /** What becomes of one node. */
  function Judged(step: Step, n: NodeState, confirmed: bool): NodeState
  {
    if !UnderWay(n) then n
    else if step.kind != Action then n.(status := Paused)
    else if confirmed then n.(status := Done)
    else if Refused(step, n, confirmed) then n.(status := Blocked)
    else NodeState(Pending, n.retries + 1, None)
  }

  function JudgedRow(row: Row, step: Step, confirmed: set<StepId>): Row
  {
    var n, known := At(row, step.id), step.id in confirmed;
    Row(if Refused(step, n, known) then Blocked else row.plan, row.nodes[step.id := Judged(step, n, known)], row.loops)
  }

  /** The loop of `revalidate` over a list of nodes. */
  ghost function Revalidated(list: seq<Step>, row: Row, confirmed: set<StepId>): Row
  {
    if list == [] then row
    else JudgedRow(Revalidated(list[..|list| - 1], row, confirmed), list[|list| - 1], confirmed)
  }

  ghost function Recovered(steps: seq<Step>, row: Row, confirmed: set<StepId>): Row
  {
    var judged := Revalidated(AllNodes(steps), row.(plan := NeedsRevalidation), confirmed);
    if judged.plan == Blocked then judged else judged.(plan := Paused)
  }

  lemma {:induction false} RevalidatedNodes(list: seq<Step>, row: Row, confirmed: set<StepId>)
    requires forall i, j | 0 <= i < j < |list| :: list[i].id != list[j].id
    ensures var row' := Revalidated(list, row, confirmed);
            && row'.loops == row.loops
            && (forall k | 0 <= k < |list| ::
                  At(row', list[k].id) == Judged(list[k], At(row, list[k].id), list[k].id in confirmed))
            && (forall id | forall k | 0 <= k < |list| :: list[k].id != id :: At(row', id) == At(row, id))
            && (row'.plan == Blocked <==>
                  row.plan == Blocked || exists k :: 0 <= k < |list| && Refused(list[k], At(row, list[k].id), list[k].id in confirmed))
  {
    if list != [] {
      var last, step := |list| - 1, list[|list| - 1];
      var before := Revalidated(list[..last], row, confirmed);
      RevalidatedNodes(list[..last], row, confirmed);
      assert At(before, step.id) == At(row, step.id);
      var row' := JudgedRow(before, step, confirmed);
      forall k | 0 <= k < |list| ensures At(row', list[k].id) == Judged(list[k], At(row, list[k].id), list[k].id in confirmed) {
        assert k < last ==> list[..last][k] == list[k] && list[k].id != step.id;
      }
      forall id | forall k | 0 <= k < |list| :: list[k].id != id ensures At(row', id) == At(row, id) {
        assert id != list[last].id;
      }
      assert forall k | 0 <= k < last :: list[..last][k] == list[k];
    }
  }

  lemma {:induction false} SameNodes(row: Row, plan: Status)
    ensures forall id :: At(row.(plan := plan), id) == At(row, id)
  {
  }

  /** Recovery blocks the plan exactly when some node under way can be neither confirmed nor tried again. */
  lemma {:induction false} BlockedExactlyWhenRefused(steps: seq<Step>, row: Row, confirmed: set<StepId>)
    requires Distinct(steps)
    ensures var list, row' := AllNodes(steps), Recovered(steps, row, confirmed);
            && (row'.plan == Blocked <==> exists k :: 0 <= k < |list| && Refused(list[k], At(row, list[k].id), list[k].id in confirmed))
            && (row'.plan == Blocked || row'.plan == Paused) && row'.loops == row.loops
            && (forall k | 0 <= k < |list| ::
                  At(row', list[k].id) == Judged(list[k], At(row, list[k].id), list[k].id in confirmed))
            && (forall id | id !in Ids(steps) :: At(row', id) == At(row, id))
  {
    EveryNodeOnce(steps);
    var list, awaiting := AllNodes(steps), row.(plan := NeedsRevalidation);
    SameNodes(row, NeedsRevalidation);
    RevalidatedNodes(list, awaiting, confirmed);
    SameNodes(Revalidated(list, awaiting, confirmed), Paused);
    hide Distinct, Ids, AllNodes, Revalidated, Judged, Refused, At;
  }

  /** What a restart makes of each node. A node that was not under way stays as it was. Of those under way, a flow node is
      PAUSED; an action is DONE when the new state confirms it, BLOCKED when its retries are used up or it must not be
      replayed, and otherwise PENDING with one more retry counted and no request. */
  lemma {:induction false} RestartRules(steps: seq<Step>, row: Row, confirmed: set<StepId>, step: Step)
    requires Distinct(steps) && step in AllNodes(steps)
    ensures var row' := Recovered(steps, row, confirmed);
            var n, n' := At(row, step.id), At(row', step.id);
            var under := n.status == Running || n.status == NeedsRevalidation;
            var refused := n.retries >= step.maxRetries || (step.tool.sideEffect && !step.tool.replaySafe);
            && Iteration(row', step.id) == Iteration(row, step.id)
            && (!under ==> n' == n)
            && (under && step.kind != Action ==> n' == NodeState(Paused, n.retries, n.request))
            && (under && step.kind == Action && step.id in confirmed ==> n' == NodeState(Done, n.retries, n.request))
            && (under && step.kind == Action && step.id !in confirmed && refused ==> n' == NodeState(Blocked, n.retries, n.request) && row'.plan == Blocked)
            && (under && step.kind == Action && step.id !in confirmed && !refused ==> n' == NodeState(Pending, n.retries + 1, None))
  {
    BlockedExactlyWhenRefused(steps, row, confirmed);
    var k :| 0 <= k < |AllNodes(steps)| && AllNodes(steps)[k] == step;
    assert AllNodes(steps)[k].id == step.id;
    JudgedOutright(step, At(row, step.id), step.id in confirmed);
    hide Recovered, AllNodes, Distinct, Ids, Judged, At;
  }

  lemma {:induction false} JudgedOutright(step: Step, n: NodeState, confirmed: bool)
    ensures var n' := Judged(step, n, confirmed);
            var under := n.status == Running || n.status == NeedsRevalidation;
            var refused := n.retries >= step.maxRetries || (step.tool.sideEffect && !step.tool.replaySafe);
            && (!under ==> n' == n)
            && (under && step.kind != Action ==> n' == NodeState(Paused, n.retries, n.request))
            && (under && step.kind == Action && confirmed ==> n' == NodeState(Done, n.retries, n.request))
            && (under && step.kind == Action && !confirmed && refused ==> n' == NodeState(Blocked, n.retries, n.request))
            && (under && step.kind == Action && !confirmed && !refused ==> n' == NodeState(Pending, n.retries + 1, None))
            && (Refused(step, n, confirmed) <==> under && step.kind == Action && !confirmed && refused)
  {
  }

  /** After a restart a node is settled if and only if it was, or it is an action that was under way and the new state
      confirms it: no flow node is finished by a restart. */
  lemma {:induction false} SettledByRestart(steps: seq<Step>, row: Row, confirmed: set<StepId>, step: Step)
    requires Distinct(steps) && step in AllNodes(steps)
    ensures IsSettled(Recovered(steps, row, confirmed), step.id) <==>
              || IsSettled(row, step.id)
              || (step.kind == Action && step.id in confirmed && (At(row, step.id).status == Running || At(row, step.id).status == NeedsRevalidation))
  {
    RestartRules(steps, row, confirmed, step);
    hide Recovered, AllNodes, Distinct;
  }

  /** The plan is left BLOCKED exactly when some action under way is neither confirmed nor to be tried again, and is
      PAUSED otherwise. */
  lemma {:induction false} PlanByRestart(steps: seq<Step>, row: Row, confirmed: set<StepId>)
    requires Distinct(steps)
    ensures var row' := Recovered(steps, row, confirmed);
            && (row'.plan == Blocked || row'.plan == Paused)
            && (row'.plan == Blocked <==> exists step :: StopsRestart(steps, row, confirmed, step))
  {
    BlockedExactlyWhenRefused(steps, row, confirmed);
    hide Recovered, AllNodes, Distinct, Ids, Refused, Judged, At;
    var list := AllNodes(steps);
    if k :| 0 <= k < |list| && Refused(list[k], At(row, list[k].id), list[k].id in confirmed) {
      RefusedStops(steps, row, confirmed, k);
    }
    if step :| StopsRestart(steps, row, confirmed, step) {
      var k :| 0 <= k < |list| && list[k] == step;
      RefusedStops(steps, row, confirmed, k);
    }
  }

  lemma {:induction false} RefusedStops(steps: seq<Step>, row: Row, confirmed: set<StepId>, k: nat)
    requires k < |AllNodes(steps)|
    ensures var step := AllNodes(steps)[k]; Refused(step, At(row, step.id), step.id in confirmed) <==> StopsRestart(steps, row, confirmed, step)
  {
    var step := AllNodes(steps)[k];
    JudgedOutright(step, At(row, step.id), step.id in confirmed);
    hide AllNodes, Refused, Judged, At;
  }

  ghost predicate StopsRestart(steps: seq<Step>, row: Row, confirmed: set<StepId>, step: Step)
  {
    && step in AllNodes(steps) && step.kind == Action && step.id !in confirmed
    && (At(row, step.id).status == Running || At(row, step.id).status == NeedsRevalidation)
    && (At(row, step.id).retries >= step.maxRetries || (step.tool.sideEffect && !step.tool.replaySafe))
  }

  /** `revalidate`, changing the plan and its saved row in place. */
  class RuntimeRecovery {
    var plan: Status
    var nodes: map<StepId, NodeState>
    var loops: map<StepId, nat>
    var saved: Row

    constructor (loaded: Row)
      ensures Row(plan, nodes, loops) == loaded && saved == loaded
    {
      plan, nodes, loops, saved := loaded.plan, loaded.nodes, loaded.loops, loaded;
    }

    method Revalidate(steps: seq<Step>, confirmed: set<StepId>)
      modifies this
      ensures Row(plan, nodes, loops) == Recovered(steps, old(Row(plan, nodes, loops)), confirmed)
      ensures saved == Row(plan, nodes, loops)
    {
      plan := NeedsRevalidation;
      var list := AllNodes(steps);
      ghost var row := Row(plan, nodes, loops);
      for i := 0 to |list|
        invariant Row(plan, nodes, loops) == Revalidated(list[..i], row, confirmed)
      {
        assert list[..i + 1][..i] == list[..i];
        var step := list[i];
        var n := if step.id in nodes then nodes[step.id] else FRESH;
        if Refused(step, n, step.id in confirmed) { plan := Blocked; }
        nodes := nodes[step.id := Judged(step, n, step.id in confirmed)];
      }
      assert list[..|list|] == list;
      if plan != Blocked { plan := Paused; }
      saved := Row(plan, nodes, loops);
    }
  }

  // ----- whole lives -----

  /** A plan is run while it is active; a restart loses the memory and revalidates what is on disk. Between runs, actions
      not yet started can be given new arguments, a plan parked for want of material is loaded again when the material is
      there, and another goal can take the plan's place. */
  datatype Event = Run(env: Env) | Restart(confirmed: set<StepId>) | UserUpdate(ids: set<StepId>) | Reload | Drop

  datatype World = World(m: Machine, active: bool, parked: bool)

  /** Plans in these states are loaded after a restart, and executed. */
  predicate Open(s: Status) { s == Pending || s == Running || s == Paused || s == NeedsRevalidation }

  /** A plan that was paused or cancelled stays the active plan. */
  predicate KeepsPlan(s: Signal) { s == Stopped(Paused) || s == TaskCancelled }

  ghost function AfterRun(out: Out): World { World(out.m, KeepsPlan(out.signal), out.signal == Material) }

  /** The actions of a plan. */
  function ActionIds(steps: seq<Step>): set<StepId> { set step | step in AllNodes(steps) && step.kind == Action :: step.id }

  /** `update_pending_plan_step`, or the updates of a strategic review: made and saved if one of the actions is not yet started. */
  ghost function AfterUpdate(m: Machine, ids: set<StepId>): Machine
  {
    if !Applies(m.row, ids) then m else
    var row := m.row.(nodes := Updated(m.row.nodes, ids));
    m.(row := row, saved := row)
  }

  ghost function After(steps: seq<Step>, w: World, e: Event): World
  {
    match e
    case Run(env) =>
      if !w.active || !Open(w.m.row.plan) then w else
      AfterRun(Execute(env, steps, w.m))
    case Restart(confirmed) =>
      if !Open(w.m.saved.plan) then World(w.m, false, false) else
      var row := Recovered(steps, w.m.saved, confirmed);
      World(w.m.(row := row, saved := row, inFlight := None), true, false)
    case UserUpdate(ids) => if w.active then w.(m := AfterUpdate(w.m, ids * ActionIds(steps))) else w
    case Reload => if w.parked then World(w.m.(row := w.m.saved.(plan := Paused)), true, false) else w
    case Drop => World(w.m, false, false)
  }

  /** A restart takes a plan up again exactly when it was saved unfinished, and a run is made exactly when the plan is the
      active one and unfinished. */
  lemma {:induction false} WhatIsTakenUp(steps: seq<Step>, w: World, confirmed: set<StepId>, env: Env)
    ensures var s, w' := w.m.saved.plan, After(steps, w, Restart(confirmed));
            && !w'.parked && (w'.active <==> s == Pending || s == Running || s == Paused || s == NeedsRevalidation)
            && w'.m.sent == w.m.sent && w'.m.laps == w.m.laps && (w'.active ==> w'.m.saved == w'.m.row && w'.m.inFlight.None?)
    ensures var s, w' := w.m.row.plan, After(steps, w, Run(env));
            if w.active && (s == Pending || s == Running || s == Paused || s == NeedsRevalidation)
            then var out := Execute(env, steps, w.m);
                 && w'.m == out.m && (w'.parked <==> out.signal == Material)
                 && (w'.active <==> out.signal == TaskCancelled || out.signal == Stopped(Paused))
            else w' == w
    ensures var w' := After(steps, w, Reload);
            if w.parked then w'.active && !w'.parked && w'.m == w.m.(row := w.m.saved.(plan := Paused)) else w' == w
    ensures After(steps, w, Drop).m == w.m && !After(steps, w, Drop).active && !After(steps, w, Drop).parked
  {
    hide Execute, Recovered;
  }

  ghost function Life(steps: seq<Step>, w: World, events: seq<Event>): World
    decreases |events|
  {
    if events == [] then w else Life(steps, After(steps, w, events[0]), events[1..])
  }

  ghost predicate Kempt(m: Machine) { OwnAttempts(m.row) && OwnAttempts(m.saved) && forall d | d in m.sent :: WrittenAhead(d) }

  /** What holds of a plan at rest, whatever has happened to it. */
  ghost predicate Sane(w: World) { Kempt(w.m) && Counted(w.m.laps, w.m.row) && Counted(w.m.laps, w.m.saved) }

  lemma {:induction false} ConcludedFine(env: Env, ran: Out)
    requires Fine(ran.signal, ran.m)
    ensures var m := Concluded(env, ran);
            && Kempt(m) && m.row.loops == ran.m.row.loops && m.saved.loops == m.row.loops && m.laps == ran.m.laps && m.sent == ran.m.sent
            && m.inFlight == ran.m.inFlight
            && (ran.signal == Crashed ==> m == ran.m) && Parked(m.saved, m.row)
  {
    var m, row := Concluded(env, ran), ran.m.row;
    if ran.signal == GoalReached { RemarkedAt(row, Done, {Pending, Paused, NeedsRevalidation}, Skipped); }
    else if ran.signal == TaskCancelled { RemarkedAt(row, Paused, {Running}, Paused); }
    else { assert forall id :: At(m.row, id) == At(row, id); }
  }

  lemma {:induction false} LoopsCounted(laps: seq<Lap>, a: Row, b: Row)
    requires Counted(laps, a) && a.loops == b.loops
    ensures Counted(laps, b)
  {
    assert forall id :: Iteration(b, id) == Iteration(a, id);
  }

  lemma {:induction false} Started(env: Env, m: Machine)
    requires Kempt(m)
    ensures var started := Save(env, m.(row := m.row.(plan := Running), inFlight := None));
            Fine(started.signal, started.m)
  {
    var running := m.(row := m.row.(plan := Running), inFlight := None);
    assert forall id :: At(running.row, id) == At(m.row, id);
  }

  /** One run of the plan: dispatches within the plan's cost, and the disk fit for a restart at its end. */
  lemma {:induction false} RunIsSane(env: Env, steps: seq<Step>, m: Machine)
    requires Kempt(m) && Counted(m.laps, m.row) && Distinct(steps)
    ensures var out := Execute(env, steps, m);
            && Sane(AfterRun(out))
            && m.sent <= out.m.sent && |out.m.sent| <= |m.sent| + CostOf(steps)
            && (out.signal == Crashed ==> out.m.saved == out.m.row)
            && (out.signal == Crashed && out.m.inFlight.Some? ==> ShownRunning(out.m.saved, out.m.inFlight.value))
            && (out.signal != Crashed ==> Parked(out.m.saved, out.m.row))
            && (out.signal == Finished ==> out.m.row.plan == Done && forall k | 0 <= k < |steps| :: IsSettled(out.m.row, steps[k].id))
  {
    hide Nodes, Counted, WrittenAhead, OwnAttempts;
    Started(env, m);
    var started := Save(env, m.(row := m.row.(plan := Running), inFlight := None));
    SameCounted(m, started.m);
    LoopsCounted(m.laps, started.m.row, started.m.saved);
    if started.signal == Crashed { return; }
    var ran := Nodes(env, steps, started.m);
    NodesFine(env, steps, started.m);
    NodesCounted(env, steps, started.m);
    NodesEffect(env, steps, started.m);
    FinishedListIsSettled(env, steps, started.m);
    ConcludedFine(env, ran);
    var end := Concluded(env, ran);
    LoopsCounted(end.laps, ran.m.row, end.row);
    LoopsCounted(end.laps, ran.m.row, end.saved);
    assert ran.signal == Finished ==> end.row.nodes == ran.m.row.nodes;
  }

  ghost predicate OwnAttempt(n: NodeState) { n.request.Some? ==> n.request.value == n.retries }

  lemma {:induction false} JudgedAttempt(row: Row, row': Row, list: seq<Step>, confirmed: set<StepId>, k: nat)
    requires k < |list| && OwnAttempt(At(row, list[k].id))
    requires At(row', list[k].id) == Judged(list[k], At(row, list[k].id), list[k].id in confirmed)
    ensures OwnAttempt(At(row', list[k].id))
  {
  }

  lemma {:induction false} RecoveredAttempts(steps: seq<Step>, row: Row, confirmed: set<StepId>)
    requires OwnAttempts(row) && Distinct(steps)
    ensures OwnAttempts(Recovered(steps, row, confirmed))
  {
    hide Recovered, Distinct, Ids, AllNodes, Judged, Refused, At;
    var list, row' := AllNodes(steps), Recovered(steps, row, confirmed);
    BlockedExactlyWhenRefused(steps, row, confirmed);
    EveryNodeOnce(steps);
    forall id ensures OwnAttempt(At(row', id)) {
      if id in Ids(steps) {
        var k :| 0 <= k < |list| && list[k].id == id;
        JudgedAttempt(row, row', list, confirmed, k);
      }
    }
  }

  lemma {:induction false} RestartIsSane(steps: seq<Step>, w: World, confirmed: set<StepId>)
    requires Sane(w) && Distinct(steps)
    ensures Sane(After(steps, w, Restart(confirmed))) && After(steps, w, Restart(confirmed)).m.sent == w.m.sent
  {
    if Open(w.m.saved.plan) {
      BlockedExactlyWhenRefused(steps, w.m.saved, confirmed);
      LoopsCounted(w.m.laps, w.m.saved, Recovered(steps, w.m.saved, confirmed));
      RecoveredAttempts(steps, w.m.saved, confirmed);
      hide Recovered, Counted, Distinct, OwnAttempts;
    }
  }

  lemma {:induction false} UpdateIsSane(w: World, ids: set<StepId>)
    requires Sane(w)
    ensures Sane(w.(m := AfterUpdate(w.m, ids)))
  {
    var m := AfterUpdate(w.m, ids);
    UpdatedAt(w.m.row, ids);
    LoopsCounted(w.m.laps, w.m.row, m.row);
    hide Counted, WrittenAhead;
  }

  lemma {:induction false} ReloadIsSane(w: World)
    requires Sane(w)
    ensures Sane(World(w.m.(row := w.m.saved.(plan := Paused)), true, false))
  {
    SameNodes(w.m.saved, Paused);
    LoopsCounted(w.m.laps, w.m.saved, w.m.saved.(plan := Paused));
    hide Counted, WrittenAhead;
  }

  lemma {:induction false} DropIsSane(w: World)
    requires Sane(w)
    ensures Sane(World(w.m, false, false))
  {
  }

  lemma {:induction false} StepIsSane(steps: seq<Step>, w: World, e: Event)
    requires Sane(w) && Distinct(steps)
    ensures var w' := After(steps, w, e);
            Sane(w') && w.m.sent <= w'.m.sent && |w'.m.sent| <= |w.m.sent| + CostOf(steps)
  {
    hide Sane, Execute, Recovered, ActionIds;
    match e
    case Run(env) => if w.active && Open(w.m.row.plan) { SaneParts(w); RunIsSane(env, steps, w.m); }
    case Restart(confirmed) => RestartIsSane(steps, w, confirmed);
    case UserUpdate(ids) => UpdateIsSane(w, ids * ActionIds(steps));
    case Reload => ReloadIsSane(w);
    case Drop => DropIsSane(w);
  }

  lemma {:induction false} SaneParts(w: World)
    requires Sane(w)
    ensures Kempt(w.m) && Counted(w.m.laps, w.m.row)
  {
  }

  /** Through any pauses, crashes, restarts, updates and reloads: every dispatch was written ahead within its retries, every counter is
      right and within its loop's limit, and each event costs at most one traversal of the plan. */
  lemma {:induction false} LifeIsSane(steps: seq<Step>, w: World, events: seq<Event>)
    requires Sane(w) && Distinct(steps)
    ensures var w' := Life(steps, w, events);
            Sane(w') && w.m.sent <= w'.m.sent && |w'.m.sent| <= |w.m.sent| + |events| * CostOf(steps)
    decreases |events|
  {
    hide Sane;
    if events != [] {
      StepIsSane(steps, w, events[0]);
      LifeIsSane(steps, After(steps, w, events[0]), events[1..]);
      OneMore(|events[1..]|, CostOf(steps));
    }
  }

  lemma {:induction false} OneMore(n: nat, c: nat)
    ensures (n + 1) * c == c + n * c
  {
  }

  /** A plan that has not been started. */
  ghost predicate Untouched(m: Machine)
  {
    m.row == m.saved && m.row.loops == map[] && m.sent == [] && m.laps == [] && forall id :: At(m.row, id) == FRESH
  }

  /** A plan at rest that is the active one. */
  function Resting(m: Machine): World { World(m, true, false) }

  lemma {:induction false} UntouchedIsSane(m: Machine)
    requires Untouched(m)
    ensures Sane(Resting(m))
  {
  }

  /** In its whole life a step uses at most maxRetries + 1 different request ids. */
  lemma {:induction false} FewRequestIds(steps: seq<Step>, m: Machine, events: seq<Event>, step: Step)
    requires Untouched(m) && Distinct(steps)
    ensures var sent := Life(steps, Resting(m), events).m.sent;
            |set d | d in sent && d.step == step :: d.attempt| <= step.maxRetries + 1
  {
    UntouchedIsSane(m);
    LifeIsSane(steps, Resting(m), events);
    var sent := Life(steps, Resting(m), events).m.sent;
    var attempts := set d | d in sent && d.step == step :: d.attempt;
    forall a | a in attempts ensures a <= step.maxRetries {
      var d :| d in sent && d.step == step && d.attempt == a;
      assert WrittenAhead(d);
    }
    AtMost(attempts, step.maxRetries);
  }

  lemma {:induction false} AtMost(s: set<nat>, n: nat)
    requires forall a | a in s :: a <= n
    ensures |s| <= n + 1
  {
    if n in s {
      if n == 0 { assert s == {0}; } else { AtMost(s - {n}, n - 1); }
    } else if n > 0 {
      AtMost(s, n - 1);
    } else {
      assert s == {};
    }
  }

  // ----- a crash in the middle of an unsafe step -----

  /** The plan is closed for good: not active, or blocked. */
  ghost predicate Closed(w: World) { !Open(w.m.saved.plan) && (w.active ==> !Open(w.m.row.plan)) && !w.parked }

  /** No event opens a closed plan or sends anything of it. */
  lemma {:induction false} ClosedForever(steps: seq<Step>, w: World, events: seq<Event>)
    requires Closed(w)
    ensures Closed(Life(steps, w, events)) && Life(steps, w, events).m.sent == w.m.sent
    decreases |events|
  {
    hide Execute, Recovered, ActionIds, Applies, Updated;
    if events != [] { ClosedForever(steps, After(steps, w, events[0]), events[1..]); }
  }

  /** Once a restart finds an unsafe step under way that the new state does not confirm, nothing of its plan is ever sent again. */
  lemma {:induction false} UnsafeUnderWayEndsThePlan(steps: seq<Step>, w: World, k: nat, confirmed: set<StepId>, events: seq<Event>)
    requires Distinct(steps) && k < |AllNodes(steps)| && Unsafe(AllNodes(steps)[k])
    requires UnderWay(At(w.m.saved, AllNodes(steps)[k].id)) && AllNodes(steps)[k].id !in confirmed
    ensures Life(steps, w, [Restart(confirmed)] + events).m.sent == w.m.sent
  {
    var w1 := After(steps, w, Restart(confirmed));
    BlockedExactlyWhenRefused(steps, w.m.saved, confirmed);
    var step := AllNodes(steps)[k];
    assert Refused(step, At(w.m.saved, step.id), step.id in confirmed);
    hide Recovered, AllNodes, Distinct, Ids;
    assert ([Restart(confirmed)] + events)[1..] == events;
    ClosedForever(steps, w1, events);
  }

  /** Crash safety: if the process dies while an unsafe step's request is out, and the world does not show the step
      done, then no later run or restart sends anything of this plan. */
  lemma {:induction false} CrashSafety(steps: seq<Step>, w: World, env: Env, k: nat, confirmed: set<StepId>, events: seq<Event>)
    requires Sane(w) && Distinct(steps) && w.active && Open(w.m.row.plan)
    requires k < |AllNodes(steps)| && Unsafe(AllNodes(steps)[k]) && AllNodes(steps)[k].id !in confirmed
    requires var out := Execute(env, steps, w.m);
             out.signal == Crashed && out.m.inFlight.Some? && out.m.inFlight.value.step.id == AllNodes(steps)[k].id
    ensures var crashed := After(steps, w, Run(env));
            && !crashed.active
            && Life(steps, crashed, [Restart(confirmed)] + events).m.sent == crashed.m.sent
  {
    SaneParts(w);
    RunIsSane(env, steps, w.m);
    var crashed := After(steps, w, Run(env));
    assert ShownRunning(crashed.m.saved, crashed.m.inFlight.value);
    UnsafeUnderWayEndsThePlan(steps, crashed, k, confirmed, events);
  }

  // ----- where the guard does not reach -----

  ghost predicate Agreeable(env: Env)
  {
    forall t: nat ::
      env.interrupt(t).None? && env.holds(t) && env.reply(t) == Succeeded(true) && !env.dies(t) && env.updates(t) == {}
  }

  ghost predicate Cancelling(env: Env)
  {
    forall t: nat ::
      env.interrupt(t).None? && env.holds(t) && env.reply(t) == TaskCancel && !env.dies(t) && env.updates(t) == {}
  }

  /** Nothing happens until the given moment, when the user pauses. */
  ghost predicate PausingAt(env: Env, moment: nat)
  {
    forall t: nat :: !env.dies(t) && (t < moment ==> env.interrupt(t).None?) && (t == moment ==> env.interrupt(t) == Some(UserPaused))
  }

  /** An action whose turn comes, uninterrupted and with its conditions met, makes its attempts. */
  lemma {:induction false} ActionNode(env: Env, step: Step, m: Machine)
    requires step.kind == Action && !step.tool.stateProvable && !IsSettled(m.row, step.id)
    requires !env.dies(m.tick) && env.interrupt(m.tick + 1).None? && env.holds(m.tick + 2) && env.holds(m.tick + 4)
    ensures var tried := Attempts(env, step, {}, m.(saved := m.row, tick := m.tick + 5));
            Node(env, step, m) ==
              if tried.signal != Finished then tried
              else if env.holds(tried.m.tick) then Out(GoalReached, Tick(tried.m)) else Adjusted(env, Tick(tried.m))
    ensures Nodes(env, [step], m) == Node(env, step, m)
  {
    hide Attempts, Adjusted;
    var seen := m.(saved := m.row, tick := m.tick + 3);
    assert Tick(Tick(Save(env, m).m)) == seen && seen.(tick := seen.tick + 2) == m.(saved := m.row, tick := m.tick + 5);
    assert ActionStep(env, step, seen) == Attempts(env, step, {}, m.(saved := m.row, tick := m.tick + 5));
    assert IsSettled(Tick(Save(env, m).m).row, step.id) == IsSettled(m.row, step.id);
    hide ActionStep;
    assert Nodes(env, [step][1..], Node(env, step, m).m).signal == Finished;
  }

  lemma {:induction false} SkipOne(env: Env, steps: seq<Step>, m: Machine)
    requires steps != [] && IsSettled(m.row, steps[0].id) && !env.dies(m.tick) && env.interrupt(m.tick + 1).None?
    ensures Nodes(env, steps, m) == Nodes(env, steps[1..], m.(saved := m.row, tick := m.tick + 2))
  {
    hide ByKind, Adjusted;
    assert Node(env, steps[0], m) == Out(Finished, m.(saved := m.row, tick := m.tick + 2));
  }

  /** Settled nodes at the head of a list are passed over, two questions each. */
  lemma {:induction false} SkipSettled(env: Env, steps: seq<Step>, k: nat, m: Machine)
    requires k <= |steps| && forall j | 0 <= j < k :: IsSettled(m.row, steps[j].id)
    requires forall t: nat | m.tick <= t < m.tick + 2 * k :: !env.dies(t) && env.interrupt(t).None?
    ensures Nodes(env, steps, m) ==
              Nodes(env, steps[k..], m.(saved := if k > 0 then m.row else m.saved, tick := m.tick + 2 * k))
    decreases k
  {
    hide Nodes, Node, IsSettled;
    if k == 0 {
      assert steps[0..] == steps;
    } else {
      var passed := m.(saved := m.row, tick := m.tick + 2);
      assert !env.dies(m.tick) && env.interrupt(m.tick + 1).None?;
      SkipOne(env, steps, m);
      forall j | 0 <= j < k - 1 ensures IsSettled(passed.row, steps[1..][j].id) {
        assert steps[1..][j] == steps[j + 1];
      }
      SkipSettled(env, steps[1..], k - 1, passed);
      assert steps[1..][k - 1..] == steps[k..];
    }
  }

  /** The first unsettled node, an action, under an agreeable sky: its request goes out once, and is the only one. */
  lemma {:induction false} NextActionRuns(env: Env, steps: seq<Step>, k: nat, m: Machine)
    requires Agreeable(env) && k < |steps| && steps[k].kind == Action && !steps[k].tool.stateProvable
    requires forall j | 0 <= j < k :: IsSettled(m.row, steps[j].id)
    requires !IsSettled(m.row, steps[k].id) && At(m.row, steps[k].id).retries <= steps[k].maxRetries
    ensures var m' := Execute(env, steps, m).m;
            && |m'.sent| == |m.sent| + 1 && m'.sent[..|m.sent|] == m.sent
            && m'.sent[|m.sent|].step == steps[k] && m'.sent[|m.sent|].attempt == NextAttempt(At(m.row, steps[k].id))
  {
    var started := Save(env, m.(row := m.row.(plan := Running), inFlight := None)).m;
    SameNodes(m.row, Running);
    SkipSettled(env, steps, k, started);
    var there := started.(saved := started.row, tick := started.tick + 2 * k);
    OneAttempt(env, steps[k], there.(tick := there.tick + 5));
    ActionNode(env, steps[k], there);
    assert steps[k..][0] == steps[k];
    assert Nodes(env, steps[k..], there) == Node(env, steps[k], there);
    hide Attempts, Node, Nodes, IsSettled;
  }

  lemma {:induction false} OneAttempt(env: Env, step: Step, m: Machine)
    requires Agreeable(env) && At(m.row, step.id).retries <= step.maxRetries
    ensures var out := Attempts(env, step, {}, m);
            && out.signal == Finished && |out.m.sent| == |m.sent| + 1 && out.m.sent[..|m.sent|] == m.sent
            && out.m.sent[|m.sent|].step == step && out.m.sent[|m.sent|].attempt == NextAttempt(At(m.row, step.id))
  {
  }

  /** The same, cancelled while the request is out: the step is paused on disk, its request id kept. */
  lemma {:induction false} NextActionIsCancelled(env: Env, steps: seq<Step>, k: nat, m: Machine)
    requires Cancelling(env) && k < |steps| && steps[k].kind == Action && !steps[k].tool.stateProvable
    requires forall j | 0 <= j < k :: IsSettled(m.row, steps[j].id)
    requires !IsSettled(m.row, steps[k].id) && At(m.row, steps[k].id).retries <= steps[k].maxRetries
    ensures var out, n := Execute(env, steps, m), At(m.row, steps[k].id);
            && out.signal == TaskCancelled && out.m.row == out.m.saved && out.m.row.plan == Paused
            && |out.m.sent| == |m.sent| + 1 && out.m.sent[..|m.sent|] == m.sent
            && out.m.sent[|m.sent|].step == steps[k] && out.m.sent[|m.sent|].attempt == NextAttempt(n)
            && At(out.m.row, steps[k].id) == NodeState(Paused, n.retries, Some(NextAttempt(n)))
            && forall j | 0 <= j < k :: IsSettled(out.m.row, steps[j].id)
  {
    var step, started := steps[k], Save(env, m.(row := m.row.(plan := Running), inFlight := None)).m;
    SameNodes(m.row, Running);
    NodesAreCancelled(env, steps, k, started);
    CancelledAttempt(env, step, started.(saved := started.row, tick := started.tick + 2 * k + 5));
    hide Attempts, Nodes, NextAttempt;
    ConcludedCancelled(env, Nodes(env, steps, started), step.id);
    hide Concluded;
  }

  /** A cancelled run saves its running steps as paused. */
  lemma {:induction false} ConcludedCancelled(env: Env, ran: Out, id: StepId)
    requires ran.signal == TaskCancelled && id in ran.m.row.nodes && At(ran.m.row, id).status == Running
    ensures var m := Concluded(env, ran);
            && m.row == m.saved && m.row.plan == Paused && m.sent == ran.m.sent && At(m.row, id) == At(ran.m.row, id).(status := Paused)
            && forall d | IsSettled(ran.m.row, d) :: IsSettled(m.row, d)
  {
    RemarkedAt(ran.m.row, Paused, {Running}, Paused);
  }

  lemma {:induction false} NodesAreCancelled(env: Env, steps: seq<Step>, k: nat, m: Machine)
    requires Cancelling(env) && k < |steps| && steps[k].kind == Action && !steps[k].tool.stateProvable
    requires forall j | 0 <= j < k :: IsSettled(m.row, steps[j].id)
    requires !IsSettled(m.row, steps[k].id) && At(m.row, steps[k].id).retries <= steps[k].maxRetries
    ensures Nodes(env, steps, m) == Attempts(env, steps[k], {}, m.(saved := m.row, tick := m.tick + 2 * k + 5))
  {
    SkipSettled(env, steps, k, m);
    var there := m.(saved := if k > 0 then m.row else m.saved, tick := m.tick + 2 * k);
    var tried := there.(saved := there.row, tick := there.tick + 5);
    CancelledAttempt(env, steps[k], tried);
    ActionNode(env, steps[k], there);
    hide Attempts, IsSettled, Node;
    assert steps[k..][0] == steps[k];
  }

  lemma {:induction false} CancelledAttempt(env: Env, step: Step, m: Machine)
    requires Cancelling(env) && At(m.row, step.id).retries <= step.maxRetries
    ensures var out, n := Attempts(env, step, {}, m), At(m.row, step.id);
            && out.signal == TaskCancelled && |out.m.sent| == |m.sent| + 1 && out.m.sent[..|m.sent|] == m.sent
            && (forall id | id != step.id :: At(out.m.row, id) == At(m.row, id)) && out.m.sent[|m.sent|].step == step && out.m.sent[|m.sent|].attempt == NextAttempt(n)
            && step.id in out.m.row.nodes && At(out.m.row, step.id) == NodeState(Running, n.retries, Some(NextAttempt(n)))
  {
  }

  predicate Childless(step: Step) { step.thenSteps == [] && step.elseSteps == [] && step.body == [] && step.branches == [] }

  lemma {:induction false} OneNode(step: Step)
    requires Childless(step)
    ensures Distinct([step]) && AllNodes([step]) == [step]
  {
    assert [step][1..] == [];
    assert NodesOf(step) == [step];
    assert Ids(step.thenSteps) == {} && Ids(step.elseSteps) == {} && Ids(step.body) == {} && BranchIds(step.branches) == {};
    assert Below(step) == {};
    assert Distinct(step.thenSteps) && Distinct(step.elseSteps) && Distinct(step.body) && DistinctBranches(step.branches);
    assert DistinctStep(step) && Ids([step][1..]) == {} && Distinct([step][1..]);
  }

  lemma {:induction false} PausedSurvivesRestart(step: Step, row: Row)
    requires Childless(step) && At(row, step.id).status == Paused
    ensures Recovered([step], row, {}).plan == Paused && At(Recovered([step], row, {}), step.id) == At(row, step.id)
  {
    OneNode(step);
    BlockedExactlyWhenRefused([step], row, {});
    hide Recovered, AllNodes, Distinct, Ids;
    assert At(Recovered([step], row, {}), [step][0].id) == Judged(step, At(row, step.id), false);
  }

  /** An unsafe step cancelled by a stop, then a restart that cannot confirm it, then a run: its request goes out a second
      time. Its saved status is PAUSED, and recovery refuses only what it finds RUNNING (`BlockedExactlyWhenRefused`). */
  lemma {:induction false} CancelledUnsafeStepRunsAgain(step: Step, cancelling: Env, agreeable: Env, m: Machine)
    requires Unsafe(step) && Childless(step) && !step.tool.stateProvable && Cancelling(cancelling) && Agreeable(agreeable)
    requires Untouched(m) && Open(m.row.plan)
    ensures var sent := Life([step], Resting(m), [Run(cancelling), Restart({}), Run(agreeable)]).m.sent;
            |sent| == 2 && sent[0].step == sent[1].step == step && sent[0].attempt == sent[1].attempt
  {
    NextActionIsCancelled(cancelling, [step], 0, m);
    hide Execute, Recovered, Cancelling, Agreeable, IsSettled;
    var w1 := After([step], Resting(m), Run(cancelling));
    assert w1.active && w1.m.saved.plan == Paused && w1.m.sent[..0] == [];
    PausedRunsAgain(step, agreeable, w1);
    hide After;
    ThreeEvents([step], Resting(m), Run(cancelling), Restart({}), Run(agreeable));
    var w3 := Life([step], Resting(m), [Run(cancelling), Restart({}), Run(agreeable)]);
    assert w3.m.sent[..1] == w1.m.sent;
  }

  lemma {:induction false} PausedRunsAgain(step: Step, env: Env, w: World)
    requires Agreeable(env) && step.kind == Action && Childless(step) && !step.tool.stateProvable && w.m.saved.plan == Paused
    requires At(w.m.saved, step.id).status == Paused && At(w.m.saved, step.id).retries <= step.maxRetries
    ensures var sent, n := After([step], After([step], w, Restart({})), Run(env)).m.sent, |w.m.sent|;
            && |sent| == n + 1 && sent[..n] == w.m.sent && sent[n].step == step && sent[n].attempt == NextAttempt(At(w.m.saved, step.id))
  {
    PausedSurvivesRestart(step, w.m.saved);
    hide Execute, Recovered, Agreeable;
    NextActionRuns(env, [step], 0, After([step], w, Restart({})).m);
  }

  lemma {:induction false} ThreeEvents(steps: seq<Step>, w: World, a: Event, b: Event, c: Event)
    ensures Life(steps, w, [a, b, c]) == After(steps, After(steps, After(steps, w, a), b), c)
  {
    hide After;
    assert [a, b, c][1..] == [b, c] && [b, c][1..] == [c] && [c][1..] == [];
    assert Life(steps, After(steps, After(steps, w, a), b), [c]) == After(steps, After(steps, After(steps, w, a), b), c);
  }

  // ----- finished steps -----

  /** One run: a settled step outside loop bodies is not dispatched, and stays settled unless the run was interrupted at it. */
  lemma {:induction false} RunLeavesSettledAlone(env: Env, steps: seq<Step>, m: Machine, id: StepId)
    requires IsSettled(m.row, id) && id !in Looped(steps)
    ensures var out := Execute(env, steps, m); LeftAlone(env, id, out.signal, m, out.m)
  {
    var started := Save(env, m.(row := m.row.(plan := Running), inFlight := None));
    assert At(started.m.row, id) == At(m.row, id);
    if started.signal == Crashed { return; }
    NodesAlone(env, steps, started.m, id);
    var ran := Nodes(env, steps, started.m);
    hide Nodes;
    ConcludedAt(env, ran, id);
  }

  lemma {:induction false} ConcludedAt(env: Env, ran: Out, id: StepId)
    requires ran.signal.Stopped? || IsSettled(ran.m.row, id)
    ensures At(Concluded(env, ran).row, id) == At(ran.m.row, id) && Concluded(env, ran).sent == ran.m.sent
  {
  }

  ghost predicate SettledEverywhere(w: World, id: StepId) { IsSettled(w.m.row, id) && IsSettled(w.m.saved, id) }

  /** The surroundings answer, at some moment of the event, that the user has paused. */
  ghost predicate Pauses(e: Event) { e.Run? && exists t: nat :: e.env.interrupt(t) == Some(UserPaused) }

  /** The event is a run of the plan, paused by the user at this node while it was settled. */
  ghost predicate PausedAt(steps: seq<Step>, w: World, e: Event, id: StepId)
  {
    && Pauses(e) && w.active && Open(w.m.row.plan) && IsSettled(w.m.row, id)
    && Execute(e.env, steps, w.m).signal == Stopped(Paused) && At(Execute(e.env, steps, w.m).m.row, id).status == Paused
  }

  ghost predicate NotSentSince(sent: seq<Dispatch>, before: nat, id: StepId)
  {
    before <= |sent| && forall k | before <= k < |sent| :: sent[k].step.id != id
  }

  lemma {:induction false} NotSentJoin(a: seq<Dispatch>, b: seq<Dispatch>, before: nat, id: StepId)
    requires a <= b && NotSentSince(a, before, id) && NotSentSince(b, |a|, id)
    ensures NotSentSince(b, before, id)
  {
    forall k | before <= k < |b| ensures b[k].step.id != id {
      assert k < |a| ==> b[k] == a[k];
    }
  }

  /** A run that was stopped, other than by a pause, closes its plan. */
  lemma {:induction false} StopCloses(steps: seq<Step>, w: World, env: Env, i: Interruption)
    requires w.active && Open(w.m.row.plan) && Execute(env, steps, w.m).signal == Stopped(PlanStop(i)) && i != UserPaused
    ensures Closed(After(steps, w, Run(env)))
  {
    hide Nodes;
  }

  /** Not sent, and settled still or of a plan that is closed. */
  ghost predicate StaysAlone(w: World, w': World, id: StepId)
  {
    w.m.sent <= w'.m.sent && NotSentSince(w'.m.sent, |w.m.sent|, id) && (SettledEverywhere(w', id) || Closed(w'))
  }

  lemma {:induction false} RunStaysAlone(steps: seq<Step>, w: World, env: Env, id: StepId)
    requires Sane(w) && Distinct(steps) && id !in Looped(steps) && SettledEverywhere(w, id) && w.active && Open(w.m.row.plan)
    ensures PausedAt(steps, w, Run(env), id) || StaysAlone(w, After(steps, w, Run(env)), id)
  {
    SaneParts(w);
    RunIsSane(env, steps, w.m);
    RunLeavesSettledAlone(env, steps, w.m, id);
    var out := Execute(env, steps, w.m);
    hide Execute, Sane, Distinct, Looped;
    if At(out.m.row, id) != At(w.m.row, id) {
      var t: nat :| StoppedBy(env.interrupt(t), id, out.signal, w.m, out.m);
      if env.interrupt(t) != Some(UserPaused) { StopCloses(steps, w, env, env.interrupt(t).value); }
    }
  }

  lemma {:induction false} EventLeavesSettledAlone(steps: seq<Step>, w: World, e: Event, id: StepId)
    requires Sane(w) && Distinct(steps) && id !in Looped(steps) && SettledEverywhere(w, id)
    ensures PausedAt(steps, w, e, id) || StaysAlone(w, After(steps, w, e), id)
  {
    hide Sane, PausedAt, Distinct, Looped, ActionIds, Recovered;
    match e
    case Run(env) => if w.active && Open(w.m.row.plan) { RunStaysAlone(steps, w, env, id); }
    case Restart(confirmed) =>
      if Open(w.m.saved.plan) { RecoveredKeepsSettled(steps, w.m.saved, confirmed, id); }
    case UserUpdate(ids) => UpdatedAt(w.m.row, ids * ActionIds(steps));
    case Reload => SameNodes(w.m.saved, Paused);
    case Drop =>
  }

  lemma {:induction false} RecoveredKeepsSettled(steps: seq<Step>, row: Row, confirmed: set<StepId>, id: StepId)
    requires Distinct(steps) && IsSettled(row, id)
    ensures At(Recovered(steps, row, confirmed), id) == At(row, id)
  {
    BlockedExactlyWhenRefused(steps, row, confirmed);
    EveryNodeOnce(steps);
    var list := AllNodes(steps);
    hide Recovered, Distinct, Ids, AllNodes;
    if id in Ids(steps) { var k :| 0 <= k < |list| && list[k].id == id; }
  }

  /** Over a whole life a settled step outside loop bodies is dispatched again only after some run of its plan was paused
      by the user at it. */
  lemma {:induction false} SettledUntilPaused(steps: seq<Step>, w: World, events: seq<Event>, id: StepId)
    requires Sane(w) && Distinct(steps) && id !in Looped(steps) && SettledEverywhere(w, id)
    ensures || NotSentSince(Life(steps, w, events).m.sent, |w.m.sent|, id)
            || exists k | 0 <= k < |events| :: PausedAt(steps, Life(steps, w, events[..k]), events[k], id)
    decreases |events|
  {
    if events == [] { return; }
    hide Sane, After, PausedAt, SettledEverywhere, NotSentSince, Distinct, Looped, Closed;
    EventLeavesSettledAlone(steps, w, events[0], id);
    var w1, rest := After(steps, w, events[0]), events[1..];
    if PausedAt(steps, w, events[0], id) {
      assert events[..0] == [];
    } else if Closed(w1) {
      ClosedForever(steps, w1, rest);
    } else {
      StepIsSane(steps, w, events[0]);
      SettledUntilPaused(steps, w1, rest, id);
      PausedLater(steps, w, events, id);
      LifeIsSane(steps, w1, rest);
      if NotSentSince(Life(steps, w1, rest).m.sent, |w1.m.sent|, id) {
        NotSentJoin(w1.m.sent, Life(steps, w1, rest).m.sent, |w.m.sent|, id);
      }
    }
  }

  /** A life in which the user never pauses never dispatches a settled step outside loop bodies again. */
  lemma {:induction false} NeverPausedNeverAgain(steps: seq<Step>, w: World, events: seq<Event>, id: StepId)
    requires Sane(w) && Distinct(steps) && id !in Looped(steps) && SettledEverywhere(w, id)
    requires forall k | 0 <= k < |events| :: !Pauses(events[k])
    ensures NotSentSince(Life(steps, w, events).m.sent, |w.m.sent|, id)
  {
    hide Sane, Distinct, Looped, SettledEverywhere, Life, Execute, Pauses;
    SettledUntilPaused(steps, w, events, id);
  }

  /** A pause later in the life, counted from its first event or from its second. */
  lemma {:induction false} PausedLater(steps: seq<Step>, w: World, events: seq<Event>, id: StepId)
    requires events != []
    ensures var w1, rest := After(steps, w, events[0]), events[1..];
            (exists k | 0 <= k < |rest| :: PausedAt(steps, Life(steps, w1, rest[..k]), rest[k], id)) ==>
              exists k | 0 <= k < |events| :: PausedAt(steps, Life(steps, w, events[..k]), events[k], id)
  {
    hide After, PausedAt;
    var w1, rest := After(steps, w, events[0]), events[1..];
    if k :| 0 <= k < |rest| && PausedAt(steps, Life(steps, w1, rest[..k]), rest[k], id) {
      assert events[..k + 1][1..] == rest[..k] && events[..k + 1][0] == events[0] && events[k + 1] == rest[k];
    }
  }

  /** The converse, at any position whose earlier nodes are settled: a pause that lands on a finished action makes it
      unfinished, and the next run dispatches it again under its old request id. Nothing is awaited between two settled
      nodes, so a user's pause lands on the first node of a run, or on a settled node right after one that was run. */
  lemma {:induction false} FinishedStepRunsAgain(steps: seq<Step>, k: nat, pausing: Env, agreeable: Env, m: Machine, retries: nat)
    requires k < |steps| && steps[k].kind == Action && !steps[k].tool.stateProvable && retries <= steps[k].maxRetries
    requires forall j | 0 <= j < k :: IsSettled(m.row, steps[j].id) && steps[j].id != steps[k].id
    requires At(m.row, steps[k].id) == NodeState(Done, retries, Some(retries)) && Open(m.row.plan)
    requires PausingAt(pausing, m.tick + 2 + 2 * k) && Agreeable(agreeable)
    ensures PausedAt(steps, Resting(m), Run(pausing), steps[k].id)
    ensures var w1 := After(steps, Resting(m), Run(pausing));
            var w2 := After(steps, w1, Run(agreeable));
            && w1.m.sent == m.sent && |w2.m.sent| == |m.sent| + 1 && w2.m.sent[..|m.sent|] == m.sent
            && w2.m.sent[|m.sent|].step == steps[k] && w2.m.sent[|m.sent|].attempt == retries
  {
    PauseLands(steps, k, pausing, m);
    assert pausing.interrupt(m.tick + 2 + 2 * k) == Some(UserPaused);
    hide Nodes, Looped, Agreeable;
    var w1 := After(steps, Resting(m), Run(pausing));
    assert w1.m == Execute(pausing, steps, m).m && w1.active && w1.m.row.plan == Paused;
    hide Execute, PausingAt;
    assert forall j | 0 <= j < k :: IsSettled(w1.m.row, steps[j].id);
    NextActionRuns(agreeable, steps, k, w1.m);
  }

  lemma {:induction false} PauseLands(steps: seq<Step>, k: nat, env: Env, m: Machine)
    requires k < |steps| && PausingAt(env, m.tick + 2 + 2 * k)
    requires forall j | 0 <= j < k :: IsSettled(m.row, steps[j].id)
    ensures var out := Execute(env, steps, m);
            && out.signal == Stopped(Paused) && out.m.row.plan == Paused && out.m.sent == m.sent
            && At(out.m.row, steps[k].id) == At(m.row, steps[k].id).(status := Paused)
            && forall id | id != steps[k].id :: At(out.m.row, id) == At(m.row, id)
  {
    var started := Save(env, m.(row := m.row.(plan := Running), inFlight := None)).m;
    SameNodes(m.row, Running);
    SkipSettled(env, steps, k, started);
    var there := started.(saved := started.row, tick := started.tick + 2 * k);
    assert steps[k..][0] == steps[k];
    assert Nodes(env, steps[k..], there) == Interrupted(UserPaused, steps[k].id, Save(env, there).m);
    hide Nodes, Node;
    SameNodes(Mark(there, steps[k].id, Paused).row, Paused);
  }

  // ----- request ids and loops -----

  lemma {:induction false} TopIsListed(steps: seq<Step>, k: nat)
    requires k < |steps|
    ensures steps[k] in AllNodes(steps)
  {
    if k == 0 {
      assert NodesOf(steps[0])[0] == steps[0];
      assert AllNodes(steps)[0] == steps[0];
    } else {
      TopIsListed(steps[1..], k - 1);
      assert steps[1..][k - 1] == steps[k];
    }
  }

  /** An update makes an action not yet started pending, takes its request id, and leaves its retries and all else. */
  lemma {:induction false} UpdateMade(m: Machine, ids: set<StepId>, id: StepId)
    requires id in ids && PendingLike(At(m.row, id).status)
    ensures var m', n := AfterUpdate(m, ids), At(m.row, id);
            && At(m'.row, id).status == Pending && AtAttempt(At(m'.row, id), n.retries)
            && m'.row == m'.saved && m'.row.plan == m.row.plan && m'.sent == m.sent
            && forall d | IsSettled(m.row, d) :: IsSettled(m'.row, d)
  {
    UpdatedAt(m.row, ids);
  }

  /** A step cancelled while its request is out, updated, then run: its new arguments go out under the request id that
      went out with the old ones. */
  lemma {:induction false} UpdatedStepReusesTheRequest(steps: seq<Step>, k: nat, cancelling: Env, agreeable: Env, m: Machine)
    requires k < |steps| && steps[k].kind == Action && !steps[k].tool.stateProvable && Cancelling(cancelling) && Agreeable(agreeable)
    requires OwnAttempts(m.row) && Open(m.row.plan) && forall j | 0 <= j < k :: IsSettled(m.row, steps[j].id)
    requires !IsSettled(m.row, steps[k].id) && At(m.row, steps[k].id).retries <= steps[k].maxRetries
    ensures var sent := Life(steps, Resting(m), [Run(cancelling), UserUpdate({steps[k].id}), Run(agreeable)]).m.sent;
            && |sent| == |m.sent| + 2 && sent[|m.sent|].step == sent[|m.sent| + 1].step == steps[k]
            && sent[|m.sent|].attempt == sent[|m.sent| + 1].attempt
  {
    NextActionIsCancelled(cancelling, steps, k, m);
    hide Cancelling, Execute;
    var w1 := After(steps, Resting(m), Run(cancelling));
    assert w1.active && w1.m.row.plan == Paused;
    UpdatedStepRuns(steps, k, agreeable, w1);
    hide After, Agreeable;
    ThreeEvents(steps, Resting(m), Run(cancelling), UserUpdate({steps[k].id}), Run(agreeable));
    var w3 := Life(steps, Resting(m), [Run(cancelling), UserUpdate({steps[k].id}), Run(agreeable)]);
    assert w3.m.sent[..|m.sent| + 1] == w1.m.sent;
  }

  lemma {:induction false} UpdatedStepRuns(steps: seq<Step>, k: nat, env: Env, w: World)
    requires Agreeable(env) && k < |steps| && steps[k].kind == Action && !steps[k].tool.stateProvable && w.active && Open(w.m.row.plan)
    requires forall j | 0 <= j < k :: IsSettled(w.m.row, steps[j].id)
    requires PendingLike(At(w.m.row, steps[k].id).status) && At(w.m.row, steps[k].id).retries <= steps[k].maxRetries
    ensures var sent, n := After(steps, After(steps, w, UserUpdate({steps[k].id})), Run(env)).m.sent, |w.m.sent|;
            && |sent| == n + 1 && sent[..n] == w.m.sent && sent[n].step == steps[k] && sent[n].attempt == At(w.m.row, steps[k].id).retries
  {
    TopIsListed(steps, k);
    assert {steps[k].id} * ActionIds(steps) == {steps[k].id};
    hide Execute, ActionIds, Agreeable, AfterUpdate;
    UpdateMade(w.m, {steps[k].id}, steps[k].id);
    NextActionRuns(env, steps, k, After(steps, w, UserUpdate({steps[k].id})).m);
  }

  /** Some request of this attempt at the step has been sent. */
  ghost predicate Requested(sent: seq<Dispatch>, id: StepId, attempt: nat)
  {
    exists k :: 0 <= k < |sent| && sent[k].step.id == id && sent[k].attempt == attempt
  }

  /** The request at n is the step's first since `before`, and its id is a used one if and only if the given attempt was. */
  ghost predicate FirstSince(sent: seq<Dispatch>, before: seq<Dispatch>, id: StepId, attempt: nat, n: nat)
  {
    && |before| <= n < |sent| && sent[n].step.id == id && (forall k | |before| <= k < n :: sent[k].step.id != id)
    && (Requested(sent[..n], id, sent[n].attempt) <==> Requested(before, id, attempt))
  }

  /** In any surroundings, the first request of a step after an update goes out under an unused id exactly when no request
      of the step's current attempt has been sent. */
  lemma {:induction false} UpdateGetsUnusedId(steps: seq<Step>, w: World, ids: set<StepId>, env: Env, id: StepId)
    requires w.active && id in ids && id in ActionIds(steps) && PendingLike(At(w.m.row, id).status)
    requires id !in Looped(steps) || At(w.m.row, id).retries == 0
    ensures var sent := Life(steps, w, [UserUpdate(ids), Run(env)]).m.sent;
            && w.m.sent <= sent
            && (NotSentSince(sent, |w.m.sent|, id) || exists n :: FirstSince(sent, w.m.sent, id, At(w.m.row, id).retries, n))
  {
    var a := At(w.m.row, id).retries;
    assert id in ids * ActionIds(steps);
    UpdateMade(w.m, ids * ActionIds(steps), id);
    UpdateThenRun(steps, w, ids, env);
    hide ActionIds, AfterUpdate, Execute, Looped, After, Life, FirstSince;
    var m := AfterUpdate(w.m, ids * ActionIds(steps));
    if Open(m.row.plan) {
      RunFirstUnder(env, steps, m, id, a);
      FirstIsUnused(m, Execute(env, steps, m).m, id, a);
    }
  }

  lemma {:induction false} UpdateThenRun(steps: seq<Step>, w: World, ids: set<StepId>, env: Env)
    requires w.active
    ensures var m := AfterUpdate(w.m, ids * ActionIds(steps));
            Life(steps, w, [UserUpdate(ids), Run(env)]).m == if Open(m.row.plan) then Execute(env, steps, m).m else m
  {
    hide ActionIds, AfterUpdate, Execute;
    var a, b := UserUpdate(ids), Run(env);
    assert [a, b][1..] == [b] && [b][1..] == [];
    assert Life(steps, After(steps, w, a), [b]) == After(steps, After(steps, w, a), b);
  }

  lemma {:induction false} RunFirstUnder(env: Env, steps: seq<Step>, m: Machine, id: StepId, a: nat)
    requires AtAttempt(At(m.row, id), a) && (a == 0 || id !in Looped(steps))
    ensures FirstUnder(id, a, m, Execute(env, steps, m).m)
  {
    var started := Save(env, m.(row := m.row.(plan := Running), inFlight := None));
    SameNodes(m.row, Running);
    FirstStays(id, a, m, started.m);
    if started.signal == Crashed { return; }
    NodesFirstUnder(env, steps, started.m, id, a);
    var ran := Nodes(env, steps, started.m);
    ConcludedAttempts(env, ran, id);
    hide Nodes, Looped, FirstUnder;
    FirstLike(id, a, m, started.m, ran.m, Execute(env, steps, m).m);
  }

  lemma {:induction false} ConcludedAttempts(env: Env, ran: Out, id: StepId)
    ensures var m := Concluded(env, ran);
            m.sent == ran.m.sent && At(m.row, id).retries == At(ran.m.row, id).retries && NextAttempt(At(m.row, id)) == NextAttempt(At(ran.m.row, id))
  {
  }

  lemma {:induction false} FirstIsUnused(m: Machine, m': Machine, id: StepId, a: nat)
    requires FirstUnder(id, a, m, m')
    ensures m.sent <= m'.sent && (NotSentSince(m'.sent, |m.sent|, id) || exists n :: FirstSince(m'.sent, m.sent, id, a, n))
  {
    var before, sent := m.sent, m'.sent;
    if !Unsent(id, sent, |before|, |sent|) {
      var n :| |before| <= n < |sent| && sent[n].step.id == id && sent[n].attempt == a && Unsent(id, sent, |before|, n);
      if Requested(before, id, a) {
        var k :| 0 <= k < |before| && before[k].step.id == id && before[k].attempt == a;
        assert sent[..n][k] == before[k];
      }
      if Requested(sent[..n], id, a) {
        var k :| 0 <= k < n && sent[..n][k].step.id == id && sent[..n][k].attempt == a;
        assert k < |before| && before[k] == sent[k];
      }
      assert FirstSince(sent, before, id, a, n);
    }
  }

  /** Whatever the surroundings, two passes after the first that both dispatch a step of the body do so under a common
      request id: each pass resets its body, and the id leaves the iteration out. */
  lemma {:induction false} PassesShareTheRequest(loop: Step, id: StepId, env: Env, i: nat, m: Machine, env': Env, j: nat, m': Machine)
    requires i > 0 && j > 0 && id in Ids(loop.body)
    requires m.sent <= OnePass(env, loop, i, m).m.sent && m'.sent <= OnePass(env', loop, j, m').m.sent
    requires var sent := OnePass(env, loop, i, m).m.sent; !Unsent(id, sent, |m.sent|, |sent|)
    requires var sent := OnePass(env', loop, j, m').m.sent; !Unsent(id, sent, |m'.sent|, |sent|)
    ensures var a, b := OnePass(env, loop, i, m).m.sent, OnePass(env', loop, j, m').m.sent;
            exists k, l | |m.sent| <= k < |a| && |m'.sent| <= l < |b| ::
              a[k].step.id == b[l].step.id == id && a[k].attempt == b[l].attempt == 0
  {
    OnePassFirstUnder(env, loop, i, m, id, 0);
    OnePassFirstUnder(env', loop, j, m', id, 0);
    hide OnePass, Ids;
  }

  /** The answers that let a loop over one action make a pass from moment t on, each at the moment it is asked. */
  ghost predicate PassGoes(env: Env, t: nat)
  {
    && env.interrupt(t).None? && !env.holds(t + 1) && !env.holds(t + 2)
    && !env.dies(t + 4) && env.interrupt(t + 5).None? && env.holds(t + 6) && env.holds(t + 8)
    && env.interrupt(t + 9).None? && !env.dies(t + 10) && env.updates(t + 11) == {} && env.reply(t + 11) == Succeeded(true)
    && !env.dies(t + 12) && !env.holds(t + 13) && env.updates(t + 14) == {} && env.adjust(t + 14) == Keep && !env.dies(t + 15)
  }

  /** So do n passes, one after the other. */
  ghost predicate PassesGo(env: Env, t: nat, n: nat) { forall p: nat | p < n :: PassGoes(env, t + 16 * p) }

  lemma {:induction false} FirstPassGoes(env: Env, t: nat, n: nat)
    requires PassesGo(env, t, n) && n > 0
    ensures PassGoes(env, t) && PassesGo(env, t + 16, n - 1)
  {
    hide PassGoes;
    assert PassGoes(env, t + 16 * 0);
    forall p: nat | p < n - 1 ensures PassGoes(env, t + 16 + 16 * p) {
      assert PassGoes(env, t + 16 * (p + 1));
    }
  }

  ghost predicate FirstAttempts(sent: seq<Dispatch>, before: nat, step: Step)
  {
    before <= |sent| && forall k | before <= k < |sent| :: sent[k].step == step && sent[k].attempt == 0
  }

  lemma {:induction false} PassStartsAfresh(loop: Step, step: Step, iteration: nat, m: Machine)
    requires loop.body == [step] && (iteration > 0 || At(m.row, step.id) == FRESH)
    ensures var start := PassStart(loop, iteration, m);
            && At(start.row, step.id) == FRESH && !IsSettled(start.row, step.id)
            && At(start.(saved := start.row, tick := start.tick + 5).row, step.id) == FRESH
            && start.tick == m.tick + 4 && start.sent == m.sent
  {
    assert step.id in Ids([step]) by { assert step.id in StepIds(step); }
  }

  /** One pass that goes: the action's request goes out once, under attempt 0. */
  lemma {:induction false} PassSendsOnce(env: Env, loop: Step, step: Step, iteration: nat, m: Machine)
    requires PassGoes(env, m.tick) && loop.body == [step] && step.kind == Action && !step.tool.stateProvable
    requires iteration > 0 || At(m.row, step.id) == FRESH
    ensures var out := OnePass(env, loop, iteration, m);
            && out.signal == Finished && out.m.tick == m.tick + 16
            && |out.m.sent| == |m.sent| + 1 && m.sent <= out.m.sent && FirstAttempts(out.m.sent, |m.sent|, step)
  {
    hide Attempts, Node, Nodes, PassStart, At, Applies;
    var start := PassStart(loop, iteration, m);
    PassStartsAfresh(loop, step, iteration, m);
    AttemptSendsOnce(env, step, start.(saved := start.row, tick := start.tick + 5));
    ActionNode(env, step, start);
    NoUpdate(env, Attempts(env, step, {}, start.(saved := start.row, tick := start.tick + 5)).m);
  }

  /** Nothing asked for, nothing updated. */
  lemma {:induction false} NoUpdate(env: Env, m: Machine)
    ensures env.updates(m.tick) == {} ==> Waited(env, m) == Out(Finished, m)
    ensures env.updates(m.tick + 1) == {} ==> Waited(env, Tick(m)) == Out(Finished, Tick(m))
  {
  }

  lemma {:induction false} AttemptSendsOnce(env: Env, step: Step, m: Machine)
    requires At(m.row, step.id) == FRESH && env.interrupt(m.tick).None? && !env.dies(m.tick + 1) && !env.dies(m.tick + 3)
    requires env.updates(m.tick + 2) == {} && env.reply(m.tick + 2) == Succeeded(true)
    ensures var out := Attempts(env, step, {}, m);
            && out.signal == Finished && out.m.tick == m.tick + 4
            && |out.m.sent| == |m.sent| + 1 && m.sent <= out.m.sent && FirstAttempts(out.m.sent, |m.sent|, step)
  {
    var sent := SentOff(env, step, m);
    hide Failure, Applies;
    NoUpdate(env, sent);
    assert Answer(env, step, sent) == Replied(env, step, sent);
  }

  lemma {:induction false} FirstAttemptsJoin(a: seq<Dispatch>, b: seq<Dispatch>, before: nat, step: Step)
    requires a <= b && FirstAttempts(a, before, step) && FirstAttempts(b, |a|, step)
    ensures FirstAttempts(b, before, step)
  {
    forall k | before <= k < |b| ensures b[k].step == step && b[k].attempt == 0 {
      assert k < |a| ==> b[k] == a[k];
    }
  }

  lemma {:induction false} LeaveSends(m: Machine, loop: Step, asked: nat)
    ensures Leave(m, loop, asked).sent == m.sent
  {
  }

  lemma {:induction false} PassIsMade(env: Env, loop: Step, iteration: nat, m: Machine)
    requires PassGoes(env, m.tick) && loop.kind == Repeat && iteration < loop.repeatCount <= loop.maxIterations
    ensures GoesOn(env, loop, iteration, m)
  {
  }

  /** A REPEAT over one action whose n remaining passes go dispatches n times under one and the same request id. */
  lemma {:induction false} RepeatReusesTheRequest(env: Env, loop: Step, step: Step, iteration: nat, m: Machine)
    requires loop.kind == Repeat && iteration < loop.repeatCount <= loop.maxIterations
    requires loop.body == [step] && step.kind == Action && !step.tool.stateProvable
    requires iteration > 0 || At(m.row, step.id) == FRESH
    requires PassesGo(env, m.tick, loop.repeatCount - iteration)
    ensures var out := Passes(env, loop, iteration, m);
            && out.signal == Finished && |out.m.sent| == |m.sent| + (loop.repeatCount - iteration) && m.sent <= out.m.sent
            && FirstAttempts(out.m.sent, |m.sent|, step)
    decreases loop.repeatCount - iteration
  {
    hide OnePass, FirstAttempts, LoopEnd, Leave, PassGoes, GoesOn;
    hide PassesGo;
    FirstPassGoes(env, m.tick, loop.repeatCount - iteration);
    PassIsMade(env, loop, iteration, m);
    PassSendsOnce(env, loop, step, iteration, m);
    LeaveSends(OnePass(env, loop, iteration, m).m, loop, m.tick);
    var passed := OnePass(env, loop, iteration, m);
    if iteration + 1 < loop.repeatCount {
      RepeatReusesTheRequest(env, loop, step, iteration + 1, passed.m);
      FirstAttemptsJoin(passed.m.sent, Passes(env, loop, iteration + 1, passed.m).m.sent, |m.sent|, step);
    }
  }

  /** A REPEAT that was RUNNING with some passes made when the process ended is entered again after the restart, and makes
      exactly the passes that were left. */
  lemma {:induction false} RestartedLoopGoesOn(w: World, confirmed: set<StepId>, env: Env, loop: Step, step: Step)
    requires loop.kind == Repeat && loop.body == [step] && step.kind == Action && !step.tool.stateProvable && Distinct([loop])
    requires Open(w.m.saved.plan) && Recovered([loop], w.m.saved, confirmed).plan == Paused
    requires At(w.m.saved, loop.id).status == Running && 0 < Iteration(w.m.saved, loop.id) < loop.repeatCount <= loop.maxIterations
    requires var t := w.m.tick; !env.dies(t) && !env.dies(t + 1) && env.interrupt(t + 2).None? && env.holds(t + 3)
    requires PassesGo(env, w.m.tick + 4, loop.repeatCount - Iteration(w.m.saved, loop.id))
    ensures var m := Life([loop], w, [Restart(confirmed), Run(env)]).m;
            && w.m.sent <= m.sent && |m.sent| == |w.m.sent| + (loop.repeatCount - Iteration(w.m.saved, loop.id))
            && FirstAttempts(m.sent, |w.m.sent|, step)
  {
    hide Execute, PassesGo, Life, FirstAttempts, Distinct, AllNodes, Recovered;
    var row := Recovered([loop], w.m.saved, confirmed);
    TopIsListed([loop], 0);
    RestartRules([loop], w.m.saved, confirmed, loop);
    RestartThenRun([loop], w, confirmed, env);
    RunMakesRest(env, loop, step, w.m.(row := row, saved := row, inFlight := None));
  }

  lemma {:induction false} RunMakesRest(env: Env, loop: Step, step: Step, m: Machine)
    requires loop.kind == Repeat && loop.body == [step] && step.kind == Action && !step.tool.stateProvable && m.inFlight.None?
    requires !IsSettled(m.row, loop.id) && 0 < Iteration(m.row, loop.id) < loop.repeatCount <= loop.maxIterations
    requires var t := m.tick; !env.dies(t) && !env.dies(t + 1) && env.interrupt(t + 2).None? && env.holds(t + 3)
    requires PassesGo(env, m.tick + 4, loop.repeatCount - Iteration(m.row, loop.id))
    ensures var m' := Execute(env, [loop], m).m;
            && m.sent <= m'.sent && |m'.sent| == |m.sent| + (loop.repeatCount - Iteration(m.row, loop.id))
            && FirstAttempts(m'.sent, |m.sent|, step)
  {
    RunEntersLoop(env, loop, m);
    hide Execute, PassesGo, Passes, FirstAttempts;
    var running := m.row.(plan := Running);
    var entered := Mark(Enter(m.(row := running, saved := running, tick := m.tick + 4), loop.id), loop.id, Running);
    RepeatReusesTheRequest(env, loop, step, Iteration(m.row, loop.id), entered);
  }

  lemma {:induction false} RestartThenRun(steps: seq<Step>, w: World, confirmed: set<StepId>, env: Env)
    requires Open(w.m.saved.plan) && Recovered(steps, w.m.saved, confirmed).plan == Paused
    ensures var row := Recovered(steps, w.m.saved, confirmed);
            Life(steps, w, [Restart(confirmed), Run(env)]).m == Execute(env, steps, w.m.(row := row, saved := row, inFlight := None)).m
  {
    hide Recovered, Execute;
    var a, b := Restart(confirmed), Run(env);
    assert [a, b][1..] == [b] && [b][1..] == [];
    assert Life(steps, After(steps, w, a), [b]) == After(steps, After(steps, w, a), b);
  }

  /** A run whose one node is an unsettled loop makes the passes that are left, and sends nothing else. */
  lemma {:induction false} RunEntersLoop(env: Env, loop: Step, m: Machine)
    requires IsLoop(loop.kind) && !IsSettled(m.row, loop.id) && m.inFlight.None?
    requires var t := m.tick; !env.dies(t) && !env.dies(t + 1) && env.interrupt(t + 2).None? && env.holds(t + 3)
    ensures var running := m.row.(plan := Running);
            var entered := Mark(Enter(m.(row := running, saved := running, tick := m.tick + 4), loop.id), loop.id, Running);
            Execute(env, [loop], m).m.sent == Passes(env, loop, Iteration(m.row, loop.id), entered).m.sent
  {
    hide Passes;
    var running := m.row.(plan := Running);
    var started := m.(row := running, saved := running, tick := m.tick + 1);
    assert Save(env, m.(row := running, inFlight := None)) == Out(Finished, started);
    var out := Nodes(env, [loop], started);
    NodeEntersLoop(env, loop, started);
    hide Nodes;
    ConcludedSends(env, out);
  }

  lemma {:induction false} ConcludedSends(env: Env, ran: Out)
    ensures Concluded(env, ran).sent == ran.m.sent
  {
  }

  lemma {:induction false} NodeEntersLoop(env: Env, loop: Step, m: Machine)
    requires IsLoop(loop.kind) && !IsSettled(m.row, loop.id)
    requires !env.dies(m.tick) && env.interrupt(m.tick + 1).None? && env.holds(m.tick + 2)
    ensures var entered := Mark(Enter(m.(saved := m.row, tick := m.tick + 3), loop.id), loop.id, Running);
            Nodes(env, [loop], m).m.sent == Passes(env, loop, Iteration(m.row, loop.id), entered).m.sent
  {
    hide Passes, Adjusted, IsSettled;
    LoopNode(env, loop, m);
    hide Node, Enter, Mark;
    var entered := Mark(Enter(m.(saved := m.row, tick := m.tick + 3), loop.id), loop.id, Running);
    AdjustedSends(env, Passes(env, loop, Iteration(m.row, loop.id), entered).m);
    assert [loop][1..] == [];
    assert Nodes(env, [loop][1..], Node(env, loop, m).m) == Out(Finished, Node(env, loop, m).m);
  }

  lemma {:induction false} LoopNode(env: Env, loop: Step, m: Machine)
    requires IsLoop(loop.kind) && !IsSettled(m.row, loop.id)
    requires !env.dies(m.tick) && env.interrupt(m.tick + 1).None? && env.holds(m.tick + 2)
    ensures var entered := Mark(Enter(m.(saved := m.row, tick := m.tick + 3), loop.id), loop.id, Running);
            var ran := Passes(env, loop, Iteration(m.row, loop.id), entered);
            Node(env, loop, m) == if ran.signal == Finished then Adjusted(env, ran.m) else ran
  {
    hide Passes, Adjusted;
    assert Tick(Tick(Save(env, m).m)) == m.(saved := m.row, tick := m.tick + 3);
  }

  lemma {:induction false} AdjustedSends(env: Env, m: Machine)
    ensures Adjusted(env, m).m.sent == m.sent
  {
    AdjustedEffect(env, m);
    hide Adjusted;
  }
}
