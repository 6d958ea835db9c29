/** What every run of the plan interpreter keeps, whatever its surroundings answer. */
module PlanSafety {
  import opened Options
  import opened PlanBounds
  import opened PlanInterpretation

  // ----- saved ahead -----

  /** A node's pending request carries the node's own attempt number. */
  ghost predicate OwnAttempts(row: Row)
  {
    forall id :: At(row, id).request.Some? ==> At(row, id).request.value == At(row, id).retries
  }

  /** When a request went out, the row on disk showed its node RUNNING under that very request. */
  ghost predicate WrittenAhead(d: Dispatch)
  {
    && At(d.written, d.step.id) == NodeState(Running, d.attempt, Some(d.attempt)) && d.attempt <= d.step.maxRetries
    && d.written.plan == Running
  }

  ghost predicate ShownRunning(row: Row, d: Dispatch) { At(row, d.step.id) == NodeState(Running, d.attempt, Some(d.attempt)) }

  /** Memory and disk differ at most in nodes that are paused in memory. */
  ghost predicate Parked(saved: Row, row: Row)
  {
    saved.loops == row.loops && forall id :: At(saved, id) == At(row, id) || At(row, id).status == Paused
  }

  /** What holds whenever a part of the plan ends with signal s. */
  ghost predicate Fine(s: Signal, m: Machine)
  {
    && OwnAttempts(m.row) && OwnAttempts(m.saved) && (forall d | d in m.sent :: WrittenAhead(d))
    && (s == Crashed ==> m.saved == m.row) && (s == Material ==> Parked(m.saved, m.row))
    && (s == Crashed || s == TaskCancelled ==> m.inFlight.Some? ==> ShownRunning(m.saved, m.inFlight.value))
    && (s != Crashed && s != TaskCancelled ==> m.inFlight.None?)
    && (s == Finished || s == GoalReached || s.Stopped? ==> m.row.plan == Running)
  }

  lemma {:induction false} SaveFine(env: Env, m: Machine)
    requires Fine(Finished, m)
    ensures Fine(Save(env, m).signal, Save(env, m).m)
  {
  }

  lemma {:induction false} PutFine(m: Machine, id: StepId, n: NodeState)
    requires Fine(Finished, m) && (n.request.Some? ==> n.request.value == n.retries)
    ensures Fine(Finished, Put(m, id, n))
  {
    var m' := Put(m, id, n);
    forall d ensures At(m'.row, d) == if d == id then n else At(m.row, d) {}
  }

  lemma {:induction false} MarkFine(m: Machine, id: StepId, status: Status)
    requires Fine(Finished, m)
    ensures Fine(Finished, Mark(m, id, status))
  {
    PutFine(m, id, At(m.row, id).(status := status));
    hide Fine;
  }

  /** Ticks, statuses of the end, and lap bookkeeping do not matter. */
  lemma {:induction false} FineLike(s: Signal, m: Machine, s': Signal, m': Machine)
    requires Fine(s, m) && m'.row.nodes == m.row.nodes && m'.row.plan == m.row.plan && m'.saved == m.saved
    requires m'.sent == m.sent && m'.inFlight == m.inFlight
    requires s == Finished && (s' == Finished || s' == GoalReached || s'.Stopped? || s' == TaskCancelled)
    ensures Fine(s', m')
  {
    assert forall id :: At(m'.row, id) == At(m.row, id);
  }

  /** An end with status `to` for the node. */
  lemma {:induction false} MarkedEnd(m: Machine, m': Machine, id: StepId, to: Status, s: Signal)
    requires Fine(Finished, m) && (s == Finished || s == GoalReached || s.Stopped?)
    requires m'.row.nodes == Mark(m, id, to).row.nodes && m'.row.plan == m.row.plan && m'.saved == m.saved
    requires m'.sent == m.sent && m'.inFlight == m.inFlight
    ensures Fine(s, m')
  {
    MarkFine(m, id, to);
    FineLike(Finished, Mark(m, id, to), s, m');
  }

  lemma {:induction false} ResetFine(m: Machine, ids: set<StepId>)
    requires Fine(Finished, m)
    ensures Fine(Finished, Reset(m, ids))
  {
    var m' := Reset(m, ids);
    forall d ensures At(m'.row, d) == if d in ids then FRESH else At(m.row, d) {}
  }

  lemma {:induction false} SendFine(m: Machine, step: Step, attempt: nat)
    requires Fine(Finished, m) && m.saved == m.row && At(m.row, step.id) == NodeState(Running, attempt, Some(attempt))
    requires attempt <= step.maxRetries
    ensures var m' := Send(m, step, attempt);
            Fine(Crashed, m') && Fine(TaskCancelled, m') && m'.row == m.row
    ensures Fine(Finished, Send(m, step, attempt).(inFlight := None))
  {
  }

  lemma {:induction false} UpdatedAt(row: Row, ids: set<StepId>)
    ensures forall id :: var n, n' := At(row, id), At(row.(nodes := Updated(row.nodes, ids)), id);
                         Kept(n, n') && (!PendingLike(n.status) ==> n' == n)
  {
  }

  /** A wait keeps what held before it. */
  lemma {:induction false} WaitedFine(env: Env, m: Machine)
    requires Fine(Finished, m)
    ensures Fine(Waited(env, m).signal, Waited(env, m).m)
  {
    UpdatedAt(m.row, env.updates(m.tick));
  }

  /** Waiting for a reply: the step in flight is RUNNING and so not to be updated. */
  lemma {:induction false} WaitedInFlight(env: Env, m: Machine)
    requires Fine(Crashed, m) && Fine(TaskCancelled, m) && Fine(Finished, m.(inFlight := None))
    ensures var waited := Waited(env, m);
            Fine(Crashed, waited.m) && (waited.signal != Crashed ==> Fine(TaskCancelled, waited.m) && Fine(Finished, waited.m.(inFlight := None)))
  {
    UpdatedAt(m.row, env.updates(m.tick));
  }

  lemma {:induction false} AnswerFine(env: Env, step: Step, m: Machine)
    requires Fine(Crashed, m) && Fine(TaskCancelled, m) && Fine(Finished, m.(inFlight := None))
    ensures var v := Answer(env, step, m);
            if v.Over? then Fine(v.out.signal, v.out.m) else Fine(Finished, v.m)
  {
    hide Fine, Waited;
    WaitedInFlight(env, m);
    var waited := Waited(env, m);
    if waited.signal != Crashed { RepliedFine(env, step, waited.m); }
  }

  lemma {:induction false} RepliedFine(env: Env, step: Step, m: Machine)
    requires Fine(Crashed, m) && Fine(TaskCancelled, m) && Fine(Finished, m.(inFlight := None))
    ensures var v := Replied(env, step, m);
            if v.Over? then Fine(v.out.signal, v.out.m) else Fine(Finished, v.m)
  {
    var got := Tick(m.(inFlight := None));
    FineLike(Finished, m.(inFlight := None), Finished, got);
    match env.reply(m.tick)
    case PreemptedReply => MarkedEnd(got, Mark(got, step.id, Preempted), step.id, Preempted, Stopped(Preempted));
    case CancelledReply(userPaused) =>
      MarkedEnd(got, Mark(got, step.id, Cancelled), step.id, Cancelled, Stopped(if userPaused then Paused else Aborted));
    case Succeeded(_) => MarkFine(got, step.id, Done); SaveFine(env, Mark(got, step.id, Done));
    case FailedReply(_, _) => MarkFine(got, step.id, Done); SaveFine(env, Mark(got, step.id, Done));
    case _ =>
  }

  lemma {:induction false} FailureFine(env: Env, step: Step, seen: set<Code>, code: Code, m: Machine)
    requires Fine(Finished, m)
    ensures var v := Failure(env, step, seen, code, m);
            if v.Over? then Fine(v.out.signal, v.out.m) else Fine(Finished, v.m)
  {
    var retries := At(m.row, step.id).retries + 1;
    FineLike(Finished, m, Finished, Tick(m));
    if code == TargetGone {
      MarkedEnd(m, Mark(m, step.id, Aborted), step.id, Aborted, Stopped(Aborted));
    } else if code == NoMaterial && step.tool.building && env.holds(m.tick) {
      ParkedFine(env, m, step.id);
    } else if retries > step.maxRetries || code in seen || !code.Transient? {
      var failed := Put(Tick(m), step.id, NodeState(Failed, retries, None));
      PutFine(Tick(m), step.id, NodeState(Failed, retries, None));
      SaveFine(env, failed);
      FineLike(Finished, Save(env, failed).m, Stopped(Blocked), Save(env, failed).m);
    } else {
      var counted := Put(Tick(m), step.id, NodeState(Running, retries, None));
      PutFine(Tick(m), step.id, NodeState(Running, retries, None));
      WaitedFine(env, counted);
      var waited := Waited(env, counted);
      if waited.signal != Crashed { FineLike(Finished, waited.m, TaskCancelled, Tick(waited.m)); }
    }
  }

  /** The plan parked for want of material. */
  lemma {:induction false} ParkedFine(env: Env, m: Machine, id: StepId)
    requires Fine(Finished, m)
    ensures var parked := Save(env, m.(row := m.row.(plan := Paused)));
            if parked.signal == Crashed then Fine(Crashed, parked.m) else Fine(Material, Mark(parked.m, id, Paused))
  {
    var parked := m.(row := m.row.(plan := Paused));
    assert forall d :: At(parked.row, d) == At(m.row, d);
    var m' := Mark(Save(env, parked).m, id, Paused);
    forall d ensures At(m'.row, d) == if d == id then At(m.row, d).(status := Paused) else At(m.row, d) {}
  }

  lemma {:induction false} AttemptsFine(env: Env, step: Step, seen: set<Code>, m: Machine)
    requires Fine(Finished, m)
    ensures var out := Attempts(env, step, seen, m); Fine(out.signal, out.m)
    decreases if At(m.row, step.id).retries <= step.maxRetries then step.maxRetries + 1 - At(m.row, step.id).retries else 0
  {
    var n := At(m.row, step.id);
    if n.retries > step.maxRetries {
      FineLike(Finished, m, Stopped(Blocked), m);
      return;
    }
    var interrupt := env.interrupt(m.tick);
    if interrupt.Some? {
      InterruptedFine(interrupt.value, step.id, m);
      return;
    }
    assert n.request.Some? ==> n.request.value == n.retries;
    FineLike(Finished, m, Finished, Tick(m));
    var put := Put(Tick(m), step.id, NodeState(Running, n.retries, Some(n.retries)));
    PutFine(Tick(m), step.id, NodeState(Running, n.retries, Some(n.retries)));
    SaveFine(env, put);
    var written := Save(env, put);
    if written.signal == Crashed { return; }
    SendFine(written.m, step, n.retries);
    var sent := Send(written.m, step, n.retries);
    AnswerFine(env, step, sent);
    var answer := Answer(env, step, sent);
    if answer.Over? { return; }
    FailureFine(env, step, seen, answer.code, answer.m);
    var failure := Failure(env, step, seen, answer.code, answer.m);
    if failure.Again? { AttemptsFine(env, step, seen + {answer.code}, failure.m); }
  }

  lemma {:induction false} InterruptedFine(i: Interruption, id: StepId, m: Machine)
    requires Fine(Finished, m)
    ensures Fine(Interrupted(i, id, m).signal, Interrupted(i, id, m).m)
  {
    MarkedEnd(m, Interrupted(i, id, m).m, id, NodeStop(i), Interrupted(i, id, m).signal);
  }

  lemma {:induction false} ActionFine(env: Env, step: Step, m: Machine)
    requires Fine(Finished, m)
    ensures var out := ActionStep(env, step, m); Fine(out.signal, out.m)
  {
    hide Fine;
    if step.tool.stateProvable && env.holds(m.tick) {
      MarkedEnd(m, Mark(Tick(m), step.id, Done), step.id, Done, Finished);
    } else if !env.holds(m.tick + 1) {
      MarkedEnd(m, Mark(m.(tick := m.tick + 2), step.id, Blocked), step.id, Blocked, Stopped(Blocked));
    } else {
      FineLike(Finished, m, Finished, m.(tick := m.tick + 2));
      AttemptsFine(env, step, {}, m.(tick := m.tick + 2));
    }
  }

  lemma {:induction false} AdjustedFine(env: Env, m: Machine)
    requires Fine(Finished, m)
    ensures var out := Adjusted(env, m); Fine(out.signal, out.m)
  {
    hide Fine;
    WaitedFine(env, m);
    var waited := Waited(env, m);
    if waited.signal != Crashed { DecidedFine(env, waited.m); }
  }

  lemma {:induction false} DecidedFine(env: Env, m: Machine)
    requires Fine(Finished, m)
    ensures var out := Decided(env, m); Fine(out.signal, out.m)
  {
    FineLike(Finished, m, Finished, Tick(m));
    FineLike(Finished, m, TaskCancelled, Tick(m));
    match env.adjust(m.tick)
    case Update(ids) =>
      var m' := Tick(m.(row := m.row.(nodes := Updated(m.row.nodes, ids))));
      UpdatedAt(m.row, ids);
      SaveFine(env, m');
    case Replace =>
      var from := {Pending, Paused, NeedsRevalidation, Running};
      var m' := Tick(m.(row := m.row.(plan := Aborted, nodes := Remarked(m.row.nodes, from, Aborted))));
      RemarkedAt(m.row, Aborted, from, Aborted);
    case _ =>
  }

  lemma {:induction false} RemarkedAt(row: Row, plan: Status, from: set<Status>, to: Status)
    ensures forall id :: var row' := row.(plan := plan, nodes := Remarked(row.nodes, from, to));
                         At(row', id) == if id in row.nodes && At(row, id).status in from then At(row, id).(status := to) else At(row, id)
  {
  }

  lemma {:induction false} NodesFine(env: Env, steps: seq<Step>, m: Machine)
    requires Fine(Finished, m)
    ensures var out := Nodes(env, steps, m); Fine(out.signal, out.m)
    decreases steps, 0, 0
  {
    hide Fine;
    if steps != [] {
      NodeFine(env, steps[0], m);
      var first := Node(env, steps[0], m);
      if first.signal == Finished { NodesFine(env, steps[1..], first.m); }
    }
  }

  lemma {:induction false} NodeFine(env: Env, step: Step, m: Machine)
    requires Fine(Finished, m)
    ensures var out := Node(env, step, m); Fine(out.signal, out.m)
    decreases step, 3, 0
  {
    hide Fine;
    SaveFine(env, m);
    var written := Save(env, m);
    if written.signal == Crashed { return; }
    var interrupt := env.interrupt(written.m.tick);
    if interrupt.Some? {
      InterruptedFine(interrupt.value, step.id, written.m);
      return;
    }
    var seen := Tick(written.m);
    FineLike(Finished, written.m, Finished, seen);
    if IsSettled(seen.row, step.id) {
    } else if !env.holds(seen.tick) {
      MarkedEnd(seen, Mark(Tick(seen), step.id, Blocked), step.id, Blocked, Stopped(Blocked));
    } else {
      FineLike(Finished, seen, Finished, Tick(seen));
      ByKindFine(env, step, Tick(seen));
      var ran := ByKind(env, step, Tick(seen));
      if ran.signal == Finished { AdjustedFine(env, ran.m); }
    }
  }

  lemma {:induction false} ByKindFine(env: Env, step: Step, m: Machine)
    requires Fine(Finished, m)
    ensures var out := ByKind(env, step, m); Fine(out.signal, out.m)
    decreases step, 2, 0
  {
    hide Fine;
    match step.kind
    case Action =>
      ActionFine(env, step, m);
      var acted := ActionStep(env, step, m);
      if acted.signal == Finished { FineLike(Finished, acted.m, ByKind(env, step, m).signal, Tick(acted.m)); }
    case If =>
      var started := Tick(Mark(m, step.id, Running));
      MarkedEnd(m, started, step.id, Running, Finished);
      var chosen := if env.holds(m.tick) then step.thenSteps else step.elseSteps;
      NodesFine(env, chosen, started);
      var ran := Nodes(env, chosen, started);
      if ran.signal == Finished { MarkedEnd(ran.m, Mark(ran.m, step.id, Done), step.id, Done, Finished); }
      if ran.signal == GoalReached {
        GoalIsFinished(ran.m);
        MarkedEnd(ran.m, Mark(ran.m, step.id, Done), step.id, Done, GoalReached);
      }
    case Branching =>
      var started := Mark(m, step.id, Running);
      MarkedEnd(m, started, step.id, Running, Finished);
      FirstBranchFine(env, step, 0, started);
      var ran := FirstBranch(env, step, 0, started);
      if ran.signal == Finished { MarkedEnd(ran.m, Mark(ran.m, step.id, Done), step.id, Done, Finished); }
    case Abort => MarkedEnd(m, Mark(m, step.id, Aborted), step.id, Aborted, Stopped(Aborted));
    case Pause => MarkedEnd(m, Mark(m, step.id, Paused), step.id, Paused, Stopped(Paused));
    case _ =>
      var started := Mark(Enter(m, step.id), step.id, Running);
      MarkedEnd(m, started, step.id, Running, Finished);
      PassesFine(env, step, Iteration(m.row, step.id), started);
  }

  lemma {:induction false} GoalIsFinished(m: Machine)
    requires Fine(GoalReached, m)
    ensures Fine(Finished, m)
  {
  }

  lemma {:induction false} FirstBranchFine(env: Env, step: Step, k: nat, m: Machine)
    requires k <= |step.branches| && Fine(Finished, m)
    ensures var out := FirstBranch(env, step, k, m); Fine(out.signal, out.m)
    decreases step, 1, |step.branches| - k
  {
    hide Fine;
    FineLike(Finished, m, Finished, Tick(m));
    if k == |step.branches| { NodesFine(env, step.elseSteps, m); }
    else if env.holds(m.tick) { NodesFine(env, step.branches[k].steps, Tick(m)); }
    else { FirstBranchFine(env, step, k + 1, Tick(m)); }
  }

  lemma {:induction false} LeaveFine(m: Machine, m': Machine, loop: Step, asked: nat)
    requires Fine(Finished, m) && m' == Leave(m.(tick := m'.tick), loop, asked)
    ensures Fine(Finished, m')
  {
    MarkedEnd(m, m', loop.id, Done, Finished);
  }

  lemma {:induction false} LoopEndFine(env: Env, step: Step, iteration: nat, m: Machine)
    requires Fine(Finished, m) && !GoesOn(env, step, iteration, m)
    ensures var out := LoopEnd(env, step, iteration, m); Fine(out.signal, out.m)
  {
    hide Fine;
    var out := LoopEnd(env, step, iteration, m);
    if out.signal == Finished { LeaveFine(m, out.m, step, m.tick); }
    else if iteration < step.maxIterations && env.interrupt(m.tick).Some? { InterruptedFine(env.interrupt(m.tick).value, step.id, m); }
    else { MarkedEnd(m, out.m, step.id, Failed, out.signal); }
  }

  lemma {:induction false} OnePassFine(env: Env, step: Step, iteration: nat, m: Machine)
    requires Fine(Finished, m)
    ensures var out := OnePass(env, step, iteration, m); Fine(out.signal, out.m)
    decreases step, 0, 0
  {
    hide Fine;
    var start := PassStart(step, iteration, m);
    FineLike(Finished, m, Finished, m.(tick := m.tick + 4));
    ResetFine(m.(tick := m.tick + 4), Ids(step.body));
    NodesFine(env, step.body, start);
    var ran := Nodes(env, step.body, start);
    if ran.signal == Finished {
      FineLike(Finished, ran.m, Finished, Passing(ran.m, step, iteration + 1, m.tick));
      SaveFine(env, Passing(ran.m, step, iteration + 1, m.tick));
    }
  }

  lemma {:induction false} PassesFine(env: Env, step: Step, iteration: nat, m: Machine)
    requires Fine(Finished, m)
    ensures var out := Passes(env, step, iteration, m); Fine(out.signal, out.m)
    decreases step, 1, if iteration < step.maxIterations then step.maxIterations - iteration else 0
  {
    hide Fine;
    if !GoesOn(env, step, iteration, m) {
      LoopEndFine(env, step, iteration, m);
      return;
    }
    OnePassFine(env, step, iteration, m);
    var passed := OnePass(env, step, iteration, m);
    if passed.signal != Finished { return; }
    if step.kind == Repeat && iteration + 1 >= step.repeatCount { LeaveFine(passed.m, Leave(passed.m, step, m.tick), step, m.tick); }
    else { PassesFine(env, step, iteration + 1, passed.m); }
  }
}
