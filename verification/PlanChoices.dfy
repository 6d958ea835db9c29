/** What decides the course of a run: which branch is taken, when a loop goes round, what makes an action done. */
module PlanChoices {
  import opened Options
  import opened PlanBounds
  import opened PlanInterpretation
  import opened PlanProgress

  // ----- branches -----

  /** The node's turn comes uninterrupted, it is unsettled and its preconditions hold: it runs from moment m.tick + 3. */
  ghost predicate TurnComes(env: Env, m: Machine, id: StepId)
  {
    !env.dies(m.tick) && env.interrupt(m.tick + 1).None? && !IsSettled(m.row, id) && env.holds(m.tick + 2)
  }

  /** From m to m' only steps of the list are dispatched, no node is run but these and the given one, and a stretch that
      ends well leaves the node DONE and the whole list settled. */
  ghost predicate RunsOnly(id: StepId, list: seq<Step>, s: Signal, m: Machine, m': Machine)
  {
    && m.sent <= m'.sent && (forall i | |m.sent| <= i < |m'.sent| :: m'.sent[i].step.id in Ids(list))
    && (s != Replaced && s != Crashed ==> Framed(Ids(list) + {id}, m.row, m'.row))
    && (s == Finished ==> At(m'.row, id).status == Done && forall k | 0 <= k < |list| :: IsSettled(m'.row, list[k].id))
  }

  lemma {:induction false} ListRuns(env: Env, id: StepId, list: seq<Step>, m: Machine, started: Machine, out: Out)
    requires Distinct(list) && started.row == Mark(m, id, Running).row && started.sent == m.sent && started.laps == m.laps
    requires var ran := Nodes(env, list, started);
             out.signal == ran.signal && (if ran.signal == Finished then out.m == Mark(ran.m, id, Done) else out.m == ran.m || out.m == Mark(ran.m, id, Done))
    ensures RunsOnly(id, list, out.signal, m, out.m)
  {
    NodesEffect(env, list, started);
    FinishedListIsSettled(env, list, started);
    hide Nodes, Ids, Distinct;
  }

  /** What is asked once the node has run well changes nothing that was settled. */
  lemma {:induction false} AdjustedRuns(env: Env, id: StepId, list: seq<Step>, m: Machine, ran: Machine)
    requires RunsOnly(id, list, Finished, m, ran)
    ensures RunsOnly(id, list, Adjusted(env, ran).signal, m, Adjusted(env, ran).m)
  {
    AdjustedEffect(env, ran);
    hide Adjusted, Ids;
  }

  lemma {:induction false} TurnTaken(env: Env, step: Step, m: Machine)
    requires TurnComes(env, m, step.id)
    ensures var ran := ByKind(env, step, m.(saved := m.row, tick := m.tick + 3));
            Node(env, step, m) == if ran.signal == Finished then Adjusted(env, ran.m) else ran
  {
    hide ByKind, Adjusted;
    assert Tick(Tick(Save(env, m).m)) == m.(saved := m.row, tick := m.tick + 3);
  }

  /** An IF runs its then steps when its condition holds at the moment it is asked, and its else steps otherwise: nothing
      of the other side is dispatched or run. */
  lemma {:induction false} IfTakesItsBranch(env: Env, step: Step, m: Machine)
    requires step.kind == If && DistinctStep(step) && TurnComes(env, m, step.id)
    ensures var out := Node(env, step, m);
            && RunsOnly(step.id, if env.holds(m.tick + 3) then step.thenSteps else step.elseSteps, out.signal, m, out.m)
            && (out.signal == GoalReached ==> At(out.m.row, step.id).status == Done)
  {
    var seen := m.(saved := m.row, tick := m.tick + 3);
    var list := if env.holds(m.tick + 3) then step.thenSteps else step.elseSteps;
    TurnTaken(env, step, m);
    var started := Tick(Mark(seen, step.id, Running));
    ListRuns(env, step.id, list, seen, started, ByKind(env, step, seen));
    var ran := ByKind(env, step, seen);
    hide Nodes, Node, Adjusted, Distinct;
    AsSeen(step.id, list, ran.signal, m, seen, ran.m);
    if ran.signal == Finished { AdjustedRuns(env, step.id, list, m, ran.m); }
    AdjustedGoesOn(env, ran.m);
  }

  lemma {:induction false} AsSeen(id: StepId, list: seq<Step>, s: Signal, m: Machine, seen: Machine, m': Machine)
    requires RunsOnly(id, list, s, seen, m') && seen.row == m.row && seen.sent == m.sent
    ensures RunsOnly(id, list, s, m, m')
  {
  }

  lemma {:induction false} AdjustedGoesOn(env: Env, m: Machine)
    ensures Adjusted(env, m).signal != GoalReached
  {
  }

  /** A BRANCH runs the first branch whose condition holds at the moment it is asked, and its else steps if none does. */
  lemma {:induction false} BranchTakesFirst(env: Env, step: Step, m: Machine, k: nat)
    requires step.kind == Branching && DistinctStep(step) && TurnComes(env, m, step.id) && k <= |step.branches|
    requires forall t: nat | m.tick + 3 <= t < m.tick + 3 + k :: !env.holds(t)
    requires k < |step.branches| ==> env.holds(m.tick + 3 + k)
    ensures var out := Node(env, step, m);
            RunsOnly(step.id, if k < |step.branches| then step.branches[k].steps else step.elseSteps, out.signal, m, out.m)
  {
    var seen := m.(saved := m.row, tick := m.tick + 3);
    var list := if k < |step.branches| then step.branches[k].steps else step.elseSteps;
    TurnTaken(env, step, m);
    BranchRuns(env, step, seen, k);
    var ran := ByKind(env, step, seen);
    hide Nodes, Node, Adjusted, Distinct, FirstBranch, ByKind, RunsOnly, DistinctStep, DistinctBranches;
    AsSeen(step.id, list, ran.signal, m, seen, ran.m);
    if ran.signal == Finished { AdjustedRuns(env, step.id, list, m, ran.m); }
  }

  lemma {:induction false} BranchRuns(env: Env, step: Step, m: Machine, k: nat)
    requires step.kind == Branching && DistinctStep(step) && k <= |step.branches|
    requires forall t: nat | m.tick <= t < m.tick + k :: !env.holds(t)
    requires k < |step.branches| ==> env.holds(m.tick + k)
    ensures var ran := ByKind(env, step, m);
            RunsOnly(step.id, if k < |step.branches| then step.branches[k].steps else step.elseSteps, ran.signal, m, ran.m)
  {
    if k < |step.branches| { DistinctBranch(step.branches, k); }
    var marked := Mark(m, step.id, Running);
    AskedInTurn(env, step, 0, k, marked);
    var started := marked.(tick := marked.tick + if k < |step.branches| then k + 1 else k);
    var list := if k < |step.branches| then step.branches[k].steps else step.elseSteps;
    var ran := ByKind(env, step, m);
    hide Nodes, Ids, Distinct, RunsOnly, FirstBranch;
    ListRuns(env, step.id, list, m, started, ran);
  }

  lemma {:induction false} AskedInTurn(env: Env, step: Step, i: nat, k: nat, m: Machine)
    requires i <= k <= |step.branches| && (forall t: nat | m.tick <= t < m.tick + (k - i) :: !env.holds(t))
    requires k < |step.branches| ==> env.holds(m.tick + (k - i))
    ensures FirstBranch(env, step, i, m) ==
              if k < |step.branches| then Nodes(env, step.branches[k].steps, m.(tick := m.tick + (k - i) + 1))
              else Nodes(env, step.elseSteps, m.(tick := m.tick + (k - i)))
    decreases k - i
  {
    hide Nodes;
    if i < k {
      assert !env.holds(m.tick);
      AskedInTurn(env, step, i + 1, k, Tick(m));
    }
  }

  // ----- loops -----

  /** Asked from moment t on, nothing keeps the loop from its next pass: neither its limit, an interruption, its time nor
      its exit condition, and for a WHILE its condition holds. */
  ghost predicate MayPass(env: Env, loop: Step, passes: nat, t: nat)
  {
    && passes < loop.maxIterations && (loop.kind == Repeat ==> passes < loop.repeatCount)
    && env.interrupt(t).None? && !env.holds(t + 1) && !env.holds(t + 2) && (loop.kind == While ==> env.holds(t + 3))
  }

  /** A pass that may be made is made; otherwise nothing is dispatched, no node but the loop is touched, and the loop is
      DONE unless its limit, an interruption or its time stopped it short of its exit. */
  lemma {:induction false} PassNeedsItsConditions(env: Env, loop: Step, passes: nat, m: Machine)
    requires IsLoop(loop.kind)
    ensures var out, t := Passes(env, loop, passes, m), m.tick;
            var n, within := At(out.m.row, loop.id), passes < loop.maxIterations;
            && (MayPass(env, loop, passes, t) ==>
                  var ran := Nodes(env, loop.body, PassStart(loop, passes, m)); ran.m.sent <= out.m.sent && (ran.signal != Finished ==> out == ran))
            && (!MayPass(env, loop, passes, t) ==> out.m.sent == m.sent && Framed({loop.id}, m.row, out.m.row))
            && (!within && loop.kind != Repeat && !env.holds(t) ==> out.signal == Stopped(Blocked) && n.status == Failed && out.m.laps == m.laps)
            && (within && env.interrupt(t).Some? ==>
                  out.signal == Stopped(PlanStop(env.interrupt(t).value)) && n.status == NodeStop(env.interrupt(t).value) && out.m.laps == m.laps)
            && (within && env.interrupt(t).None? && env.holds(t + 1) ==> out.signal == Stopped(Timeout) && n.status == Failed && out.m.laps == m.laps)
            && ((if within then env.interrupt(t).None? && !env.holds(t + 1) && !MayPass(env, loop, passes, t) else loop.kind == Repeat || env.holds(t)) ==>
                  out.signal == Finished && n.status == Done && out.m.laps == m.laps + [Left(loop, t)] && loop.id !in out.m.row.loops)
  {
    hide Nodes, PassStart;
    assert GoesOn(env, loop, passes, m) <==> MayPass(env, loop, passes, m.tick);
    if MayPass(env, loop, passes, m.tick) {
      hide Leave, LoopEnd, GoesOn;
      var passed := OnePass(env, loop, passes, m);
      PassesEffect(env, loop, passes + 1, passed.m);
      LeavingSends(passed.m, loop, m.tick);
      hide Effect;
    }
  }

  lemma {:induction false} LeavingSends(m: Machine, loop: Step, asked: nat)
    ensures Leave(m, loop, asked).sent == m.sent
  {
  }

  /** A pass is justified by the answers to its conditions; leaving is justified by a REPEAT that has made its passes, by
      the exit condition, or by the condition of a WHILE. */
  ghost predicate Justified(env: Env, before: seq<Lap>, lap: Lap)
  {
    var loop, t, passes := lap.loop, lap.asked, Since(before, lap.loop.id);
    && (lap.Passed? ==> MayPass(env, loop, passes, t))
    && (lap.Left? ==>
          || (loop.kind == Repeat && (passes >= loop.maxIterations || passes >= loop.repeatCount))
          || (passes >= loop.maxIterations && env.holds(t))
          || (passes < loop.maxIterations && env.interrupt(t).None? && !env.holds(t + 1)
              && (env.holds(t + 2) || (loop.kind == While && !env.holds(t + 3)))))
  }

  ghost predicate Warranted(env: Env, laps: seq<Lap>, laps': seq<Lap>)
  {
    laps <= laps' && forall k | |laps| <= k < |laps'| :: Justified(env, laps'[..k], laps'[k])
  }

  lemma {:induction false} WarrantedThen(env: Env, a: seq<Lap>, b: seq<Lap>, c: seq<Lap>)
    requires Warranted(env, a, b) && Warranted(env, b, c)
    ensures Warranted(env, a, c)
  {
    forall k | |a| <= k < |c| ensures Justified(env, c[..k], c[k]) {
      if k < |b| { assert c[..k] == b[..k] && c[k] == b[k]; }
    }
  }

  lemma {:induction false} WarrantedLap(env: Env, laps: seq<Lap>, lap: Lap)
    requires Justified(env, laps, lap)
    ensures Warranted(env, laps, laps + [lap])
  {
    assert (laps + [lap])[..|laps|] == laps;
  }

  lemma {:induction false} NoLap(env: Env, laps: seq<Lap>)
    ensures Warranted(env, laps, laps)
  {
  }

  /** Whatever is answered, every pass of every loop in a list, nested ones included, was made with its conditions met, and
      every loop that was left was left for a reason of its own. */
  lemma {:induction false} NodesWarranted(env: Env, steps: seq<Step>, m: Machine)
    requires Counted(m.laps, m.row) && Distinct(steps)
    ensures Warranted(env, m.laps, Nodes(env, steps, m).m.laps)
    decreases steps, 0, 0
  {
    hide Counted, Warranted;
    if steps == [] { NoLap(env, m.laps); return; }
    NodeWarranted(env, steps[0], m);
    var first := Node(env, steps[0], m);
    if first.signal == Finished {
      NodeCounted(env, steps[0], m);
      NodesWarranted(env, steps[1..], first.m);
      WarrantedThen(env, m.laps, first.m.laps, Nodes(env, steps[1..], first.m).m.laps);
    }
  }

  lemma {:induction false} NodeWarranted(env: Env, step: Step, m: Machine)
    requires Counted(m.laps, m.row) && DistinctStep(step)
    ensures Warranted(env, m.laps, Node(env, step, m).m.laps)
    decreases step, 3, 0
  {
    hide Counted, Warranted, ByKind, DistinctStep;
    NoLap(env, m.laps);
    var seen := Tick(Tick(Save(env, m).m));
    SameCounted(m, seen);
    ByKindWarranted(env, step, seen);
    AdjustedLaps(env, ByKind(env, step, seen).m);
    hide Adjusted;
  }

  lemma {:induction false} AdjustedLaps(env: Env, m: Machine)
    ensures Adjusted(env, m).m.laps == m.laps
  {
  }

  lemma {:induction false} ByKindWarranted(env: Env, step: Step, m: Machine)
    requires Counted(m.laps, m.row) && DistinctStep(step)
    ensures Warranted(env, m.laps, ByKind(env, step, m).m.laps)
    decreases step, 2, 0
  {
    hide Counted, Warranted, Nodes, FirstBranch, Passes, Attempts;
    NoLap(env, m.laps);
    match step.kind
    case Action => AttemptsFacts(env, step, {}, m.(tick := m.tick + 2));
    case If =>
      var started := Tick(Mark(m, step.id, Running));
      SameCounted(m, started);
      NodesWarranted(env, if env.holds(m.tick) then step.thenSteps else step.elseSteps, started);
    case Branching =>
      var started := Mark(m, step.id, Running);
      SameCounted(m, started);
      FirstBranchWarranted(env, step, 0, started);
    case Abort =>
    case Pause =>
    case _ =>
      StartCounted(m, step.id);
      PassesWarranted(env, step, Iteration(m.row, step.id), Mark(Enter(m, step.id), step.id, Running));
  }

  lemma {:induction false} FirstBranchWarranted(env: Env, step: Step, k: nat, m: Machine)
    requires k <= |step.branches| && Counted(m.laps, m.row) && DistinctStep(step)
    ensures Warranted(env, m.laps, FirstBranch(env, step, k, m).m.laps)
    decreases step, 1, |step.branches| - k
  {
    hide Counted, Warranted;
    SameCounted(m, Tick(m));
    if k == |step.branches| { NodesWarranted(env, step.elseSteps, m); }
    else if env.holds(m.tick) {
      DistinctBranch(step.branches, k);
      NodesWarranted(env, step.branches[k].steps, Tick(m));
    } else { FirstBranchWarranted(env, step, k + 1, Tick(m)); }
  }

  lemma {:induction false} OnePassWarranted(env: Env, loop: Step, iteration: nat, m: Machine)
    requires Counted(m.laps, m.row) && DistinctStep(loop) && Iteration(m.row, loop.id) == iteration && MayPass(env, loop, iteration, m.tick)
    ensures Warranted(env, m.laps, OnePass(env, loop, iteration, m).m.laps)
    decreases loop, 0, 0
  {
    hide Counted, Warranted, Nodes, PassStart, MayPass;
    var start := PassStart(loop, iteration, m);
    StartOfPass(loop, iteration, m);
    SameCounted(m, start);
    NodesWarranted(env, loop.body, start);
    var ran := Nodes(env, loop.body, start);
    if ran.signal == Finished {
      NodesCounted(env, loop.body, start);
      NodesEffect(env, loop.body, start);
      assert loop.id !in Ids(loop.body) && Framed(Ids(loop.body), start.row, ran.m.row);
      CountedSince(ran.m, loop.id);
      assert Justified(env, ran.m.laps, Passed(loop, m.tick));
      WarrantedLap(env, ran.m.laps, Passed(loop, m.tick));
      WarrantedThen(env, m.laps, ran.m.laps, ran.m.laps + [Passed(loop, m.tick)]);
    }
  }

  lemma {:induction false} CountedSince(m: Machine, id: StepId)
    requires Counted(m.laps, m.row)
    ensures Since(m.laps, id) == Iteration(m.row, id)
  {
  }

  lemma {:induction false} PassesWarranted(env: Env, loop: Step, iteration: nat, m: Machine)
    requires IsLoop(loop.kind) && Counted(m.laps, m.row) && DistinctStep(loop) && Iteration(m.row, loop.id) == iteration
    ensures Warranted(env, m.laps, Passes(env, loop, iteration, m).m.laps)
    decreases loop, 1, if iteration < loop.maxIterations then loop.maxIterations - iteration else 0
  {
    hide Counted, Warranted, DistinctStep, OnePass, Justified;
    if !GoesOn(env, loop, iteration, m) {
      LoopEndWarranted(env, loop, iteration, m);
      return;
    }
    hide Leave;
    assert MayPass(env, loop, iteration, m.tick);
    OnePassWarranted(env, loop, iteration, m);
    OnePassCounted(env, loop, iteration, m);
    var passed := OnePass(env, loop, iteration, m);
    if passed.signal != Finished { return; }
    if loop.kind == Repeat && iteration + 1 >= loop.repeatCount {
      CountedSince(passed.m, loop.id);
      RepeatMade(env, loop, passed.m.laps, m.tick);
      WarrantedLap(env, passed.m.laps, Left(loop, m.tick));
      LeavingLaps(passed.m, loop, m.tick);
      WarrantedThen(env, m.laps, passed.m.laps, passed.m.laps + [Left(loop, m.tick)]);
    } else {
      PassesWarranted(env, loop, iteration + 1, passed.m);
      WarrantedThen(env, m.laps, passed.m.laps, Passes(env, loop, iteration + 1, passed.m).m.laps);
    }
  }

  lemma {:induction false} LeavingLaps(m: Machine, loop: Step, asked: nat)
    ensures Leave(m, loop, asked).laps == m.laps + [Left(loop, asked)]
  {
  }

  lemma {:induction false} RepeatMade(env: Env, loop: Step, before: seq<Lap>, asked: nat)
    requires loop.kind == Repeat && Since(before, loop.id) >= loop.repeatCount
    ensures Justified(env, before, Left(loop, asked))
  {
  }

  lemma {:induction false} LoopEndWarranted(env: Env, loop: Step, iteration: nat, m: Machine)
    requires IsLoop(loop.kind) && Counted(m.laps, m.row) && Iteration(m.row, loop.id) == iteration && !GoesOn(env, loop, iteration, m)
    ensures Warranted(env, m.laps, LoopEnd(env, loop, iteration, m).m.laps)
  {
    CountedSince(m, loop.id);
    hide Counted, Warranted, Since;
    NoLap(env, m.laps);
    var out := LoopEnd(env, loop, iteration, m);
    if out.signal == Finished {
      assert Justified(env, m.laps, Left(loop, m.tick));
      WarrantedLap(env, m.laps, Left(loop, m.tick));
    }
  }

  /** The first pass finds the body as it was left, so that an interrupted one is resumed; every later pass finds it fresh. */
  lemma {:induction false} PassBegins(loop: Step, passes: nat, m: Machine, id: StepId)
    ensures var start := PassStart(loop, passes, m);
            && At(start.row, id) == (if passes > 0 && id in Ids(loop.body) then FRESH else At(m.row, id))
            && start.row.loops == m.row.loops && start.sent == m.sent && start.laps == m.laps && start.saved == m.saved
  {
  }

  /** A pass that was made is counted by one, in memory and on disk. */
  lemma {:induction false} PassIsSaved(env: Env, loop: Step, iteration: nat, m: Machine)
    ensures var out := OnePass(env, loop, iteration, m);
            out.signal == Finished ==> out.m.saved == out.m.row && Iteration(out.m.saved, loop.id) == iteration + 1
  {
    hide Nodes;
  }

  // ----- actions -----

  /** Before anything is sent: an action whose effect the state shows is DONE, and one whose arguments do not resolve is
      BLOCKED. */
  lemma {:induction false} ActionBegins(env: Env, step: Step, m: Machine)
    ensures var out, t := ActionStep(env, step, m), m.tick;
            var shown := step.tool.stateProvable && env.holds(t);
            && (shown ==> out.signal == Finished && out.m.sent == m.sent && At(out.m.row, step.id) == At(m.row, step.id).(status := Done))
            && (!shown && !env.holds(t + 1) ==>
                  out.signal == Stopped(Blocked) && out.m.sent == m.sent && At(out.m.row, step.id) == At(m.row, step.id).(status := Blocked))
            && (!shown && env.holds(t + 1) ==> out == Attempts(env, step, {}, m.(tick := t + 2)))
  {
    hide Attempts;
  }

  /** The reply at this moment makes the step done: a verified success, or a failure the state belies. */
  ghost predicate Earns(env: Env, step: Step, t: nat)
  {
    || env.reply(t) == Succeeded(true)
    || (step.tool.stateProvable && env.reply(t).FailedReply? && env.reply(t).proven)
  }

  /** An action that ends well was done by the state before anything was sent, or by the reply that came last; in the latter
      case that is on disk. */
  lemma {:induction false} DoneIsEarned(env: Env, step: Step, m: Machine)
    ensures var out := ActionStep(env, step, m);
            out.signal == Finished ==>
              || (step.tool.stateProvable && env.holds(m.tick) && out.m.sent == m.sent)
              || (m.tick + 4 <= out.m.tick && env.holds(m.tick + 1) && Earns(env, step, out.m.tick - 2) && |out.m.sent| > |m.sent|
                  && out.m.saved == out.m.row)
  {
    hide Attempts;
    AttemptsEarn(env, step, {}, m.(tick := m.tick + 2));
  }

  /** Ended well by the last reply, saved, with something sent since m. */
  ghost predicate EndsEarned(env: Env, step: Step, m: Machine, out: Out)
  {
    out.signal == Finished ==>
      m.tick + 2 <= out.m.tick && Earns(env, step, out.m.tick - 2) && |out.m.sent| > |m.sent| && out.m.saved == out.m.row
  }

  lemma {:induction false} AttemptsEarn(env: Env, step: Step, seen: set<Code>, m: Machine)
    ensures EndsEarned(env, step, m, Attempts(env, step, seen, m))
    decreases AttemptsLeft(step, At(m.row, step.id).retries)
  {
    hide Answer, Failure, EndsEarned, SentOff;
    var out, sent := Attempts(env, step, seen, m), SentOff(env, step, m);
    if At(m.row, step.id).retries > step.maxRetries || env.interrupt(m.tick).Some? || env.dies(m.tick + 1) {
      NotFinished(env, step, m, out);
      return;
    }
    SentOffLater(env, step, m);
    AttemptUnfolds(env, step, seen, m);
    hide Attempts;
    AnswerEarns(env, step, sent);
    var answer := Answer(env, step, sent);
    if answer.Over? { EarnedSince(env, step, m, sent, out); return; }
    FailureEarns(env, step, seen, answer.code, answer.m);
    var failure := Failure(env, step, seen, answer.code, answer.m);
    if failure.Over? { NotFinished(env, step, m, out); return; }
    AttemptsEarn(env, step, seen + {answer.code}, failure.m);
    EarnedLater(env, step, m, failure.m, out);
  }

  lemma {:induction false} SentOffLater(env: Env, step: Step, m: Machine)
    ensures var sent := SentOff(env, step, m);
            |sent.sent| == |m.sent| + 1 && m.tick <= sent.tick && At(sent.row, step.id).retries == At(m.row, step.id).retries
  {
  }

  lemma {:induction false} AttemptUnfolds(env: Env, step: Step, seen: set<Code>, m: Machine)
    requires At(m.row, step.id).retries <= step.maxRetries && env.interrupt(m.tick).None? && !env.dies(m.tick + 1)
    ensures var answer := Answer(env, step, SentOff(env, step, m));
            Attempts(env, step, seen, m) ==
              if answer.Over? then answer.out else
              var failure := Failure(env, step, seen, answer.code, answer.m);
              if failure.Over? then failure.out else Attempts(env, step, seen + {answer.code}, failure.m)
  {
    hide Answer, Failure;
  }

  lemma {:induction false} NotFinished(env: Env, step: Step, m: Machine, out: Out)
    requires out.signal != Finished
    ensures EndsEarned(env, step, m, out)
  {
  }

  lemma {:induction false} EarnedLater(env: Env, step: Step, m: Machine, m': Machine, out: Out)
    requires m.tick <= m'.tick && |m.sent| <= |m'.sent| && EndsEarned(env, step, m', out)
    ensures EndsEarned(env, step, m, out)
  {
  }

  lemma {:induction false} EarnedSince(env: Env, step: Step, m: Machine, m': Machine, out: Out)
    requires m.tick <= m'.tick && |m.sent| < |m'.sent| <= |out.m.sent|
    requires out.signal == Finished ==> m'.tick + 2 <= out.m.tick && Earns(env, step, out.m.tick - 2) && out.m.saved == out.m.row
    ensures EndsEarned(env, step, m, out)
  {
  }

  lemma {:induction false} AnswerEarns(env: Env, step: Step, m: Machine)
    ensures var v := Answer(env, step, m);
            && MachineOf(v).sent == m.sent && (v.Again? ==> m.tick <= v.m.tick)
            && (v.Over? && v.out.signal == Finished ==> m.tick + 2 <= v.out.m.tick && Earns(env, step, v.out.m.tick - 2) && v.out.m.saved == v.out.m.row)
  {
    AnswerMeans(env, step, m);
    AnswerFacts(env, step, m);
    hide Answer, Earns;
  }

  lemma {:induction false} FailureEarns(env: Env, step: Step, seen: set<Code>, code: Code, m: Machine)
    ensures var v := Failure(env, step, seen, code, m);
            MachineOf(v).sent == m.sent && (v.Over? ==> v.out.signal != Finished) && (v.Again? ==> m.tick <= v.m.tick)
  {
    FailureFacts(env, step, seen, code, m);
    FailureLater(env, step, seen, code, m);
    hide Failure;
  }

  /** What a reply leads to, by the moment t at which it is read. */
  lemma {:induction false} AnswerMeans(env: Env, step: Step, m: Machine)
    ensures var v := Answer(env, step, m);
            var waited := Waited(env, m);
            var t := waited.m.tick;
            && m.tick <= t && (waited.signal == Crashed ==> v == Over(waited))
            && (waited.signal != Crashed ==>
                  && (v.Over? && v.out.signal == Finished ==> Earns(env, step, t) && v.out.m.tick == t + 2 && v.out.m.saved == v.out.m.row)
                  && (Earns(env, step, t) ==> v.Over? && (v.out.signal == Finished || v.out.signal == Crashed) && At(v.out.m.row, step.id).status == Done)
                  && (v.Over? && v.out.signal.Stopped? <==> env.reply(t) == PreemptedReply || env.reply(t).CancelledReply?)
                  && (env.reply(t) == PreemptedReply ==> v.out.signal == Stopped(Preempted) && At(v.out.m.row, step.id).status == Preempted)
                  && (env.reply(t).CancelledReply? ==>
                        && v.out.signal == Stopped(if env.reply(t).userPaused then Paused else Aborted)
                        && At(v.out.m.row, step.id).status == Cancelled)
                  && (v.Over? && v.out.signal == TaskCancelled <==> env.reply(t) == TaskCancel)
                  && (v.Again? <==> !Earns(env, step, t) && (env.reply(t).Succeeded? || env.reply(t).FailedReply? || env.reply(t).Raised?))
                  && (v.Again? ==> v.m.tick == t + 1 && v.code == if env.reply(t).FailedReply? then env.reply(t).code
                                                                  else if env.reply(t).Raised? then TRANSPORT_ERROR else POSTCONDITION_FAILED))
  {
    hide Waited;
    WaitedLater(env, m);
  }

  lemma {:induction false} WaitedLater(env: Env, m: Machine)
    ensures m.tick <= Waited(env, m).m.tick && (Waited(env, m).signal == Finished || Waited(env, m).signal == Crashed)
  {
  }

  lemma {:induction false} FailureLater(env: Env, step: Step, seen: set<Code>, code: Code, m: Machine)
    ensures Failure(env, step, seen, code, m).Again? ==> m.tick <= Failure(env, step, seen, code, m).m.tick
  {
  }

  /** What a failure leads to. Gone targets abort; a building short of material parks the plan where a child goal can be
      made; everything else costs a retry, and another attempt is made exactly when the code is a transient one met for the
      first time, retries are left, and the pause in between is neither cancelled nor the end of the process. */
  lemma {:induction false} RetriesAreEarned(env: Env, step: Step, seen: set<Code>, code: Code, m: Machine)
    ensures var v := Failure(env, step, seen, code, m);
            var parks := code == NoMaterial && step.tool.building && env.holds(m.tick);
            var retries := At(m.row, step.id).retries + 1;
            var allowed := code.Transient? && code !in seen && retries <= step.maxRetries;
            && (code == TargetGone ==> v.Over? && v.out.signal == Stopped(Aborted) && At(v.out.m.row, step.id).status == Aborted)
            && (parks ==> v.Over? && v.out.m.row.plan == Paused && v.out.m.saved.plan == Paused
                          && (v.out.signal == Crashed || (v.out.signal == Material && At(v.out.m.row, step.id).status == Paused)))
            && (v.Again? ==> allowed && v.code == code && At(v.m.row, step.id) == NodeState(Running, retries, None))
            && (code != TargetGone && !parks && !allowed ==>
                  && v.Over? && (v.out.signal == Crashed || v.out.signal == Stopped(Blocked))
                  && At(v.out.m.row, step.id) == NodeState(Failed, retries, None) && v.out.m.saved == v.out.m.row)
            && (allowed && v.Over? ==> v.out.signal == Crashed || (v.out.signal == TaskCancelled && env.cancelled(v.out.m.tick - 1)))
            && (allowed && !v.Over? ==> v.m.tick > 0 && !env.cancelled(v.m.tick - 1))
  {
    hide Waited;
    var counted := Put(Tick(m), step.id, NodeState(Running, At(m.row, step.id).retries + 1, None));
    WaitedLater(env, counted);
    RunningStays(env, counted, step.id);
  }

  lemma {:induction false} RunningStays(env: Env, m: Machine, id: StepId)
    requires At(m.row, id).status == Running
    ensures At(Waited(env, m).m.row, id) == At(m.row, id)
  {
  }

  // ----- decisions -----

  /** A decision keeps the plan, gives unstarted steps new arguments and drops their request ids, or replaces the plan and
      aborts all of it that is unfinished; the last two are on disk when the run goes on. */
  lemma {:induction false} DecisionMeans(env: Env, m: Machine, id: StepId)
    requires env.updates(m.tick) == {}
    ensures var out, decision := Adjusted(env, m), env.adjust(m.tick);
            var n, n' := At(m.row, id), At(out.m.row, id);
            && out.m.sent == m.sent && out.m.row.loops == m.row.loops
            && (decision == Keep ==> out.signal == Finished && out.m.row == m.row && out.m.saved == m.saved)
            && (decision == CancelAdjusting ==> out.signal == TaskCancelled && out.m.row == m.row && out.m.saved == m.saved)
            && (decision.Update? ==>
                  && (out.signal == Finished || out.signal == Crashed) && out.m.saved == out.m.row && out.m.row.plan == m.row.plan
                  && n' == if id in decision.ids && id in m.row.nodes && (n.status == Pending || n.status == Paused || n.status == NeedsRevalidation)
                           then NodeState(Pending, n.retries, None) else n)
            && (decision == Replace ==>
                  && (out.signal == Replaced || out.signal == Crashed) && out.m.saved == out.m.row && out.m.row.plan == Aborted
                  && n' == if id in m.row.nodes && (n.status == Pending || n.status == Paused || n.status == NeedsRevalidation || n.status == Running)
                           then n.(status := Aborted) else n)
  {
    assert Waited(env, m) == Out(Finished, m);
    hide Waited;
  }

  // ----- interruptions and ends -----

  /** Node and plan end alike, but for the time limit, which fails the node; only a pause by the user leaves the plan to be
      run again. */
  lemma {:induction false} InterruptionMeans(i: Interruption)
    ensures i == PlanTimeout <==> NodeStop(i) == Failed
    ensures i == PlanTimeout <==> PlanStop(i) == Timeout
    ensures i != PlanTimeout ==> NodeStop(i) == PlanStop(i)
    ensures i == UserPaused <==> PlanStop(i) == Paused
    ensures i == Reflex <==> PlanStop(i) == Preempted
    ensures i == WorldLost <==> PlanStop(i) == Aborted
  {
  }

  /** The turn of a node, before it runs: an interruption comes first and ends at the node, whatever its state; then a
      settled node is passed over; then unmet preconditions block it. Nothing is dispatched in any of these. */
  lemma {:induction false} TurnOfNode(env: Env, step: Step, m: Machine)
    requires !env.dies(m.tick) && !TurnComes(env, m, step.id)
    ensures var out, i := Node(env, step, m), env.interrupt(m.tick + 1);
            && out.m.sent == m.sent && out.m.laps == m.laps && out.m.saved == m.row
            && (forall d | d != step.id :: At(out.m.row, d) == At(m.row, d))
            && (i.Some? ==> out.signal == Stopped(PlanStop(i.value)) && At(out.m.row, step.id) == At(m.row, step.id).(status := NodeStop(i.value)))
            && (i.None? && IsSettled(m.row, step.id) ==> out.signal == Finished && out.m.row == m.row)
            && (i.None? && !IsSettled(m.row, step.id) ==> out.signal == Stopped(Blocked) && At(out.m.row, step.id) == At(m.row, step.id).(status := Blocked))
  {
    hide ByKind, Adjusted;
  }

  /** ABORT and PAUSE nodes stop the plan with their own status. */
  lemma {:induction false} StoppingNodes(env: Env, step: Step, m: Machine)
    requires (step.kind == Abort || step.kind == Pause) && TurnComes(env, m, step.id)
    ensures var out, status := Node(env, step, m), if step.kind == Abort then Aborted else Paused;
            && out.signal == Stopped(status) && out.m.sent == m.sent && At(out.m.row, step.id) == At(m.row, step.id).(status := status)
            && forall d | d != step.id :: At(out.m.row, d) == At(m.row, d)
  {
    TurnTaken(env, step, m);
    hide Node, Adjusted;
  }

  /** After an action that ended well the goal is looked at, and reaching it ends the list. */
  lemma {:induction false} GoalEndsTheList(env: Env, step: Step, m: Machine)
    requires step.kind == Action && TurnComes(env, m, step.id)
    ensures var acted, out := ActionStep(env, step, m.(saved := m.row, tick := m.tick + 3)), Node(env, step, m);
            && (acted.signal != Finished ==> out == acted)
            && (acted.signal == Finished && env.holds(acted.m.tick) ==> out == Out(GoalReached, Tick(acted.m)))
            && (acted.signal == Finished && !env.holds(acted.m.tick) ==> out == Adjusted(env, Tick(acted.m)))
  {
    TurnTaken(env, step, m);
    hide Node, Adjusted, ActionStep;
  }

  /** What is on disk and in memory when a run is over, unless the process died or the plan waits for material: the plan
      has the status its end calls for; a reached goal skips what is left, and a cancelled run pauses what was running. */
  lemma {:induction false} RunEndsAs(env: Env, steps: seq<Step>, m: Machine)
    requires !env.dies(m.tick)
    ensures var started := m.(row := m.row.(plan := Running), saved := m.row.(plan := Running), inFlight := None, tick := m.tick + 1);
            var ran, out := Nodes(env, steps, started), Execute(env, steps, m);
            && out.signal == ran.signal && out.m.sent == ran.m.sent
            && (ran.signal != Crashed && ran.signal != Material ==> out.m.saved == out.m.row && out.m.row.loops == ran.m.row.loops)
            && (ran.signal == Finished || ran.signal == GoalReached ==> out.m.row.plan == Done)
            && (ran.signal.Stopped? ==> out.m.row.plan == ran.signal.status)
            && (ran.signal == Replaced ==> out.m.row.plan == Aborted)
            && (ran.signal == TaskCancelled ==> out.m.row.plan == Paused)
            && (forall id | id in ran.m.row.nodes ::
                  var n, n' := ran.m.row.nodes[id], At(out.m.row, id);
                  if ran.signal == GoalReached && (n.status == Pending || n.status == Paused || n.status == NeedsRevalidation)
                  then n' == n.(status := Skipped)
                  else if ran.signal == TaskCancelled && n.status == Running then n' == n.(status := Paused)
                  else n' == n)
  {
    hide Nodes;
  }
}
