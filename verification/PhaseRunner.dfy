/** A claimed research cycle: budget checkpoints and the five harness phases, over suspends and resumes. */
module PhaseRunner {
  import opened Options
  import opened TokenBudget

  const THRESHOLDS: seq<int> := [50, 75, 85, 95]

  datatype HarnessPhase = Research | Design | Development | BuildFix | Finalize

  const PHASES: seq<HarnessPhase> := [Research, Design, Development, BuildFix, Finalize]

  datatype Decision = Continue | Shrink | Finish | Fail

  datatype Review = Review(decision: Decision, stillValuable: bool, canFormResult: bool)

  /** Anything awaited may finish, be cancelled by a stop, or break; tokens are spent in every case. */
  datatype Awaited<T> = Finished(value: T, tokens: nat) | Cancelled(tokens: nat) | Broke(tokens: nat)

  datatype Stop = NotValuable | NoUsableResult | BudgetClosed

  datatype Applied = Applied(forceClose: bool, stop: Option<Stop>) | Interrupted(cancelled: bool)

  datatype Outcome = Completed | StageCompleted | Failed | Suspended

  datatype Flow = Go | Break | Return(outcome: Outcome)

  /** A phase handed to the harness, the usage known and the reviews made at that moment, and whether it succeeded. */
  datatype Dispatch = Dispatch(phase: HarnessPhase, used: nat, reviewed: nat, ok: bool)

  /** A review at 50% or 75%: the usage at that moment, whether the model was asked, and what came of it. */
  datatype Assessment = Assessment(threshold: int, used: nat, asked: bool, review: Review)

  /** The model is asked while less than 85% is used and there is one; otherwise the work is cut down, to be finished from
      75% on, and judged to have a result in it below 95%. */
  ghost predicate Fair(a: Assessment, reassess: Option<int -> Awaited<Review>>, budget: nat)
  {
    && (a.threshold == 50 || a.threshold == 75)
    && (a.asked <==> reassess.Some? && 100 * a.used < 85 * budget)
    && (a.asked ==> reassess.value(a.threshold).Finished? && a.review == reassess.value(a.threshold).value)
    && (!a.asked ==> a.review.stillValuable && a.review.decision == (if a.threshold == 50 then Shrink else Finish)
                     && (a.review.canFormResult <==> 100 * a.used < 95 * budget))
  }

  predicate Worthwhile(a: Assessment)
  {
    a.review.stillValuable && a.review.decision != Fail && (a.threshold == 75 ==> a.review.canFormResult)
  }

  /** All reviews but perhaps the last let the work go on. */
  ghost predicate GoneOn(before: seq<Assessment>, reviews: seq<Assessment>)
  {
    before <= reviews && forall k | |before| <= k < |reviews| - 1 :: Worthwhile(reviews[k])
  }

  /** Each of the two thresholds recorded since has its review. */
  ghost predicate Assessed(before: seq<int>, triggered: seq<int>, reviews: seq<Assessment>, from: nat)
  {
    forall t | (t == 50 || t == 75) && t in triggered && t !in before :: exists k :: from <= k < |reviews| && reviews[k].threshold == t
  }

  /** The recorded thresholds are the first ones, in order, and each was really reached. */
  ghost predicate Recorded(triggered: seq<int>, used: nat, budget: nat)
  {
    |triggered| <= 4 && triggered == THRESHOLDS[..|triggered|] && forall t | t in triggered :: Reaches(used, budget, t)
  }

  /** Completed phases are the first ones, in order; after a forced close, FINALIZE alone may follow. */
  ghost predicate InOrder(completed: seq<HarnessPhase>, used: nat, budget: nat)
  {
    || (|completed| <= 5 && completed == PHASES[..|completed|])
    || (0 < |completed| <= 4 && completed == PHASES[..|completed| - 1] + [Finalize] && Reaches(used, budget, 95))
  }

  /** A phase that succeeded is never handed over again. */
  ghost predicate NoRework(log: seq<Dispatch>, completed: seq<HarnessPhase>)
  {
    && (forall i, j | 0 <= i < j < |log| && log[i].ok :: log[i].phase != log[j].phase)
    && (forall i | 0 <= i < |log| && log[i].ok :: log[i].phase in completed)
  }

  /** Under a forced close nothing but FINALIZE is handed over. */
  ghost predicate ClosedProperly(log: seq<Dispatch>, budget: nat)
  {
    forall d | d in log :: d.phase == Finalize || !Reaches(d.used, budget, 95)
  }

  lemma {:induction false} ReachedStays(used: nat, more: nat, budget: nat, triggered: seq<int>, completed: seq<HarnessPhase>)
    requires Recorded(triggered, used, budget) && InOrder(completed, used, budget) && used <= more
    ensures Recorded(triggered, more, budget) && InOrder(completed, more, budget)
  {
  }

  /** Every threshold before the i-th that has been reached is recorded. */
  ghost predicate UpTo(i: nat, triggered: seq<int>, used: nat, budget: nat)
  {
    i <= 4 && forall k | 0 <= k < i && Reaches(used, budget, THRESHOLDS[k]) :: k < |triggered|
  }

  /** A threshold that is due is the next one to record. */
  lemma {:induction false} DueIsNext(i: nat, triggered: seq<int>, used: nat, budget: nat)
    requires i < 4 && Recorded(triggered, used, budget) && UpTo(i, triggered, used, budget)
    ensures THRESHOLDS[i] in triggered <==> i < |triggered|
    ensures Reaches(used, budget, THRESHOLDS[i]) && THRESHOLDS[i] !in triggered ==>
              && |triggered| == i && Recorded(triggered + [THRESHOLDS[i]], used, budget)
              && UpTo(i + 1, triggered + [THRESHOLDS[i]], used, budget)
    ensures !Reaches(used, budget, THRESHOLDS[i]) || THRESHOLDS[i] in triggered ==> UpTo(i + 1, triggered, used, budget)
  {
    var n := |triggered|;
    assert n < i && Reaches(used, budget, THRESHOLDS[i]) ==> Reaches(used, budget, THRESHOLDS[n]);
    if |triggered| == i { assert triggered + [THRESHOLDS[i]] == THRESHOLDS[..i + 1]; }
  }

  /** Usage that grows after a threshold was recorded leaves everything before it recorded. */
  lemma {:induction false} GrowthKeepsUpTo(triggered: seq<int>, used: nat, more: nat, budget: nat)
    requires Recorded(triggered, used, budget)
    ensures UpTo(|triggered|, triggered, more, budget)
  {
  }

  lemma {:induction false} Beginning(triggered: seq<int>, used: nat, budget: nat)
    ensures UpTo(0, triggered, used, budget)
  {
  }

  lemma {:induction false} AllUpTo(triggered: seq<int>, used: nat, budget: nat)
    requires Recorded(triggered, used, budget) && UpTo(4, triggered, used, budget)
    ensures forall t | t in THRESHOLDS && Reaches(used, budget, t) :: t in triggered
  {
  }

  /** The work is stopped exactly by a last review that ends it, for the reason that review gives, or by the budget. */
  ghost predicate StopFits(stop: Option<Stop>, before: seq<Assessment>, reviews: seq<Assessment>)
    requires before <= reviews
  {
    var judged := |reviews| > |before|;
    && (stop == Some(NotValuable) <==> judged && (!reviews[|reviews| - 1].review.stillValuable || reviews[|reviews| - 1].review.decision == Fail))
    && (stop == Some(NoUsableResult) ==> judged && reviews[|reviews| - 1].threshold == 75 && !reviews[|reviews| - 1].review.canFormResult)
    && (stop.None? || stop == Some(BudgetClosed) ==> judged ==> Worthwhile(reviews[|reviews| - 1]))
  }

  /** A review that was asked for did not come back. */
  ghost predicate InterruptFits(cancelled: bool, reassess: Option<int -> Awaited<Review>>)
  {
    reassess.Some? && exists t: int :: !reassess.value(t).Finished? && (cancelled <==> reassess.value(t).Cancelled?)
  }

  /** These reviews let the work go on. */
  ghost predicate AllWorthwhile(reviews: seq<Assessment>, from: nat, to: nat)
  {
    forall k | from <= k < to && k < |reviews| :: Worthwhile(reviews[k])
  }

  lemma {:induction false} NothingReviewed(reviews: seq<Assessment>)
    ensures AllWorthwhile(reviews, |reviews|, |reviews|)
  {
  }

  lemma {:induction false} WentOn(stop: Option<Stop>, before: seq<Assessment>, reviews: seq<Assessment>)
    requires GoneOn(before, reviews) && StopFits(stop, before, reviews) && (stop.None? || stop == Some(BudgetClosed))
    ensures AllWorthwhile(reviews, |before|, |reviews|)
  {
  }

  lemma {:induction false} StillWorthwhile(before: seq<Assessment>, midway: seq<Assessment>, reviews: seq<Assessment>)
    requires before <= midway <= reviews && AllWorthwhile(midway, |before|, |midway|)
    ensures AllWorthwhile(reviews, |before|, |midway|)
  {
  }

  lemma {:induction false} BothWorthwhile(before: seq<Assessment>, midway: seq<Assessment>, reviews: seq<Assessment>)
    requires before <= midway <= reviews && AllWorthwhile(reviews, |before|, |midway|) && AllWorthwhile(reviews, |midway|, |reviews|)
    ensures AllWorthwhile(reviews, |before|, |reviews|)
  {
  }

  lemma {:induction false} NoneAssessed(triggered: seq<int>, reviews: seq<Assessment>)
    ensures Assessed(triggered, triggered, reviews, |reviews|)
  {
  }

  lemma {:induction false} OtherRecorded(before: seq<int>, triggered: seq<int>, reviews: seq<Assessment>, from: nat)
    requires triggered != [] && triggered[|triggered| - 1] != 50 && triggered[|triggered| - 1] != 75
    requires Assessed(before, triggered[..|triggered| - 1], reviews, from)
    ensures Assessed(before, triggered, reviews, from)
  {
  }

  lemma {:induction false} AssessedOne(before: seq<int>, triggered: seq<int>, reviews: seq<Assessment>, from: nat, a: Assessment)
    requires triggered != [] && triggered[|triggered| - 1] == a.threshold && from <= |reviews|
    requires Assessed(before, triggered[..|triggered| - 1], reviews, from)
    ensures Assessed(before, triggered, reviews + [a], from)
  {
    var all := reviews + [a];
    forall t | (t == 50 || t == 75) && t in triggered && t !in before ensures exists k :: from <= k < |all| && all[k].threshold == t {
      if t == a.threshold {
        assert all[|reviews|].threshold == t;
      } else {
        var k :| from <= k < |reviews| && reviews[k].threshold == t;
        assert all[k] == reviews[k];
      }
    }
  }

  lemma {:induction false} StopsHere(stop: Option<Stop>, before: seq<Assessment>, were: seq<Assessment>, reviews: seq<Assessment>)
    requires before <= were <= reviews && stop.Some? && stop != Some(BudgetClosed) && StopFits(stop, were, reviews)
    ensures StopFits(stop, before, reviews)
  {
    assert stop.value == NotValuable || stop.value == NoUsableResult;
    assert |before| <= |were| < |reviews|;
    assert before <= reviews;
  }

  lemma {:induction false} GoesOnOrCloses(stop: Option<Stop>, before: seq<Assessment>, reviews: seq<Assessment>)
    requires before <= reviews && (stop.None? || stop == Some(BudgetClosed))
    requires forall k | |before| <= k < |reviews| :: Worthwhile(reviews[k])
    ensures StopFits(stop, before, reviews)
  {
  }

  /** A review that stops the work is one that ended it. */
  lemma {:induction false} StopEnds(stop: Option<Stop>, before: seq<Assessment>, reviews: seq<Assessment>, was: seq<Assessment>,
                                    log: seq<Dispatch>, log': seq<Dispatch>)
    requires was <= before <= reviews && StopFits(stop, before, reviews) && stop.Some? && stop != Some(BudgetClosed)
    ensures Ended(log, log', was, reviews)
  {
    assert stop.value == NotValuable || stop.value == NoUsableResult;
    assert |was| <= |before| < |reviews| && !Worthwhile(reviews[|reviews| - 1]);
  }

  class CycleRun {
    const budget: nat
    var used: nat
    var triggered: seq<int>
    var completed: seq<HarnessPhase>
    var reviews: seq<Assessment>
    ghost var log: seq<Dispatch>

    constructor (budget: nat)
      requires budget >= 1
      ensures Valid() && this.budget == budget && used == 0 && triggered == [] && completed == [] && log == [] && reviews == []
    {
      this.budget := budget;
      used, triggered, completed, reviews, log := 0, [], [], [], [];
    }

    ghost predicate Valid()
      reads this
    {
      && budget >= 1
      && Recorded(triggered, used, budget) && InOrder(completed, used, budget)
      && NoRework(log, completed) && ClosedProperly(log, budget)
    }

    /** Every threshold that usage has reached is recorded. */
    ghost predicate UpToDate()
      reads this
    {
      && (100 * used >= 50 * budget ==> 50 in triggered) && (100 * used >= 75 * budget ==> 75 in triggered)
      && (100 * used >= 85 * budget ==> 85 in triggered) && (100 * used >= 95 * budget ==> 95 in triggered)
    }

    method Spend(tokens: nat)
      requires Valid()
      modifies this`used
      ensures Valid() && used == old(used) + tokens
    {
      ReachedStays(used, used + tokens, budget, triggered, completed);
      used := used + tokens;
    }

    /** The review at a threshold just recorded; usage grows only when the model is asked. */
    method Assess(threshold: int, reassess: Option<int -> Awaited<Review>>) returns (ended: Option<Applied>)
      requires Valid() && (threshold == 50 || threshold == 75) && threshold in triggered
      modifies this`used, this`reviews
      ensures Valid() && old(used) <= used && UpTo(|triggered|, triggered, used, budget)
      ensures if ended.Some? && ended.value.Interrupted? then reviews == old(reviews) && InterruptFits(ended.value.cancelled, reassess)
              else |reviews| == |old(reviews)| + 1 && reviews[..|old(reviews)|] == old(reviews)
                   && reviews[|old(reviews)|].threshold == threshold && Fair(reviews[|old(reviews)|], reassess, budget)
      ensures ended.None? ==> Worthwhile(reviews[|old(reviews)|])
      ensures ended.Some? && ended.value.Applied? ==>
                && ended.value.stop.Some? && ended.value.stop != Some(BudgetClosed) && ended.value.forceClose == Reaches(used, budget, 95)
                && StopFits(ended.value.stop, old(reviews), reviews)
    {
      hide Recorded, InOrder, NoRework, ClosedProperly, UpTo;
      var moment := used;
      var review := Review(if threshold == 75 then Finish else Shrink, true, !Reaches(used, budget, 95));
      var asked := !Reaches(used, budget, 85) && reassess.Some?;
      GrowthKeepsUpTo(triggered, used, used, budget);
      if asked {
        var answer := reassess.value(threshold);
        GrowthKeepsUpTo(triggered, used, used + answer.tokens, budget);
        Spend(answer.tokens);
        if !answer.Finished? { return Some(Interrupted(answer.Cancelled?)); }
        review := answer.value;
      }
      reviews := reviews + [Assessment(threshold, moment, asked, review)];
      if !review.stillValuable || review.decision == Fail {
        return Some(Applied(Reaches(used, budget, 95), Some(NotValuable)));
      }
      if threshold == 75 && !review.canFormResult {
        return Some(Applied(Reaches(used, budget, 95), Some(NoUsableResult)));
      }
      return None;
    }

    /** `_apply_due_checkpoints`. A threshold is recorded before its review. */
    method ApplyDueCheckpoints(reassess: Option<int -> Awaited<Review>>) returns (r: Applied)
      requires Valid()
      modifies this`used, this`triggered, this`reviews
      ensures Valid() && old(used) <= used && old(triggered) <= triggered && GoneOn(old(reviews), reviews)
      ensures forall k | |old(reviews)| <= k < |reviews| :: Fair(reviews[k], reassess, budget)
      ensures r.Applied? ==> (r.forceClose <==> Reaches(used, budget, 95)) && Assessed(old(triggered), triggered, reviews, |old(reviews)|)
      ensures r.Applied? && r.stop.None? ==> UpToDate()
      ensures r.Applied? && r.stop == Some(BudgetClosed) ==> 95 in triggered && 95 !in old(triggered) && r.forceClose
      ensures r.Applied? && 95 in triggered && 95 !in old(triggered) ==> r.stop == Some(BudgetClosed)
      ensures r.Applied? ==> StopFits(r.stop, old(reviews), reviews)
      ensures r.Interrupted? ==> InterruptFits(r.cancelled, reassess)
    {
      hide Recorded, InOrder, NoRework, ClosedProperly, UpTo, Assessed, Worthwhile, StopFits, InterruptFits, Fair;
      Beginning(triggered, used, budget);
      NoneAssessed(triggered, reviews);
      for i := 0 to 4
        invariant Valid() && old(used) <= used && old(triggered) <= triggered && old(reviews) <= reviews
        invariant UpTo(i, triggered, used, budget)
        invariant 95 in triggered ==> 95 in old(triggered)
        invariant forall k | |old(reviews)| <= k < |reviews| :: Fair(reviews[k], reassess, budget) && Worthwhile(reviews[k])
        invariant Assessed(old(triggered), triggered, reviews, |old(reviews)|)
      {
        ghost var were := reviews;
        var ended := ApplyOne(i, reassess, old(triggered), |old(reviews)|);
        if ended.Some? {
          if ended.value.Applied? {
            if ended.value.stop == Some(BudgetClosed) { GoesOnOrCloses(ended.value.stop, old(reviews), reviews); }
            else { StopsHere(ended.value.stop, old(reviews), were, reviews); }
          }
          return ended.value;
        }
      }
      AllUpTo(triggered, used, budget);
      GoesOnOrCloses(None, old(reviews), reviews);
      return Applied(Reaches(used, budget, 95), None);
    }

    /** A threshold that has been reached and is not recorded yet is recorded. */
    method RecordThreshold(i: nat) returns (due: bool, threshold: int)
      requires i < 4 && Valid() && UpTo(i, triggered, used, budget)
      modifies this`triggered
      ensures Valid() && threshold == THRESHOLDS[i] && UpTo(i + 1, triggered, used, budget)
      ensures due <==> Reaches(used, budget, threshold) && threshold !in old(triggered)
      ensures if due then triggered != [] && triggered[..|triggered| - 1] == old(triggered) && triggered[|triggered| - 1] == threshold
              else triggered == old(triggered)
      ensures due ==> |triggered| == i + 1 && forall t | t != threshold :: t in triggered <==> t in old(triggered)
    {
      hide Recorded, InOrder, NoRework, ClosedProperly, UpTo;
      threshold := THRESHOLDS[i];
      DueIsNext(i, triggered, used, budget);
      due := Reaches(used, budget, threshold) && threshold !in triggered;
      if due { triggered := triggered + [threshold]; }
    }

    /** One threshold: nothing, unless it has been reached and is not recorded yet. */
    method ApplyOne(i: nat, reassess: Option<int -> Awaited<Review>>, ghost before: seq<int>, ghost from: nat) returns (ended: Option<Applied>)
      requires i < 4 && Valid() && UpTo(i, triggered, used, budget) && from <= |reviews| && Assessed(before, triggered, reviews, from)
      modifies this`used, this`triggered, this`reviews
      ensures Valid() && old(used) <= used && old(triggered) <= triggered && old(reviews) <= reviews
      ensures |reviews| <= |old(reviews)| + 1 && forall k | |old(reviews)| <= k < |reviews| :: Fair(reviews[k], reassess, budget)
      ensures 95 in triggered && 95 !in old(triggered) <==> ended.Some? && ended.value.Applied? && ended.value.stop == Some(BudgetClosed)
      ensures ended.None? ==> UpTo(i + 1, triggered, used, budget) && forall k | |old(reviews)| <= k < |reviews| :: Worthwhile(reviews[k])
      ensures ended.None? || ended.value.Applied? ==> Assessed(before, triggered, reviews, from)
      ensures ended.Some? && ended.value.Interrupted? ==> InterruptFits(ended.value.cancelled, reassess)
      ensures ended.Some? && ended.value.Applied? ==>
                && ended.value.stop.Some? && ended.value.forceClose == Reaches(used, budget, 95)
                && if ended.value.stop == Some(BudgetClosed) then ended.value.forceClose && reviews == old(reviews)
                   else StopFits(ended.value.stop, old(reviews), reviews)
    {
      hide Recorded, InOrder, NoRework, ClosedProperly, UpTo, Assessed, Worthwhile, StopFits, InterruptFits, Fair;
      ghost var were := reviews;
      var due, threshold := RecordThreshold(i);
      if !due { return None; }
      if threshold == 50 || threshold == 75 {
        ended := Assess(threshold, reassess);
        if ended.None? || ended.value.Applied? {
          AssessedOne(before, triggered, were, from, reviews[|were|]);
          assert reviews == were + [reviews[|were|]];
        }
        return ended;
      }
      OtherRecorded(before, triggered, reviews, from);
      return if threshold == 95 then Some(Applied(true, Some(BudgetClosed))) else None;
    }

    /** One pass of the phase loop. */
    method RunPhase(i: nat, harness: HarnessPhase -> Awaited<bool>, reassess: Option<(int, int) -> Awaited<Review>>)
      returns (flow: Flow, forced: bool)
      requires i < 5 && Valid() && (Reaches(used, budget, 95) || forall k | 0 <= k < i :: PHASES[k] in completed)
      modifies this
      ensures Grown()
      ensures PHASES[i] in old(completed) ==> flow == Go && !forced && used == old(used) && completed == old(completed) && log == old(log)
      ensures forced ==> Reaches(used, budget, 95)
      ensures flow.Return? ==> flow.outcome == Suspended || flow.outcome == Failed
      ensures flow == Go && (!forced || i == 4) ==> PHASES[i] in completed
      ensures log == old(log) || (|log| == |old(log)| + 1 && log[|log| - 1].phase == PHASES[i])
      ensures completed == old(completed) || (completed == old(completed) + [PHASES[i]] && |log| > |old(log)| && log[|log| - 1].ok)
      ensures log != old(log) && log[|log| - 1].ok ==> harness(PHASES[i]).Finished? && harness(PHASES[i]).value
      ensures flow == Break ==> Ended(old(log), log, old(reviews), reviews)
      ensures flow == Return(Suspended) ==> Cancels(harness, reassess)
      ensures flow == Return(Failed) ==> Breaks(harness, reassess)
      ensures flow == Go && PHASES[i] !in old(completed) ==> (forced <==> Reaches(used, budget, 95))
      // a review that ends the work ends it there and then, unless the budget already forces it to a close
      ensures log != old(log) ==> AllWorthwhile(reviews, |old(reviews)|, log[|log| - 1].reviewed) || Reaches(log[|log| - 1].used, budget, 95)
      ensures flow == Go ==> AllWorthwhile(reviews, |old(reviews)|, |reviews|) || Reaches(used, budget, 95)
    {
      hide Recorded, InOrder, NoRework, ClosedProperly, StopFits, Fair, Assessed, AllWorthwhile, Worthwhile, Ended, Cancels, Breaks, InterruptFits;
      ghost var log0, reviews0 := log, reviews;
      var phase := PHASES[i];
      if phase in completed {
        NothingReviewed(reviews);
        return Go, false;
      }
      var review := if reassess.Some? then Some(t => reassess.value(2 * i, t)) else None;
      var before := ApplyDueCheckpoints(review);
      if before.Interrupted? {
        ReviewLost(before.cancelled, review, 2 * i, harness, reassess);
        return Return(if before.cancelled then Suspended else Failed), false;
      }
      if before.forceClose && phase != Finalize { return Go, true; }
      if before.stop.Some? && !before.forceClose {
        StopEnds(before.stop, reviews0, reviews, reviews0, log0, log);
        return Break, false;
      }
      if before.stop.None? || before.stop == Some(BudgetClosed) { WentOn(before.stop, reviews0, reviews); }
      ghost var midway := reviews;
      flow := HandPhaseOver(i, harness, reassess);
      if flow != Go {
        if flow == Break { EndedLater(log0, log0, log, reviews0, reviews, reviews); }
        return flow, false;
      }
      flow, forced := CheckAfter(i, harness, reassess);
      if before.stop.None? || before.stop == Some(BudgetClosed) {
        StillWorthwhile(reviews0, midway, reviews);
        if flow == Go && AllWorthwhile(reviews, |midway|, |reviews|) { BothWorthwhile(reviews0, midway, reviews); }
      }
      if flow == Break { EndedLater(log0, log, log, reviews0, midway, reviews); }
    }

    /** The checkpoints that have come due in a phase that succeeded. */
    method CheckAfter(i: nat, harness: HarnessPhase -> Awaited<bool>, reassess: Option<(int, int) -> Awaited<Review>>)
      returns (flow: Flow, forced: bool)
      requires Valid()
      modifies this`used, this`triggered, this`reviews
      ensures Valid() && old(used) <= used && old(triggered) <= triggered && old(reviews) <= reviews
      ensures flow.Return? ==> flow.outcome == Suspended || flow.outcome == Failed
      ensures forced ==> Reaches(used, budget, 95)
      ensures flow == Go ==> (forced <==> Reaches(used, budget, 95))
      ensures flow == Go ==> AllWorthwhile(reviews, |old(reviews)|, |reviews|) || Reaches(used, budget, 95)
      ensures flow == Break ==> Ended(log, log, old(reviews), reviews)
      ensures flow == Return(Suspended) ==> Cancels(harness, reassess)
      ensures flow == Return(Failed) ==> Breaks(harness, reassess)
    {
      hide Recorded, InOrder, NoRework, ClosedProperly, StopFits, Fair, Assessed, AllWorthwhile, Worthwhile, Ended, Cancels, Breaks, InterruptFits;
      ghost var reviews0 := reviews;
      var review := if reassess.Some? then Some(t => reassess.value(2 * i + 1, t)) else None;
      var after := ApplyDueCheckpoints(review);
      if after.Interrupted? {
        ReviewLost(after.cancelled, review, 2 * i + 1, harness, reassess);
        return Return(if after.cancelled then Suspended else Failed), false;
      }
      if after.forceClose { return Go, true; }
      if after.stop.Some? {
        StopEnds(after.stop, reviews0, reviews, reviews0, log, log);
        return Break, false;
      }
      WentOn(after.stop, reviews0, reviews);
      return Go, false;
    }

    /** The phase goes to the harness. */
    method HandPhaseOver(i: nat, harness: HarnessPhase -> Awaited<bool>, reassess: Option<(int, int) -> Awaited<Review>>) returns (flow: Flow)
      requires i < 5 && Valid() && (Reaches(used, budget, 95) || forall k | 0 <= k < i :: PHASES[k] in completed)
      requires PHASES[i] !in completed && (PHASES[i] == Finalize || !Reaches(used, budget, 95))
      modifies this`used, this`log, this`completed
      ensures Valid() && old(used) <= used && |log| == |old(log)| + 1 && old(log) <= log && log[|log| - 1].phase == PHASES[i]
      ensures log[|log| - 1].used == old(used) && log[|log| - 1].reviewed == |reviews|
      ensures log[|log| - 1].ok <==> harness(PHASES[i]).Finished? && harness(PHASES[i]).value
      ensures completed == old(completed) + if log[|log| - 1].ok then [PHASES[i]] else []
      ensures flow == Go <==> log[|log| - 1].ok
      ensures flow == Break ==> Ended(old(log), log, reviews, reviews)
      ensures flow.Return? ==> flow.outcome == Suspended || flow.outcome == Failed
      ensures flow == Return(Suspended) ==> Cancels(harness, reassess)
      ensures flow == Return(Failed) ==> Breaks(harness, reassess)
    {
      hide Recorded, InOrder, NoRework, ClosedProperly, Ended, Cancels, Breaks;
      ghost var log0 := log;
      var phase := PHASES[i];
      var dispatchedAt := used;
      var reply := harness(phase);
      var ok := reply.Finished? && reply.value;
      HandOver(completed, log, i, used, |reviews|, used + reply.tokens, budget, ok);
      Spend(reply.tokens);
      log := log + [Dispatch(phase, dispatchedAt, |reviews|, ok)];
      if !reply.Finished? {
        PhaseLost(phase, harness, reassess);
        return Return(if reply.Cancelled? then Suspended else Failed);
      }
      if !reply.value {
        PhaseFailed(log0, log, reviews, reviews);
        return Break;
      }
      completed := completed + [phase];
      return Go;
    }

    /** Nothing that was recorded or completed is lost. */
    twostate predicate Grown()
      reads this
    {
      && Valid() && old(used) <= used && old(triggered) <= triggered && old(completed) <= completed && old(log) <= log
      && old(reviews) <= reviews
    }

    /** The phase loop and the verdict on the whole cycle. `harness` answers for each phase, `validatorOk` is the
        final validator, `stageIntended` the plan's own aim. */
    method RunPhases(harness: HarnessPhase -> Awaited<bool>, reassess: Option<(int, int) -> Awaited<Review>>,
                     validatorOk: bool, stageIntended: bool) returns (r: Outcome)
      requires Valid()
      modifies this
      ensures Grown()
      ensures r == Completed ==> completed == [Research, Design, Development, BuildFix, Finalize] && validatorOk && !stageIntended
      ensures r == Completed && Finalize !in old(completed) ==>
                100 * used < 95 * budget && AllWorthwhile(reviews, |old(reviews)|, |reviews|)
      ensures r == Suspended ==> Cancels(harness, reassess)
      ensures r == Failed ==> !validatorOk || Ended(old(log), log, old(reviews), reviews) || Breaks(harness, reassess)
      ensures r == StageCompleted ==> Finalize in completed && validatorOk && (stageIntended || Reaches(used, budget, 95))
      ensures old(completed) == PHASES ==>
                log == old(log) && r == if !validatorOk then Failed else if stageIntended then StageCompleted else Completed
    {
      hide Recorded, InOrder, NoRework, ClosedProperly, Ended, Cancels, Breaks, AllWorthwhile, Worthwhile;
      var forceClosed, allOk := false, true;
      NothingReviewed(reviews);
      for i := 0 to 5
        invariant Grown() && allOk
        invariant !forceClosed ==> forall k | 0 <= k < i :: PHASES[k] in completed
        invariant i == 5 ==> PHASES[4] in completed
        invariant forceClosed ==> Reaches(used, budget, 95)
        invariant allOk && i == 5 && Finalize !in old(completed) && !forceClosed ==> !Reaches(used, budget, 95)
        invariant allOk ==> AllWorthwhile(reviews, |old(reviews)|, |reviews|) || Reaches(used, budget, 95)
        invariant i < 5 && Finalize !in old(completed) ==> Finalize !in completed
        invariant allOk || Ended(old(log), log, old(reviews), reviews)
        invariant old(completed) == PHASES ==> log == old(log) && completed == PHASES && !forceClosed
      {
        ghost var log1, reviews1 := log, reviews;
        var flow, forced := RunPhase(i, harness, reassess);
        if flow.Return? { return flow.outcome; }
        forceClosed := forceClosed || forced;
        if AllWorthwhile(reviews1, |old(reviews)|, |reviews1|) && AllWorthwhile(reviews, |reviews1|, |reviews|) {
          StillWorthwhile(old(reviews), reviews1, reviews);
          BothWorthwhile(old(reviews), reviews1, reviews);
        }
        if flow == Break {
          EndedLater(old(log), log1, log, old(reviews), reviews1, reviews);
          allOk := false;
          break;
        }
      }
      if !allOk || !validatorOk { return Failed; }
      if forceClosed || stageIntended { return StageCompleted; }
      AllFive(completed, used, budget);
      return Completed;
    }
  }

  /** A phase failed, or a review ended the work. */
  ghost predicate Ended(before: seq<Dispatch>, log: seq<Dispatch>, was: seq<Assessment>, reviews: seq<Assessment>)
  {
    || (exists k :: |before| <= k < |log| && !log[k].ok)
    || (exists k :: |was| <= k < |reviews| && !Worthwhile(reviews[k]))
  }

  ghost predicate Cancels(harness: HarnessPhase -> Awaited<bool>, reassess: Option<(int, int) -> Awaited<Review>>)
  {
    (exists phase: HarnessPhase :: harness(phase).Cancelled?) || (reassess.Some? && exists j: int, t: int :: reassess.value(j, t).Cancelled?)
  }

  ghost predicate Breaks(harness: HarnessPhase -> Awaited<bool>, reassess: Option<(int, int) -> Awaited<Review>>)
  {
    (exists phase: HarnessPhase :: harness(phase).Broke?) || (reassess.Some? && exists j: int, t: int :: reassess.value(j, t).Broke?)
  }

  lemma {:induction false} ReviewLost(cancelled: bool, review: Option<int -> Awaited<Review>>, j: int,
                                      harness: HarnessPhase -> Awaited<bool>, reassess: Option<(int, int) -> Awaited<Review>>)
    requires InterruptFits(cancelled, review)
    requires review.Some? ==> reassess.Some? && forall t: int :: review.value(t) == reassess.value(j, t)
    ensures if cancelled then Cancels(harness, reassess) else Breaks(harness, reassess)
  {
    var t: int :| !review.value(t).Finished? && (cancelled <==> review.value(t).Cancelled?);
    assert review.value(t) == reassess.value(j, t);
  }

  lemma {:induction false} PhaseLost(phase: HarnessPhase, harness: HarnessPhase -> Awaited<bool>, reassess: Option<(int, int) -> Awaited<Review>>)
    requires !harness(phase).Finished?
    ensures if harness(phase).Cancelled? then Cancels(harness, reassess) else Breaks(harness, reassess)
  {
  }

  lemma {:induction false} PhaseFailed(before: seq<Dispatch>, log: seq<Dispatch>, was: seq<Assessment>, reviews: seq<Assessment>)
    requires before <= log && |log| > |before| && !log[|log| - 1].ok
    ensures Ended(before, log, was, reviews)
  {
  }

  lemma {:induction false} EndedLater(before: seq<Dispatch>, a: seq<Dispatch>, log: seq<Dispatch>, was: seq<Assessment>, b: seq<Assessment>, reviews: seq<Assessment>)
    requires before <= a <= log && was <= b <= reviews && Ended(a, log, b, reviews)
    ensures Ended(before, log, was, reviews)
  {
  }

  /** Handing over the i-th phase keeps order, rework and closing rules, whether or not it succeeds. */
  lemma {:induction false} HandOver(completed: seq<HarnessPhase>, log: seq<Dispatch>, i: nat, used: nat, reviewed: nat, more: nat, budget: nat, ok: bool)
    requires i < 5 && PHASES[i] !in completed && InOrder(completed, used, budget) && used <= more
    requires NoRework(log, completed) && ClosedProperly(log, budget)
    requires PHASES[i] == Finalize || !Reaches(used, budget, 95)
    requires (forall k | 0 <= k < i :: PHASES[k] in completed) || Reaches(used, budget, 95)
    ensures var log' := log + [Dispatch(PHASES[i], used, reviewed, ok)];
            && ClosedProperly(log', budget)
            && NoRework(log', if ok then completed + [PHASES[i]] else completed)
            && (ok ==> InOrder(completed + [PHASES[i]], more, budget))
  {
    assert Finalize == PHASES[4];
    assert completed == PHASES[..|completed|];
    if !Reaches(used, budget, 95) {
      PrefixLength(completed, i);
      assert completed + [PHASES[i]] == PHASES[..i + 1];
    }
  }

  lemma {:induction false} PrefixLength(completed: seq<HarnessPhase>, i: nat)
    requires i < 5 && |completed| <= 5 && completed == PHASES[..|completed|]
    ensures PHASES[i] !in completed ==> |completed| <= i
    ensures (forall k | 0 <= k < i :: PHASES[k] in completed) ==> i <= |completed|
  {
    var n := |completed|;
    if n > i { assert completed[i] == PHASES[i]; }
    if n < i { assert PHASES[n] !in completed; }
  }

  lemma {:induction false} AllFive(completed: seq<HarnessPhase>, used: nat, budget: nat)
    requires InOrder(completed, used, budget) && forall k | 0 <= k < 5 :: PHASES[k] in completed
    ensures completed == PHASES
  {
    assert PHASES[3] in completed && PHASES[4] in completed;
  }
}
