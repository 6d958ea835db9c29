/** The token budget of a research cycle: the guard, the ledger, and the scaling of a plan. */
module TokenBudget {
  import opened Integers
  import opened Options

  type Purpose = string

  type CycleId = string

  const EARLY_SCOPE: set<Purpose> := {"rnd_direction", "rnd_research", "rnd_design", "rnd_exploration"}
  const FINISHING: set<Purpose> := {"rnd_repair", "rnd_build", "rnd_test", "rnd_finalize", "rnd_handoff"}

  /** used / budget reaches the given percentage, in exact arithmetic. */
  predicate Reaches(used: int, budget: int, percent: int) { 100 * used >= percent * budget }

  function Reserve(budget: int): int
    requires budget >= 1
  {
    if budget >= 100_000_000 then 15_000_000 else Max(1, budget * 15 / 100)
  }

  /** The two phase rules that both entry points apply. */
  function PhaseRefusal(used: int, budget: int, purpose: Purpose): Option<string>
  {
    if Reaches(used, budget, 85) && (purpose in EARLY_SCOPE || purpose == "rnd_proposal") then Some("RND_FINISH_ONLY")
    else if Reaches(used, budget, 95) && purpose !in FINISHING then Some("RND_FORCE_CLOSE")
    else None
  }

  /** `check_rnd`, for a cycle whose locked budget is known: the refusal code, if any. */
  function Check(maxSingle: int, used: int, budget: int, estimate: int, purpose: Purpose): Option<string>
    requires budget >= 1
  {
    if estimate > maxSingle then Some("RND_REQUEST_TOO_LARGE")
    else if used + estimate > budget then Some("RND_CYCLE_BUDGET_EXCEEDED")
    else if purpose in EARLY_SCOPE && used + estimate > budget - Reserve(budget) then Some("RND_FINISH_RESERVE_PROTECTED")
    else PhaseRefusal(used, budget, purpose)
  }

  datatype Verdict = Allowed(cap: int) | Refused(code: string)

  /** `limit_rnd_request`, with the check it ends with. */
  function Limit(maxSingle: int, used: int, budget: int, prompt: int, desired: int, purpose: Purpose): Verdict
    requires budget >= 1
  {
    var p, d := Max(1, prompt), Max(1, desired);
    var general := Min(Max(0, budget - used), Max(1, maxSingle));
    var allowed := if purpose in EARLY_SCOPE then Min(general, Max(0, budget - Reserve(budget) - used)) else general;
    var refusal := PhaseRefusal(used, budget, purpose);
    if refusal.Some? then Refused(refusal.value) else
    var cap := Min(d, allowed - p);
    if cap < 1 then Refused("RND_CYCLE_BUDGET_EXCEEDED") else
    var nested := Check(maxSingle, used, budget, p + cap, purpose);
    if nested.Some? then Refused(nested.value) else Allowed(cap)
  }

  /** The check made at the end of the limit never refuses: it is the same rule twice. */
  lemma {:induction false} NestedCheckNeverRefuses(maxSingle: int, used: int, budget: int, prompt: int, cap: int, desired: int, purpose: Purpose)
    requires budget >= 1 && 0 <= used && PhaseRefusal(used, budget, purpose).None? && cap >= 1
    requires var general := Min(Max(0, budget - used), Max(1, maxSingle));
             var allowed := if purpose in EARLY_SCOPE then Min(general, Max(0, budget - Reserve(budget) - used)) else general;
             cap == Min(Max(1, desired), allowed - Max(1, prompt))
    ensures Check(maxSingle, used, budget, Max(1, prompt) + cap, purpose) == None
  {
    ReserveBounds(budget);
  }

  lemma {:induction false} ReserveBounds(budget: int)
    requires budget >= 1
    ensures 1 <= Reserve(budget) <= budget
  {
  }

  /** The limit is exact: it grants the largest completion, up to the desired one, that the check accepts,
      and refuses only when the check accepts none. */
  lemma {:induction false} LimitIsGreatest(maxSingle: int, used: int, budget: int, prompt: int, desired: int, purpose: Purpose, c: int)
    requires budget >= 1 && 0 <= used && 1 <= c <= Max(1, desired)
    ensures var verdict := Limit(maxSingle, used, budget, prompt, desired, purpose);
            Check(maxSingle, used, budget, Max(1, prompt) + c, purpose).None? <==> verdict.Allowed? && c <= verdict.cap
  {
    ReserveBounds(budget);
    var verdict := Limit(maxSingle, used, budget, prompt, desired, purpose);
    if PhaseRefusal(used, budget, purpose).None? {
      var general := Min(Max(0, budget - used), Max(1, maxSingle));
      var allowed := if purpose in EARLY_SCOPE then Min(general, Max(0, budget - Reserve(budget) - used)) else general;
      var cap := Min(Max(1, desired), allowed - Max(1, prompt));
      if cap >= 1 { NestedCheckNeverRefuses(maxSingle, used, budget, prompt, cap, desired, purpose); }
    }
  }

  // ----- what the guard is for, in the terms of its policy -----

  /** Requests that could widen the work. */
  predicate Widens(purpose: Purpose)
  {
    purpose == "rnd_direction" || purpose == "rnd_research" || purpose == "rnd_design" || purpose == "rnd_exploration"
  }

  /** Requests that bring the work to an end. */
  predicate Closes(purpose: Purpose)
  {
    || purpose == "rnd_repair" || purpose == "rnd_build" || purpose == "rnd_test" || purpose == "rnd_finalize"
    || purpose == "rnd_handoff"
  }

  /** From 85% on nothing may widen the work or propose, from 95% on only what closes it may go on. */
  predicate InPhase(used: int, budget: int, purpose: Purpose)
  {
    && (100 * used >= 85 * budget ==> !Widens(purpose) && purpose != "rnd_proposal")
    && (100 * used >= 95 * budget ==> Closes(purpose))
  }

  /** 15%, rounded down but not to nothing, and 15 million from 100 million on. */
  lemma {:induction false} ReserveIsFifteenPercent(budget: int)
    requires budget >= 1
    ensures budget >= 100_000_000 ==> Reserve(budget) == 15_000_000
    ensures budget < 100_000_000 ==> Reserve(budget) >= 1 && 15 * budget < 100 * (Reserve(budget) + 1)
                                     && (100 * Reserve(budget) <= 15 * budget || Reserve(budget) == 1)
  {
  }

  /** What a request has room for: the rest of the budget and the single-request limit, and, where it could widen the
      work, what lies before the reserve. */
  function Room(maxSingle: int, used: int, budget: int, purpose: Purpose): int
    requires budget >= 1
  {
    Min(Min(budget - used, maxSingle), if Widens(purpose) then budget - Reserve(budget) - used else budget - used)
  }

  /** A request is granted exactly when its phase allows its purpose and its prompt leaves room for one token, and then
      it gets what it desires or all the room there is; the code of a refusal tells which of these failed. */
  lemma {:induction false} LimitExactly(maxSingle: int, used: int, budget: int, prompt: int, desired: int, purpose: Purpose)
    requires budget >= 1 && 0 <= used
    ensures var verdict, p, room := Limit(maxSingle, used, budget, prompt, desired, purpose), Max(1, prompt), Room(maxSingle, used, budget, purpose);
            && (verdict.Allowed? <==> InPhase(used, budget, purpose) && p + 1 <= room)
            && (verdict.Allowed? ==> verdict.cap == Min(Max(1, desired), room - p))
            && (verdict == Refused("RND_FINISH_ONLY") <==>
                  100 * used >= 85 * budget && (Widens(purpose) || purpose == "rnd_proposal"))
            && (verdict == Refused("RND_FORCE_CLOSE") <==>
                  100 * used >= 95 * budget && !Closes(purpose) && !Widens(purpose) && purpose != "rnd_proposal")
            && (verdict == Refused("RND_CYCLE_BUDGET_EXCEEDED") <==> InPhase(used, budget, purpose) && room < p + 1)
  {
    hide Reserve;
    ReserveBounds(budget);
    PhasesAgree(used, budget, purpose);
    var p := Max(1, prompt);
    var general := Min(Max(0, budget - used), Max(1, maxSingle));
    var allowed := if purpose in EARLY_SCOPE then Min(general, Max(0, budget - Reserve(budget) - used)) else general;
    var cap := Min(Max(1, desired), allowed - p);
    if PhaseRefusal(used, budget, purpose).None? && cap >= 1 {
      NestedCheckNeverRefuses(maxSingle, used, budget, prompt, cap, desired, purpose);
    }
    hide PhaseRefusal, InPhase, Check;
  }

  lemma {:induction false} PhasesAgree(used: int, budget: int, purpose: Purpose)
    ensures PhaseRefusal(used, budget, purpose).None? <==> InPhase(used, budget, purpose)
    ensures PhaseRefusal(used, budget, purpose) == Some("RND_FINISH_ONLY") <==>
              100 * used >= 85 * budget && (Widens(purpose) || purpose == "rnd_proposal")
    ensures PhaseRefusal(used, budget, purpose).Some? ==>
              PhaseRefusal(used, budget, purpose).value == "RND_FINISH_ONLY" || PhaseRefusal(used, budget, purpose).value == "RND_FORCE_CLOSE"
    ensures purpose in EARLY_SCOPE <==> Widens(purpose)
  {
  }

  /** The check alone: what is refused, and on which of its grounds, in the order they are looked at. */
  lemma {:induction false} CheckExactly(maxSingle: int, used: int, budget: int, estimate: int, purpose: Purpose)
    requires budget >= 1
    ensures var refusal, reserved := Check(maxSingle, used, budget, estimate, purpose), Widens(purpose) && used + estimate > budget - Reserve(budget);
            && (refusal.None? <==> estimate <= maxSingle && used + estimate <= budget && !reserved && InPhase(used, budget, purpose))
            && (refusal == Some("RND_REQUEST_TOO_LARGE") <==> estimate > maxSingle)
            && (refusal == Some("RND_CYCLE_BUDGET_EXCEEDED") <==> estimate <= maxSingle && used + estimate > budget)
            && (refusal == Some("RND_FINISH_RESERVE_PROTECTED") <==> estimate <= maxSingle && used + estimate <= budget && reserved)
  {
    PhasesAgree(used, budget, purpose);
    hide PhaseRefusal, InPhase, Reserve;
  }

  // ----- the ledger -----

  datatype Row = Row(ledger: string, cycle: CycleId, purpose: Purpose, total: nat)

  function Total(rows: seq<Row>, ledger: string, cycle: CycleId): nat
  {
    if rows == [] then 0
    else Total(rows[..|rows| - 1], ledger, cycle) +
         if rows[|rows| - 1].ledger == ledger && rows[|rows| - 1].cycle == cycle then rows[|rows| - 1].total else 0
  }

  lemma {:induction false} TotalStep(rows: seq<Row>, row: Row, ledger: string, cycle: CycleId)
    ensures Total(rows + [row], ledger, cycle)
         == Total(rows, ledger, cycle) + if row.ledger == ledger && row.cycle == cycle then row.total else 0
  {
    assert (rows + [row])[..|rows|] == rows;
  }

  datatype Request = Request(cycle: CycleId, purpose: Purpose, prompt: int, desired: int)

  /** No cycle is over its locked budget. */
  ghost predicate WithinBudget(rows: seq<Row>, budgets: map<CycleId, int>)
  {
    forall c | c in budgets :: Total(rows, "rnd", c) <= Max(1, budgets[c])
  }

  class TokenLedger {
    var rows: seq<Row>

    constructor () ensures rows == [] { rows := []; }

    method Record(ledger: string, cycle: CycleId, purpose: Purpose, total: nat)
      modifies this
      ensures rows == old(rows) + [Row(ledger, cycle, purpose, total)]
    {
      rows := rows + [Row(ledger, cycle, purpose, total)];
    }

    /** One request: asked for, limited, and recorded with what its response really used, which is taken
        to be no more than its prompt and the cap it was sent with. */
    method ServeOne(budgets: map<CycleId, int>, maxSingle: int, r: Request, usage: nat) returns (verdict: Verdict)
      requires WithinBudget(rows, budgets)
      modifies this
      ensures verdict == if r.cycle !in budgets then Refused("RND_CYCLE_UNKNOWN")
                         else Limit(maxSingle, Total(old(rows), "rnd", r.cycle), Max(1, budgets[r.cycle]), r.prompt, r.desired, r.purpose)
      ensures rows == old(rows) + if verdict.Refused? then []
                                  else [Row("rnd", r.cycle, r.purpose, Min(usage, Max(1, r.prompt) + verdict.cap))]
      ensures WithinBudget(rows, budgets)
      ensures verdict.Allowed? ==> EarlyKeepsReserve(rows, |old(rows)|, budgets) && ServedInPhase(rows, |old(rows)|, budgets)
    {
      hide WithinBudget, EarlyKeepsReserve, Limit, Reserve, Total, InPhase;
      if r.cycle !in budgets { return Refused("RND_CYCLE_UNKNOWN"); }
      var budget := Max(1, budgets[r.cycle]);
      var used := Total(rows, "rnd", r.cycle);
      verdict := Limit(maxSingle, used, budget, r.prompt, r.desired, r.purpose);
      if verdict.Allowed? {
        LimitBounds(maxSingle, used, budget, r.prompt, r.desired, r.purpose);
        LimitExactly(maxSingle, used, budget, r.prompt, r.desired, r.purpose);
        var spent := Min(usage, Max(1, r.prompt) + verdict.cap);
        ServedKeeps(rows, Row("rnd", r.cycle, r.purpose, spent), budgets);
        Record("rnd", r.cycle, r.purpose, spent);
        assert rows[..|old(rows)|] == old(rows);
      }
    }

    /** Any serial run of requests, for any cycles: no budget is ever exceeded, every early-scope request that was
        served left the finishing reserve of its cycle untouched, and each was in phase when it was served. */
    method Serve(budgets: map<CycleId, int>, maxSingle: int, requests: seq<Request>, usage: nat -> nat)
      requires WithinBudget(rows, budgets)
      modifies this
      ensures old(rows) <= rows && WithinBudget(rows, budgets)
      ensures forall n | |old(rows)| <= n < |rows| :: EarlyKeepsReserve(rows, n, budgets) && ServedInPhase(rows, n, budgets)
    {
      hide WithinBudget, EarlyKeepsReserve, ServedInPhase, Limit, Total;
      for k := 0 to |requests|
        invariant old(rows) <= rows && WithinBudget(rows, budgets)
        invariant forall n | |old(rows)| <= n < |rows| :: EarlyKeepsReserve(rows, n, budgets) && ServedInPhase(rows, n, budgets)
      {
        ghost var before := rows;
        var verdict := ServeOne(budgets, maxSingle, requests[k], usage(k));
        assert verdict.Refused? ==> rows == before;
        if verdict.Allowed? {
          assert rows == before + [rows[|before|]];
          forall n | 0 <= n < |before| && EarlyKeepsReserve(before, n, budgets) && ServedInPhase(before, n, budgets)
            ensures EarlyKeepsReserve(rows, n, budgets) && ServedInPhase(rows, n, budgets)
          {
            EarlyStays(before, rows[|before|], n, budgets);
          }
        }
      }
    }
  }

  ghost predicate EarlyKeepsReserve(rows: seq<Row>, n: nat, budgets: map<CycleId, int>)
    requires n < |rows|
  {
    rows[n].purpose in EARLY_SCOPE && rows[n].cycle in budgets ==>
      var budget := Max(1, budgets[rows[n].cycle]);
      Total(rows[..n + 1], "rnd", rows[n].cycle) <= budget - Reserve(budget)
  }

  /** When the n-th row was recorded, the usage of its cycle allowed its purpose. */
  ghost predicate ServedInPhase(rows: seq<Row>, n: nat, budgets: map<CycleId, int>)
    requires n < |rows|
  {
    rows[n].cycle in budgets && InPhase(Total(rows[..n], "rnd", rows[n].cycle), Max(1, budgets[rows[n].cycle]), rows[n].purpose)
  }

  lemma {:induction false} EarlyStays(rows: seq<Row>, row: Row, n: nat, budgets: map<CycleId, int>)
    requires n < |rows| && EarlyKeepsReserve(rows, n, budgets) && ServedInPhase(rows, n, budgets)
    ensures EarlyKeepsReserve(rows + [row], n, budgets) && ServedInPhase(rows + [row], n, budgets)
  {
    hide InPhase, Total;
    assert (rows + [row])[..n + 1] == rows[..n + 1] && (rows + [row])[..n] == rows[..n];
  }

  lemma {:induction false} LimitBounds(maxSingle: int, used: int, budget: int, prompt: int, desired: int, purpose: Purpose)
    requires budget >= 1 && Limit(maxSingle, used, budget, prompt, desired, purpose).Allowed?
    ensures var total := Max(1, prompt) + Limit(maxSingle, used, budget, prompt, desired, purpose).cap;
            total >= 2 && used + total <= budget && (purpose in EARLY_SCOPE ==> used + total <= budget - Reserve(budget))
  {
  }

  lemma {:induction false} ServedKeeps(rows: seq<Row>, row: Row, budgets: map<CycleId, int>)
    requires WithinBudget(rows, budgets) && row.ledger == "rnd" && row.cycle in budgets
    requires var budget := Max(1, budgets[row.cycle]);
             var after := Total(rows, "rnd", row.cycle) + row.total;
             after <= budget && (row.purpose in EARLY_SCOPE ==> after <= budget - Reserve(budget))
    ensures WithinBudget(rows + [row], budgets) && EarlyKeepsReserve(rows + [row], |rows|, budgets)
  {
    forall c | c in budgets ensures Total(rows + [row], "rnd", c) <= Max(1, budgets[c]) { TotalStep(rows, row, "rnd", c); }
    TotalStep(rows, row, "rnd", row.cycle);
    assert (rows + [row])[..|rows| + 1] == rows + [row];
  }

  // ----- fitting a plan into the cycle -----

  datatype Parts = Parts(direction: nat, research: nat, design: nat, development: nat, build: nat, finish: nat)
  {
    function Sum(): nat { direction + research + design + development + build + finish }
  }

  const DEFAULT_PARTS := Parts(8_000_000, 12_000_000, 10_000_000, 45_000_000, 15_000_000, 10_000_000)

  datatype Plan = Plan(parts: Parts, reserve: nat)

  function Share(budget: nat, weight: nat, total: nat): nat
    requires total > 0
  {
    budget * weight / total
  }

  function FitCycleBudget(plan: Plan, requested: int): Plan
  {
    var budget := Max(1, requested);
    if plan.parts.Sum() <= budget && plan.reserve <= budget then plan else
    var w := if plan.parts.Sum() > 0 then plan.parts else DEFAULT_PARTS;
    var total := w.Sum();
    var s := Parts(Share(budget, w.direction, total), Share(budget, w.research, total), Share(budget, w.design, total),
                   Share(budget, w.development, total), Share(budget, w.build, total), Share(budget, w.finish, total));
    SharesFit(budget, w);
    Plan(s.(finish := s.finish + (budget - s.Sum())), Reserve(budget))
  }

  lemma {:induction false} ShareBounds(budget: nat, weight: nat, total: nat)
    requires total > 0
    ensures total * Share(budget, weight, total) <= budget * weight < total * Share(budget, weight, total) + total
  {
    var a := budget * weight;
    assert a == total * (a / total) + a % total;
  }

  lemma {:induction false} FloorSum(total: int, budget: int, s: int)
    requires total > 0 && total * s <= total * budget < total * s + 6 * total
    ensures s <= budget <= s + 5
  {
    assert total * (budget + 1) == total * budget + total;
    assert total * (s + 6) == total * s + 6 * total;
    if s > budget { MulOrder(budget + 1, s, total); }
    if budget > s + 5 { MulOrder(s + 6, budget, total); }
  }

  /** Six floors of shares that add up to the whole lose at most five. */
  lemma {:induction false} SharesFit(budget: nat, w: Parts)
    requires w.Sum() > 0
    ensures var t := w.Sum();
            var s := Share(budget, w.direction, t) + Share(budget, w.research, t) + Share(budget, w.design, t)
                   + Share(budget, w.development, t) + Share(budget, w.build, t) + Share(budget, w.finish, t);
            s <= budget <= s + 5
  {
    var t := w.Sum();
    ShareBounds(budget, w.direction, t);
    ShareBounds(budget, w.research, t);
    ShareBounds(budget, w.design, t);
    ShareBounds(budget, w.development, t);
    ShareBounds(budget, w.build, t);
    ShareBounds(budget, w.finish, t);
    var a, b, c, d, e, f := Share(budget, w.direction, t), Share(budget, w.research, t), Share(budget, w.design, t),
                            Share(budget, w.development, t), Share(budget, w.build, t), Share(budget, w.finish, t);
    Distribute6(t, a, b, c, d, e, f);
    Distribute6(budget, w.direction, w.research, w.design, w.development, w.build, w.finish);
    assert budget * t == t * budget;
    FloorSum(t, budget, a + b + c + d + e + f);
  }

  lemma {:induction false} Distribute6(k: int, a: int, b: int, c: int, d: int, e: int, f: int)
    ensures k * (a + b + c + d + e + f) == k * a + k * b + k * c + k * d + k * e + k * f
  {
  }

  lemma {:induction false} Millions(budget: nat, percent: nat)
    ensures budget * (percent * 1_000_000) / 100_000_000 == budget * percent / 100
  {
    var a := budget * percent;
    assert budget * (percent * 1_000_000) == a * 1_000_000;
    assert a == 100 * (a / 100) + a % 100;
  }

  /** Where a plan has no parts and its reserve does not fit, the parts are the usual percentages of the budget. */
  lemma {:induction false} UsualShares(reserve: nat, requested: int)
    requires reserve > Max(1, requested)
    ensures var budget, r := Max(1, requested), FitCycleBudget(Plan(Parts(0, 0, 0, 0, 0, 0), reserve), requested).parts;
            && r.direction == budget * 8 / 100 && r.research == budget * 12 / 100 && r.design == budget * 10 / 100
            && r.development == budget * 45 / 100 && r.build == budget * 15 / 100
            && r.finish == budget - r.direction - r.research - r.design - r.development - r.build
  {
    var budget := Max(1, requested);
    Millions(budget, 8);
    Millions(budget, 12);
    Millions(budget, 10);
    Millions(budget, 45);
    Millions(budget, 15);
    SharesFit(budget, DEFAULT_PARTS);
  }

  /** A plan that does not fit is scaled to the budget exactly, each other part to its floored share. */
  lemma {:induction false} FitIsExact(plan: Plan, requested: int)
    ensures var budget := Max(1, requested);
            var r := FitCycleBudget(plan, requested);
            && r.parts.Sum() <= budget && r.reserve <= budget
            && (r != plan ==> r.parts.Sum() == budget)
            && FitCycleBudget(r, requested) == r
    ensures var budget := Max(1, requested);
            var w := if plan.parts.Sum() > 0 then plan.parts else DEFAULT_PARTS;
            var r := FitCycleBudget(plan, requested).parts;
            !(plan.parts.Sum() <= budget && plan.reserve <= budget) ==>
              && r.direction == Share(budget, w.direction, w.Sum()) && r.research == Share(budget, w.research, w.Sum())
              && r.design == Share(budget, w.design, w.Sum()) && r.development == Share(budget, w.development, w.Sum())
              && r.build == Share(budget, w.build, w.Sum())
              && Share(budget, w.finish, w.Sum()) <= r.finish <= Share(budget, w.finish, w.Sum()) + 5
  {
    var budget := Max(1, requested);
    var w := if plan.parts.Sum() > 0 then plan.parts else DEFAULT_PARTS;
    SharesFit(budget, w);
    ReserveBounds(budget);
  }
}
