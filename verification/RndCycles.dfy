/** The life of research cycles across processes: rows, one lock file, claims, suspends, crashes, recovery. */
module RndCycles {
  import opened Options

  type Pid = nat

  type CycleId = nat

  datatype Status = Created | Running | Suspended | WaitingUser | Completed | StageCompleted | Failed

  datatype Code = NoCode | CancelledCode | SuspendedCode | OtherCode

  /** The saved result file: an outcome, if it names a terminal one, and a code. */
  datatype ResultFile = ResultFile(outcome: Option<Status>, code: Code)

  datatype Row = Row(status: Status, owner: Option<Pid>, trigger: int, first: int, last: int,
                     result: ResultFile, inputReady: bool, stageArtifacts: bool)

  /** Who holds the lock file, for which cycle, whether its row has been claimed, and, for a process that recovers
      it, the row as that process has read it. */
  datatype Hold = Hold(pid: Pid, cycle: CycleId, claimed: bool, seen: Option<Row>)

  datatype State = State(rows: map<CycleId, Row>, order: seq<CycleId>, lock: Option<Hold>, dirs: set<CycleId>)

  /** Atomic steps of any process. `prepared` is how directory and input preparation went. Recovery of a row is one step
      (`Recover`), or reads the row (`Inspect`) and writes it later (`Conclude`) with lock-free steps in between. */
  datatype Step =
    | Create(day: int, cycleDays: nat, id: CycleId, prepared: bool)
    | Acquire(pid: Pid, cycle: CycleId)
    | Claim(pid: Pid)
    | Save(pid: Pid, artifacts: bool)
    | WriteResult(pid: Pid, outcome: Status)
    | Settle(pid: Pid, outcome: Status)
    | SuspendRun(pid: Pid)
    | SuspendTask(pid: Pid, cycle: CycleId)
    | FailTask(pid: Pid, cycle: CycleId)
    | Crash(pid: Pid)
    | Recover(pid: Pid, cycle: CycleId)
    | Inspect(pid: Pid, cycle: CycleId)
    | Conclude(pid: Pid)

  predicate Active(st: Status) { st == Created || st == Running || st == Suspended }

  predicate Terminal(st: Status) { !Active(st) }

  /** Rows of an older version: waiting for the user, but saved as cancelled. */
  predicate LegacyCancelled(r: Row) { r.status == WaitingUser && r.result.code == CancelledCode }

  predicate IsSuspendResult(f: ResultFile) { f.code == CancelledCode || f.code == SuspendedCode }

  predicate AnyActive(rows: map<CycleId, Row>) { exists c :: c in rows && Active(rows[c].status) }

  function MaxLast(rows: map<CycleId, Row>, order: seq<CycleId>): Option<int>
    requires forall c | c in order :: c in rows
  {
    if order == [] then None
    else
      var before, mine := MaxLast(rows, order[..|order| - 1]), rows[order[|order| - 1]].last;
      Some(if before.Some? && before.value > mine then before.value else mine)
  }

  ghost predicate Known(s: State) { forall c :: c in s.rows <==> c in s.order }

  /** `_create_new` with preparation: the new row, or None when nothing is created. */
  function NewRow(s: State, day: int, cycleDays: nat, prepared: bool): Option<Row>
    requires forall c | c in s.order :: c in s.rows
  {
    if AnyActive(s.rows) || exists c :: c in s.rows && s.rows[c].trigger == day then None
    else
      var previous := MaxLast(s.rows, s.order);
      var first := if previous.Some? then previous.value + 1 else if day - cycleDays < 0 then 0 else day - cycleDays;
      if first > day - 1 then None
      else Some(Row(if prepared then Created else Failed, None, day, first, day - 1,
                    if prepared then ResultFile(None, NoCode) else ResultFile(Some(Failed), OtherCode), prepared, false))
  }

  /** `_suspend_cycle` by `pid`: what becomes of the row. */
  function SuspendedRow(r: Row, pid: Pid): Row
  {
    if (r.status == Created || r.status == Running) && !(r.status == Running && r.owner.Some? && r.owner.value != pid)
    then r.(status := Suspended, owner := None, result := ResultFile(None, SuspendedCode))
    else r
  }

  /** `_finalize_interruption` with ownership check. */
  function FailedRow(r: Row, pid: Pid): Row
  {
    if Active(r.status) && !(r.status == Running && r.owner.Some? && r.owner.value != pid)
    then r.(status := Failed, owner := None, result := ResultFile(Some(Failed), OtherCode))
    else r
  }

  /** One row of `recover_interrupted_cycles`, under the lock: the new row and whether it is to be resumed. */
  function RecoveredRow(rows: map<CycleId, Row>, c: CycleId): (Row, bool)
    requires c in rows
  {
    var r := rows[c];
    if !Active(r.status) && !LegacyCancelled(r) then (r, false)
    else if r.result.outcome.Some? && !IsSuspendResult(r.result) then (r.(status := r.result.outcome.value, owner := None), false)
    else if r.inputReady then
      if LegacyCancelled(r) && exists d :: d in rows && d != c && Active(rows[d].status) then (r, false)
      else (r.(status := Created, owner := None), true)
    else
      var outcome := if r.stageArtifacts then StageCompleted else Failed;
      (r.(status := outcome, owner := None, result := ResultFile(Some(outcome), NoCode)), false)
  }

  predicate Holds(s: State, pid: Pid, claimed: bool)
  {
    s.lock.Some? && s.lock.value.pid == pid && s.lock.value.claimed == claimed && s.lock.value.seen.None?
  }

  predicate Inspecting(s: State, pid: Pid)
  {
    s.lock.Some? && s.lock.value.pid == pid && s.lock.value.seen.Some? && s.lock.value.cycle in s.rows
  }

  /** What the recovery decided on the row it read writes to the row as it is now: a saved or final outcome without
      looking, CREATED only if the status is still the one read. */
  function ConcludedRow(rows: map<CycleId, Row>, c: CycleId, read: Row): Row
    requires c in rows
  {
    var r := rows[c];
    if read.result.outcome.Some? && !IsSuspendResult(read.result) then r.(status := read.result.outcome.value, owner := None)
    else if read.inputReady then
      if r.status != read.status || (LegacyCancelled(read) && exists d :: d in rows && d != c && Active(rows[d].status)) then r
      else r.(status := Created, owner := None)
    else
      var outcome := if read.stageArtifacts then StageCompleted else Failed;
      r.(status := outcome, owner := None, result := ResultFile(Some(outcome), NoCode))
  }

  function Apply(s: State, step: Step): State
    requires Known(s)
  {
    match step
    case Create(day, cycleDays, id, prepared) =>
      var row := NewRow(s, day, cycleDays, prepared);
      if row.None? || id in s.rows then s
      else s.(rows := s.rows[id := row.value], order := s.order + [id], dirs := s.dirs + {id})
    case Acquire(pid, c) =>
      if s.lock.Some? || c !in s.rows then s else s.(lock := Some(Hold(pid, c, false, None)))
    case Claim(pid) =>
      if !Holds(s, pid, false) then s else
      var c := s.lock.value.cycle;
      if c in s.rows && s.rows[c].status == Created
      then s.(rows := s.rows[c := s.rows[c].(status := Running, owner := Some(pid))], lock := Some(Hold(pid, c, true, None)))
      else s.(lock := None)
    case Save(pid, artifacts) =>
      if !Holds(s, pid, true) || s.lock.value.cycle !in s.rows then s else
      var c := s.lock.value.cycle;
      s.(rows := s.rows[c := s.rows[c].(status := Running, stageArtifacts := s.rows[c].stageArtifacts || artifacts)])
    case WriteResult(pid, outcome) =>
      if !Holds(s, pid, true) || s.lock.value.cycle !in s.rows || !Terminal(outcome) then s else
      var c := s.lock.value.cycle;
      s.(rows := s.rows[c := s.rows[c].(result := ResultFile(Some(outcome), NoCode))])
    case Settle(pid, outcome) =>
      if !Holds(s, pid, true) || s.lock.value.cycle !in s.rows
         || s.rows[s.lock.value.cycle].result != ResultFile(Some(outcome), NoCode) then s else
      var c := s.lock.value.cycle;
      s.(rows := s.rows[c := s.rows[c].(status := outcome, owner := None)], lock := None)
    case SuspendRun(pid) =>
      if !Holds(s, pid, true) || s.lock.value.cycle !in s.rows then s else
      var c := s.lock.value.cycle;
      s.(rows := s.rows[c := SuspendedRow(s.rows[c], pid)], lock := None)
    case SuspendTask(pid, c) =>
      if c !in s.rows || (s.lock.Some? && s.lock.value.pid == pid) then s
      else s.(rows := s.rows[c := SuspendedRow(s.rows[c], pid)])
    case FailTask(pid, c) =>
      if c !in s.rows || (s.lock.Some? && s.lock.value.pid == pid) then s
      else s.(rows := s.rows[c := FailedRow(s.rows[c], pid)])
    case Crash(pid) =>
      if s.lock.Some? && s.lock.value.pid == pid then s.(lock := None) else s
    case Recover(pid, c) =>
      if s.lock.Some? || c !in s.rows then s else s.(rows := s.rows[c := RecoveredRow(s.rows, c).0])
    case Inspect(pid, c) =>
      if s.lock.Some? || c !in s.rows || !(Active(s.rows[c].status) || LegacyCancelled(s.rows[c])) then s
      else s.(lock := Some(Hold(pid, c, false, Some(s.rows[c]))))
    case Conclude(pid) =>
      if !Inspecting(s, pid) then s else
      var c := s.lock.value.cycle;
      s.(rows := s.rows[c := ConcludedRow(s.rows, c, s.lock.value.seen.value)], lock := None)
  }

  /** Consecutive periods meet exactly. */
  ghost predicate Tiled(rows: map<CycleId, Row>, order: seq<CycleId>)
  {
    && (forall c | c in order :: c in rows && rows[c].first <= rows[c].last)
    && (forall i, j | 0 <= i < j < |order| :: order[i] != order[j])
    && (forall i | 0 < i < |order| :: rows[order[i]].first == rows[order[i - 1]].last + 1)
  }

  ghost predicate Inv(s: State)
  {
    && Known(s) && Tiled(s.rows, s.order) && OneActive(s.rows) && HoldIsHonest(s.rows, s.lock)
    && (forall c | c in s.rows :: HonestResult(s.rows[c]))
  }

  ghost predicate OneActive(rows: map<CycleId, Row>)
  {
    forall c, d | c in rows && d in rows && Active(rows[c].status) && Active(rows[d].status) :: c == d
  }

  /** Whoever has claimed under the lock owns a running row; whoever has read a row to recover it read one that was
      unfinished, and a legacy row has not changed since. */
  ghost predicate HoldIsHonest(rows: map<CycleId, Row>, lock: Option<Hold>)
  {
    && (lock.Some? && lock.value.claimed ==>
          && lock.value.cycle in rows && lock.value.seen.None?
          && rows[lock.value.cycle].status == Running && rows[lock.value.cycle].owner == Some(lock.value.pid))
    && (lock.Some? && lock.value.seen.Some? ==>
          lock.value.cycle in rows && ReadHonestly(lock.value.seen.value, rows[lock.value.cycle]))
  }

  /** What a row was when it was read, and what it is now. */
  predicate ReadHonestly(read: Row, r: Row)
  {
    && (Active(read.status) || LegacyCancelled(read)) && HonestResult(read) && r.inputReady == read.inputReady
    && (LegacyCancelled(read) ==> r == read) && (read.result.code != CancelledCode ==> r.result.code != CancelledCode)
  }

  predicate HonestResult(r: Row)
  {
    && (r.result.outcome.Some? ==> Terminal(r.result.outcome.value))
    && (r.status == Suspended ==> IsSuspendResult(r.result))
  }

  lemma {:induction false} MaxIsLast(rows: map<CycleId, Row>, order: seq<CycleId>)
    requires Tiled(rows, order)
    ensures order != [] ==> MaxLast(rows, order) == Some(rows[order[|order| - 1]].last)
    ensures order == [] ==> MaxLast(rows, order) == None
  {
    if |order| > 1 {
      var front := order[..|order| - 1];
      assert forall c | c in front :: c in order;
      assert Tiled(rows, front);
      MaxIsLast(rows, front);
      assert rows[order[|order| - 1]].first == rows[order[|order| - 2]].last + 1;
      assert order[|order| - 1] in order;
    }
  }

  /** A change to one row that keeps its period keeps the tiling. */
  lemma {:induction false} TilingStays(rows: map<CycleId, Row>, order: seq<CycleId>, c: CycleId, r: Row)
    requires Tiled(rows, order) && c in rows && r.first == rows[c].first && r.last == rows[c].last
    ensures Tiled(rows[c := r], order)
  {
    forall i | 0 < i < |order| ensures rows[c := r][order[i]].first == rows[c := r][order[i - 1]].last + 1 {
      assert rows[order[i]].first == rows[order[i - 1]].last + 1;
    }
  }

  lemma {:induction false} RowUpdate(s: State, c: CycleId, r: Row, lock: Option<Hold>)
    requires Inv(s) && c in s.rows && r.first == s.rows[c].first && r.last == s.rows[c].last && HonestResult(r)
    requires Active(r.status) ==> forall d | d in s.rows && d != c :: !Active(s.rows[d].status)
    requires HoldIsHonest(s.rows[c := r], lock)
    ensures Inv(s.(rows := s.rows[c := r], lock := lock))
  {
    TilingStays(s.rows, s.order, c, r);
    hide Tiled, HoldIsHonest;
  }

  /** A row that is active is the only one. */
  lemma {:induction false} OnlyActive(s: State, c: CycleId)
    requires Inv(s) && c in s.rows && Active(s.rows[c].status)
    ensures forall d | d in s.rows && d != c :: !Active(s.rows[d].status)
  {
    hide Tiled, HoldIsHonest;
  }

  lemma {:induction false} TilingGrows(rows: map<CycleId, Row>, order: seq<CycleId>, id: CycleId, r: Row)
    requires Tiled(rows, order) && id !in rows && r.first <= r.last
    requires order != [] ==> r.first == rows[order[|order| - 1]].last + 1
    ensures Tiled(rows[id := r], order + [id])
  {
    var rows', order' := rows[id := r], order + [id];
    forall i | 0 <= i < |order| ensures order'[i] == order[i] && order[i] in rows && rows'[order[i]] == rows[order[i]] {
      assert order[i] in order;
    }
    forall c | c in order' ensures c in rows' && rows'[c].first <= rows'[c].last {
      assert c in order || c == id;
    }
  }

  /** A row added when none is active is the only active one, and disturbs no claim. */
  lemma {:induction false} NewRowAlone(rows: map<CycleId, Row>, lock: Option<Hold>, id: CycleId, r: Row)
    requires !AnyActive(rows) && id !in rows && HoldIsHonest(rows, lock)
    ensures OneActive(rows[id := r]) && HoldIsHonest(rows[id := r], lock)
  {
  }

  lemma {:induction false} NewRowIsHonest(s: State, day: int, cycleDays: nat, prepared: bool)
    requires forall c | c in s.order :: c in s.rows
    ensures NewRow(s, day, cycleDays, prepared).Some? ==> HonestResult(NewRow(s, day, cycleDays, prepared).value)
  {
    hide MaxLast, AnyActive;
  }

  lemma {:induction false} CreateKeepsInv(s: State, day: int, cycleDays: nat, id: CycleId, prepared: bool)
    requires Inv(s)
    ensures Inv(Apply(s, Create(day, cycleDays, id, prepared)))
  {
    var row := NewRow(s, day, cycleDays, prepared);
    if row.Some? && id !in s.rows {
      MaxIsLast(s.rows, s.order);
      hide MaxLast, HonestResult;
      TilingGrows(s.rows, s.order, id, row.value);
      NewRowAlone(s.rows, s.lock, id, row.value);
      NewRowIsHonest(s, day, cycleDays, prepared);
      hide Tiled, AnyActive, OneActive, HoldIsHonest, NewRow;
    }
  }

  lemma {:induction false} ClaimKeepsInv(s: State, pid: Pid)
    requires Inv(s)
    ensures Inv(Apply(s, Claim(pid)))
  {
    if Holds(s, pid, false) && s.lock.value.cycle in s.rows && s.rows[s.lock.value.cycle].status == Created {
      var c := s.lock.value.cycle;
      OnlyActive(s, c);
      RowUpdate(s, c, s.rows[c].(status := Running, owner := Some(pid)), Some(Hold(pid, c, true, None)));
    }
  }

  /** What a process does to the row it has claimed. */
  lemma {:induction false} OwnStepKeepsInv(s: State, pid: Pid, r: Row, lock: Option<Hold>)
    requires Inv(s) && Holds(s, pid, true) && s.lock.value.cycle in s.rows
    requires var r0 := s.rows[s.lock.value.cycle]; r.first == r0.first && r.last == r0.last && HonestResult(r)
    requires lock.None? || (lock == s.lock && r.status == Running && r.owner == Some(pid))
    ensures Inv(s.(rows := s.rows[s.lock.value.cycle := r], lock := lock))
  {
    var c := s.lock.value.cycle;
    OnlyActive(s, c);
    RowUpdate(s, c, r, lock);
  }

  lemma {:induction false} RunStepsKeepInv(s: State, step: Step)
    requires Inv(s) && (step.Save? || step.WriteResult? || step.Settle? || step.SuspendRun?)
    ensures Inv(Apply(s, step))
  {
    if Holds(s, step.pid, true) && s.lock.value.cycle in s.rows && Apply(s, step) != s {
      var c := s.lock.value.cycle;
      assert s.rows[c].status == Running && s.rows[c].owner == Some(step.pid) && HonestResult(s.rows[c]);
      hide Inv;
      OwnStepKeepsInv(s, step.pid, Apply(s, step).rows[c], Apply(s, step).lock);
    }
  }

  lemma {:induction false} ConcludeKeepsInv(s: State, pid: Pid)
    requires Inv(s)
    ensures Inv(Apply(s, Conclude(pid)))
  {
    if Inspecting(s, pid) {
      var c := s.lock.value.cycle;
      if Active(s.rows[c].status) { OnlyActive(s, c); }
      RowUpdate(s, c, ConcludedRow(s.rows, c, s.lock.value.seen.value), None);
    }
  }

  lemma {:induction false} SuspendTaskKeepsInv(s: State, pid: Pid, c: CycleId)
    requires Inv(s)
    ensures Inv(Apply(s, SuspendTask(pid, c)))
  {
    var step := SuspendTask(pid, c);
    if Apply(s, step).rows != s.rows {
      OnlyActive(s, c);
      RowUpdate(s, c, SuspendedRow(s.rows[c], pid), s.lock);
    }
  }

  lemma {:induction false} FailTaskKeepsInv(s: State, pid: Pid, c: CycleId)
    requires Inv(s)
    ensures Inv(Apply(s, FailTask(pid, c)))
  {
    var step := FailTask(pid, c);
    if Apply(s, step).rows != s.rows { RowUpdate(s, c, FailedRow(s.rows[c], pid), s.lock); }
  }

  lemma {:induction false} RecoverKeepsInv(s: State, pid: Pid, c: CycleId)
    requires Inv(s)
    ensures Inv(Apply(s, Recover(pid, c)))
  {
    if s.lock.None? && c in s.rows {
      if Active(s.rows[c].status) { OnlyActive(s, c); }
      RowUpdate(s, c, RecoveredRow(s.rows, c).0, None);
    }
  }

  /** Every step of every process keeps the invariant. */
  lemma {:induction false} StepKeepsInv(s: State, step: Step)
    requires Inv(s)
    ensures Inv(Apply(s, step))
  {
    match step
    case Create(day, cycleDays, id, prepared) => CreateKeepsInv(s, day, cycleDays, id, prepared);
    case Acquire(_, _) =>
    case Crash(_) =>
    case Inspect(_, _) =>
    case Conclude(pid) => ConcludeKeepsInv(s, pid);
    case Claim(pid) => ClaimKeepsInv(s, pid);
    case SuspendTask(pid, c) => SuspendTaskKeepsInv(s, pid, c);
    case FailTask(pid, c) => FailTaskKeepsInv(s, pid, c);
    case Recover(pid, c) => RecoverKeepsInv(s, pid, c);
    case _ => RunStepsKeepInv(s, step);
  }

  // ----- whole runs -----

  function RunSteps(s: State, steps: seq<Step>): (s': State)
    requires Inv(s)
    ensures Inv(s')
  {
    if steps == [] then s else
    var before := RunSteps(s, steps[..|steps| - 1]);
    StepKeepsInv(before, steps[|steps| - 1]);
    Apply(before, steps[|steps| - 1])
  }

  const EMPTY := State(map[], [], None, {})

  /** After any interleaving of any steps, from nothing: at most one active cycle, whoever has claimed one under the lock
      owns its running row, and each period begins the day after the one before it ends. */
  lemma {:induction false} EveryRunIsSafe(steps: seq<Step>)
    ensures Inv(EMPTY)
    ensures var s := RunSteps(EMPTY, steps);
            && (forall c, d | c in s.rows && d in s.rows && Active(s.rows[c].status) && Active(s.rows[d].status) :: c == d)
            && (s.lock.Some? && s.lock.value.claimed ==>
                  var c := s.lock.value.cycle;
                  c in s.rows && s.rows[c].status == Running && s.rows[c].owner == Some(s.lock.value.pid))
            && (forall i, j | 0 <= i < j < |s.order| && j == i + 1 ::
                  s.order[i] in s.rows && s.order[j] in s.rows && s.rows[s.order[j]].first == s.rows[s.order[i]].last + 1)
  {
    assert Inv(EMPTY);
    var s := RunSteps(EMPTY, steps);
    assert Inv(s);
    hide RunSteps;
    forall i, j | 0 <= i < j < |s.order| && j == i + 1
      ensures s.order[i] in s.rows && s.order[j] in s.rows && s.rows[s.order[j]].first == s.rows[s.order[i]].last + 1
    {
      assert s.order[i] in s.order && s.order[j] in s.order && s.rows[s.order[j]].first == s.rows[s.order[j - 1]].last + 1;
    }
  }

  /** A finished row, other than a legacy cancelled one. */
  ghost predicate Finished(s: State, c: CycleId) { c in s.rows && Terminal(s.rows[c].status) && !LegacyCancelled(s.rows[c]) }

  /** The step writes a saved or final outcome to c, on a row it read before. */
  ghost predicate WritesOldReading(s: State, step: Step, c: CycleId)
  {
    && step.Conclude? && Inspecting(s, step.pid) && s.lock.value.cycle == c
    && var read := s.lock.value.seen.value; (read.result.outcome.Some? && !IsSuspendResult(read.result)) || !read.inputReady
  }

  /** Finished rows stay finished, and change only by a recovery that read the row before it was finished. */
  lemma {:induction false} FinishedStays(s: State, step: Step, c: CycleId)
    requires Inv(s) && Finished(s, c)
    ensures Finished(Apply(s, step), c)
    ensures Apply(s, step).rows[c] == s.rows[c] || WritesOldReading(s, step, c)
  {
    hide Tiled;
  }

  /** A finished cycle never becomes active again; its row changes only when some recovery writes what it read before. */
  lemma {:induction false} FinishedForever(s: State, steps: seq<Step>, c: CycleId)
    requires Inv(s) && Finished(s, c)
    ensures Finished(RunSteps(s, steps), c)
    ensures || RunSteps(s, steps).rows[c] == s.rows[c]
            || exists k | 0 <= k < |steps| :: WritesOldReading(RunSteps(s, steps[..k]), steps[k], c)
  {
    hide Inv, Apply, Finished, WritesOldReading;
    if steps != [] {
      var last := |steps| - 1;
      FinishedForever(s, steps[..last], c);
      FinishedStays(RunSteps(s, steps[..last]), steps[last], c);
      if k :| 0 <= k < last && WritesOldReading(RunSteps(s, steps[..last][..k]), steps[..last][k], c) {
        assert steps[..last][..k] == steps[..k] && steps[..last][k] == steps[k];
      }
    }
  }

  /** How a finished row is overwritten: a recovery reads an unfinished row with a saved outcome, another process settles
      its own task as failed, and the recovery writes the outcome it read. */
  lemma {:induction false} OldReadingOverwrites(s: State, pid: Pid, other: Pid, c: CycleId)
    requires Inv(s) && s.lock.None? && c in s.rows && Active(s.rows[c].status) && pid != other
    requires s.rows[c].owner.None? || s.rows[c].owner.value == other
    requires s.rows[c].result.outcome.Some? && !IsSuspendResult(s.rows[c].result)
    ensures var failed := Apply(Apply(s, Inspect(pid, c)), FailTask(other, c));
            var concluded := Apply(failed, Conclude(pid));
            && Finished(failed, c) && failed.rows[c].status == Failed && failed.rows[c].result.outcome == Some(Failed)
            && concluded.rows[c].status == s.rows[c].result.outcome.value && concluded.rows[c].result.outcome == Some(Failed)
  {
    hide Tiled;
  }

  /** Read and written with nothing in between, recovery is the one step. */
  lemma {:induction false} InspectConclude(s: State, pid: Pid, c: CycleId)
    requires Inv(s) && s.lock.None? && c in s.rows
    ensures Apply(Apply(s, Inspect(pid, c)), Conclude(pid)) == Apply(s, Recover(pid, c))
  {
    hide Tiled;
    var r := s.rows[c];
    assert s.rows[c := r] == s.rows;
  }

  predicate By(step: Step, pid: Pid) { !step.Create? && step.pid == pid }

  /** While a process runs a claimed cycle, no step of any other process touches its row or its lock. */
  lemma {:induction false} RunnerIsAlone(s: State, step: Step)
    requires Inv(s) && s.lock.Some? && s.lock.value.claimed && !By(step, s.lock.value.pid)
    ensures var c := s.lock.value.cycle;
            Apply(s, step).lock == s.lock && c in Apply(s, step).rows && Apply(s, step).rows[c] == s.rows[c]
  {
    hide Tiled;
  }

  ghost predicate InPeriod(r: Row, day: int) { r.first <= day <= r.last }

  lemma {:induction false} PeriodsAscend(rows: map<CycleId, Row>, order: seq<CycleId>, i: nat, j: nat)
    requires Tiled(rows, order) && i < j < |order|
    ensures order[i] in rows && order[j] in rows && rows[order[i]].last < rows[order[j]].first
  {
    assert order[i] in order && order[j] in order && order[j - 1] in order;
    if i < j - 1 { PeriodsAscend(rows, order, i, j - 1); }
  }

  /** Every day from the first period to the last is in exactly one cycle's period. */
  lemma {:induction false} DaysAreTiled(rows: map<CycleId, Row>, order: seq<CycleId>, day: int) returns (k: nat)
    requires Tiled(rows, order) && order != [] && order[0] in rows && order[|order| - 1] in rows
    requires rows[order[0]].first <= day <= rows[order[|order| - 1]].last
    ensures k < |order| && order[k] in rows && InPeriod(rows[order[k]], day)
    ensures forall i | 0 <= i < |order| && order[i] in rows && InPeriod(rows[order[i]], day) :: i == k
  {
    k := 0;
    while rows[order[k]].last < day
      invariant k < |order| && order[k] in rows && rows[order[k]].first <= day
      decreases |order| - k
    {
      assert order[k + 1] in order;
      k := k + 1;
    }
    forall i | 0 <= i < |order| && order[i] in rows && InPeriod(rows[order[i]], day) ensures i == k {
      if i < k { PeriodsAscend(rows, order, i, k); }
      if k < i { PeriodsAscend(rows, order, k, i); }
    }
  }

  // ----- recovery -----

  /** One row, if the lock is free: the new state and whether the cycle is handed back. */
  function RecoverOne(s: State, pid: Pid, c: CycleId): (r: (State, bool))
    requires Inv(s) && c in s.rows
    ensures Inv(r.0)
  {
    StepKeepsInv(s, Recover(pid, c));
    (Apply(s, Recover(pid, c)), s.lock.None? && RecoveredRow(s.rows, c).1)
  }

  lemma {:induction false} ResumedFacts(rows: map<CycleId, Row>, c: CycleId)
    requires c in rows
    ensures var (r, resumed) := RecoveredRow(rows, c);
            resumed ==> r.status == Created && (Active(rows[c].status) || forall d | d in rows && d != c :: !Active(rows[d].status))
  {
  }

  lemma {:induction false} RecoverOneFacts(s: State, pid: Pid, c: CycleId)
    requires Inv(s) && c in s.rows
    ensures var (s', resumed) := RecoverOne(s, pid, c);
            && s'.rows.Keys == s.rows.Keys && s'.lock == s.lock && s'.order == s.order
            && (forall d | d in s.rows && d != c :: s'.rows[d] == s.rows[d])
            && (resumed ==> s'.rows[c].status == Created && forall d | d in s.rows && d != c :: !Active(s.rows[d].status))
  {
    if Active(s.rows[c].status) { OnlyActive(s, c); }
    ResumedFacts(s.rows, c);
    hide Inv, RecoveredRow;
  }

  /** Recovery of a list of rows, one after the other, with nothing in between. */
  function RecoverAll(s: State, pid: Pid, todo: seq<CycleId>): (r: (State, seq<CycleId>))
    requires Inv(s) && forall c | c in todo :: c in s.rows
    ensures Inv(r.0) && r.0.rows.Keys == s.rows.Keys && r.0.lock == s.lock
  {
    hide Inv, RecoverOne;
    if todo == [] then (s, []) else
    var front, c := todo[..|todo| - 1], todo[|todo| - 1];
    assert c in todo;
    var (before, resumable) := RecoverAll(s, pid, front);
    RecoverOneFacts(before, pid, c);
    var (after, resumed) := RecoverOne(before, pid, c);
    (after, if resumed then resumable + [c] else resumable)
  }

  /** Undisturbed, recovery hands back at most one cycle, and it is the one active cycle. */
  lemma {:induction false} RecoversAtMostOne(s: State, pid: Pid, todo: seq<CycleId>)
    requires Inv(s) && (forall c | c in todo :: c in s.rows) && forall i, j | 0 <= i < j < |todo| :: todo[i] != todo[j]
    ensures var (s', resumable) := RecoverAll(s, pid, todo);
            && |resumable| <= 1
            && forall c | c in resumable :: c in todo && c in s'.rows && s'.rows[c].status == Created
  {
    hide Inv, RecoverOne;
    if todo != [] {
      var front, c := todo[..|todo| - 1], todo[|todo| - 1];
      assert c in todo && c !in front;
      RecoversAtMostOne(s, pid, front);
      var (before, resumable) := RecoverAll(s, pid, front);
      RecoverOneFacts(before, pid, c);
      if resumable != [] { assert resumable[0] in resumable && resumable[0] != c; }
    }
  }

  /** What any processes do around one row of recovery: before it is read, and between its reading and its writing. */
  datatype Others = Others(before: seq<Step>, during: seq<Step>)

  predicate Unfinished(r: Row) { Active(r.status) || LegacyCancelled(r) }

  /** The row as it is now is made CREATED and handed back. */
  predicate HandsBack(rows: map<CycleId, Row>, c: CycleId, read: Row)
    requires c in rows
  {
    && !(read.result.outcome.Some? && !IsSuspendResult(read.result)) && read.inputReady && rows[c].status == read.status
    && !(LegacyCancelled(read) && exists d :: d in rows && d != c && Active(rows[d].status))
  }

  /** One row, read under the lock and written after others have done what needs no lock. */
  function RecoverOneAmid(s: State, pid: Pid, c: CycleId, during: seq<Step>): (r: (State, bool))
    requires Inv(s) && c in s.rows
    ensures Inv(r.0)
  {
    if s.lock.Some? || !Unfinished(s.rows[c]) then (RunSteps(s, during), false) else
    StepKeepsInv(s, Inspect(pid, c));
    var reached := RunSteps(Apply(s, Inspect(pid, c)), during);
    if reached.lock != Some(Hold(pid, c, false, Some(s.rows[c]))) then (reached, false) else
    StepKeepsInv(reached, Conclude(pid));
    (Apply(reached, Conclude(pid)), HandsBack(reached.rows, c, s.rows[c]))
  }

  /** Read and written with nothing in between: the one step. */
  lemma {:induction false} RecoverOneQuietly(s: State, pid: Pid, c: CycleId)
    requires Inv(s) && c in s.rows
    ensures RecoverOneAmid(s, pid, c, []) == RecoverOne(s, pid, c)
  {
    hide Inv, Apply, RecoveredRow, HandsBack, Unfinished;
    KnownIds(s);
    JudgedAsRead(s.rows, c);
    if s.lock.Some? || !Unfinished(s.rows[c]) { LeftAsItIs(s, pid, c); }
    if s.lock.None? && Unfinished(s.rows[c]) {
      StepKeepsInv(s, Inspect(pid, c));
      InspectConclude(s, pid, c);
      InspectHolds(s, pid, c);
      assert RunSteps(Apply(s, Inspect(pid, c)), []) == Apply(s, Inspect(pid, c));
    }
  }

  lemma {:induction false} JudgedAsRead(rows: map<CycleId, Row>, c: CycleId)
    requires c in rows
    ensures Unfinished(rows[c]) ==> HandsBack(rows, c, rows[c]) == RecoveredRow(rows, c).1
    ensures !Unfinished(rows[c]) ==> !RecoveredRow(rows, c).1
  {
  }

  lemma {:induction false} LeftAsItIs(s: State, pid: Pid, c: CycleId)
    requires Known(s) && c in s.rows && (s.lock.Some? || !Unfinished(s.rows[c]))
    ensures Apply(s, Recover(pid, c)) == s
  {
    assert s.rows[c := s.rows[c]] == s.rows;
  }

  lemma {:induction false} InspectHolds(s: State, pid: Pid, c: CycleId)
    requires Known(s) && s.lock.None? && c in s.rows && Unfinished(s.rows[c])
    ensures Apply(s, Inspect(pid, c)) == s.(lock := Some(Hold(pid, c, false, Some(s.rows[c]))))
  {
  }

  /** Recovery as the file lock leaves it: any steps of any process may run before each row is read, and those that need
      no lock between its reading and its writing. */
  function RecoverAmid(s: State, pid: Pid, todo: seq<CycleId>, between: seq<Others>): (r: (State, seq<CycleId>))
    requires Inv(s) && |between| == |todo|
    ensures Inv(r.0)
  {
    hide Inv, RecoverOneAmid, Apply;
    if todo == [] then (s, []) else
    var last := |todo| - 1;
    var (before, resumable) := RecoverAmid(s, pid, todo[..last], between[..last]);
    var reached := RunSteps(before, between[last].before);
    if todo[last] !in reached.rows then (reached, resumable) else
    var (after, resumed) := RecoverOneAmid(reached, pid, todo[last], between[last].during);
    (after, if resumed then resumable + [todo[last]] else resumable)
  }

  /** What was finished when recovery started is never handed back, whatever runs in between. */
  lemma {:induction false} FinishedIsNotHandedBack(s: State, pid: Pid, todo: seq<CycleId>, between: seq<Others>, c: CycleId)
    requires Inv(s) && |between| == |todo| && Finished(s, c)
    ensures var (s', resumable) := RecoverAmid(s, pid, todo, between);
            c !in resumable && Finished(s', c)
  {
    hide Inv, RecoverOneAmid, Apply, Finished;
    if todo != [] {
      var last := |todo| - 1;
      FinishedIsNotHandedBack(s, pid, todo[..last], between[..last], c);
      var before := RecoverAmid(s, pid, todo[..last], between[..last]).0;
      FinishedForever(before, between[last].before, c);
      var reached := RunSteps(before, between[last].before);
      if todo[last] in reached.rows { FinishedIsLeft(reached, pid, todo[last], between[last].during, c); }
    }
  }

  lemma {:induction false} FinishedIsLeft(s: State, pid: Pid, d: CycleId, during: seq<Step>, c: CycleId)
    requires Inv(s) && d in s.rows && Finished(s, c)
    ensures Finished(RecoverOneAmid(s, pid, d, during).0, c)
    ensures c == d ==> !RecoverOneAmid(s, pid, d, during).1
  {
    hide Inv, RunSteps, Apply;
    KnownIds(s);
    if s.lock.Some? || !Unfinished(s.rows[d]) {
      FinishedForever(s, during, c);
    } else {
      StepKeepsInv(s, Inspect(pid, d));
      FinishedStays(s, Inspect(pid, d), c);
      FinishedForever(Apply(s, Inspect(pid, d)), during, c);
      var reached := RunSteps(Apply(s, Inspect(pid, d)), during);
      KnownIds(reached);
      FinishedStays(reached, Conclude(pid), c);
    }
  }

  // ----- how many cycles recovery hands back while others run -----

  /** Rows that could be handed back at some moment. */
  predicate Candidate(r: Row) { (Active(r.status) || LegacyCancelled(r)) && r.inputReady }

  predicate LegacyReady(r: Row) { LegacyCancelled(r) && r.inputReady }

  /** A row that is no candidate, or not a ready legacy one, never becomes one. */
  ghost predicate NothingRevives(s: State, s': State)
  {
    forall c | c in s.rows ::
      && c in s'.rows && (Candidate(s'.rows[c]) ==> Candidate(s.rows[c])) && (LegacyReady(s'.rows[c]) ==> LegacyReady(s.rows[c]))
  }

  lemma {:induction false} StepRevivesNothing(s: State, step: Step)
    requires Inv(s)
    ensures NothingRevives(s, Apply(s, step))
  {
    hide Tiled, NewRow, OneActive;
  }

  lemma {:induction false} RunRevivesNothing(s: State, steps: seq<Step>)
    requires Inv(s)
    ensures NothingRevives(s, RunSteps(s, steps))
  {
    hide Inv, Apply;
    if steps != [] {
      RunRevivesNothing(s, steps[..|steps| - 1]);
      StepRevivesNothing(RunSteps(s, steps[..|steps| - 1]), steps[|steps| - 1]);
    }
  }

  /** One row of the recovery loop: only a candidate is handed back, and then no other row is a candidate but ready legacy ones. */
  lemma {:induction false} RowHandedBack(s: State, pid: Pid, c: CycleId, during: seq<Step>)
    requires Inv(s) && c in s.rows
    ensures var (s', resumed) := RecoverOneAmid(s, pid, c, during);
            && NothingRevives(s, s') && (resumed ==> Candidate(s.rows[c]))
            && (resumed ==> forall d | d in s.rows && d != c && !LegacyReady(s.rows[d]) :: d in s'.rows && !Candidate(s'.rows[d]))
  {
    hide Inv, RunSteps, Apply, NothingRevives, Candidate, LegacyReady, HandsBack;
    if s.lock.Some? || !Unfinished(s.rows[c]) {
      RunRevivesNothing(s, during);
    } else {
      KnownIds(s);
      var inspected := Apply(s, Inspect(pid, c));
      StepKeepsInv(s, Inspect(pid, c));
      var reached := RunSteps(inspected, during);
      StepRevivesNothing(s, Inspect(pid, c));
      RunRevivesNothing(inspected, during);
      StepRevivesNothing(reached, Conclude(pid));
      RevivalJoins(s, inspected, reached);
      KnownIds(reached);
      RevivalJoins(s, reached, Apply(reached, Conclude(pid)));
      if reached.lock == Some(Hold(pid, c, false, Some(s.rows[c]))) {
        HandedBackIsActive(reached, pid, c, s.rows[c]);
        StepKeepsInv(reached, Conclude(pid));
        OthersAreNoCandidates(s, Apply(reached, Conclude(pid)), c);
      }
    }
  }

  lemma {:induction false} RevivalJoins(s: State, s1: State, s2: State)
    requires NothingRevives(s, s1) && NothingRevives(s1, s2)
    ensures NothingRevives(s, s2)
  {
  }

  lemma {:induction false} HandedBackIsActive(s: State, pid: Pid, c: CycleId, read: Row)
    requires Inv(s) && s.lock == Some(Hold(pid, c, false, Some(read)))
    ensures c in s.rows
    ensures HandsBack(s.rows, c, read) ==>
              (Unfinished(read) ==> Candidate(read)) && c in Apply(s, Conclude(pid)).rows && Apply(s, Conclude(pid)).rows[c].status == Created
  {
    hide Tiled;
  }

  /** Beside an active row, only legacy rows can be candidates. */
  lemma {:induction false} OthersAreNoCandidates(s: State, s': State, c: CycleId)
    requires Inv(s') && NothingRevives(s, s')
    ensures c in s'.rows && s'.rows[c].status == Created ==>
              forall d | d in s.rows && d != c && !LegacyReady(s.rows[d]) :: d in s'.rows && !Candidate(s'.rows[d])
  {
    if c in s'.rows && Active(s'.rows[c].status) { OnlyActive(s', c); }
    hide Inv;
  }

  /** No ready legacy row is listed after a row that could be handed back. */
  ghost predicate NoLateLegacy(s: State, todo: seq<CycleId>)
    requires forall c | c in todo :: c in s.rows
  {
    forall i, j | 0 <= i < j < |todo| && Candidate(s.rows[todo[i]]) :: !LegacyReady(s.rows[todo[j]])
  }

  /** Where recovery stands: at most one handed back, and then nothing else can be, but for ready legacy rows. */
  ghost predicate OneBack(s: State, todo: seq<CycleId>, s': State, back: seq<CycleId>)
    requires forall c | c in todo :: c in s.rows
  {
    && |back| <= 1 && NothingRevives(s, s')
    && (back != [] ==> exists i :: 0 <= i < |todo| && todo[i] == back[0] && Candidate(s.rows[todo[i]]))
    && (back != [] ==> forall d | d in s.rows && d != back[0] && !LegacyReady(s.rows[d]) :: d in s'.rows && !Candidate(s'.rows[d]))
  }

  /** With no ready legacy row listed after a candidate, recovery hands back at most one cycle under every interleaving. */
  lemma {:induction false} AtMostOneAmidOthers(s: State, pid: Pid, todo: seq<CycleId>, between: seq<Others>)
    requires Inv(s) && |between| == |todo| && forall i, j | 0 <= i < j < |todo| :: todo[i] != todo[j]
    requires (forall c | c in todo :: c in s.rows) && NoLateLegacy(s, todo)
    ensures |RecoverAmid(s, pid, todo, between).1| <= 1
    ensures OneBack(s, todo, RecoverAmid(s, pid, todo, between).0, RecoverAmid(s, pid, todo, between).1)
  {
    if todo != [] {
      PrefixIsNoLater(s, todo);
      hide Inv, RecoverOneAmid, Apply, RunSteps, NoLateLegacy, NothingRevives, OneBack;
      var last := |todo| - 1;
      AtMostOneAmidOthers(s, pid, todo[..last], between[..last]);
      var (before, back) := RecoverAmid(s, pid, todo[..last], between[..last]);
      var reached := RunSteps(before, between[last].before);
      RunRevivesNothing(before, between[last].before);
      RevivedIsThere(s, todo, before, back, reached);
      var (after, resumed) := RecoverOneAmid(reached, pid, todo[last], between[last].during);
      RowHandedBack(reached, pid, todo[last], between[last].during);
      OneMoreRow(s, todo, before, back, reached, after, resumed);
      AtMostOneBack(s, todo, after, if resumed then back + [todo[last]] else back);
    }
  }

  lemma {:induction false} PrefixIsNoLater(s: State, todo: seq<CycleId>)
    requires todo != [] && (forall c | c in todo :: c in s.rows) && NoLateLegacy(s, todo)
    ensures (forall c | c in todo[..|todo| - 1] :: c in s.rows) && NoLateLegacy(s, todo[..|todo| - 1])
  {
    var front := todo[..|todo| - 1];
    assert forall c | c in front :: c in todo;
    assert forall k | 0 <= k < |front| :: front[k] == todo[k];
  }

  lemma {:induction false} RevivedIsThere(s: State, todo: seq<CycleId>, before: State, back: seq<CycleId>, reached: State)
    requires todo != [] && (forall c | c in todo :: c in s.rows) && (forall c | c in todo[..|todo| - 1] :: c in s.rows)
    requires OneBack(s, todo[..|todo| - 1], before, back) && NothingRevives(before, reached)
    ensures todo[|todo| - 1] in reached.rows
  {
    assert todo[|todo| - 1] in todo;
  }

  lemma {:induction false} AtMostOneBack(s: State, todo: seq<CycleId>, s': State, back: seq<CycleId>)
    requires (forall c | c in todo :: c in s.rows) && OneBack(s, todo, s', back)
    ensures |back| <= 1
  {
  }

  lemma {:induction false} OneMoreRow(s: State, todo: seq<CycleId>, before: State, back: seq<CycleId>, reached: State, after: State, resumed: bool)
    requires todo != [] && (forall i, j | 0 <= i < j < |todo| :: todo[i] != todo[j])
    requires (forall c | c in todo :: c in s.rows) && NoLateLegacy(s, todo) && (forall c | c in todo[..|todo| - 1] :: c in s.rows)
    requires OneBack(s, todo[..|todo| - 1], before, back) && NothingRevives(before, reached) && NothingRevives(reached, after)
    requires var c := todo[|todo| - 1];
             && c in reached.rows && (resumed ==> Candidate(reached.rows[c]))
             && (resumed ==> forall d | d in reached.rows && d != c && !LegacyReady(reached.rows[d]) :: d in after.rows && !Candidate(after.rows[d]))
    ensures OneBack(s, todo, after, if resumed then back + [todo[|todo| - 1]] else back)
  {
    var last, c := |todo| - 1, todo[|todo| - 1];
    assert c in todo;
    if back != [] {
      var i :| 0 <= i < last && todo[..last][i] == back[0] && Candidate(s.rows[todo[..last][i]]);
      assert todo[i] == back[0] && !LegacyReady(s.rows[todo[last]]);
      assert !Candidate(before.rows[c]);
    }
  }

  lemma {:induction false} FrontIsElsewhere(todo: seq<CycleId>)
    requires todo != [] && forall i, j | 0 <= i < j < |todo| :: todo[i] != todo[j]
    ensures todo[|todo| - 1] in todo && forall c | c in todo[..|todo| - 1] :: c in todo && c != todo[|todo| - 1]
  {
    forall c | c in todo[..|todo| - 1] ensures c in todo && c != todo[|todo| - 1] {
      var i :| 0 <= i < |todo| - 1 && todo[i] == c;
    }
  }

  /** What one process does to a created cycle that it runs to completion. */
  function Completion(pid: Pid, c: CycleId): seq<Step> { [Acquire(pid, c), Claim(pid), WriteResult(pid, Completed), Settle(pid, Completed)] }

  lemma {:induction false} FourSteps(s0: State, s1: State, s2: State, s3: State, s4: State, a: Step, b: Step, c: Step, d: Step)
    requires Inv(s0) && Apply(s0, a) == s1 && Known(s1) && Apply(s1, b) == s2
    requires Known(s2) && Apply(s2, c) == s3 && Known(s3) && Apply(s3, d) == s4
    ensures RunSteps(s0, [a, b, c, d]) == s4
  {
    hide Inv, Apply;
    assert [a, b, c, d][..3] == [a, b, c] && [a, b, c][..2] == [a, b] && [a, b][..1] == [a] && [a][..0] == [];
    assert RunSteps(s0, []) == s0;
    assert RunSteps(s0, [a]) == s1;
    assert RunSteps(s0, [a, b]) == s2;
    assert RunSteps(s0, [a, b, c]) == s3;
  }

  lemma {:induction false} CompletionCompletes(s: State, pid: Pid, c: CycleId)
    requires Inv(s) && s.lock.None? && c in s.rows && s.rows[c].status == Created
    ensures var s' := RunSteps(s, Completion(pid, c));
            && s'.lock.None? && s'.rows.Keys == s.rows.Keys && s'.rows[c].status == Completed
            && forall d | d in s.rows && d != c :: s'.rows[d] == s.rows[d]
  {
    hide Inv, RunSteps;
    KnownIds(s);
    var running := s.rows[c].(status := Running, owner := Some(pid));
    var written := running.(result := ResultFile(Some(Completed), NoCode));
    var s1 := s.(lock := Some(Hold(pid, c, false, None)));
    var s2 := s.(rows := s.rows[c := running], lock := Some(Hold(pid, c, true, None)));
    var s3 := s.(rows := s.rows[c := running][c := written], lock := Some(Hold(pid, c, true, None)));
    var s4 := s.(rows := s.rows[c := running][c := written][c := written.(status := Completed, owner := None)], lock := None);
    FourSteps(s, s1, s2, s3, s4, Acquire(pid, c), Claim(pid), WriteResult(pid, Completed), Settle(pid, Completed));
  }

  lemma {:induction false} LegacyRowAlone(s: State, pid: Pid, d: CycleId)
    requires Inv(s) && s.lock.None? && d in s.rows && LegacyReady(s.rows[d])
    requires forall e | e in s.rows :: !Active(s.rows[e].status)
    ensures RecoverOne(s, pid, d).1
  {
    hide Inv;
  }

  function Quietly(n: nat): (between: seq<Others>)
    ensures |between| == n && forall k | 0 <= k < n :: between[k] == Others([], [])
  {
    seq(n, _ => Others([], []))
  }

  lemma {:induction false} QuietlyIsUndisturbed(s: State, pid: Pid, todo: seq<CycleId>)
    requires Inv(s) && forall c | c in todo :: c in s.rows
    ensures RecoverAmid(s, pid, todo, Quietly(|todo|)) == RecoverAll(s, pid, todo)
  {
    hide Inv, RecoverOne, RecoverOneAmid, Apply;
    if todo != [] {
      var last := |todo| - 1;
      assert forall c | c in todo[..last] :: c in todo;
      QuietlyIsUndisturbed(s, pid, todo[..last]);
      assert Quietly(|todo|)[..last] == Quietly(last);
      var before := RecoverAll(s, pid, todo[..last]).0;
      assert RunSteps(before, []) == before && todo[last] in todo;
      RecoverOneQuietly(before, pid, todo[last]);
    }
  }

  lemma {:induction false} NotResumedIsInactive(s: State, pid: Pid, c: CycleId)
    requires Inv(s) && c in s.rows
    ensures var (s', resumed) := RecoverOne(s, pid, c); !resumed && Active(s'.rows[c].status) ==> Active(s.rows[c].status)
  {
    hide Tiled;
  }

  /** Undisturbed recovery leaves unlisted rows alone, and while it hands nothing back it makes nothing active. */
  lemma {:induction false} UndisturbedFacts(s: State, pid: Pid, todo: seq<CycleId>)
    requires Inv(s) && (forall c | c in todo :: c in s.rows)
    ensures var (s', back) := RecoverAll(s, pid, todo);
            && (forall d | d in s.rows && d !in todo :: s'.rows[d] == s.rows[d])
            && (back == [] ==> forall d | d in s.rows && Active(s'.rows[d].status) :: Active(s.rows[d].status))
  {
    hide Inv, Apply;
    if todo != [] {
      var last := |todo| - 1;
      assert forall c | c in todo[..last] :: c in todo;
      hide RecoverOne;
      UndisturbedFacts(s, pid, todo[..last]);
      var before := RecoverAll(s, pid, todo[..last]).0;
      assert todo[last] in todo;
      RecoverOneFacts(before, pid, todo[last]);
      NotResumedIsInactive(before, pid, todo[last]);
    }
  }

  lemma {:induction false} StillRecoverable(rows: map<CycleId, Row>, rows': map<CycleId, Row>, c: CycleId)
    requires rows'.Keys == rows.Keys && c in rows && rows'[c] == rows[c] && RecoveredRow(rows, c).1
    requires forall d | d in rows && Active(rows'[d].status) :: Active(rows[d].status)
    ensures RecoveredRow(rows', c).1
  {
  }

  /** If some listed row could be handed back at the start, undisturbed recovery hands one back. */
  lemma {:induction false} SomeoneIsHandedBack(s: State, pid: Pid, todo: seq<CycleId>, i: nat)
    requires Inv(s) && s.lock.None? && (forall c | c in todo :: c in s.rows) && (forall i, j | 0 <= i < j < |todo| :: todo[i] != todo[j])
    requires i < |todo| && RecoveredRow(s.rows, todo[i]).1
    ensures RecoverAll(s, pid, todo).1 != []
  {
    hide Inv, RecoveredRow, Apply, RecoverAll;
    var last := |todo| - 1;
    FrontIsElsewhere(todo);
    UndisturbedLast(s, pid, todo);
    if i < last {
      SomeoneIsHandedBack(s, pid, todo[..last], i);
    } else {
      UndisturbedFacts(s, pid, todo[..last]);
      var (before, back) := RecoverAll(s, pid, todo[..last]);
      if back == [] { StillRecoverable(s.rows, before.rows, todo[last]); }
    }
  }

  lemma {:induction false} UndisturbedLast(s: State, pid: Pid, todo: seq<CycleId>)
    requires Inv(s) && todo != [] && (forall c | c in todo :: c in s.rows) && (forall c | c in todo[..|todo| - 1] :: c in s.rows)
    ensures var (before, back) := RecoverAll(s, pid, todo[..|todo| - 1]);
            && todo[|todo| - 1] in before.rows && back <= RecoverAll(s, pid, todo).1
            && (RecoverOne(before, pid, todo[|todo| - 1]).1 ==> RecoverAll(s, pid, todo).1 != [])
  {
    hide Inv, RecoverOne;
    assert todo[|todo| - 1] in todo;
  }

  lemma {:induction false} BackGrows(s: State, pid: Pid, todo: seq<CycleId>, between: seq<Others>, n: nat)
    requires Inv(s) && |between| == |todo| && n <= |todo|
    ensures RecoverAmid(s, pid, todo[..n], between[..n]).1 <= RecoverAmid(s, pid, todo, between).1
  {
    hide Inv, RecoverOneAmid, Apply;
    if n == |todo| {
      assert todo[..n] == todo && between[..n] == between;
    } else {
      var last := |todo| - 1;
      BackGrows(s, pid, todo[..last], between[..last], n);
      assert todo[..last][..n] == todo[..n] && between[..last][..n] == between[..n];
    }
  }

  /** Others complete c just before the row at j is looked at. */
  function CompletingBefore(other: Pid, c: CycleId, j: nat, n: nat): (between: seq<Others>)
    requires j < n
    ensures |between| == n
  {
    Quietly(j) + [Others(Completion(other, c), [])] + Quietly(n - j - 1)
  }

  /** Undisturbed recovery of a list with a recoverable row: exactly one is handed back, and it is the active one. */
  lemma {:induction false} OneIsHandedBack(s: State, pid: Pid, todo: seq<CycleId>, i: nat) returns (c: CycleId)
    requires Inv(s) && s.lock.None? && (forall c | c in todo :: c in s.rows) && (forall i, j | 0 <= i < j < |todo| :: todo[i] != todo[j])
    requires i < |todo| && RecoveredRow(s.rows, todo[i]).1
    ensures var (s', back) := RecoverAll(s, pid, todo);
            && back == [c] && c in todo && c in s'.rows && s'.rows[c].status == Created && s'.lock.None?
            && s'.rows.Keys == s.rows.Keys && (forall d | d in s.rows && d !in todo :: s'.rows[d] == s.rows[d])
  {
    hide Inv, RecoveredRow, RecoverAll;
    SomeoneIsHandedBack(s, pid, todo, i);
    RecoversAtMostOne(s, pid, todo);
    UndisturbedFacts(s, pid, todo);
    c := RecoverAll(s, pid, todo).1[0];
    assert c in RecoverAll(s, pid, todo).1;
  }

  lemma {:induction false} LegacyRowAfterCompletion(s: State, pid: Pid, other: Pid, c: CycleId, d: CycleId)
    requires Inv(s) && s.lock.None? && c in s.rows && d in s.rows && c != d && s.rows[c].status == Created && LegacyReady(s.rows[d])
    ensures d in RunSteps(s, Completion(other, c)).rows && RecoverOneAmid(RunSteps(s, Completion(other, c)), pid, d, []).1
  {
    hide Inv, RunSteps, Completion, RecoverOne, RecoverOneAmid, LegacyReady;
    OnlyActive(s, c);
    CompletionCompletes(s, other, c);
    LegacyRowAlone(RunSteps(s, Completion(other, c)), pid, d);
    RecoverOneQuietly(RunSteps(s, Completion(other, c)), pid, d);
  }

  lemma {:induction false} LastRowAmid(s: State, pid: Pid, todo: seq<CycleId>, between: seq<Others>, d: CycleId, others: Others)
    requires Inv(s) && |between| == |todo|
    ensures var (before, back) := RecoverAmid(s, pid, todo, between);
            var reached, result := RunSteps(before, others.before), RecoverAmid(s, pid, todo + [d], between + [others]);
            if d !in reached.rows then result.0 == reached && result.1 == back
            else
              var (after, resumed) := RecoverOneAmid(reached, pid, d, others.during);
              result.0 == after && result.1 == if resumed then back + [d] else back
  {
    hide Inv, RecoverOneAmid, RunSteps;
    assert (todo + [d])[..|todo|] == todo && (between + [others])[..|between|] == between;
  }

  /** The other half, for any list: where some row can be handed back and a ready legacy row is listed after it, two
      are, when another process completes the first one handed back just before the legacy row is looked at. */
  lemma {:induction false} LateLegacyHandsBackTwo(s: State, pid: Pid, other: Pid, todo: seq<CycleId>, i: nat, j: nat) returns (c: CycleId)
    requires Inv(s) && s.lock.None? && (forall c | c in todo :: c in s.rows) && (forall i, j | 0 <= i < j < |todo| :: todo[i] != todo[j])
    requires i < j < |todo| && RecoveredRow(s.rows, todo[i]).1 && LegacyReady(s.rows[todo[j]])
    ensures c in todo && |RecoverAmid(s, pid, todo, CompletingBefore(other, c, j, |todo|)).1| >= 2
  {
    hide Inv, RecoverOne, RecoverOneAmid, RecoveredRow, RunSteps, Completion, LegacyReady, RecoverAll, RecoverAmid;
    var front, d := todo[..j], todo[j];
    assert forall e | e in front :: e in todo;
    c := OneIsHandedBack(s, pid, front, i);
    QuietlyIsUndisturbed(s, pid, front);
    assert d in todo && d !in front;
    LegacyRowAfterCompletion(RecoverAll(s, pid, front).0, pid, other, c, d);
    LastRowAmid(s, pid, front, Quietly(j), d, Others(Completion(other, c), []));
    var between := CompletingBefore(other, c, j, |todo|);
    assert between[..j + 1] == Quietly(j) + [Others(Completion(other, c), [])] && todo[..j + 1] == front + [d];
    BackGrows(s, pid, todo, between, j + 1);
  }

  lemma {:induction false} RunStepsJoin(s: State, a: seq<Step>, b: seq<Step>)
    requires Inv(s)
    ensures RunSteps(s, a + b) == RunSteps(RunSteps(s, a), b)
  {
    hide Inv, Apply;
    if b == [] {
      assert a + b == a;
    } else {
      var last := |b| - 1;
      RunStepsJoin(s, a, b[..last]);
      assert (a + b)[..|a + b| - 1] == a + b[..last];
    }
  }

  /** What runs before recovery starts runs before its first row is looked at. */
  function Sooner(steps: seq<Step>, between: seq<Others>): (b: seq<Others>)
    requires between != []
    ensures |b| == |between|
  {
    [Others(steps + between[0].before, between[0].during)] + between[1..]
  }

  lemma {:induction false} StepsBeforeRecovery(s: State, pid: Pid, todo: seq<CycleId>, steps: seq<Step>, between: seq<Others>)
    requires Inv(s) && |between| == |todo| && todo != []
    ensures RecoverAmid(s, pid, todo, Sooner(steps, between)) == RecoverAmid(RunSteps(s, steps), pid, todo, between)
  {
    hide Inv, RecoverOneAmid, Apply, RunSteps;
    var last := |todo| - 1;
    if last == 0 {
      RunStepsJoin(s, steps, between[0].before);
    } else {
      StepsBeforeRecovery(s, pid, todo[..last], steps, between[..last]);
      assert Sooner(steps, between)[..last] == Sooner(steps, between[..last]);
    }
  }

  lemma {:induction false} OneStep(s: State, step: Step)
    requires Inv(s)
    ensures RunSteps(s, [step]) == Apply(s, step)
  {
    hide Inv, Apply;
    assert [step][..0] == [] && RunSteps(s, []) == s;
  }

  /** Only a is changed, no lock is held, and no other row is active. */
  ghost predicate AllButOneRest(s: State, s': State, a: CycleId)
  {
    && s'.lock.None? && s'.rows.Keys == s.rows.Keys && a in s.rows
    && forall d | d in s.rows && d != a :: s'.rows[d] == s.rows[d] && !Active(s.rows[d].status)
  }

  /** Others can get the active cycle a out of the way. */
  lemma {:induction false} ActiveRowCanFinish(s: State, other: Pid, a: CycleId) returns (steps: seq<Step>)
    requires Inv(s) && s.lock.None? && a in s.rows && Active(s.rows[a].status)
    ensures a in RunSteps(s, steps).rows && AllButOneRest(s, RunSteps(s, steps), a) && !Active(RunSteps(s, steps).rows[a].status)
  {
    hide Inv, RunSteps, Apply, Completion, AllButOneRest;
    KnownIds(s);
    RecoveredIsCreatedOrDone(s, other, a);
    OneStep(s, Recover(other, a));
    steps := [Recover(other, a)];
    var s' := RunSteps(s, steps);
    if s'.rows[a].status == Created {
      CompletionRests(s, s', other, a);
      RunStepsJoin(s, steps, Completion(other, a));
      steps := steps + Completion(other, a);
    }
  }

  lemma {:induction false} CompletionRests(s: State, s': State, pid: Pid, a: CycleId)
    requires Inv(s') && AllButOneRest(s, s', a) && a in s'.rows && s'.rows[a].status == Created
    ensures a in RunSteps(s', Completion(pid, a)).rows
    ensures AllButOneRest(s, RunSteps(s', Completion(pid, a)), a) && !Active(RunSteps(s', Completion(pid, a)).rows[a].status)
  {
    hide Inv, RunSteps, Completion;
    CompletionCompletes(s', pid, a);
  }

  lemma {:induction false} RecoveredIsCreatedOrDone(s: State, pid: Pid, a: CycleId)
    requires Inv(s) && s.lock.None? && a in s.rows && Active(s.rows[a].status)
    ensures var s' := Apply(s, Recover(pid, a));
            AllButOneRest(s, s', a) && a in s'.rows && (s'.rows[a].status == Created || Terminal(s'.rows[a].status))
  {
    OnlyActive(s, a);
    assert HonestResult(s.rows[a]);
    hide Inv;
  }

  /** Its own process can suspend an unfinished row, or it is suspended already; then recovery hands it back. */
  lemma {:induction false} UnfinishedRowCanWait(s: State, other: Pid, c: CycleId) returns (steps: seq<Step>)
    requires Inv(s) && s.lock.None? && c in s.rows && Active(s.rows[c].status) && s.rows[c].inputReady
    ensures var s' := RunSteps(s, steps);
            && s'.lock.None? && s'.rows.Keys == s.rows.Keys && RecoveredRow(s'.rows, c).1
            && forall d | d in s.rows && d != c :: s'.rows[d] == s.rows[d]
  {
    assert HonestResult(s.rows[c]);
    hide Inv;
    if s.rows[c].status == Suspended {
      steps := [];
    } else {
      var owner := if s.rows[c].owner.Some? then s.rows[c].owner.value else other;
      hide RunSteps, RecoveredRow;
      OneStep(s, SuspendTask(owner, c));
      SuspendedIsHandedBack(s, owner, c);
      hide Apply;
      steps := [SuspendTask(owner, c)];
    }
  }

  lemma {:induction false} SuspendedIsHandedBack(s: State, pid: Pid, c: CycleId)
    requires Known(s) && s.lock.None? && c in s.rows && Active(s.rows[c].status) && s.rows[c].inputReady
    requires s.rows[c].status != Suspended && (s.rows[c].owner.None? || s.rows[c].owner.value == pid)
    ensures var s' := Apply(s, SuspendTask(pid, c));
            && s'.lock.None? && s'.rows.Keys == s.rows.Keys && RecoveredRow(s'.rows, c).1
            && forall d | d in s.rows && d != c :: s'.rows[d] == s.rows[d]
  {
  }

  /** From any state, others can bring a candidate c to where recovery hands it back, without touching the legacy row d. */
  lemma {:induction false} CandidateCanBeHandedBack(s: State, other: Pid, c: CycleId, d: CycleId) returns (steps: seq<Step>)
    requires Inv(s) && s.lock.None? && c in s.rows && d in s.rows && c != d && Candidate(s.rows[c]) && LegacyReady(s.rows[d])
    ensures var s' := RunSteps(s, steps);
            s'.lock.None? && s'.rows.Keys == s.rows.Keys && RecoveredRow(s'.rows, c).1 && s'.rows[d] == s.rows[d]
  {
    hide Inv;
    if Active(s.rows[c].status) {
      hide RunSteps, RecoveredRow;
      steps := UnfinishedRowCanWait(s, other, c);
    } else if a :| a in s.rows && Active(s.rows[a].status) {
      hide RunSteps;
      steps := ActiveRowCanFinish(s, other, a);
    } else {
      steps := [];
    }
  }

  /** A candidate listed before a ready legacy row: under some interleaving both are handed back. */
  lemma {:induction false} LateLegacyCanHandBackTwo(s: State, pid: Pid, other: Pid, todo: seq<CycleId>, i: nat, j: nat) returns (between: seq<Others>)
    requires Inv(s) && (forall c | c in todo :: c in s.rows) && (forall i, j | 0 <= i < j < |todo| :: todo[i] != todo[j])
    requires i < j < |todo| && Candidate(s.rows[todo[i]]) && LegacyReady(s.rows[todo[j]])
    ensures |between| == |todo| && |RecoverAmid(s, pid, todo, between).1| >= 2
  {
    var holder := if s.lock.Some? then s.lock.value.pid else other;
    var free := s.(lock := None);
    OneStep(s, Crash(holder));
    KnownIds(s);
    assert RunSteps(s, [Crash(holder)]) == free && todo[i] in todo && todo[j] in todo;
    hide Inv, RecoverOne, RecoverOneAmid, RecoveredRow, RunSteps, Completion, LegacyReady, Candidate, RecoverAmid, Sooner, CompletingBefore;
    var steps := CandidateCanBeHandedBack(free, other, todo[i], todo[j]);
    var s' := RunSteps(free, steps);
    var c := LateLegacyHandsBackTwo(s', pid, other, todo, i, j);
    RunStepsJoin(s, [Crash(holder)], steps);
    StepsBeforeRecovery(s, pid, todo, [Crash(holder)] + steps, CompletingBefore(other, c, j, |todo|));
    between := Sooner([Crash(holder)] + steps, CompletingBefore(other, c, j, |todo|));
  }

  /** Recovery hands back at most one cycle under every interleaving exactly when no ready legacy row is listed after a
      row that could be handed back. */
  lemma {:induction false} AtMostOneExactly(s: State, pid: Pid, todo: seq<CycleId>)
    requires Inv(s) && (forall c | c in todo :: c in s.rows) && forall i, j | 0 <= i < j < |todo| :: todo[i] != todo[j]
    ensures (forall between | |between| == |todo| :: |RecoverAmid(s, pid, todo, between).1| <= 1) <==> NoLateLegacy(s, todo)
  {
    hide Inv, RecoverAmid;
    if NoLateLegacy(s, todo) {
      forall between | |between| == |todo| ensures |RecoverAmid(s, pid, todo, between).1| <= 1 {
        AtMostOneAmidOthers(s, pid, todo, between);
      }
    } else {
      var i, j :| 0 <= i < j < |todo| && Candidate(s.rows[todo[i]]) && LegacyReady(s.rows[todo[j]]);
      var between := LateLegacyCanHandBackTwo(s, pid, pid + 1, todo, i, j);
      assert |RecoverAmid(s, pid, todo, between).1| >= 2;
    }
  }

  // ----- what recovery decides -----

  /** The row names an outcome that is no mere interruption. */
  predicate NamesOutcome(r: Row) { r.result.outcome.Some? && r.result.code != CancelledCode && r.result.code != SuspendedCode }

  /** What recovery writes, by what it read and by what it finds when it writes: an outcome already named; CREATED, where
      the input is ready, the status has not changed and, for a legacy row, nothing else is active; otherwise, for want of
      input, STAGE_COMPLETED exactly when there were artifacts. */
  ghost predicate Decided(read: Row, rows: map<CycleId, Row>, c: CycleId, r: Row, resumed: bool)
    requires c in rows
  {
    && (NamesOutcome(read) ==> !resumed && r == rows[c].(status := read.result.outcome.value, owner := None))
    && (!NamesOutcome(read) && read.inputReady ==>
          && (resumed <==> rows[c].status == read.status && !(read.status == WaitingUser && exists d :: d in rows && d != c && Active(rows[d].status)))
          && r == if resumed then rows[c].(status := Created, owner := None) else rows[c])
    && (!NamesOutcome(read) && !read.inputReady ==>
          && !resumed && r.owner.None? && (r.status == StageCompleted <==> read.stageArtifacts) && (r.status == Failed <==> !read.stageArtifacts)
          && r.result.outcome == Some(r.status) && r.first == rows[c].first && r.last == rows[c].last && r.stageArtifacts == rows[c].stageArtifacts)
  }

  /** One row of recovery, whatever others do meanwhile, when the lock was free, the row unfinished and the lock kept. */
  lemma {:induction false} RecoveryDecides(s: State, pid: Pid, c: CycleId, during: seq<Step>, reached: State)
    requires Inv(s) && c in s.rows && s.lock.None? && Unfinished(s.rows[c])
    requires Inv(s.(lock := Some(Hold(pid, c, false, Some(s.rows[c])))))
    requires reached == RunSteps(s.(lock := Some(Hold(pid, c, false, Some(s.rows[c])))), during)
    requires reached.lock == Some(Hold(pid, c, false, Some(s.rows[c])))
    ensures var (s', resumed) := RecoverOneAmid(s, pid, c, during);
            && c in reached.rows && s'.lock.None? && s'.order == reached.order && s'.rows.Keys == reached.rows.Keys
            && (forall d | d in reached.rows && d != c :: s'.rows[d] == reached.rows[d])
            && Decided(s.rows[c], reached.rows, c, s'.rows[c], resumed)
  {
    hide Inv, RunSteps, Decided;
    KnownIds(s);
    KnownIds(reached);
    InspectHolds(s, pid, c);
    HandedBackIsActive(reached, pid, c, s.rows[c]);
    DecidedAsWritten(reached.rows, c, s.rows[c]);
    hide HandsBack, ConcludedRow;
  }

  lemma {:induction false} DecidedAsWritten(rows: map<CycleId, Row>, c: CycleId, read: Row)
    requires c in rows && Unfinished(read)
    ensures Decided(read, rows, c, ConcludedRow(rows, c, read), HandsBack(rows, c, read))
  {
  }

  /** Undisturbed, the same, on the row as it is. */
  lemma {:induction false} RecoverDecides(s: State, pid: Pid, c: CycleId)
    requires Inv(s) && c in s.rows && s.lock.None? && Unfinished(s.rows[c])
    ensures var (s', resumed) := RecoverOne(s, pid, c);
            s'.rows.Keys == s.rows.Keys && Decided(s.rows[c], s.rows, c, s'.rows[c], resumed)
  {
    hide Inv, Decided, RecoveredRow, ConcludedRow;
    KnownIds(s);
    JudgedAsRead(s.rows, c);
    DecidedAsWritten(s.rows, c, s.rows[c]);
    InspectHolds(s, pid, c);
    InspectConclude(s, pid, c);
    StepKeepsInv(s, Inspect(pid, c));
    hide HandsBack;
  }

  /** Artifacts were saved for the cycle, by a process that had claimed it. */
  ghost predicate ArtifactsSaved(steps: seq<Step>, c: CycleId)
  {
    exists k :: SavesArtifacts(steps, k, c)
  }

  ghost predicate SavesArtifacts(steps: seq<Step>, k: int, c: CycleId)
  {
    && 0 <= k < |steps| && steps[k].Save? && steps[k].artifacts && Inv(EMPTY)
    && var s := RunSteps(EMPTY, steps[..k]); Holds(s, steps[k].pid, true) && s.lock.value.cycle == c
  }

  /** A process that had claimed the cycle wrote the outcome itself. */
  ghost predicate StageWritten(steps: seq<Step>, c: CycleId)
  {
    exists k :: WritesStage(steps, k, c)
  }

  ghost predicate WritesStage(steps: seq<Step>, k: int, c: CycleId)
  {
    && 0 <= k < |steps| && steps[k].WriteResult? && steps[k].outcome == StageCompleted && Inv(EMPTY)
    && var s := RunSteps(EMPTY, steps[..k]); Holds(s, steps[k].pid, true) && s.lock.value.cycle == c
  }

  predicate ShowsStage(r: Row) { r.status == StageCompleted || r.result.outcome == Some(StageCompleted) }

  /** What a row shows of artifacts and of stage completion goes back to a step that saved or wrote it. */
  ghost predicate RowEarned(steps: seq<Step>, c: CycleId, r: Row)
  {
    (r.stageArtifacts ==> ArtifactsSaved(steps, c)) && (ShowsStage(r) ==> ArtifactsSaved(steps, c) || StageWritten(steps, c))
  }

  ghost predicate Earned(steps: seq<Step>, s: State)
  {
    && (forall c | c in s.rows :: RowEarned(steps, c, s.rows[c]))
    && (s.lock.Some? && s.lock.value.seen.Some? ==> RowEarned(steps, s.lock.value.cycle, s.lock.value.seen.value))
  }

  lemma {:induction false} EarnedLater(steps: seq<Step>, c: CycleId)
    requires steps != []
    ensures ArtifactsSaved(steps[..|steps| - 1], c) ==> ArtifactsSaved(steps, c)
    ensures StageWritten(steps[..|steps| - 1], c) ==> StageWritten(steps, c)
  {
    hide Inv, RunSteps;
    var front := steps[..|steps| - 1];
    if ArtifactsSaved(front, c) {
      var k :| SavesArtifacts(front, k, c);
      assert front[..k] == steps[..k] && front[k] == steps[k];
      assert SavesArtifacts(steps, k, c);
    }
    if StageWritten(front, c) {
      var k :| WritesStage(front, k, c);
      assert front[..k] == steps[..k] && front[k] == steps[k];
      assert WritesStage(steps, k, c);
    }
  }

  /** What one step can add: artifacts only by saving them, a shown stage completion only by writing it or by closing a
      row that has, or was read with, artifacts or that outcome. */
  ghost predicate AddsOnly(s: State, step: Step, s': State, c: CycleId, r: Row)
  {
    var mine := step.Save? || step.WriteResult?;
    var held := mine && Holds(s, step.pid, true) && s.lock.value.cycle == c;
    var seen := s.lock.Some? && s.lock.value.seen.Some? && s.lock.value.cycle == c;
    && (r.stageArtifacts ==> (c in s.rows && s.rows[c].stageArtifacts) || (held && step.Save? && step.artifacts))
    && (ShowsStage(r) ==>
          || (c in s.rows && (ShowsStage(s.rows[c]) || s.rows[c].stageArtifacts))
          || (seen && (ShowsStage(s.lock.value.seen.value) || s.lock.value.seen.value.stageArtifacts))
          || (held && step.WriteResult? && step.outcome == StageCompleted))
  }

  lemma {:induction false} StepAddsOnly(s: State, step: Step, c: CycleId)
    requires Inv(s) && c in Apply(s, step).rows
    ensures AddsOnly(s, step, Apply(s, step), c, Apply(s, step).rows[c])
  {
    hide Tiled, OneActive, HoldIsHonest, AnyActive, MaxLast;
  }

  lemma {:induction false} StepSees(s: State, step: Step)
    requires Inv(s)
    ensures var lock := Apply(s, step).lock;
            lock.Some? && lock.value.seen.Some? ==>
              lock == s.lock || (lock.value.cycle in s.rows && lock.value.seen.value == s.rows[lock.value.cycle])
  {
    hide Inv, NewRow, RecoveredRow, ConcludedRow, SuspendedRow, FailedRow;
    KnownIds(s);
  }

  /** Over every interleaving from an empty store: a cycle is STAGE_COMPLETED, or has artifacts, only if a process that had
      claimed it saved artifacts or wrote that outcome before. */
  lemma {:induction false} StageIsEarned(steps: seq<Step>)
    ensures Inv(EMPTY) && Earned(steps, RunSteps(EMPTY, steps))
  {
    assert Inv(EMPTY);
    if steps == [] { return; }
    var front, step := steps[..|steps| - 1], steps[|steps| - 1];
    hide Inv, Apply, RowEarned;
    StageIsEarned(front);
    var s := RunSteps(EMPTY, front);
    KnownIds(s);
    forall c | c in Apply(s, step).rows ensures RowEarned(steps, c, Apply(s, step).rows[c]) {
      StepAddsOnly(s, step, c);
      EarnedByStep(steps, s, c, Apply(s, step).rows[c]);
    }
    StepSees(s, step);
    var lock := Apply(s, step).lock;
    if lock.Some? && lock.value.seen.Some? {
      var c := lock.value.cycle;
      EarnedLater(steps, c);
      if c in s.rows && RowEarned(front, c, s.rows[c]) { EarnedStays(steps, c, s.rows[c]); }
      if lock == s.lock { EarnedStays(steps, c, s.lock.value.seen.value); }
    }
  }

  lemma {:induction false} EarnedStays(steps: seq<Step>, c: CycleId, r: Row)
    requires steps != [] && RowEarned(steps[..|steps| - 1], c, r)
    ensures RowEarned(steps, c, r)
  {
    hide ArtifactsSaved, StageWritten;
    EarnedLater(steps, c);
  }

  lemma {:induction false} EarnedByStep(steps: seq<Step>, s: State, c: CycleId, r: Row)
    requires steps != [] && Inv(EMPTY) && s == RunSteps(EMPTY, steps[..|steps| - 1]) && Earned(steps[..|steps| - 1], s)
    requires Known(s) && AddsOnly(s, steps[|steps| - 1], Apply(s, steps[|steps| - 1]), c, r)
    ensures RowEarned(steps, c, r)
  {
    hide Inv, RunSteps, Apply, ArtifactsSaved, StageWritten;
    var last := |steps| - 1;
    EarnedLater(steps, c);
    StepEarns(steps, s, c);
  }

  lemma {:induction false} StepEarns(steps: seq<Step>, s: State, c: CycleId)
    requires steps != [] && Inv(EMPTY) && s == RunSteps(EMPTY, steps[..|steps| - 1])
    ensures var step := steps[|steps| - 1];
            && (step.Save? && step.artifacts && Holds(s, step.pid, true) && s.lock.value.cycle == c ==> ArtifactsSaved(steps, c))
            && (step.WriteResult? && step.outcome == StageCompleted && Holds(s, step.pid, true) && s.lock.value.cycle == c ==> StageWritten(steps, c))
  {
    hide Inv, RunSteps;
    var last, step := |steps| - 1, steps[|steps| - 1];
    if step.Save? && step.artifacts && Holds(s, step.pid, true) && s.lock.value.cycle == c { assert SavesArtifacts(steps, last, c); }
    if step.WriteResult? && step.outcome == StageCompleted && Holds(s, step.pid, true) && s.lock.value.cycle == c {
      assert WritesStage(steps, last, c);
    }
  }

  /** Artifacts once saved stay, so that no recovery can close their cycle as failed for want of them. */
  lemma {:induction false} ArtifactsStay(s: State, step: Step, c: CycleId)
    requires Inv(s) && c in s.rows && s.rows[c].stageArtifacts
    ensures c in Apply(s, step).rows && Apply(s, step).rows[c].stageArtifacts
    ensures step.Save? && step.artifacts && Holds(s, step.pid, true) && s.lock.value.cycle in s.rows ==>
              Apply(s, step).rows[s.lock.value.cycle].stageArtifacts
  {
    hide Tiled, OneActive, HoldIsHonest, AnyActive, MaxLast;
  }

  // ----- what the other steps decide -----

  /** A cycle is created exactly when nothing is unfinished, the day has none yet and a day has passed since the last
      period; the period ends the day before, begins the day after the last one or, for the first cycle, `cycleDays` days
      before or on day 0, and what could not be prepared is closed at once. */
  lemma {:induction false} CreatedPeriod(s: State, day: int, cycleDays: nat, prepared: bool)
    requires Inv(s)
    ensures var row := NewRow(s, day, cycleDays, prepared);
            var begin := if s.order != [] && s.order[|s.order| - 1] in s.rows then s.rows[s.order[|s.order| - 1]].last + 1
                         else if day - cycleDays > 0 then day - cycleDays else 0;
            && (row.Some? <==> (forall c | c in s.rows :: Terminal(s.rows[c].status) && s.rows[c].trigger != day) && begin < day)
            && (row.Some? ==>
                  && row.value.first == begin && row.value.last + 1 == day == row.value.trigger && row.value.owner.None?
                  && row.value.status == (if prepared then Created else Failed) && row.value.inputReady == prepared && !row.value.stageArtifacts)
  {
    MaxIsLast(s.rows, s.order);
    if s.order != [] { assert s.order[|s.order| - 1] in s.order; }
    hide MaxLast, Tiled, OneActive, HoldIsHonest;
  }

  /** What a process does to the cycle it has claimed: saving keeps it running and its own; a result is written before it is
      settled, and settling takes the outcome written; a suspended run leaves no outcome; settling and suspending give the
      claim and the lock back. */
  lemma {:induction false} RunnerSteps(s: State, pid: Pid, artifacts: bool, outcome: Status)
    requires Inv(s) && Holds(s, pid, true) && s.lock.value.cycle in s.rows
    ensures var c := s.lock.value.cycle;
            var r := s.rows[c];
            && Apply(s, Save(pid, artifacts)) == s.(rows := s.rows[c := r.(stageArtifacts := r.stageArtifacts || artifacts)])
            && (Terminal(outcome) ==> Apply(s, WriteResult(pid, outcome)) == s.(rows := s.rows[c := r.(result := ResultFile(Some(outcome), NoCode))]))
            && Apply(s, Settle(pid, outcome)) == (if r.result != ResultFile(Some(outcome), NoCode) then s
                 else s.(rows := s.rows[c := r.(status := outcome, owner := None)], lock := None))
            && Apply(s, SuspendRun(pid)) ==
                 s.(rows := s.rows[c := r.(status := Suspended, owner := None, result := ResultFile(None, SuspendedCode))], lock := None)
  {
    hide Tiled, OneActive;
    assert s.rows[s.lock.value.cycle].status == Running;
  }

  /** A task of a process that does not run a cycle may suspend it only before it runs or as its owner, and may close it as
      failed under the same guard; it leaves everything else alone. */
  lemma {:induction false} TaskTouches(s: State, pid: Pid, c: CycleId, suspend: bool)
    requires Inv(s) && c in s.rows
    ensures var step, r := if suspend then SuspendTask(pid, c) else FailTask(pid, c), s.rows[c];
            var s' := Apply(s, step);
            var foreign := r.status == Running && r.owner.Some? && r.owner.value != pid;
            var holding := s.lock.Some? && s.lock.value.pid == pid;
            && s'.lock == s.lock && s'.order == s.order && s'.rows.Keys == s.rows.Keys && (forall d | d in s.rows && d != c :: s'.rows[d] == s.rows[d])
            && (holding || foreign || !Active(r.status) ==> s'.rows[c] == r)
            && (!holding && !foreign && Active(r.status) ==>
                  if !suspend then s'.rows[c].status == Failed && s'.rows[c].result == ResultFile(Some(Failed), OtherCode) && s'.rows[c].owner.None?
                  else s'.rows[c].status == Suspended && (r.status != Suspended ==> s'.rows[c].result.outcome.None? && s'.rows[c].owner.None?))
  {
    hide Tiled, OneActive, HoldIsHonest;
    assert s.rows[c := s.rows[c]] == s.rows;
  }

  /** A crash loses nothing: the released cycle is recovered and can be claimed again, by anyone. */
  lemma {:induction false} CrashIsRecoverable(s: State, pid: Pid, other: Pid)
    requires Inv(s) && Holds(s, pid, true)
    requires var r := s.rows[s.lock.value.cycle]; r.inputReady && (r.result.outcome.None? || IsSuspendResult(r.result))
    ensures var c := s.lock.value.cycle;
            var recovered := Apply(Apply(s, Crash(pid)), Recover(other, c));
            var claimed := Apply(Apply(recovered, Acquire(other, c)), Claim(other));
            && recovered.rows[c].status == Created
            && claimed.lock == Some(Hold(other, c, true, None)) && claimed.rows[c].status == Running && claimed.rows[c].owner == Some(other)
  {
    hide Tiled;
  }

  // ----- one process at work -----

  class CycleService {
    const pid: Pid
    var rows: map<CycleId, Row>
    var order: seq<CycleId>
    var lock: Option<Hold>
    var dirs: set<CycleId>

    constructor (pid: Pid)
      ensures this.pid == pid && Now() == EMPTY && Inv(Now())
    {
      this.pid := pid;
      rows, order, lock, dirs := map[], [], None, {};
    }

    ghost function Now(): State
      reads this
    {
      State(rows, order, lock, dirs)
    }

    /** `_create_new`, with the search for an unused sequence number, and the preparation that follows. */
    method CreateNew(day: int, cycleDays: nat, prepared: bool) returns (created: Option<CycleId>)
      requires Inv(Now())
      modifies this
      ensures Inv(Now())
      ensures created.None? ==> Now() == old(Now()) && NewRow(old(Now()), day, cycleDays, prepared).None?
      ensures created.Some? ==>
                && created.value !in old(rows) && created.value !in old(dirs)
                && (forall c | c in old(rows) :: c < created.value)
                && NewRow(old(Now()), day, cycleDays, prepared).Some?
                && Now() == Apply(old(Now()), Create(day, cycleDays, created.value, prepared))
    {
      hide Inv, NewRow;
      KnownIds(Now());
      var row := NewRow(State(rows, order, lock, dirs), day, cycleDays, prepared);
      if row.None? { return None; }
      var sequence := 0;
      for i := 0 to |order|
        invariant forall k | 0 <= k < i :: order[k] <= sequence
        invariant unchanged(this)
      {
        sequence := if sequence < order[i] then order[i] else sequence;
      }
      sequence := sequence + 1;
      ghost var floor := sequence;
      while sequence in dirs
        invariant unchanged(this) && floor <= sequence && forall n | floor <= n < sequence :: n in dirs
        decreases Above(dirs, sequence)
      {
        AboveShrinks(dirs, sequence);
        sequence := sequence + 1;
      }
      assert sequence !in rows;
      CreateKeepsInv(Now(), day, cycleDays, sequence, prepared);
      rows, order, dirs := rows[sequence := row.value], order + [sequence], dirs + {sequence};
      return Some(sequence);
    }

    /** The start of `run`: take the lock, claim the row, or give the lock back. */
    method TryStart(c: CycleId) returns (started: bool)
      requires Inv(Now()) && c in rows
      modifies this
      ensures Inv(Now())
      ensures Now() == if old(lock).Some? then old(Now()) else Apply(Apply(old(Now()), Acquire(pid, c)), Claim(pid))
      ensures started <==> old(lock).None? && old(rows)[c].status == Created
      ensures started ==> lock == Some(Hold(pid, c, true, None)) && rows[c].owner == Some(pid)
    {
      hide Inv, HonestResult, NewRow, RecoveredRow, SuspendedRow, FailedRow;
      if lock.Some? { return false; }
      KnownIds(Now());
      StepKeepsInv(Now(), Acquire(pid, c));
      StepKeepsInv(Apply(Now(), Acquire(pid, c)), Claim(pid));
      lock := Some(Hold(pid, c, false, None));
      if rows[c].status == Created {
        rows, lock := rows[c := rows[c].(status := Running, owner := Some(pid))], Some(Hold(pid, c, true, None));
        return true;
      }
      lock := None;
      return false;
    }

    /** The body of the recovery loop: under the lock, read one row, decide, and write what becomes of it. `found` are the
        rows at the writing, and `kept` says that the lock was kept until then. */
    method RecoverRow(c: CycleId, during: seq<Step>) returns (resumed: bool, ghost found: map<CycleId, Row>, ghost kept: bool)
      requires Inv(Now()) && c in rows
      modifies this
      ensures kept ==> c in found && c in rows && Decided(old(rows)[c], found, c, rows[c], resumed)
      ensures !kept ==> !resumed
      ensures old(lock).None? && Unfinished(old(rows)[c]) && during == [] ==> kept && found == old(rows)
      ensures Inv(Now()) && (Now(), resumed) == RecoverOneAmid(old(Now()), pid, c, during)
      ensures old(lock).Some? || !Unfinished(old(rows)[c]) ==> Now() == RunSteps(old(Now()), during) && !resumed
    {
      hide Inv, RunSteps, Decided, HandsBack, ConcludedRow, RecoveredRow, NewRow, SuspendedRow, FailedRow;
      found, kept := rows, false;
      if lock.Some? || !Unfinished(rows[c]) {
        Meanwhile(during);
        return false, rows, false;
      }
      ghost var s := Now();
      var read := rows[c];
      StepKeepsInv(s, Inspect(pid, c));
      KnownIds(s);
      InspectHolds(s, pid, c);
      lock := Some(Hold(pid, c, false, Some(read)));
      NoSteps(Now());
      Meanwhile(during);
      if lock != Some(Hold(pid, c, false, Some(read))) { return false, rows, false; }
      found, kept := rows, true;
      resumed := WriteRecovered(c, read);
    }

    method WriteRecovered(c: CycleId, read: Row) returns (resumed: bool)
      requires Inv(Now()) && lock == Some(Hold(pid, c, false, Some(read))) && Unfinished(read)
      modifies this`rows, this`lock
      ensures c in old(rows) && c in rows && Inv(Now()) && Known(old(Now())) && Now() == Apply(old(Now()), Conclude(pid))
      ensures resumed == HandsBack(old(rows), c, read) && Decided(read, old(rows), c, rows[c], resumed)
    {
      hide Inv, Decided, HandsBack, ConcludedRow;
      StepKeepsInv(Now(), Conclude(pid));
      KnownIds(Now());
      HandedBackIsActive(Now(), pid, c, read);
      DecidedAsWritten(rows, c, read);
      resumed := HandsBack(rows, c, read);
      rows, lock := rows[c := ConcludedRow(rows, c, read)], None;
    }

    /** Whatever other processes do. */
    method Meanwhile(steps: seq<Step>)
      requires Inv(Now())
      modifies this
      ensures Inv(Now()) && Now() == RunSteps(old(Now()), steps)
    {
      hide Inv, Apply;
      ghost var s0 := Now();
      assert steps[..0] == [];
      for i := 0 to |steps|
        invariant Inv(Now()) && Now() == RunSteps(s0, steps[..i])
      {
        assert steps[..i + 1][..i] == steps[..i];
        KnownIds(Now());
        StepKeepsInv(Now(), steps[i]);
        var s := Apply(State(rows, order, lock, dirs), steps[i]);
        rows, order, lock, dirs := s.rows, s.order, s.lock, s.dirs;
      }
      assert steps[..|steps|] == steps;
    }

    /** `recover_interrupted_cycles` over the listed rows that are not this process's own tasks; `others` says what
        other processes do around each row. */
    method RecoverInterrupted(listed: seq<CycleId>, own: set<CycleId>, others: CycleId -> Others) returns (resumable: seq<CycleId>)
      requires Inv(Now()) && (forall c | c in listed :: c in rows) && forall i, j | 0 <= i < j < |listed| :: listed[i] != listed[j]
      modifies this
      ensures Inv(Now())
      ensures var todo := NotOwn(listed, own); (Now(), resumable) == RecoverAmid(old(Now()), pid, todo, Before(others, todo))
      ensures NoLateLegacy(old(Now()), NotOwn(listed, own)) ==> |resumable| <= 1
      ensures (forall c :: others(c) == Others([], [])) ==>
                && |resumable| <= 1 && (forall c | c in resumable :: c in listed && c !in own && c in rows && rows[c].status == Created)
                && (old(lock).Some? ==> rows == old(rows) && resumable == [])
    {
      hide Inv, RecoverOneAmid, NoLateLegacy, RunSteps;
      resumable := [];
      ghost var s0 := Now();
      assert Before(others, NotOwn(listed[..0], own)) == [];
      assert RecoverAmid(s0, pid, [], []) == (s0, []);
      hide RecoverAmid, NotOwn, Before;
      for i := 0 to |listed|
        invariant Inv(Now())
        invariant Now() == RecoverAmid(s0, pid, NotOwn(listed[..i], own), Before(others, NotOwn(listed[..i], own))).0
        invariant resumable == RecoverAmid(s0, pid, NotOwn(listed[..i], own), Before(others, NotOwn(listed[..i], own))).1
      {
        var c := listed[i];
        NotOwnStep(listed, own, others, i);
        if c in own { continue; }
        ghost var todo := NotOwn(listed[..i], own);
        LastRowAmid(s0, pid, todo, Before(others, todo), c, others(c));
        Meanwhile(others(c).before);
        if c in rows {
          var resumed, _, _ := RecoverRow(c, others(c).during);
          if resumed { resumable := resumable + [c]; }
        }
      }
      assert listed[..|listed|] == listed;
      NotOwnFacts(listed, own);
      ghost var todo := NotOwn(listed, own);
      if NoLateLegacy(s0, todo) { AtMostOneAmidOthers(s0, pid, todo, Before(others, todo)); }
      if forall c :: others(c) == Others([], []) {
        BeforeIsQuiet(others, todo);
        QuietlyIsUndisturbed(s0, pid, todo);
        RecoversAtMostOne(s0, pid, todo);
        LockedIsLeft(s0, pid, todo);
      }
    }
  }

  function NotOwn(listed: seq<CycleId>, own: set<CycleId>): (todo: seq<CycleId>)
    ensures forall c :: c in todo <==> c in listed && c !in own
  {
    if listed == [] then [] else
    var last := listed[|listed| - 1];
    NotOwn(listed[..|listed| - 1], own) + if last in own then [] else [last]
  }

  ghost predicate NoRepeats(todo: seq<CycleId>) { forall i, j | 0 <= i < j < |todo| :: todo[i] != todo[j] }

  lemma {:induction false} NotOwnFacts(listed: seq<CycleId>, own: set<CycleId>)
    requires NoRepeats(listed)
    ensures NoRepeats(NotOwn(listed, own))
  {
    if listed != [] {
      var front := listed[..|listed| - 1];
      NotOwnFacts(front, own);
      FrontIsElsewhere(listed);
      assert listed[|listed| - 1] !in front;
    }
  }

  lemma {:induction false} NotOwnStep(listed: seq<CycleId>, own: set<CycleId>, others: CycleId -> Others, i: nat)
    requires i < |listed|
    ensures var before, todo := NotOwn(listed[..i], own), NotOwn(listed[..i + 1], own);
            if listed[i] in own then todo == before
            else todo == before + [listed[i]] && Before(others, todo) == Before(others, before) + [others(listed[i])]
  {
    assert listed[..i + 1][..i] == listed[..i];
    var before, todo := NotOwn(listed[..i], own), NotOwn(listed[..i + 1], own);
    if listed[i] !in own { assert Before(others, todo) == Before(others, before) + [others(listed[i])]; }
  }

  ghost function Before(others: CycleId -> Others, todo: seq<CycleId>): (between: seq<Others>)
    ensures |between| == |todo|
  {
    seq(|todo|, k requires 0 <= k < |todo| => others(todo[k]))
  }

  lemma {:induction false} BeforeIsQuiet(others: CycleId -> Others, todo: seq<CycleId>)
    requires forall c :: others(c) == Others([], [])
    ensures Before(others, todo) == Quietly(|todo|)
  {
  }

  /** With the lock held elsewhere recovery changes nothing. */
  lemma {:induction false} LockedIsLeft(s: State, pid: Pid, todo: seq<CycleId>)
    requires Inv(s) && forall c | c in todo :: c in s.rows
    ensures s.lock.Some? ==> RecoverAll(s, pid, todo) == (s, [])
  {
    hide Inv;
    if todo != [] {
      assert forall c | c in todo[..|todo| - 1] :: c in todo;
      assert todo[|todo| - 1] in todo;
      LockedIsLeft(s, pid, todo[..|todo| - 1]);
    }
  }

  lemma {:induction false} NoSteps(s: State)
    ensures Inv(s) ==> RunSteps(s, []) == s
  {
  }

  lemma {:induction false} KnownIds(s: State)
    requires Inv(s)
    ensures Known(s)
  {
  }

  ghost function Above(dirs: set<CycleId>, n: nat): nat { |set d | d in dirs && d >= n| }

  lemma {:induction false} AboveShrinks(dirs: set<CycleId>, n: nat)
    requires n in dirs
    ensures Above(dirs, n + 1) < Above(dirs, n)
  {
    var a, b := set d | d in dirs && d >= n, set d | d in dirs && d >= n + 1;
    assert a == b + {n};
  }
}
