/** Building a blueprint through the Bridge, in resumable segments with a saved checkpoint. */
module BlueprintExecution {
  import opened Options
  import opened BuildingDsl
  import opened BuildPlanner

  datatype BuildId = BuildId(blueprint: string, origin: Origin, rotation: int)

  datatype SegmentId = SegmentId(build: BuildId, number: int)

  datatype BuildStatus = Running | Paused | PausedMaterials | Done

  datatype Checkpoint = Checkpoint(nextSegment: int, completed: set<int>, skipped: set<int>, status: BuildStatus,
                                   missing: map<string, int>, lastError: string)

  datatype Reply =
    | Reply(ok: bool, code: string, completedIndices: seq<int>, placedIndices: seq<int>,
            failedIndex: Option<int>, missing: map<string, int>)
    | Raised

  datatype Round = Round(id: SegmentId, segment: seq<Placement>, reply: Reply)

  /** How a run ends: with a result, with an error inside a call, or because the process dies after a save. */
  datatype Outcome = BadRotation | BuildComplete | NoSnapshot | PostconditionFailed | NoMaterial | Failed(code: string)
                   | Interrupted | Died

  /** Whatever the Bridge does with a segment: a reply and a new world. */
  type Bridge = (SegmentId, seq<Placement>, World) -> (Reply, World)

  function Reported(r: Reply): set<int>
  {
    if r.Raised? then {}
    else if r.completedIndices != [] then set i | i in r.completedIndices
    else set i | i in r.placedIndices
  }

  /** The completed indices where there are any, else the placed ones; nothing from a call that broke off. */
  lemma {:induction false} ReportedMeans(r: Reply, i: int)
    ensures r.Raised? ==> i !in Reported(r)
    ensures r.Reply? && r.completedIndices != [] ==> (i in Reported(r) <==> i in r.completedIndices)
    ensures r.Reply? && r.completedIndices == [] ==> (i in Reported(r) <==> i in r.placedIndices)
  {
  }

  predicate Same(w: World, w': World, c: Pos) { (c in w <==> c in w') && (c in w ==> w'[c] == w[c]) }

  predicate Touches(ps: seq<Placement>, c: Pos) { exists p :: p in ps && p.pos == c }

  /** The Bridge contract: only cells of the segment change, a reported index is a block of the segment
      that now stands in the world, and an index named as failing is an unreported one of the segment. */
  ghost predicate Honest(segment: seq<Placement>, w: World, r: Reply, w': World)
  {
    && (forall c: Pos :: !Touches(segment, c) ==> Same(w, w', c))
    && (forall i | i in Reported(r) :: exists p :: p in segment && p.index == i && p.pos in w' && w'[p.pos] == p.item)
    && (r.Reply? && !r.ok && r.failedIndex.Some? ==>
          r.failedIndex.value !in Reported(r) && exists p :: p in segment && p.index == r.failedIndex.value)
  }

  ghost predicate HonestBridge(bridge: Bridge)
  {
    forall id, segment, w :: Honest(segment, w, bridge(id, segment, w).0, bridge(id, segment, w).1)
  }

  ghost function ReportedIn(rounds: seq<Round>): set<int>
  {
    if rounds == [] then {} else ReportedIn(rounds[..|rounds| - 1]) + Reported(rounds[|rounds| - 1].reply)
  }

  function IdOf(site: Site): BuildId { BuildId(site.bp.id, site.origin, site.rotation) }

  /** The checkpoint a run starts from: stored indices that do not fit the blueprint are dropped. */
  function Restored(site: Site, store: map<BuildId, Checkpoint>): Checkpoint
  {
    if IdOf(site) !in store then Checkpoint(0, {}, {}, Running, map[], "") else
    var saved := store[IdOf(site)];
    var completed := set i | i in saved.completed && 0 <= i < |site.bp.blocks|;
    var skipped := set i | i in saved.skipped && site.Optional(i);
    saved.(completed := completed, skipped := skipped)
  }

  /** A first run starts at segment 0 with nothing done; a later one starts from what was saved, less the indices that are
      no blocks and the skips that are not optional. */
  lemma {:induction false} RestoredMeans(site: Site, store: map<BuildId, Checkpoint>, i: int)
    ensures var start, id := Restored(site, store), IdOf(site);
            && (id !in store ==> start.nextSegment == 0 && start.status == Running && i !in start.completed && i !in start.skipped
                                 && start.missing == map[] && start.lastError == "")
            && (id in store ==>
                  && (i in start.completed <==> i in store[id].completed && 0 <= i < |site.bp.blocks|)
                  && (i in start.skipped <==> i in store[id].skipped && 0 <= i < |site.bp.blocks| && site.bp.blocks[i].optional)
                  && start.nextSegment == store[id].nextSegment && start.status == store[id].status
                  && start.missing == store[id].missing && start.lastError == store[id].lastError)
  {
  }

  /** The placements a checkpoint leaves to be done, bottom-up. */
  function Unfinished(site: Site, cp: Checkpoint): seq<Placement>
    requires site.Turnable()
  {
    Remaining(site.BottomUp(|site.bp.blocks|), cp.completed, cp.skipped)
  }

  function StillPending(runnable: seq<Placement>, cp: Checkpoint): seq<Placement>
  {
    Remaining(runnable, cp.completed, cp.skipped)
  }

  function Unskipped(runnable: seq<Placement>, cp: Checkpoint): seq<Placement>
  {
    Remaining(runnable, {}, cp.skipped)
  }

  function RequiredOf(site: Site): set<int> { set i | 0 <= i < |site.bp.blocks| && site.Required(i) }

  /** What a checkpoint promises about the world. */
  ghost predicate Sound(site: Site, cp: Checkpoint, w: World)
    requires site.Turnable()
  {
    && (forall i | i in cp.completed :: site.Holds(i, w))
    && (forall i | i in cp.skipped :: site.Optional(i))
    && cp.completed !! cp.skipped
    && (cp.status == Done ==> RequiredOf(site) <= cp.completed)
  }

  ghost predicate Built(site: Site, w: World)
    requires site.Turnable()
  {
    forall i | site.Required(i) :: site.Holds(i, w)
  }

  /** A round keeps what was built before it and adds what it reports. */
  lemma {:induction false} RoundKeepsBuilt(site: Site, completed: set<int>, segment: seq<Placement>, w: World, r: Reply, w': World)
    requires site.Valid() && Honest(segment, w, r, w')
    requires forall i | i in completed :: site.Holds(i, w)
    requires forall p | p in segment :: site.IsMine(p) && p.index !in completed
    ensures forall i | i in completed + Reported(r) :: site.Holds(i, w')
  {
    forall i | i in completed ensures site.Holds(i, w') {
      var c := site.Place(i).pos;
      if Touches(segment, c) {
        var p :| p in segment && p.pos == c;
        site.CellsDistinct(i, p.index);
      }
      assert Same(w, w', c);
    }
  }

  /** The placements still to be sent: mine, in order, none completed or skipped, no required one missing. */
  ghost predicate Pending(site: Site, cp: Checkpoint, runnable: seq<Placement>)
    requires site.Turnable()
  {
    && Sorted(runnable)
    && (forall p | p in runnable :: site.IsMine(p) && p.index !in cp.completed && p.index !in cp.skipped)
    && (forall i | site.Required(i) && i !in cp.completed :: site.Place(i) in runnable)
  }

  lemma {:induction false} FilterShrinks(ps: seq<Placement>, completed: set<int>, skipped: set<int>, p: Placement)
    requires p in ps && (p.index in completed || p.index in skipped)
    ensures |Remaining(ps, completed, skipped)| < |ps|
  {
    assert p !in Remaining(ps, completed, skipped);
  }

  /** The n-th round of a run carries the n-th segment number after the restored one. */
  ghost predicate Numbered(site: Site, limit: nat, start: Checkpoint, news: seq<Round>)
  {
    forall k | 0 <= k < |news| ::
      && news[k].id == SegmentId(IdOf(site), start.nextSegment + k)
      && 0 < |news[k].segment| <= limit && |news[k].segment| <= site.bp.segmentSize && Sorted(news[k].segment)
  }

  ghost predicate Answered(news: seq<Round>) { forall k | 0 <= k < |news| :: news[k].reply.Reply? }

  /** Every placement that was sent is one of `allowed`. */
  ghost predicate SentFrom(news: seq<Round>, allowed: seq<Placement>)
  {
    forall k, p | 0 <= k < |news| && p in news[k].segment :: p in allowed
  }

  ghost predicate Within(ps: seq<Placement>, allowed: seq<Placement>) { forall p | p in ps :: p in allowed }

  ghost predicate SentAsScheduled(site: Site, start: Checkpoint, snapshot: Option<Inventory>, news: seq<Round>)
    requires site.Turnable()
  {
    snapshot.Some? ==>
      var remaining := Unfinished(site, start);
      SentFrom(news, Scheduled(remaining, SurplusOf(snapshot.value, remaining)))
  }

  /** When the newest snapshot shows a shortfall, that shortfall is what the checkpoint asks for. */
  predicate MissingRecorded(site: Site, store: map<BuildId, Checkpoint>, latest: Option<Inventory>)
  {
    IdOf(site) in store && latest.Some? && Missing(site.bp, latest.value, store[IdOf(site)].completed) != map[] ==>
      store[IdOf(site)].missing == Missing(site.bp, latest.value, store[IdOf(site)].completed)
  }

  /** A run that wants material was refused for want of it, or material is short by the newest snapshot; one that failed for
      another reason found no shortfall. */
  predicate Shortfall(site: Site, latest: Option<Inventory>, store: map<BuildId, Checkpoint>, reply: Reply, r: Outcome)
  {
    && (r == NoMaterial ==>
          && MissingRecorded(site, store, latest) && reply.Reply? && IdOf(site) in store
          && (reply.code == "NO_MATERIAL" || ShortOf(site, store[IdOf(site)].completed, latest)))
    && (r.Failed? ==> IdOf(site) in store && !ShortOf(site, store[IdOf(site)].completed, latest))
  }

  ghost predicate OthersUntouched(site: Site, w: World, w': World)
    requires site.Turnable()
  {
    forall c: Pos :: !Touches(site.BottomUp(|site.bp.blocks|), c) ==> Same(w, w', c)
  }

  /** The state of a run between two rounds. */
  ghost predicate InRun(site: Site, limit: nat, start: Checkpoint, w0: World, cp: Checkpoint, runnable: seq<Placement>,
                        w: World, news: seq<Round>)
    requires site.Turnable()
  {
    && Pending(site, cp, runnable)
    && cp.status != Done
    && (forall i | i in cp.completed :: site.Holds(i, w))
    && (forall i | i in cp.skipped :: site.Optional(i))
    && cp.completed !! cp.skipped
    && cp.completed == start.completed + ReportedIn(news)
    && start.skipped <= cp.skipped
    && cp.nextSegment == start.nextSegment + |news|
    && Numbered(site, limit, start, news)
    && Answered(news)
    && OthersUntouched(site, w0, w)
  }

  lemma {:induction false} RunBegins(site: Site, limit: nat, w: World, start: Checkpoint, remaining: seq<Placement>,
                                     inventory: Inventory, cp: Checkpoint)
    requires site.Valid() && Sound(site, start, w) && start.status != Done
    requires remaining == Unfinished(site, start)
    requires cp == start.(skipped := start.skipped + LeftOut(remaining, SurplusOf(inventory, remaining)))
    ensures InRun(site, limit, start, w, cp, Scheduled(remaining, SurplusOf(inventory, remaining)), w, [])
  {
    var surplus := SurplusOf(inventory, remaining);
    forall i, j | 0 <= i < j < |remaining| ensures remaining[i].index != remaining[j].index {
      assert Below(remaining[i], remaining[j]) && remaining[i] in remaining && remaining[j] in remaining;
    }
    ScheduledOrLeftOut(remaining, surplus);
    ScheduleSorted(remaining, surplus);
    forall i | site.Required(i) && i !in cp.completed ensures site.Place(i) in Scheduled(remaining, surplus) {
      assert site.Place(i) in remaining;
    }
  }

  lemma {:induction false} ScheduleSorted(ps: seq<Placement>, surplus: string -> nat)
    requires Sorted(ps)
    ensures Sorted(Scheduled(ps, surplus))
  {
    if ps != [] {
      var front, last := ps[..|ps| - 1], ps[|ps| - 1];
      ScheduleSorted(front, surplus);
      var s := Scheduled(front, surplus);
      forall i | 0 <= i < |s| ensures Below(s[i], last) {
        assert s[i] in s && s[i] in front;
      }
    }
  }

  function AfterReply(cp: Checkpoint, reply: Reply): Checkpoint
    requires reply.Reply?
  {
    cp.(completed := cp.completed + Reported(reply), nextSegment := cp.nextSegment + 1, missing := map[],
        lastError := if reply.ok then "" else reply.code, status := if reply.ok then Running else Paused)
  }

  lemma {:induction false} ReplyFrame(site: Site, w0: World, w: World, segment: seq<Placement>, reply: Reply, w': World)
    requires site.Turnable() && OthersUntouched(site, w0, w) && Honest(segment, w, reply, w')
    requires forall p | p in segment :: site.IsMine(p)
    ensures OthersUntouched(site, w0, w')
  {
    assert forall p | p in segment :: p in site.BottomUp(|site.bp.blocks|);
    forall c: Pos | !Touches(site.BottomUp(|site.bp.blocks|), c) ensures Same(w0, w', c) {
      assert !Touches(segment, c) && Same(w, w', c) && Same(w0, w, c);
    }
  }

  lemma {:induction false} ReplyNumbered(site: Site, limit: nat, start: Checkpoint, news: seq<Round>, segment: seq<Placement>, reply: Reply)
    requires Numbered(site, limit, start, news) && Sorted(segment) && 0 < |segment| <= limit && |segment| <= site.bp.segmentSize
    ensures var round := Round(SegmentId(IdOf(site), start.nextSegment + |news|), segment, reply);
            Numbered(site, limit, start, news + [round]) && ReportedIn(news + [round]) == ReportedIn(news) + Reported(reply)
  {
    var round := Round(SegmentId(IdOf(site), start.nextSegment + |news|), segment, reply);
    assert (news + [round])[..|news|] == news;
  }

  lemma {:induction false} ReplyPending(site: Site, cp: Checkpoint, runnable: seq<Placement>, segment: seq<Placement>,
                                        w: World, reply: Reply, w': World)
    requires site.Turnable() && Pending(site, cp, runnable) && segment <= runnable && Honest(segment, w, reply, w')
    requires reply.Reply? && cp.completed !! cp.skipped
    ensures var cp' := AfterReply(cp, reply);
            Pending(site, cp', StillPending(runnable, cp')) && cp'.completed !! cp'.skipped
  {
    forall i | i in Reported(reply) ensures i !in cp.skipped {
      var p :| p in segment && p.index == i;
      assert p in runnable;
    }
  }

  lemma {:induction false} ReplyStep(site: Site, limit: nat, start: Checkpoint, w0: World, cp: Checkpoint, runnable: seq<Placement>,
                                     w: World, news: seq<Round>, segment: seq<Placement>, reply: Reply, w': World)
    requires site.Valid() && InRun(site, limit, start, w0, cp, runnable, w, news)
    requires segment <= runnable && 0 < |segment| <= limit && |segment| <= site.bp.segmentSize
    requires Honest(segment, w, reply, w')
    ensures forall i | i in cp.completed + Reported(reply) :: site.Holds(i, w')
    ensures OthersUntouched(site, w0, w')
    ensures Numbered(site, limit, start, news + [Round(SegmentId(IdOf(site), cp.nextSegment), segment, reply)])
    ensures ReportedIn(news + [Round(SegmentId(IdOf(site), cp.nextSegment), segment, reply)]) == ReportedIn(news) + Reported(reply)
    ensures reply.Reply? ==>
              var cp' := AfterReply(cp, reply);
              InRun(site, limit, start, w0, cp', StillPending(runnable, cp'), w',
                    news + [Round(SegmentId(IdOf(site), cp.nextSegment), segment, reply)])
  {
    forall p | p in segment ensures p in runnable { }
    SegmentSorted(runnable, segment);
    RoundKeepsBuilt(site, cp.completed, segment, w, reply, w');
    ReplyFrame(site, w0, w, segment, reply, w');
    ReplyNumbered(site, limit, start, news, segment, reply);
    if reply.Reply? { ReplyPending(site, cp, runnable, segment, w, reply, w'); }
    hide Pending, Honest, OthersUntouched, Numbered;
  }

  lemma {:induction false} SegmentSorted(ps: seq<Placement>, segment: seq<Placement>)
    requires Sorted(ps) && segment <= ps
    ensures Sorted(segment)
  {
    forall i, j | 0 <= i < j < |segment| ensures Below(segment[i], segment[j]) {
      assert segment[i] == ps[i] && segment[j] == ps[j];
    }
  }

  lemma {:induction false} PickNew<T>(have: set<T>, more: set<T>) returns (x: T)
    requires |have + more| != |have|
    ensures x in more && x !in have
  {
    assert more <= have ==> have + more == have;
    x :| x in more && x !in have;
  }

  /** A successful round that completes something new leaves fewer placements to send. */
  lemma {:induction false} ProgressShrinks(site: Site, cp: Checkpoint, runnable: seq<Placement>, segment: seq<Placement>,
                                           w: World, reply: Reply, w': World)
    requires site.Turnable() && Pending(site, cp, runnable) && segment <= runnable && Honest(segment, w, reply, w') && reply.Reply?
    requires |cp.completed + Reported(reply)| != |cp.completed|
    ensures |StillPending(runnable, AfterReply(cp, reply))| < |runnable|
  {
    var i := PickNew(cp.completed, Reported(reply));
    var p :| p in segment && p.index == i;
    FilterShrinks(runnable, AfterReply(cp, reply).completed, cp.skipped, p);
  }

  /** A successful round that adds nothing reports only what was already complete. */
  lemma {:induction false} NoProgress(start: Checkpoint, cp: Checkpoint, news: seq<Round>, round: Round)
    requires cp.completed == start.completed + ReportedIn(news)
    requires |cp.completed + Reported(round.reply)| == |cp.completed|
    ensures Reported(round.reply) <= start.completed + ReportedIn((news + [round])[..|news + [round]| - 1])
  {
    assert (news + [round])[..|news|] == news;
    var extra := Reported(round.reply) - cp.completed;
    assert cp.completed + Reported(round.reply) == cp.completed + extra;
    assert |cp.completed + extra| == |cp.completed| + |extra|;
  }

  /** Skipping the optional blocks of an item: exactly those still to be sent, and nothing else of the checkpoint but that
      the run goes on. */
  ghost predicate Drops(cp: Checkpoint, runnable: seq<Placement>, item: string, cp': Checkpoint)
  {
    && cp' == cp.(skipped := cp'.skipped, status := Running, lastError := "")
    && forall i :: i in cp'.skipped <==> i in cp.skipped || exists p :: p in runnable && p.optional && p.item == item && p.index == i
  }

  /** What is left to be sent: what is neither completed nor skipped, in the same order. */
  ghost predicate Leaves(runnable: seq<Placement>, cp: Checkpoint, runnable': seq<Placement>)
  {
    && (forall p :: p in runnable' <==> p in runnable && p.index !in cp.completed && p.index !in cp.skipped)
    && (Sorted(runnable) ==> Sorted(runnable'))
  }

  /** The newest snapshot shows that required material is missing. */
  predicate ShortOf(site: Site, completed: set<int>, latest: Option<Inventory>)
  {
    latest.Some? && Missing(site.bp, latest.value, completed) != map[]
  }

  /** What follows a reply, the checkpoint and the pending work being as it left them. */
  ghost predicate FollowsReply(site: Site, latest: Option<Inventory>, reply: Reply, grew: bool, cp: Checkpoint, runnable: seq<Placement>,
                               stop: Option<Outcome>, cp': Checkpoint, runnable': seq<Placement>)
  {
    var optional, short := Failing(site, reply), ShortOf(site, cp.completed, latest);
    && reply.Reply?
    && (stop.None? ==>
          if reply.ok then grew && cp' == cp && runnable' == runnable
          else reply.code == "NO_MATERIAL" && optional && Drops(cp, runnable, site.bp.blocks[reply.failedIndex.value].item, cp') && Leaves(runnable, cp', runnable'))
    && (stop == Some(PostconditionFailed) ==> reply.ok && !grew)
    && (stop == Some(NoMaterial) ==> !reply.ok && (if reply.code == "NO_MATERIAL" then !optional else short))
    && (stop.Some? && stop.value.Failed? ==> !reply.ok && reply.code != "NO_MATERIAL" && !short)
    && stop != Some(BuildComplete) && stop != Some(NoSnapshot) && stop != Some(Interrupted)
  }

  /** One pass of the loop as a whole: which blocks are sent and under which number, what the reply adds, and what follows. */
  ghost predicate PassFits(site: Site, size: nat, latest: Option<Inventory>, cp: Checkpoint, runnable: seq<Placement>, round: Round,
                           stop: Option<Outcome>, cp': Checkpoint, runnable': seq<Placement>)
  {
    var limit := if size < site.bp.segmentSize then size else site.bp.segmentSize;
    && round.id == SegmentId(IdOf(site), cp.nextSegment)
    && round.segment == (if |runnable| <= limit then runnable else runnable[..limit])
    && (round.reply.Raised? <==> stop == Some(Interrupted))
    && (round.reply.Reply? && stop != Some(Died) ==>
          exists heard, left :: Heard(cp, round.reply, heard) && Leaves(runnable, heard, left)
                                && FollowsReply(site, latest, round.reply, !(Reported(round.reply) <= cp.completed), heard, left, stop, cp', runnable'))
  }

  /** The checkpoint saved right after a reply: what was reported, the next number, and the reply's error. */
  ghost predicate Heard(cp: Checkpoint, reply: Reply, heard: Checkpoint)
  {
    && reply.Reply? && (forall i :: i in heard.completed <==> i in cp.completed || i in Reported(reply))
    && heard.skipped == cp.skipped && heard.nextSegment == cp.nextSegment + 1 && heard.missing == map[]
    && (reply.ok ==> heard.status == Running && heard.lastError == "")
    && (!reply.ok ==> heard.status == Paused && heard.lastError == reply.code)
  }

  /** The refusal of this reply is a reason to skip the block. */
  predicate Excuses(site: Site, reply: Reply, i: int)
  {
    && Refusal(reply) && reply.code == "NO_MATERIAL" && Failing(site, reply) && site.Optional(i)
    && site.bp.blocks[i].item == site.bp.blocks[reply.failedIndex.value].item
  }

  /** Everything skipped beyond `base` was skipped because a reply refused an optional block of its item. */
  ghost predicate SkipsEarned(site: Site, base: set<int>, news: seq<Round>, skipped: set<int>)
  {
    forall i | i in skipped && i !in base :: exists k :: 0 <= k < |news| && Excuses(site, news[k].reply, i)
  }

  lemma {:induction false} AfterReplyHeard(cp: Checkpoint, runnable: seq<Placement>, reply: Reply)
    requires reply.Reply?
    ensures Heard(cp, reply, AfterReply(cp, reply)) && Leaves(runnable, AfterReply(cp, reply), StillPending(runnable, AfterReply(cp, reply)))
    ensures |AfterReply(cp, reply).completed| != |cp.completed| <==> !(Reported(reply) <= cp.completed)
  {
    var extra := Reported(reply) - cp.completed;
    assert cp.completed + Reported(reply) == cp.completed + extra;
    assert |cp.completed + extra| == |cp.completed| + |extra|;
  }

  lemma {:induction false} PassEnds(site: Site, size: nat, latest: Option<Inventory>, cp: Checkpoint, runnable: seq<Placement>, round: Round,
                                    r: Outcome, cp': Checkpoint, runnable': seq<Placement>, store: map<BuildId, Checkpoint>)
    requires (r == Interrupted && round.reply.Raised?) || (r == Died && round.reply.Reply?)
    requires round.id == SegmentId(IdOf(site), cp.nextSegment)
    requires var limit := if size < site.bp.segmentSize then size else site.bp.segmentSize;
             round.segment == (if |runnable| <= limit then runnable else runnable[..limit])
    ensures PassFits(site, size, latest, cp, runnable, round, Some(r), cp', runnable') && Shortfall(site, latest, store, round.reply, r)
  {
  }

  lemma {:induction false} PassMade(site: Site, size: nat, latest: Option<Inventory>, cp: Checkpoint, runnable: seq<Placement>, round: Round,
                                    heard: Checkpoint, left: seq<Placement>, stop: Option<Outcome>, cp': Checkpoint, runnable': seq<Placement>)
    requires round.reply.Reply? && round.id == SegmentId(IdOf(site), cp.nextSegment)
    requires var limit := if size < site.bp.segmentSize then size else site.bp.segmentSize;
             round.segment == (if |runnable| <= limit then runnable else runnable[..limit])
    requires Heard(cp, round.reply, heard) && Leaves(runnable, heard, left)
    requires stop != Some(Died) ==>
               FollowsReply(site, latest, round.reply, !(Reported(round.reply) <= cp.completed), heard, left, stop, cp', runnable')
    ensures PassFits(site, size, latest, cp, runnable, round, stop, cp', runnable')
  {
    hide Heard, Leaves;
  }

  lemma {:induction false} EarnedLater(site: Site, base: set<int>, news: seq<Round>, round: Round, skipped: set<int>)
    requires SkipsEarned(site, base, news, skipped)
    ensures SkipsEarned(site, base, news + [round], skipped)
  {
    var all := news + [round];
    forall i | i in skipped && i !in base ensures exists k :: 0 <= k < |all| && Excuses(site, all[k].reply, i) {
      var k :| 0 <= k < |news| && Excuses(site, news[k].reply, i);
      assert all[k] == news[k];
    }
  }

  lemma {:induction false} EarnedHere(site: Site, base: set<int>, news: seq<Round>, cp: Checkpoint, runnable: seq<Placement>, cp': Checkpoint)
    requires site.Turnable() && SkipsEarned(site, base, news, cp.skipped) && news != [] && forall p | p in runnable :: site.IsMine(p)
    requires var reply := news[|news| - 1].reply;
             && Refusal(reply) && reply.code == "NO_MATERIAL" && Failing(site, reply)
             && Drops(cp, runnable, site.bp.blocks[reply.failedIndex.value].item, cp')
    ensures SkipsEarned(site, base, news, cp'.skipped)
  {
    forall i | i in cp'.skipped && i !in base ensures exists k :: 0 <= k < |news| && Excuses(site, news[k].reply, i) {
      if i !in cp.skipped { assert Excuses(site, news[|news| - 1].reply, i); }
    }
  }

  /** What is saved as skipped at the end of a run: what was skipped before, what the schedule left out, and what refused
      replies excuse. */
  ghost predicate SkipsFit(site: Site, start: Checkpoint, snapshot: Option<Inventory>, news: seq<Round>, store: map<BuildId, Checkpoint>)
    requires site.Turnable()
  {
    snapshot.Some? && IdOf(site) in store ==>
      var remaining := Unfinished(site, start);
      SkipsEarned(site, start.skipped + LeftOut(remaining, SurplusOf(snapshot.value, remaining)), news, store[IdOf(site)].skipped)
  }

  lemma {:induction false} SkippedAsFits(site: Site, start: Checkpoint, snapshot: Option<Inventory>, base: set<int>, news: seq<Round>,
                                         store: map<BuildId, Checkpoint>)
    requires site.Turnable() && snapshot.Some?
    requires base == start.skipped + LeftOut(Unfinished(site, start), SurplusOf(snapshot.value, Unfinished(site, start)))
    requires IdOf(site) in store ==> SkipsEarned(site, base, news, store[IdOf(site)].skipped)
    ensures SkipsFit(site, start, snapshot, news, store)
  {
  }

  lemma {:induction false} NothingSkipped(site: Site, start: Checkpoint, snapshot: Option<Inventory>, store: map<BuildId, Checkpoint>)
    requires site.Turnable() && IdOf(site) in store && store[IdOf(site)].skipped == start.skipped
    ensures SkipsFit(site, start, snapshot, [], store)
  {
  }

  lemma {:induction false} NoneSkipped(site: Site, base: set<int>, news: seq<Round>, skipped: set<int>)
    requires skipped <= base
    ensures SkipsEarned(site, base, news, skipped)
  {
  }

  function SkipItem(cp: Checkpoint, runnable: seq<Placement>, item: string): Checkpoint
  {
    var dropped := set p | p in runnable && p.optional && p.item == item :: p.index as int;
    cp.(skipped := cp.skipped + dropped, status := Running, lastError := "")
  }

  /** Skipping an item's optional blocks drops at least the one the Bridge failed on. */
  lemma {:induction false} SkipStep(site: Site, limit: nat, start: Checkpoint, w0: World, cp: Checkpoint, runnable: seq<Placement>,
                                    w: World, news: seq<Round>, failed: int)
    requires site.Valid() && InRun(site, limit, start, w0, cp, runnable, w, news)
    requires site.Optional(failed) && site.Place(failed) in runnable
    ensures var cp' := SkipItem(cp, runnable, site.bp.blocks[failed].item);
            var runnable' := Unskipped(runnable, cp');
            && InRun(site, limit, start, w0, cp', runnable', w, news) && |runnable'| < |runnable|
            && Drops(cp, runnable, site.bp.blocks[failed].item, cp') && Leaves(runnable, cp', runnable')
  {
    var cp' := SkipItem(cp, runnable, site.bp.blocks[failed].item);
    assert failed in cp'.skipped;
    FilterShrinks(runnable, {}, cp'.skipped, site.Place(failed));
    forall i | i in cp'.skipped ensures site.Optional(i) && i !in cp.completed { }
    forall i | site.Required(i) && i !in cp.completed ensures site.Place(i) in Unskipped(runnable, cp') { }
  }

  /** The placement the Bridge failed on is still to be sent after its round. */
  lemma {:induction false} FailedStillPending(site: Site, cp: Checkpoint, runnable: seq<Placement>, segment: seq<Placement>,
                                              w: World, reply: Reply, w': World)
    requires site.Turnable() && Pending(site, cp, runnable) && segment <= runnable && Honest(segment, w, reply, w')
    requires reply.Reply? && !reply.ok && reply.failedIndex.Some? && site.Optional(reply.failedIndex.value)
    ensures site.Place(reply.failedIndex.value) in StillPending(runnable, AfterReply(cp, reply))
  {
    var p :| p in segment && p.index == reply.failedIndex.value;
    assert p in runnable && p == site.Place(p.index);
  }

  /** The outcome names the reason the run stopped. */
  ghost predicate OutcomeFits(start: Checkpoint, news: seq<Round>, saved: Checkpoint, r: Outcome)
  {
    match r
    case BadRotation => false
    case BuildComplete => saved.status == Done && (saved.lastError == "" || (news == [] && saved == start))
    case NoSnapshot => news == [] && saved.status == Paused && saved.lastError == "NO_SNAPSHOT"
    case Interrupted => true
    case Died => true
    case NoMaterial => && saved.status == PausedMaterials && saved.lastError == "NO_MATERIAL"
                       && news != [] && Refusal(news[|news| - 1].reply)
    case Failed(code) => && saved.status == Paused && saved.lastError == code && news != [] && Refusal(news[|news| - 1].reply)
                         && news[|news| - 1].reply.code == code != "NO_MATERIAL"
    case PostconditionFailed =>
      && saved.status == Paused && saved.lastError == "BUILD_POSTCONDITION_FAILED"
      && news != [] && news[|news| - 1].reply.Reply? && news[|news| - 1].reply.ok
      && Reported(news[|news| - 1].reply) <= start.completed + ReportedIn(news[..|news| - 1])
  }

  predicate Refusal(r: Reply) { r.Reply? && !r.ok }

  /** Everything a run promises, whatever the Bridge answered and however the run ended. */
  ghost predicate Ran(site: Site, limit: nat, store: map<BuildId, Checkpoint>, w: World, news: seq<Round>,
                      store': map<BuildId, Checkpoint>, w': World, r: Outcome)
    requires site.Turnable()
  {
    var id, start, end := IdOf(site), Restored(site, store), Restored(site, store');
    // the saved checkpoint is right about the world, and the outcome is right about the checkpoint
    && (id in store ==> id in store') && (id in store' ==> Sound(site, store'[id], w'))
    && (r == BuildComplete ==> id in store' && store'[id].status == Done)
    && (id in store' && store'[id].status == Done ==> Built(site, w') && (r == BuildComplete || r == Died))
    && (id in store' || r == Interrupted) && OutcomeFits(start, news, end, r)
    // completed work is never lost, and is exactly what the Bridge reported
    && end.completed == start.completed + ReportedIn(news)
    && start.skipped <= end.skipped
    // segment numbers go up by one; a saved round's number is never used again
    && Numbered(site, limit, start, news)
    && end.nextSegment == start.nextSegment + |news| - (if r == Interrupted then 1 else 0)
    && (if r == Interrupted then |news| > 0 && Answered(news[..|news| - 1]) && news[|news| - 1].reply.Raised? else Answered(news))
    // at most one call per unfinished block
    && |news| <= |Unfinished(site, start)|
    // nothing else changes
    && OthersUntouched(site, w, w')
    && (forall other | other != id :: (other in store' <==> other in store) && (other in store ==> store'[other] == store[other]))
  }

  /** A saved checkpoint that is sound is restored as it was saved. */
  lemma {:induction false} SoundIsRestored(site: Site, store: map<BuildId, Checkpoint>, w: World)
    requires site.Turnable() && IdOf(site) in store && Sound(site, store[IdOf(site)], w)
    ensures Restored(site, store) == store[IdOf(site)]
  {
    var cp := store[IdOf(site)];
    forall i | i in cp.completed ensures 0 <= i < |site.bp.blocks| { assert site.Holds(i, w); }
    assert (set i | i in cp.completed && 0 <= i < |site.bp.blocks|) == cp.completed;
    assert (set i | i in cp.skipped && site.Optional(i)) == cp.skipped;
  }

  lemma {:induction false} StartIsSound(site: Site, store: map<BuildId, Checkpoint>, w: World)
    requires site.Turnable() && (IdOf(site) in store ==> Sound(site, store[IdOf(site)], w))
    ensures Sound(site, Restored(site, store), w)
    ensures IdOf(site) in store ==> Restored(site, store) == store[IdOf(site)]
  {
    if IdOf(site) in store { SoundIsRestored(site, store, w); }
  }

  lemma {:induction false} RequiredDoneIsBuilt(site: Site, cp: Checkpoint, w: World)
    requires site.Turnable() && RequiredOf(site) <= cp.completed && forall i | i in cp.completed :: site.Holds(i, w)
    ensures Built(site, w)
  {
    forall i | site.Required(i) ensures site.Holds(i, w) { assert i in RequiredOf(site); }
  }

  /** A run that ends with a saved checkpoint. */
  lemma {:induction false} RunEnds(site: Site, limit: nat, store: map<BuildId, Checkpoint>, w: World, news: seq<Round>, cp: Checkpoint,
                                   runnable: seq<Placement>, w': World, saved: Checkpoint, r: Outcome)
    requires site.Valid() && InRun(site, limit, Restored(site, store), w, cp, runnable, w', news)
    requires |news| <= |Unfinished(site, Restored(site, store))|
    requires saved.completed == cp.completed && saved.skipped == cp.skipped && saved.nextSegment == cp.nextSegment
    requires r != Interrupted && (r == BuildComplete ==> saved.status == Done)
    requires saved.status == Done ==> (r == BuildComplete || r == Died) && RequiredOf(site) <= cp.completed
    requires OutcomeFits(Restored(site, store), news, saved, r)
    ensures Ran(site, limit, store, w, news, store[IdOf(site) := saved], w', r)
  {
    var store' := store[IdOf(site) := saved];
    assert Sound(site, saved, w');
    SoundIsRestored(site, store', w');
    if saved.status == Done { RequiredDoneIsBuilt(site, cp, w'); }
  }

  /** A run cut short inside a call: whatever was saved last still holds in the changed world. */
  lemma {:induction false} RunCut(site: Site, limit: nat, store: map<BuildId, Checkpoint>, w: World, news: seq<Round>, cp: Checkpoint,
                                  runnable: seq<Placement>, w1: World, segment: seq<Placement>, w': World, store': map<BuildId, Checkpoint>)
    requires site.Valid() && InRun(site, limit, Restored(site, store), w, cp, runnable, w1, news)
    requires |news| < |Unfinished(site, Restored(site, store))|
    requires segment <= runnable && 0 < |segment| <= limit && |segment| <= site.bp.segmentSize && Honest(segment, w1, Raised, w')
    requires IdOf(site) in store ==> Sound(site, store[IdOf(site)], w)
    requires store' == if news == [] then store else store[IdOf(site) := cp]
    requires IdOf(site) in store && news == [] ==> store[IdOf(site)].status != Done
    ensures Ran(site, limit, store, w, news + [Round(SegmentId(IdOf(site), cp.nextSegment), segment, Raised)], store', w', Interrupted)
  {
    var round := Round(SegmentId(IdOf(site), cp.nextSegment), segment, Raised);
    ReplyStep(site, limit, Restored(site, store), w, cp, runnable, w1, news, segment, Raised, w');
    assert (news + [round])[..|news|] == news && Reported(Raised) == {};
    assert Answered(news);
    if news != [] {
      assert Sound(site, cp, w');
      SoundIsRestored(site, store', w');
    } else if IdOf(site) in store {
      assert Restored(site, store).completed == cp.completed;
      SoundIsRestored(site, store, w);
      assert Sound(site, store[IdOf(site)], w');
    }
  }

  class BlueprintExecutor {
    const segmentSize: nat
    var store: map<BuildId, Checkpoint>
    var world: World
    var saves: nat
    ghost var rounds: seq<Round>

    constructor (size: int, start: World)
      ensures segmentSize == if size < 1 then 1 else if size > 128 then 128 else size
      ensures store == map[] && world == start && rounds == []
    {
      segmentSize := if size < 1 then 1 else if size > 128 then 128 else size;
      store, world, saves, rounds := map[], start, 0, [];
    }

    ghost predicate SiteSound(site: Site)
      requires site.Turnable()
      reads this
    {
      IdOf(site) in store ==> Sound(site, store[IdOf(site)], world)
    }

    method SendSegment(bridge: Bridge, id: SegmentId, segment: seq<Placement>) returns (r: Reply)
      modifies this`world, this`rounds
      ensures (r, world) == bridge(id, segment, old(world))
      ensures rounds == old(rounds) + [Round(id, segment, r)]
    {
      var answer := bridge(id, segment, world);
      r, world := answer.0, answer.1;
      rounds := rounds + [Round(id, segment, r)];
    }

    /** `_save`, after which the process may die. */
    method Save(id: BuildId, cp: Checkpoint, dies: nat -> bool) returns (died: bool)
      modifies this`store, this`saves
      ensures store == old(store)[id := cp] && saves == old(saves) + 1 && died == dies(old(saves))
    {
      store := store[id := cp];
      died := dies(saves);
      saves := saves + 1;
    }

    /** One pass of the loop: send a segment, save what came back, decide whether to go on. */
    method SendAndSave(site: Site, bridge: Bridge, latest: Option<Inventory>, dies: nat -> bool, cp: Checkpoint, runnable: seq<Placement>,
                       ghost store0: map<BuildId, Checkpoint>, ghost w0: World, ghost news: seq<Round>, ghost allowed: seq<Placement>,
                       ghost base: set<int>)
      returns (stop: Option<Outcome>, cp': Checkpoint, runnable': seq<Placement>, ghost round: Round)
      requires 1 <= segmentSize && site.Valid() && HonestBridge(bridge) && runnable != []
      requires InRun(site, segmentSize, Restored(site, store0), w0, cp, runnable, world, news)
      requires |news| + |runnable| <= |Unfinished(site, Restored(site, store0))|
      requires store == if news == [] then store0 else store0[IdOf(site) := cp]
      requires IdOf(site) in store0 ==> Sound(site, store0[IdOf(site)], w0) && store0[IdOf(site)].status != Done
      requires SentFrom(news, allowed) && Within(runnable, allowed) && SkipsEarned(site, base, news, cp.skipped)
      requires IdOf(site) in store0 ==> store0[IdOf(site)].skipped <= base
      modifies this
      ensures rounds == old(rounds) + [round]
      ensures PassFits(site, segmentSize, latest, cp, runnable, round, stop, cp', runnable')
      ensures IdOf(site) in store ==> SkipsEarned(site, base, news + [round], store[IdOf(site)].skipped)
      ensures SentFrom(news + [round], allowed) && Within(runnable', allowed)
      ensures stop.Some? ==> Shortfall(site, latest, store, round.reply, stop.value)
      ensures stop.None? ==>
                && InRun(site, segmentSize, Restored(site, store0), w0, cp', runnable', world, news + [round])
                && |runnable'| < |runnable|
                && store == store0[IdOf(site) := cp']
      ensures stop.Some? ==>
                stop.value != BadRotation && Ran(site, segmentSize, store0, w0, news + [round], store, world, stop.value)
    {
      hide Ran, InRun, Pending, Sound, HonestBridge, Honest, Restored, Unfinished, StillPending, Unskipped, Missing, RequiredOf,
           Numbered, OthersUntouched, ReportedIn, Reported, SentFrom, Within, SkipsEarned, PassFits, Shortfall;
      ghost var w := world;
      var size := if segmentSize < site.bp.segmentSize then segmentSize else site.bp.segmentSize;
      var segment := if |runnable| <= size then runnable else runnable[..size];
      var id := SegmentId(IdOf(site), cp.nextSegment);
      var reply := SendSegment(bridge, id, segment);
      round := Round(id, segment, reply);
      HonestReply(bridge, id, segment, w);
      SendingScheduled(news, allowed, runnable, segment, round);
      cp', runnable' := cp, runnable;
      if reply.Raised? {
        RunCut(site, segmentSize, store0, w0, news, cp, runnable, w, segment, world, store);
        if news == [] && IdOf(site) in store { NoneSkipped(site, base, news + [round], store[IdOf(site)].skipped); }
        EarnedLater(site, base, news, round, cp.skipped);
        PassEnds(site, segmentSize, latest, cp, runnable, round, Interrupted, cp', runnable', store);
        return Some(Interrupted), cp', runnable', round;
      }
      stop, cp', runnable' := KeepReply(site, latest, dies, reply, segment, cp, runnable, round, w, store0, w0, news, allowed, base);
    }

    /** A reply is added to the checkpoint and saved; then it is decided whether to go on. */
    method KeepReply(site: Site, latest: Option<Inventory>, dies: nat -> bool, reply: Reply, segment: seq<Placement>, cp: Checkpoint,
                     runnable: seq<Placement>, ghost round: Round, ghost w: World, ghost store0: map<BuildId, Checkpoint>, ghost w0: World,
                     ghost news: seq<Round>, ghost allowed: seq<Placement>, ghost base: set<int>)
      returns (stop: Option<Outcome>, cp': Checkpoint, runnable': seq<Placement>)
      requires site.Valid() && InRun(site, segmentSize, Restored(site, store0), w0, cp, runnable, w, news) && reply.Reply?
      requires |news| + |runnable| <= |Unfinished(site, Restored(site, store0))| && runnable != []
      requires store == if news == [] then store0 else store0[IdOf(site) := cp]
      requires var limit := if segmentSize < site.bp.segmentSize then segmentSize else site.bp.segmentSize;
               1 <= limit && segment == if |runnable| <= limit then runnable else runnable[..limit]
      requires Honest(segment, w, reply, world) && round == Round(SegmentId(IdOf(site), cp.nextSegment), segment, reply)
      requires Within(runnable, allowed) && SkipsEarned(site, base, news, cp.skipped)
      modifies this`store, this`saves
      ensures PassFits(site, segmentSize, latest, cp, runnable, round, stop, cp', runnable')
      ensures IdOf(site) in store ==> SkipsEarned(site, base, news + [round], store[IdOf(site)].skipped)
      ensures Within(runnable', allowed)
      ensures stop.Some? ==> Shortfall(site, latest, store, round.reply, stop.value)
      ensures stop.None? ==>
                && InRun(site, segmentSize, Restored(site, store0), w0, cp', runnable', world, news + [round])
                && |runnable'| < |runnable|
                && store == store0[IdOf(site) := cp']
      ensures stop.Some? ==>
                stop.value != BadRotation && Ran(site, segmentSize, store0, w0, news + [round], store, world, stop.value)
    {
      hide Ran, InRun, Pending, Sound, HonestBridge, Honest, Restored, Unfinished, StillPending, Unskipped, Missing, RequiredOf,
           Numbered, OthersUntouched, ReportedIn, Reported, SentFrom, Within, SkipsEarned, Heard, Leaves, FollowsReply,
           PassFits, Shortfall, IdOf, Drops, Sorted;
      ghost var start := Restored(site, store0);
      ReplyStep(site, segmentSize, start, w0, cp, runnable, w, news, segment, reply, world);
      cp' := AfterReply(cp, reply);
      AfterReplyHeard(cp, runnable, reply);
      EarnedLater(site, base, news, round, cp.skipped);
      ghost var heard, left := cp', StillPending(runnable, cp');
      Overwrite(store0, IdOf(site), cp, cp');
      ShrinksTwice(runnable, cp', allowed);
      runnable' := StillPending(runnable, cp');
      InRunIsPending(site, segmentSize, start, w0, cp, runnable, w, news);
      InRunIsPending(site, segmentSize, start, w0, cp', runnable', world, news + [round]);
      var died := Save(IdOf(site), cp', dies);
      if died {
        RunEnds(site, segmentSize, store0, w0, news + [round], cp', runnable', world, cp', Died);
        PassEnds(site, segmentSize, latest, cp, runnable, round, Died, cp', runnable', store);
        return Some(Died), cp', runnable';
      }
      var grew := |cp'.completed| != |cp.completed|;
      LastRound(news, round);
      if reply.ok {
        if grew { ProgressShrinks(site, cp, runnable, segment, w, reply, world); } else { NoProgress(start, cp, news, round); }
      } else if Failing(site, reply) {
        FailedStillPending(site, cp, runnable, segment, w, reply, world);
      }
      stop, cp', runnable' := Decide(site, latest, dies, reply, grew, cp', runnable', store0, w0, news + [round], allowed, |runnable|, base);
      PassMade(site, segmentSize, latest, cp, runnable, round, heard, left, stop, cp', runnable');
    }

    /** After the save: go on while progress is made, otherwise stop or skip. */
    method Decide(site: Site, latest: Option<Inventory>, dies: nat -> bool, reply: Reply, grew: bool, cp: Checkpoint, runnable: seq<Placement>,
                  ghost store0: map<BuildId, Checkpoint>, ghost w0: World, ghost news: seq<Round>, ghost allowed: seq<Placement>,
                  ghost before: nat, ghost base: set<int>)
      returns (stop: Option<Outcome>, cp': Checkpoint, runnable': seq<Placement>)
      requires site.Valid() && InRun(site, segmentSize, Restored(site, store0), w0, cp, runnable, world, news)
      requires |news| <= |Unfinished(site, Restored(site, store0))| && store == store0[IdOf(site) := cp]
      requires reply.Reply? && news != [] && news[|news| - 1].reply == reply && Within(runnable, allowed)
      requires if reply.ok && grew then |runnable| < before else |runnable| <= before
      requires reply.ok && !grew ==> Reported(reply) <= Restored(site, store0).completed + ReportedIn(news[..|news| - 1])
      requires SkipsEarned(site, base, news, cp.skipped)
      requires !reply.ok ==> cp.status == Paused && cp.lastError == reply.code && (Failing(site, reply) ==> site.Place(reply.failedIndex.value) in runnable)
      modifies this`store, this`saves
      ensures Within(runnable', allowed)
      ensures stop != Some(Died) ==> FollowsReply(site, latest, reply, grew, cp, runnable, stop, cp', runnable')
      ensures IdOf(site) in store && SkipsEarned(site, base, news, store[IdOf(site)].skipped)
      ensures stop.Some? ==> Shortfall(site, latest, store, reply, stop.value)
      ensures stop.None? ==>
                && InRun(site, segmentSize, Restored(site, store0), w0, cp', runnable', world, news)
                && |runnable'| < before && store == store0[IdOf(site) := cp']
      ensures stop.Some? ==> stop.value != BadRotation && Ran(site, segmentSize, store0, w0, news, store, world, stop.value)
    {
      hide Ran, InRun, Restored, Unfinished, ReportedIn, Reported, Within, MissingRecorded, SkipsEarned, Drops, Leaves, Missing, ShortOf;
      cp', runnable' := cp, runnable;
      if reply.ok {
        if grew { return None, cp', runnable'; }
        stop := StopUnproven(site, dies, cp, runnable, store0, w0, news);
        return;
      }
      stop, cp', runnable' := HandleRefusal(site, latest, dies, reply, cp, runnable, store0, w0, news, allowed, base);
    }

    /** A round that reported nothing new although it succeeded. */
    method StopUnproven(site: Site, dies: nat -> bool, cp: Checkpoint, runnable: seq<Placement>,
                        ghost store0: map<BuildId, Checkpoint>, ghost w0: World, ghost news: seq<Round>)
      returns (stop: Option<Outcome>)
      requires site.Valid() && InRun(site, segmentSize, Restored(site, store0), w0, cp, runnable, world, news)
      requires |news| <= |Unfinished(site, Restored(site, store0))| && store == store0[IdOf(site) := cp]
      requires news != [] && news[|news| - 1].reply.Reply? && news[|news| - 1].reply.ok
      requires Reported(news[|news| - 1].reply) <= Restored(site, store0).completed + ReportedIn(news[..|news| - 1])
      modifies this`store, this`saves
      ensures stop.Some? && stop.value in {PostconditionFailed, Died}
      ensures IdOf(site) in store && store[IdOf(site)].skipped == cp.skipped
      ensures Ran(site, segmentSize, store0, w0, news, store, world, stop.value)
    {
      hide Ran, InRun, Restored, Unfinished, ReportedIn, Reported, RequiredOf;
      var saved := cp.(status := Paused, lastError := "BUILD_POSTCONDITION_FAILED");
      Overwrite(store0, IdOf(site), cp, saved);
      var died := Save(IdOf(site), saved, dies);
      var r := if died then Died else PostconditionFailed;
      RunEnds(site, segmentSize, store0, w0, news, cp, runnable, world, saved, r);
      return Some(r);
    }

    /** A round the Bridge refused: skip an optional item, or stop with what is missing or with the code. */
    method HandleRefusal(site: Site, latest: Option<Inventory>, dies: nat -> bool, reply: Reply, cp: Checkpoint, runnable: seq<Placement>,
                         ghost store0: map<BuildId, Checkpoint>, ghost w0: World, ghost news: seq<Round>, ghost allowed: seq<Placement>,
                         ghost base: set<int>)
      returns (stop: Option<Outcome>, cp': Checkpoint, runnable': seq<Placement>)
      requires site.Valid() && InRun(site, segmentSize, Restored(site, store0), w0, cp, runnable, world, news)
      requires |news| <= |Unfinished(site, Restored(site, store0))| && store == store0[IdOf(site) := cp] && cp.status == Paused
      requires Refusal(reply) && news != [] && news[|news| - 1].reply == reply
      requires Failing(site, reply) ==> site.Place(reply.failedIndex.value) in runnable
      requires Within(runnable, allowed) && cp.lastError == reply.code && SkipsEarned(site, base, news, cp.skipped)
      modifies this`store, this`saves
      ensures Within(runnable', allowed)
      ensures stop != Some(Died) ==> FollowsReply(site, latest, reply, false, cp, runnable, stop, cp', runnable')
      ensures IdOf(site) in store && SkipsEarned(site, base, news, store[IdOf(site)].skipped)
      ensures stop.Some? ==> Shortfall(site, latest, store, reply, stop.value)
      ensures stop.None? ==>
                && InRun(site, segmentSize, Restored(site, store0), w0, cp', runnable', world, news)
                && |runnable'| < |runnable| && store == store0[IdOf(site) := cp']
      ensures stop.Some? ==> stop.value != BadRotation && Ran(site, segmentSize, store0, w0, news, store, world, stop.value)
    {
      hide Ran, InRun, Sound, Restored, Unfinished, Unskipped, Missing, RequiredOf, ReportedIn, Within, MissingRecorded, SkipsEarned,
           Drops, Leaves, IdOf, SkipItem, Sorted;
      cp', runnable' := cp, runnable;
      InRunIsPending(site, segmentSize, Restored(site, store0), w0, cp, runnable, world, news);
      if reply.code == "NO_MATERIAL" && Failing(site, reply) {
        cp' := SkipItem(cp, runnable, site.bp.blocks[reply.failedIndex.value].item);
        SkipStep(site, segmentSize, Restored(site, store0), w0, cp, runnable, world, news, reply.failedIndex.value);
        EarnedHere(site, base, news, cp, runnable, cp');
        Overwrite(store0, IdOf(site), cp, cp');
        ShrinksTwice(runnable, cp', allowed);
        runnable' := Unskipped(runnable, cp');
        var died := Save(IdOf(site), cp', dies);
        if died {
          InRunIsPending(site, segmentSize, Restored(site, store0), w0, cp', runnable', world, news);
          RunEnds(site, segmentSize, store0, w0, news, cp', runnable', world, cp', Died);
          return Some(Died), cp', runnable';
        }
        return None, cp', runnable';
      }
      var missingNow := if latest.Some? then Missing(site.bp, latest.value, cp.completed) else map[];
      if reply.code == "NO_MATERIAL" || missingNow != map[] {
        var saved := cp.(status := PausedMaterials, lastError := "NO_MATERIAL",
                         missing := if missingNow != map[] then missingNow else reply.missing);
        Overwrite(store0, IdOf(site), cp, saved);
        var died := Save(IdOf(site), saved, dies);
        ShortfallRecorded(site, store, latest, reply);
        var r := if died then Died else NoMaterial;
        RunEnds(site, segmentSize, store0, w0, news, cp, runnable, world, saved, r);
        return Some(r), cp', runnable';
      }
      RunEnds(site, segmentSize, store0, w0, news, cp, runnable, world, cp, Failed(reply.code));
      return Some(Failed(reply.code)), cp', runnable';
    }

    /** The loop over the segments. */
    method SendAll(site: Site, bridge: Bridge, latest: Option<Inventory>, dies: nat -> bool, start: Checkpoint, all: seq<Placement>,
                   ghost store0: map<BuildId, Checkpoint>, ghost w0: World, ghost allowed: seq<Placement>, ghost base: set<int>)
      returns (stop: Option<Outcome>, cp: Checkpoint, ghost news: seq<Round>)
      requires 1 <= segmentSize && site.Valid() && HonestBridge(bridge) && all != [] && store == store0
      requires InRun(site, segmentSize, Restored(site, store0), w0, start, all, world, [])
      requires |all| <= |Unfinished(site, Restored(site, store0))|
      requires IdOf(site) in store0 ==> Sound(site, store0[IdOf(site)], w0) && store0[IdOf(site)].status != Done
      requires SentFrom([], allowed) && Within(all, allowed) && SkipsEarned(site, base, [], start.skipped)
      requires IdOf(site) in store0 ==> store0[IdOf(site)].skipped <= base
      modifies this
      ensures rounds == old(rounds) + news && news != [] && SentFrom(news, allowed)
      ensures IdOf(site) in store ==> SkipsEarned(site, base, news, store[IdOf(site)].skipped)
      ensures stop.None? ==>
                && InRun(site, segmentSize, Restored(site, store0), w0, cp, [], world, news)
                && |news| <= |Unfinished(site, Restored(site, store0))| && store == store0[IdOf(site) := cp]
      ensures stop.Some? ==>
                && stop.value != BadRotation && Ran(site, segmentSize, store0, w0, news, store, world, stop.value)
                && Shortfall(site, latest, store, news[|news| - 1].reply, stop.value)
    {
      hide Ran, InRun, Pending, Sound, HonestBridge, Restored, Unfinished, SentFrom, Within, Shortfall, SkipsEarned, PassFits;
      stop, cp, news := None, start, [];
      var runnable := all;
      while runnable != []
        invariant InRun(site, segmentSize, Restored(site, store0), w0, cp, runnable, world, news)
        invariant |news| + |runnable| <= |Unfinished(site, Restored(site, store0))|
        invariant SentFrom(news, allowed) && Within(runnable, allowed) && SkipsEarned(site, base, news, cp.skipped)
        invariant stop.None? && rounds == old(rounds) + news && (runnable == [] ==> news != [])
        invariant store == if news == [] then store0 else store0[IdOf(site) := cp]
        decreases |runnable|
      {
        ghost var round;
        stop, cp, runnable, round := SendAndSave(site, bridge, latest, dies, cp, runnable, store0, w0, news, allowed, base);
        news := news + [round];
        if stop.Some? { return; }
      }
    }

    /** One run: restore, schedule, send segment after segment, save after every reply. */
    method Execute(site: Site, bridge: Bridge, snapshot: Option<Inventory>, latest: Option<Inventory>, dies: nat -> bool)
      returns (r: Outcome)
      requires 1 <= segmentSize && site.bp.Valid() && HonestBridge(bridge)
      requires site.Turnable() ==> SiteSound(site)
      modifies this
      ensures r == BadRotation <==> !site.Turnable()
      ensures r == BadRotation ==> store == old(store) && world == old(world) && rounds == old(rounds)
      ensures old(rounds) <= rounds
      ensures site.Turnable() ==> Ran(site, segmentSize, old(store), old(world), rounds[|old(rounds)|..], store, world, r)
      // only scheduled work is sent: required blocks, and optional ones within the surplus of the snapshot
      ensures site.Turnable() ==> SentAsScheduled(site, Restored(site, old(store)), snapshot, rounds[|old(rounds)|..])
      ensures r == NoMaterial || r.Failed? ==> rounds != [] && Shortfall(site, latest, store, rounds[|rounds| - 1].reply, r)
      // what is skipped was skipped before, left out by the schedule, or refused
      ensures site.Turnable() ==> SkipsFit(site, Restored(site, old(store)), snapshot, rounds[|old(rounds)|..], store)
    {
      hide Ran, InRun, Pending, Sound, HonestBridge, Honest, Restored, Unfinished, StillPending, Unskipped, RequiredOf,
           Numbered, OthersUntouched, ReportedIn, SentFrom, SentAsScheduled, Within, Shortfall, Scheduled, SurplusOf, LeftOut,
           SkipsEarned, SkipsFit, PassFits;
      if !site.Turnable() { return BadRotation; }
      var id := IdOf(site);
      var cp := Restored(site, store);
      ghost var w0, store0 := world, store;
      var required := RequiredOf(site);
      StartIsSound(site, store, world);
      assert rounds[|old(rounds)|..] == [];
      NothingSent(site, cp, snapshot);
      if required <= cp.completed && cp.status == Done {
        var died := Save(id, cp, dies);
        r := if died then Died else BuildComplete;
        RunIsOver(site, segmentSize, store0, w0, cp, cp, r);
        NothingSkipped(site, cp, snapshot, store);
        return;
      }
      if snapshot.None? {
        var saved := cp.(status := Paused, lastError := "NO_SNAPSHOT");
        var died := Save(id, saved, dies);
        r := if died then Died else NoSnapshot;
        RunIsOver(site, segmentSize, store0, w0, cp, saved, r);
        NothingSkipped(site, cp, snapshot, store);
        return;
      }
      NotDoneYet(site, cp, world);
      var remaining := Unfinished(site, cp);
      var runnable, skipped := Schedule(remaining, snapshot.value, cp.skipped);
      RunBegins(site, segmentSize, world, cp, remaining, snapshot.value, cp.(skipped := skipped));
      ghost var start := cp;
      cp := cp.(skipped := skipped);
      if runnable == [] {
        var saved := cp.(status := Done, lastError := "");
        var died := Save(id, saved, dies);
        r := if died then Died else BuildComplete;
        NothingLeft(site, segmentSize, Restored(site, store0), w0, cp, world, []);
        RunEnds(site, segmentSize, store0, w0, [], cp, runnable, world, saved, r);
        NoneSkipped(site, skipped, [], skipped);
        SkippedAsFits(site, start, snapshot, skipped, [], store);
        return;
      }
      ghost var allowed := runnable;
      AllAllowed(runnable);
      NoneSkipped(site, skipped, [], skipped);
      var stop;
      ghost var news;
      stop, cp, news := SendAll(site, bridge, latest, dies, cp, runnable, store0, w0, allowed, skipped);
      assert rounds[|old(rounds)|..] == news;
      if stop.Some? {
        AsScheduled(site, start, snapshot, allowed, news);
        SkippedAsFits(site, start, snapshot, skipped, news, store);
        return stop.value;
      }
      runnable := [];
      NothingLeft(site, segmentSize, Restored(site, store0), w0, cp, world, news);
      AsScheduled(site, start, snapshot, allowed, news);
      var complete := required <= cp.completed;
      var saved := cp.(status := if complete then Done else Paused,
                       lastError := if complete then "" else "BUILD_POSTCONDITION_FAILED");
      Overwrite(store0, id, cp, saved);
      var died := Save(id, saved, dies);
      r := if died then Died else BuildComplete;
      RunEnds(site, segmentSize, store0, w0, news, cp, runnable, world, saved, r);
      SkippedAsFits(site, start, snapshot, skipped, news, store);
      return if !died && !complete then PostconditionFailed else r;
    }
  }

  /** No segment number, hence no request id, is used again once its round has been saved. */
  ghost predicate NeverReused(all: seq<Round>, next: int)
  {
    && (forall i | 0 <= i < |all| :: all[i].id.number < next || (all[i].id.number == next && all[i].reply.Raised?))
    && (forall i, j | 0 <= i < j < |all| :: all[i].id == all[j].id ==> all[i].reply.Raised?)
  }

  lemma {:induction false} RunKeepsNumbersFresh(site: Site, limit: nat, store: map<BuildId, Checkpoint>, w: World, all: seq<Round>,
                                                news: seq<Round>, store': map<BuildId, Checkpoint>, w': World, r: Outcome)
    requires site.Turnable() && Ran(site, limit, store, w, news, store', w', r)
    requires NeverReused(all, Restored(site, store).nextSegment)
    ensures NeverReused(all + news, Restored(site, store').nextSegment)
  {
    var start, sum := Restored(site, store).nextSegment, all + news;
    forall k | 0 <= k < |news|
      ensures news[k].id.number == start + k && (news[k].reply.Raised? ==> r == Interrupted && k == |news| - 1)
    {
      assert k < |news| - 1 ==> news[k] == news[..|news| - 1][k];
    }
    forall i | 0 <= i < |sum|
      ensures var next := Restored(site, store').nextSegment;
              sum[i].id.number < next || (sum[i].id.number == next && sum[i].reply.Raised?)
    {
      assert i >= |all| ==> sum[i] == news[i - |all|];
    }
    assert forall i | |all| <= i < |sum| :: sum[i] == news[i - |all|];
  }

  /** Any number of runs at one site, with other changes in the world in between. */
  method BuildOverTime(executor: BlueprintExecutor, site: Site, bridges: nat -> Bridge, snapshots: nat -> Option<Inventory>,
                       latest: nat -> Option<Inventory>, dies: nat -> bool, meanwhile: (nat, World) -> World, runs: nat)
    returns (outcomes: seq<Outcome>)
    requires 1 <= executor.segmentSize && site.Valid() && executor.rounds == [] && IdOf(site) !in executor.store
    requires forall n :: HonestBridge(bridges(n))
    requires forall n, w, i: nat | i < |site.bp.blocks| :: Same(w, meanwhile(n, w), site.Place(i).pos)
    modifies executor
    ensures |outcomes| == runs
    ensures BuildComplete in outcomes ==> Built(site, executor.world)
    ensures NeverReused(executor.rounds, Restored(site, executor.store).nextSegment)
    ensures executor.SiteSound(site)
  {
    hide Ran, Sound, NeverReused, HonestBridge, Built;
    outcomes := [];
    SitelessStart(site, executor.store);
    for n := 0 to runs
      invariant |outcomes| == n && executor.SiteSound(site)
      invariant NeverReused(executor.rounds, Restored(site, executor.store).nextSegment)
      invariant BuildComplete in outcomes ==>
                  IdOf(site) in executor.store && RequiredOf(site) <= executor.store[IdOf(site)].completed
    {
      ghost var before := executor.world;
      executor.world := meanwhile(n, executor.world);
      SoundSurvives(site, executor.store, before, executor.world);
      ghost var store, w, rounds := executor.store, executor.world, executor.rounds;
      var r := executor.Execute(site, bridges(n), snapshots(n), latest(n), dies);
      ghost var news := executor.rounds[|rounds|..];
      assert executor.rounds == rounds + news;
      RunKeepsNumbersFresh(site, executor.segmentSize, store, w, rounds, news, executor.store, executor.world, r);
      RunOutcome(site, executor.segmentSize, store, w, news, executor.store, executor.world, r);
      outcomes := outcomes + [r];
    }
    if BuildComplete in outcomes { CompleteIsBuilt(site, executor.store, executor.world); }
  }

  lemma {:induction false} SitelessStart(site: Site, store: map<BuildId, Checkpoint>)
    requires IdOf(site) !in store
    ensures NeverReused([], Restored(site, store).nextSegment)
  {
  }

  lemma {:induction false} SoundSurvives(site: Site, store: map<BuildId, Checkpoint>, w: World, w': World)
    requires site.Turnable() && (IdOf(site) in store ==> Sound(site, store[IdOf(site)], w))
    requires forall i: nat | i < |site.bp.blocks| :: Same(w, w', site.Place(i).pos)
    ensures IdOf(site) in store ==> Sound(site, store[IdOf(site)], w')
  {
    if IdOf(site) in store {
      forall i | i in store[IdOf(site)].completed ensures site.Holds(i, w') {
        assert site.Holds(i, w) && Same(w, w', site.Place(i).pos);
      }
    }
  }

  lemma {:induction false} RunOutcome(site: Site, limit: nat, store: map<BuildId, Checkpoint>, w: World, news: seq<Round>,
                                      store': map<BuildId, Checkpoint>, w': World, r: Outcome)
    requires site.Turnable() && Ran(site, limit, store, w, news, store', w', r)
    requires IdOf(site) in store ==> Sound(site, store[IdOf(site)], w)
    ensures IdOf(site) in store' ==> Sound(site, store'[IdOf(site)], w')
    ensures r == BuildComplete ==> IdOf(site) in store' && RequiredOf(site) <= store'[IdOf(site)].completed
    ensures IdOf(site) in store && RequiredOf(site) <= store[IdOf(site)].completed ==>
              IdOf(site) in store' && RequiredOf(site) <= store'[IdOf(site)].completed
  {
    StartIsSound(site, store, w);
    StartIsSound(site, store', w');
  }

  lemma {:induction false} CompleteIsBuilt(site: Site, store: map<BuildId, Checkpoint>, w: World)
    requires site.Turnable() && IdOf(site) in store && Sound(site, store[IdOf(site)], w)
    requires RequiredOf(site) <= store[IdOf(site)].completed
    ensures Built(site, w)
  {
    RequiredDoneIsBuilt(site, store[IdOf(site)], w);
  }

  lemma {:induction false} Overwrite<K, V>(m: map<K, V>, k: K, v: V, v': V)
    ensures m[k := v][k := v'] == m[k := v']
  {
  }

  lemma {:induction false} InRunIsPending(site: Site, limit: nat, start: Checkpoint, w0: World, cp: Checkpoint, runnable: seq<Placement>,
                                          w: World, news: seq<Round>)
    requires site.Turnable() && InRun(site, limit, start, w0, cp, runnable, w, news)
    ensures Pending(site, cp, runnable) && cp.completed == start.completed + ReportedIn(news) && cp.status != Done
  {
  }

  /** The reply names an optional block it failed on. */
  predicate Failing(site: Site, reply: Reply) { reply.Reply? && reply.failedIndex.Some? && site.Optional(reply.failedIndex.value) }

  lemma {:induction false} LastRound(news: seq<Round>, round: Round)
    ensures (news + [round])[|news + [round]| - 1] == round && (news + [round])[..|news + [round]| - 1] == news
  {
  }

  lemma {:induction false} ShortfallRecorded(site: Site, store: map<BuildId, Checkpoint>, latest: Option<Inventory>, reply: Reply)
    requires IdOf(site) in store && reply.Reply?
    requires var missing := if latest.Some? then Missing(site.bp, latest.value, store[IdOf(site)].completed) else map[];
             store[IdOf(site)].missing == if missing != map[] then missing else reply.missing
    ensures MissingRecorded(site, store, latest)
  {
  }

  lemma {:induction false} ShrinksTwice(runnable: seq<Placement>, cp: Checkpoint, allowed: seq<Placement>)
    ensures |StillPending(runnable, cp)| <= |runnable|
    ensures Within(runnable, allowed) ==> Within(StillPending(runnable, cp), allowed) && Within(Unskipped(runnable, cp), allowed)
  {
  }

  lemma {:induction false} NothingSent(site: Site, start: Checkpoint, snapshot: Option<Inventory>)
    requires site.Turnable()
    ensures SentAsScheduled(site, start, snapshot, [])
  {
  }

  lemma {:induction false} AsScheduled(site: Site, start: Checkpoint, snapshot: Option<Inventory>, allowed: seq<Placement>, news: seq<Round>)
    requires site.Turnable() && snapshot.Some? && SentFrom(news, allowed)
    requires allowed == Scheduled(Unfinished(site, start), SurplusOf(snapshot.value, Unfinished(site, start)))
    ensures SentAsScheduled(site, start, snapshot, news)
  {
  }

  lemma {:induction false} AllAllowed(ps: seq<Placement>)
    ensures SentFrom([], ps) && Within(ps, ps)
  {
  }

  lemma {:induction false} SendingScheduled(news: seq<Round>, allowed: seq<Placement>, runnable: seq<Placement>,
                                            segment: seq<Placement>, round: Round)
    requires SentFrom(news, allowed) && Within(runnable, allowed) && segment <= runnable && round.segment == segment
    ensures SentFrom(news + [round], allowed)
  {
  }

  lemma {:induction false} NotDoneYet(site: Site, cp: Checkpoint, w: World)
    requires site.Turnable() && Sound(site, cp, w) && !(RequiredOf(site) <= cp.completed && cp.status == Done)
    ensures cp.status != Done
  {
  }

  lemma {:induction false} HonestReply(bridge: Bridge, id: SegmentId, segment: seq<Placement>, w: World)
    requires HonestBridge(bridge)
    ensures Honest(segment, w, bridge(id, segment, w).0, bridge(id, segment, w).1)
  {
  }

  lemma {:induction false} NothingLeft(site: Site, limit: nat, start: Checkpoint, w0: World, cp: Checkpoint, w: World, news: seq<Round>)
    requires site.Turnable() && InRun(site, limit, start, w0, cp, [], w, news)
    ensures RequiredOf(site) <= cp.completed
  {
  }

  /** A run that never sends anything. */
  lemma {:induction false} RunIsOver(site: Site, limit: nat, store: map<BuildId, Checkpoint>, w: World, start: Checkpoint,
                                     saved: Checkpoint, r: Outcome)
    requires site.Valid() && start == Restored(site, store) && Sound(site, start, w)
    requires saved.completed == start.completed && saved.skipped == start.skipped && saved.nextSegment == start.nextSegment
    requires r == BuildComplete ==> saved.status == Done
    requires saved.status == Done ==> (r == BuildComplete || r == Died) && RequiredOf(site) <= start.completed
    requires OutcomeFits(start, [], saved, r) && r != Interrupted
    ensures Ran(site, limit, store, w, [], store[IdOf(site) := saved], w, r)
  {
    assert Sound(site, saved, w);
    SoundIsRestored(site, store[IdOf(site) := saved], w);
    if saved.status == Done { RequiredDoneIsBuilt(site, start, w); }
  }
}
