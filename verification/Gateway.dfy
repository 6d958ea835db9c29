/** The Bridge gateway: one request per id on the wire, a bounded result cache, and the resync test. */
module Gateway {
  import opened Options

  type RequestId = string

  type Result = string

  const CACHE_LIMIT: nat := 512

  /** What happened to a request, in order. A failure and its handler are one step. A request is orphaned when its
      requester is cancelled before the message is out: its waiter stays. */
  datatype Event = Sent(id: RequestId) | Failed(id: RequestId) | Answered(id: RequestId) | Evicted(id: RequestId)
                 | Orphaned(id: RequestId)

  datatype Phase = Idle | InFlight | Cached | Orphan

  /** How sending goes: the socket takes the message, refuses it, or the requester is cancelled while it waits its turn. */
  datatype Sending = Taken | Refused | CancelledUnsent

  datatype Answer = FromCache(result: Result) | Attached | Waiting | Error | Cancelled

  function Became(e: Event): Phase
  {
    match e
    case Sent(_) => InFlight
    case Failed(_) => Idle
    case Answered(_) => Cached
    case Evicted(_) => Idle
    case Orphaned(_) => Orphan
  }

  /** Where a request stands after a history of events. */
  ghost function PhaseOf(log: seq<Event>, id: RequestId): Phase
  {
    if log == [] then Idle
    else
      var last, before := log[|log| - 1], PhaseOf(log[..|log| - 1], id);
      if last.id != id then before else Became(last)
  }

  /** A request goes out only when it is neither in flight nor answered. */
  ghost predicate Disciplined(log: seq<Event>)
  {
    forall i | 0 <= i < |log| && log[i].Sent? :: PhaseOf(log[..i], log[i].id) == Idle
  }

  lemma {:induction false} PhaseStep(log: seq<Event>, e: Event, id: RequestId)
    ensures PhaseOf(log + [e], id) == if e.id != id then PhaseOf(log, id) else Became(e)
  {
    assert (log + [e])[..|log|] == log;
  }

  lemma {:induction false} DisciplineStep(log: seq<Event>, e: Event)
    requires Disciplined(log) && (e.Sent? ==> PhaseOf(log, e.id) == Idle)
    ensures Disciplined(log + [e])
  {
    forall i | 0 <= i < |log + [e]| && (log + [e])[i].Sent? ensures PhaseOf((log + [e])[..i], (log + [e])[i].id) == Idle {
      assert (log + [e])[..i] == log[..i];
      if i == |log| { assert log[..i] == log; }
    }
  }

  /** After a request has gone out, or was orphaned, only a failure or an eviction makes it idle again. */
  lemma {:induction false} IdleAgain(log: seq<Event>, i: nat)
    requires i < |log| && (log[i].Sent? || log[i].Orphaned?) && PhaseOf(log, log[i].id) == Idle
    ensures exists k :: i < k < |log| && (log[k] == Failed(log[i].id) || log[k] == Evicted(log[i].id))
  {
    var last := log[|log| - 1];
    if last == Failed(log[i].id) || last == Evicted(log[i].id) {
      assert i < |log| - 1;
    } else if i < |log| - 1 {
      assert log[..|log| - 1][i] == log[i];
      IdleAgain(log[..|log| - 1], i);
      var k :| i < k < |log| - 1 && (log[..|log| - 1][k] == Failed(log[i].id) || log[..|log| - 1][k] == Evicted(log[i].id));
      assert log[k] == log[..|log| - 1][k];
    }
  }

  /** The same id goes out after a first request, sent or orphaned, only once that has failed or its answer was evicted. */
  lemma {:induction false} AtMostOnce(log: seq<Event>, i: nat, j: nat)
    requires Disciplined(log) && i < j < |log| && (log[i].Sent? || log[i].Orphaned?) && log[j] == Sent(log[i].id)
    ensures exists k :: i < k < j && (log[k] == Failed(log[i].id) || log[k] == Evicted(log[i].id))
  {
    IdleAgain(log[..j], i);
    var k :| i < k < j && (log[..j][k] == Failed(log[i].id) || log[..j][k] == Evicted(log[i].id));
    assert log[k] == log[..j][k];
  }

  /** What asking for an unknown id adds to the history. */
  function SendEvents(id: RequestId, connected: bool, sending: Sending): seq<Event>
  {
    if !connected then [Failed(id)] else
    match sending
    case Taken => [Sent(id)]
    case Refused => [Sent(id), Failed(id)]
    case CancelledUnsent => [Orphaned(id)]
  }

  lemma {:induction false} Newest(order: seq<RequestId>, id: RequestId)
    ensures (order + [id])[|order|] == id && (order != [] ==> (order + [id])[1..] == order[1..] + [id] && (order + [id])[0] == order[0])
  {
  }

  class BridgeGateway {
    var connected: bool
    var waiters: set<RequestId>
    var order: seq<RequestId>
    var cache: map<RequestId, Result>
    ghost var log: seq<Event>

    var hello: bool
    var session: string
    var snapshotVersion: nat
    var helloVersion: nat
    var hasSnapshot: bool
    var snapshotSession: string
    var snapshotMaid: Option<string>
    var boundMaid: Option<string>
    ghost var freshState: bool

    constructor ()
      ensures Valid() && SameResync() && !connected && waiters == {} && order == [] && boundMaid == None
    {
      connected, waiters, order, cache, log := false, {}, [], map[], [];
      hello, session, snapshotVersion, helloVersion, hasSnapshot := false, "", 0, 0, false;
      snapshotSession, snapshotMaid, boundMaid, freshState := "", None, None, false;
    }

    /** The cache is in insertion order and bounded; waiters and cache are exactly what the history says. */
    ghost predicate Valid()
      reads this`waiters, this`order, this`cache, this`log
    {
      Consistent() && |order| <= 512
    }

    ghost predicate Consistent()
      reads this`waiters, this`order, this`cache, this`log
    {
      && (forall i, j | 0 <= i < j < |order| :: order[i] != order[j])
      && (forall id :: id in order <==> id in cache)
      && (forall id :: id in waiters <==> PhaseOf(log, id) == InFlight || PhaseOf(log, id) == Orphan)
      && (forall id :: id in cache <==> PhaseOf(log, id) == Cached)
      && Disciplined(log)
    }

    ghost predicate SameResync()
      reads this
    {
      // the resync fields agree with the ghost record of a state accepted since the last HELLO
      && helloVersion <= snapshotVersion
      && (freshState <==> hello && hasSnapshot && snapshotVersion > helloVersion && snapshotSession == session)
      && (hello ==> connected)
    }

    /** `request_action` up to its first wait. While a waiter is there, sent for or orphaned, nothing is sent. */
    method RequestAction(id: RequestId, sending: Sending) returns (a: Answer)
      requires Valid()
      modifies this`waiters, this`log
      ensures Valid()
      ensures id in cache ==> a == FromCache(cache[id]) && log == old(log) && waiters == old(waiters)
      ensures id !in cache && id in old(waiters) ==> a == Attached && log == old(log) && waiters == old(waiters)
      ensures id !in cache && id !in old(waiters) ==>
                && a == (if !connected || sending.Refused? then Error else if sending.Taken? then Waiting else Cancelled)
                && log == old(log) + (if !connected then [Failed(id)] else if sending.Taken? then [Sent(id)]
                                      else if sending.Refused? then [Sent(id), Failed(id)] else [Orphaned(id)])
                && waiters == old(waiters) + if a == Error then {} else {id}
    {
      hide PhaseOf, Disciplined;
      if id in cache { return FromCache(cache[id]); }
      if id in waiters { return Attached; }
      a := SendNew(id, sending);
    }

    /** A request of an idle id: its waiter is registered first, and removed when sending fails. */
    method SendNew(id: RequestId, sending: Sending) returns (a: Answer)
      requires Valid() && id !in waiters && id !in cache
      modifies this`waiters, this`log
      ensures Valid()
      ensures a == (if !connected || sending.Refused? then Error else if sending.Taken? then Waiting else Cancelled)
      ensures log == old(log) + SendEvents(id, connected, sending) && waiters == old(waiters) + if a == Error then {} else {id}
    {
      hide PhaseOf, Disciplined;
      waiters := waiters + {id};
      if connected && sending.CancelledUnsent? {
        Note(Orphaned(id));
        return Cancelled;
      }
      if connected {
        Note(Sent(id));
        if sending.Taken? { return Waiting; }
      }
      waiters := waiters - {id};
      Note(Failed(id));
      return Error;
    }

    ghost method Note(e: Event)
      requires Disciplined(log) && (e.Sent? ==> PhaseOf(log, e.id) == Idle)
      modifies this`log
      ensures log == old(log) + [e] && Disciplined(log)
      ensures forall id :: PhaseOf(log, id) == if e.id != id then PhaseOf(old(log), id) else Became(e)
    {
      DisciplineStep(log, e);
      forall id { PhaseStep(log, e, id); }
      log := log + [e];
    }

    /** An ACTION_RESULT, asked for or late: remembered, and its waiter released. */
    method OnResult(id: RequestId, result: Result)
      requires Valid()
      modifies this`waiters, this`order, this`cache, this`log
      ensures Valid()
      ensures id in cache && cache[id] == result && waiters == old(waiters) - {id}
      ensures forall other | other != id && other in cache :: other in old(cache) && cache[other] == old(cache)[other]
      ensures forall other | other in old(cache) && other !in cache :: |old(order)| == 512 && other == old(order)[0]
      ensures order == (if id in old(cache) then old(order) else if |old(order)| < 512 then old(order) + [id] else old(order)[1..] + [id])
      ensures log == old(log) + [Answered(id)] + if id !in old(cache) && |old(order)| == 512 then [Evicted(old(order)[0])] else []
    {
      hide PhaseOf, Disciplined;
      ghost var was := order;
      Remember(id, result);
      Newest(was, id);
      EvictOldest(id);
    }

    method Remember(id: RequestId, result: Result)
      requires Consistent()
      modifies this`waiters, this`order, this`cache, this`log
      ensures Consistent() && cache == old(cache)[id := result] && waiters == old(waiters) - {id}
      ensures order == (if id in old(cache) then old(order) else old(order) + [id]) && log == old(log) + [Answered(id)]
    {
      if id !in cache { order := order + [id]; }
      cache := cache[id := result];
      waiters := waiters - {id};
      Note(Answered(id));
    }

    method EvictOldest(ghost newest: RequestId)
      requires Consistent() && 0 < |order| <= CACHE_LIMIT + 1
      requires |order| > CACHE_LIMIT ==> order[|order| - 1] == newest
      modifies this`order, this`cache, this`log
      ensures Valid()
      ensures if |old(order)| <= CACHE_LIMIT then order == old(order) && cache == old(cache)
              else order == old(order)[1..] && cache == old(cache) - {old(order)[0]}
      ensures log == old(log) + if |old(order)| <= CACHE_LIMIT then [] else [Evicted(old(order)[0])]
    {
      while |order| > CACHE_LIMIT
        invariant Consistent() && |order| <= CACHE_LIMIT + 1
        invariant if |order| == |old(order)| then order == old(order) && cache == old(cache)
                  else |old(order)| == CACHE_LIMIT + 1 && order == old(order)[1..] && cache == old(cache) - {old(order)[0]}
        invariant log == old(log) + if |order| == |old(order)| then [] else [Evicted(old(order)[0])]
      {
        var oldest := order[0];
        assert oldest in order;
        order := order[1..];
        cache := cache - {oldest};
        Note(Evicted(oldest));
      }
    }

    /** The requester gives up waiting: its waiter is removed. */
    method OnTimeout(id: RequestId)
      requires Valid() && id in waiters
      modifies this`waiters, this`log
      ensures Valid() && waiters == old(waiters) - {id} && log == old(log) + [Failed(id)]
    {
      waiters := waiters - {id};
      Note(Failed(id));
    }

    /** A requester is cancelled while it waits: its waiter stays, and whoever asks later attaches to it. */
    method OnCancel(id: RequestId) returns (a: Answer)
      requires Valid() && id in waiters
      modifies this`waiters, this`log
      ensures Valid() && a == Attached && waiters == old(waiters) && log == old(log)
    {
      a := RequestAction(id, Taken);
    }

    /** `_fail_waiters`. */
    method FailWaiters()
      requires Valid()
      modifies this`waiters, this`log
      ensures Valid() && waiters == {}
    {
      while waiters != {}
        invariant Valid()
        decreases waiters
      {
        var id :| id in waiters;
        waiters := waiters - {id};
        Note(Failed(id));
      }
    }

    /** The connection is lost: every waiter fails, the resync state is forgotten, the cache stays. */
    method OnDisconnect()
      requires Valid() && SameResync()
      modifies this`waiters, this`log, this`connected, this`hello, this`hasSnapshot, this`session, this`snapshotSession,
               this`snapshotMaid, this`freshState
      ensures Valid() && SameResync() && !ResyncReady() && !connected && waiters == {}
    {
      hide Consistent;
      connected, hello, hasSnapshot, session, snapshotSession, snapshotMaid := false, false, false, "", "", None;
      freshState := false;
      FailWaiters();
    }

    method OnConnect() returns (accepted: bool)
      requires SameResync()
      modifies this`connected, this`hello, this`hasSnapshot, this`session, this`snapshotSession, this`snapshotMaid, this`freshState
      ensures SameResync() && accepted == !old(connected) && connected
      ensures if accepted then !ResyncReady() else ResyncReady() == old(ResyncReady())
    {
      if connected { return false; }
      connected, hasSnapshot, hello, session, snapshotSession, snapshotMaid := true, false, false, "", "", None;
      freshState := false;
      return true;
    }

    method OnHello(newSession: string)
      requires SameResync() && connected
      modifies this`hello, this`session, this`helloVersion, this`freshState
      ensures SameResync() && !ResyncReady() && session == newSession
    {
      hello, session, helloVersion, freshState := true, newSession, snapshotVersion, false;
    }

    /** A state message: ignored before HELLO, from another session, or from another maid. */
    method OnState(fromSession: string, maid: Option<string>) returns (accepted: bool)
      requires SameResync()
      modifies this`snapshotVersion, this`hasSnapshot, this`snapshotSession, this`snapshotMaid, this`boundMaid, this`freshState
      ensures SameResync()
      ensures accepted <==> hello && fromSession == session
                            && !(old(boundMaid).Some? && maid.Some? && maid != old(boundMaid))
      ensures !accepted ==> ResyncReady() == old(ResyncReady()) && snapshotVersion == old(snapshotVersion)
      ensures accepted ==> (ResyncReady() <==> maid == boundMaid) && boundMaid == (if old(boundMaid).Some? then old(boundMaid) else maid)
    {
      if !hello || fromSession != session { return false; }
      if boundMaid.Some? && maid.Some? && maid != boundMaid { return false; }
      if boundMaid.None? && maid.Some? { boundMaid := maid; }
      hasSnapshot, snapshotSession, snapshotMaid, snapshotVersion := true, fromSession, maid, snapshotVersion + 1;
      freshState := true;
      return true;
    }

    predicate ResyncReady()
      reads this
    {
      && hello && hasSnapshot && snapshotVersion > helloVersion && snapshotSession == session
      && (boundMaid.None? || snapshotMaid == boundMaid)
    }
  }
}
