/** Where each block of a blueprint goes in the world, in which order, and for which material. */
module BuildPlanner {
  import opened Options
  import opened BuildingDsl

  datatype Origin = Origin(x: real, y: real, z: real)

  datatype Blueprint = Blueprint(id: string, segmentSize: nat, blocks: seq<Block>)
  {
    /** The model validator of a blueprint. */
    ghost predicate Valid()
    {
      1 <= segmentSize <= 128 && |blocks| <= MAX_BLOCKS && UniquePositions(blocks)
    }
  }

  datatype Placement = Placement(index: nat, pos: Pos, item: string, face: string, optional: bool)

  type World = map<Pos, string>

  type Inventory = seq<(string, int)>

  /** Quarter turns about the origin; any other angle is refused. */
  function Rotate(x: int, z: int, rotation: int): Option<(int, int)>
  {
    var r := rotation % 360;
    if r == 0 then Some((x, z))
    else if r == 90 then Some((-z, x))
    else if r == 180 then Some((-x, -z))
    else if r == 270 then Some((z, -x))
    else None
  }

  predicate QuarterTurn(rotation: int) { rotation % 90 == 0 }

  lemma {:induction false} ModOfSum(k: int, r: int)
    ensures (90 * k + r) % 90 == r % 90
  {
    var n := 90 * k + r;
    assert n == 90 * (k + r / 90) + r % 90;
    assert n == 90 * (n / 90) + n % 90;
    assert 90 * (n / 90 - k - r / 90) == r % 90 - n % 90;
  }

  lemma {:induction false} RotateAccepts(x: int, z: int, rotation: int)
    ensures Rotate(x, z, rotation).Some? <==> QuarterTurn(rotation)
  {
    var q, r := rotation / 360, rotation % 360;
    assert rotation == 90 * (4 * q) + r;
    assert rotation % 90 == r % 90 by { ModOfSum(4 * q, r); }
  }

  /** Turning by r and then by q is turning by r + q, and not turning changes nothing. */
  lemma {:induction false} RotateComposes(x: int, z: int, r: int, q: int)
    requires QuarterTurn(r) && QuarterTurn(q)
    ensures var once := Rotate(x, z, r);
            once.Some? && Rotate(once.value.0, once.value.1, q) == Rotate(x, z, r + q)
    ensures Rotate(x, z, 0) == Some((x, z))
  {
    RotateAccepts(x, z, r);
    var once := Rotate(x, z, r).value;
    RotateAccepts(once.0, once.1, q);
    var a, b := r % 360, q % 360;
    assert r + q == 360 * (r / 360 + q / 360) + (a + b);
    ModOfMultiple(r / 360 + q / 360, a + b);
    QuarterOf(r);
    QuarterOf(q);
  }

  lemma {:induction false} QuarterOf(r: int)
    requires QuarterTurn(r)
    ensures r % 360 == 0 || r % 360 == 90 || r % 360 == 180 || r % 360 == 270
  {
    var a := r % 360;
    ModOfSum(4 * (r / 360), a);
    assert r == 90 * (4 * (r / 360)) + a;
  }

  lemma {:induction false} ModOfMultiple(k: int, a: int)
    ensures (360 * k + a) % 360 == a % 360
  {
    var n := 360 * k + a;
    assert n == 360 * (k + a / 360) + a % 360;
    assert n == 360 * (n / 360) + n % 360;
    assert 360 * (n / 360 - k - a / 360) == a % 360 - n % 360;
  }

  /** The sense of a turn: a quarter turn, however many full turns are added, takes the x axis to the z axis and that to
      the negative x axis; and every turn keeps sums, so that the axes decide. */
  lemma {:induction false} QuarterTurnSense(k: int)
    ensures Rotate(1, 0, 90 + 360 * k) == Some((0, 1)) && Rotate(0, 1, 90 + 360 * k) == Some((-1, 0))
  {
    ModOfMultiple(k, 90);
  }

  lemma {:induction false} RotateKeepsSums(x: int, z: int, x': int, z': int, r: int)
    requires QuarterTurn(r)
    ensures var a, b, both := Rotate(x, z, r), Rotate(x', z', r), Rotate(x + x', z + z', r);
            a.Some? && b.Some? && both == Some((a.value.0 + b.value.0, a.value.1 + b.value.1))
  {
    QuarterOf(r);
  }

  predicate FloorOf(n: int, r: real) { n as real <= r < n as real + 1.0 }

  /** A blueprint at a place in the world: what one build id stands for. */
  datatype Site = Site(bp: Blueprint, origin: Origin, rotation: int)
  {
    /** Rotation is only ever looked at when there is a block to rotate. */
    predicate Turnable() { bp.blocks == [] || QuarterTurn(rotation) }

    ghost predicate Valid() { bp.Valid() && Turnable() }

    function Place(i: nat): Placement
      requires i < |bp.blocks| && Turnable()
    {
      var b := bp.blocks[i];
      RotateAccepts(b.pos.x, b.pos.z, rotation);
      var turned := Rotate(b.pos.x, b.pos.z, rotation).value;
      var cell := Pos(origin.x.Floor + turned.0, origin.y.Floor + b.pos.y, origin.z.Floor + turned.1);
      Placement(i, cell, b.item, b.face, b.optional)
    }

    /** A block goes where its position, turned in the plane and not in height, lies from the floored origin, and takes
        its own item, face and optional flag with it. */
    lemma {:induction false} PlaceIsTurned(i: nat)
      requires i < |bp.blocks| && Turnable()
      ensures var p, b := Place(i), bp.blocks[i];
              var turned := Rotate(b.pos.x, b.pos.z, rotation);
              && turned.Some? && FloorOf(p.pos.x - turned.value.0, origin.x) && FloorOf(p.pos.z - turned.value.1, origin.z)
              && FloorOf(p.pos.y - b.pos.y, origin.y)
              && p.index == i && p.item == b.item && p.face == b.face && p.optional == b.optional
    {
      RotateAccepts(bp.blocks[i].pos.x, bp.blocks[i].pos.z, rotation);
    }

    /** The order of work: no block before a lower one, and within a layer by index. */
    lemma {:induction false} LayersAscend(n: nat, i: nat, j: nat)
      requires n <= |bp.blocks| && Turnable() && i < j < n
      ensures var p, q := BottomUp(n)[i], BottomUp(n)[j];
              p.pos.y <= q.pos.y && (p.pos.y == q.pos.y ==> p.index < q.index)
    {
      assert Sorted(BottomUp(n));
    }

    predicate Holds(i: int, world: World)
      requires Turnable()
    {
      0 <= i < |bp.blocks| && Place(i).pos in world && world[Place(i).pos] == bp.blocks[i].item
    }

    predicate Required(i: int) { 0 <= i < |bp.blocks| && !bp.blocks[i].optional }

    predicate Optional(i: int) { 0 <= i < |bp.blocks| && bp.blocks[i].optional }

    /** Rotation is one-to-one, so distinct blocks have distinct cells in the world. */
    lemma {:induction false} CellsDistinct(i: nat, j: nat)
      requires Valid() && i < |bp.blocks| && j < |bp.blocks| && i != j
      ensures Place(i).pos != Place(j).pos
    {
      var p, q := bp.blocks[i].pos, bp.blocks[j].pos;
      assert p != q;
      RotateAccepts(p.x, p.z, rotation);
      RotateAccepts(q.x, q.z, rotation);
    }

    predicate IsMine(p: Placement)
      requires Turnable()
    {
      p.index < |bp.blocks| && p == Place(p.index)
    }

    /** `placements`: the first n blocks, bottom-up and by index within a layer. */
    function BottomUp(n: nat): (ps: seq<Placement>)
      requires n <= |bp.blocks| && Turnable()
      ensures forall p :: p in ps <==> IsMine(p) && p.index < n
      ensures Sorted(ps) && |ps| == n
    {
      if n == 0 then [] else Insert(Place(n - 1), BottomUp(n - 1))
    }
  }

  predicate Below(a: Placement, b: Placement)
  {
    a.pos.y < b.pos.y || (a.pos.y == b.pos.y && a.index < b.index)
  }

  ghost predicate Sorted(ps: seq<Placement>) { forall i, j | 0 <= i < j < |ps| :: Below(ps[i], ps[j]) }

  function Insert(p: Placement, ps: seq<Placement>): (r: seq<Placement>)
    requires Sorted(ps) && forall q | q in ps :: q.index != p.index
    ensures Sorted(r) && |r| == |ps| + 1 && forall q :: q in r <==> q == p || q in ps
  {
    if ps == [] || Below(p, ps[0]) then [p] + ps else
    assert ps[0] in ps && Below(ps[0], p) && (forall q | q in ps[1..] :: q in ps && Below(ps[0], q));
    var rest := Insert(p, ps[1..]);
    assert forall i | 0 <= i < |rest| :: rest[i] in rest && Below(ps[0], rest[i]);
    [ps[0]] + rest
  }

  /** `remaining`: the placements that are neither completed nor skipped, in the same order. */
  function Remaining(ps: seq<Placement>, completed: set<int>, skipped: set<int>): (r: seq<Placement>)
    ensures forall p :: p in r <==> p in ps && p.index !in completed && p.index !in skipped
    ensures |r| <= |ps| && (Sorted(ps) ==> Sorted(r))
    ensures |r| == |ps| ==> r == ps
  {
    if ps == [] then [] else
    var rest := Remaining(ps[1..], completed, skipped);
    assert forall p :: p in ps <==> p == ps[0] || p in ps[1..];
    assert Sorted(ps) ==> forall p | p in ps[1..] :: Below(ps[0], p);
    if ps[0].index in completed || ps[0].index in skipped then rest else [ps[0]] + rest
  }

  /** How many of an item the snapshot shows, over all its rows. */
  function Have(inventory: Inventory, item: string): int
  {
    if inventory == [] then 0
    else Have(inventory[1..], item) + if inventory[0].0 == item then inventory[0].1 else 0
  }

  /** How many placements still need an item, required and optional ones counted apart. */
  function Count(ps: seq<Placement>, item: string, optional: bool): nat
  {
    if ps == [] then 0
    else Count(ps[..|ps| - 1], item, optional) +
         if ps[|ps| - 1].item == item && ps[|ps| - 1].optional == optional then 1 else 0
  }

  /** What is left of an item once every required placement has its share. */
  function Surplus(inventory: Inventory, required: seq<Placement>, item: string): nat
  {
    var left := Have(inventory, item) - Count(required, item, false);
    if left < 0 then 0 else left
  }

  function SurplusOf(inventory: Inventory, required: seq<Placement>): string -> nat
  {
    i => Surplus(inventory, required, i)
  }

  /** The schedule: all required placements, and optional ones while the surplus lasts. */
  function Scheduled(ps: seq<Placement>, surplus: string -> nat): (r: seq<Placement>)
    ensures forall p :: p in r ==> p in ps
    ensures forall p :: p in ps && !p.optional ==> p in r
    ensures |r| <= |ps|
  {
    if ps == [] then [] else
    var front, last := ps[..|ps| - 1], ps[|ps| - 1];
    assert forall p :: p in ps <==> p in front || p == last;
    if last.optional && surplus(last.item) <= Count(front, last.item, true)
    then Scheduled(front, surplus)
    else Scheduled(front, surplus) + [last]
  }

  /** The optional placements left out of the schedule. */
  function LeftOut(ps: seq<Placement>, surplus: string -> nat): (r: set<int>)
    ensures forall i | i in r :: exists p :: p in ps && p.optional && p.index == i
    ensures forall p | p in ps && p !in Scheduled(ps, surplus) :: p.index in r
  {
    if ps == [] then {} else
    var front, last := ps[..|ps| - 1], ps[|ps| - 1];
    assert forall p :: p in ps <==> p in front || p == last;
    if last.optional && surplus(last.item) <= Count(front, last.item, true)
    then LeftOut(front, surplus) + {last.index}
    else LeftOut(front, surplus)
  }

  /** With one placement per index, nothing is both scheduled and left out. */
  lemma {:induction false} ScheduledOrLeftOut(ps: seq<Placement>, surplus: string -> nat)
    requires forall i, j | 0 <= i < j < |ps| :: ps[i].index != ps[j].index
    ensures forall p | p in Scheduled(ps, surplus) :: p.index !in LeftOut(ps, surplus)
  {
    if ps != [] {
      var front, last := ps[..|ps| - 1], ps[|ps| - 1];
      ScheduledOrLeftOut(front, surplus);
      forall p | p in front ensures p.index != last.index { }
    }
  }

  /** Optional work takes exactly what the required work leaves, never more. */
  lemma {:induction false} OptionalTakesSurplus(ps: seq<Placement>, surplus: string -> nat, item: string)
    ensures Count(Scheduled(ps, surplus), item, true) ==
              if Count(ps, item, true) <= surplus(item) then Count(ps, item, true) else surplus(item)
    ensures Count(Scheduled(ps, surplus), item, false) == Count(ps, item, false)
  {
    if ps != [] {
      var front, last := ps[..|ps| - 1], ps[|ps| - 1];
      OptionalTakesSurplus(front, surplus, item);
      var s := Scheduled(front, surplus);
      assert (s + [last])[..|s|] == s;
    }
  }

  /** With a schedule made from a snapshot, required blocks find their material untouched. */
  lemma {:induction false} RequiredIsReserved(ps: seq<Placement>, inventory: Inventory, item: string)
    requires Have(inventory, item) >= Count(ps, item, false)
    ensures var run := Scheduled(ps, SurplusOf(inventory, ps));
            Count(run, item, false) + Count(run, item, true) <= Have(inventory, item)
  {
    OptionalTakesSurplus(ps, SurplusOf(inventory, ps), item);
  }

  /** What is taken and what is left: of each item as many optional blocks as there are, or as the stock has beyond the
      required ones, and these are the first of them in the order of work. */
  lemma {:induction false} OptionalIsExact(ps: seq<Placement>, inventory: Inventory, item: string)
    ensures var run, left := Scheduled(ps, SurplusOf(inventory, ps)), Have(inventory, item) - Count(ps, item, false);
            Count(run, item, true) == if left <= 0 then 0 else if left < Count(ps, item, true) then left else Count(ps, item, true)
  {
    OptionalTakesSurplus(ps, SurplusOf(inventory, ps), item);
  }

  lemma {:induction false} FirstOptionalsFirst(ps: seq<Placement>, surplus: string -> nat, k: nat)
    requires k < |ps| && forall i, j | 0 <= i < j < |ps| :: ps[i].index != ps[j].index
    ensures ps[k] in Scheduled(ps, surplus) <==> !ps[k].optional || Count(ps[..k], ps[k].item, true) < surplus(ps[k].item)
  {
    hide Count, LeftOut, Scheduled;
    var last := |ps| - 1;
    var front := ps[..last];
    assert ps == front + [ps[last]];
    ScheduleStep(front, ps[last], surplus);
    if k < last {
      assert front[..k] == ps[..k] && front[k] == ps[k] && ps[k].index != ps[last].index;
      FirstOptionalsFirst(front, surplus, k);
    } else {
      assert front == ps[..k];
      forall i | 0 <= i < last ensures front[i] != ps[k] { assert ps[i].index != ps[k].index; }
      assert ps[k] !in Scheduled(front, surplus);
    }
  }

  lemma {:induction false} LeftOutExactly(ps: seq<Placement>, surplus: string -> nat, k: nat)
    requires k < |ps| && forall i, j | 0 <= i < j < |ps| :: ps[i].index != ps[j].index
    ensures ps[k].index in LeftOut(ps, surplus) <==> ps[k] !in Scheduled(ps, surplus)
  {
    ScheduledOrLeftOut(ps, surplus);
    hide Scheduled;
    assert ps[k] in ps;
  }

  lemma {:induction false} OneMoreMember(there: set<int>, here: set<int>, x: int, counts: bool)
    requires x !in there && forall i :: i in here <==> (i in there || (i == x && counts))
    ensures |here| == |there| + if counts then 1 else 0
  {
    if counts {
      forall i ensures i in here <==> i in there + {x} { }
      assert here == there + {x};
    } else {
      forall i ensures i in here <==> i in there { }
      assert here == there;
    }
  }

  function Matching(ps: seq<Placement>, item: string, optional: bool): set<int>
  {
    set k | 0 <= k < |ps| && ps[k].item == item && ps[k].optional == optional
  }

  /** The counts are numbers of blocks, and the stock is the sum of its rows. */
  lemma {:induction false} CountIsNumber(ps: seq<Placement>, item: string, optional: bool)
    ensures Count(ps, item, optional) == |Matching(ps, item, optional)|
  {
    if ps == [] {
      assert Matching(ps, item, optional) == {};
    } else {
      var last := |ps| - 1;
      CountIsNumber(ps[..last], item, optional);
      var counts := ps[last].item == item && ps[last].optional == optional;
      assert forall k :: k in Matching(ps, item, optional) <==> k in Matching(ps[..last], item, optional) || (k == last && counts);
      assert last !in Matching(ps[..last], item, optional);
      hide Matching;
      OneMoreMember(Matching(ps[..last], item, optional), Matching(ps, item, optional), last, counts);
    }
  }

  function Wanted(bp: Blueprint, completed: set<int>, item: string, n: nat): set<int>
    requires n <= |bp.blocks|
  {
    set i | 0 <= i < n && i !in completed && !bp.blocks[i].optional && bp.blocks[i].item == item
  }

  lemma {:induction false} NeedIsNumber(bp: Blueprint, completed: set<int>, item: string, n: nat)
    requires n <= |bp.blocks|
    ensures NeedOf(bp, completed, item, n) == |Wanted(bp, completed, item, n)|
  {
    if n == 0 {
      assert Wanted(bp, completed, item, 0) == {};
    } else {
      NeedIsNumber(bp, completed, item, n - 1);
      var counts := (n - 1) !in completed && !bp.blocks[n - 1].optional && bp.blocks[n - 1].item == item;
      assert forall i :: i in Wanted(bp, completed, item, n) <==> i in Wanted(bp, completed, item, n - 1) || (i == n - 1 && counts);
      assert n - 1 !in Wanted(bp, completed, item, n - 1);
      hide Wanted;
      OneMoreMember(Wanted(bp, completed, item, n - 1), Wanted(bp, completed, item, n), n - 1, counts);
    }
  }

  lemma {:induction false} HaveAdds(a: Inventory, b: Inventory, item: string, count: int)
    ensures Have(a + b, item) == Have(a, item) + Have(b, item)
    ensures Have([(item, count)], item) == count && forall other | other != item :: Have([(other, count)], item) == 0
  {
    if a == [] {
      assert a + b == b;
    } else {
      HaveAdds(a[1..], b, item, count);
      assert (a + b)[1..] == a[1..] + b;
    }
  }

  /** What the scheduling loop knows after the placements in `front`. */
  ghost predicate Progress(front: seq<Placement>, surplus: string -> nat, skipped: set<int>,
                           runnable: seq<Placement>, skipped': set<int>, budget: map<string, int>)
  {
    && runnable == Scheduled(front, surplus) && skipped' == skipped + LeftOut(front, surplus)
    && forall i | i in budget :: budget[i] == BudgetAfter(surplus(i), Count(front, i, true))
  }

  function BudgetAfter(surplus: nat, seen: nat): int { if seen <= surplus then surplus - seen else 0 }

  lemma {:induction false} ScheduleStep(front: seq<Placement>, p: Placement, surplus: string -> nat)
    ensures var over := p.optional && surplus(p.item) <= Count(front, p.item, true);
            && Scheduled(front + [p], surplus) == (if over then Scheduled(front, surplus) else Scheduled(front, surplus) + [p])
            && LeftOut(front + [p], surplus) == (if over then LeftOut(front, surplus) + {p.index} else LeftOut(front, surplus))
  {
    assert (front + [p])[..|front|] == front;
  }

  lemma {:induction false} CountStep(front: seq<Placement>, p: Placement, item: string)
    ensures Count(front + [p], item, true) == Count(front, item, true) + if p.item == item && p.optional then 1 else 0
  {
    assert (front + [p])[..|front|] == front;
  }

  lemma {:induction false} ProgressStep(front: seq<Placement>, p: Placement, surplus: string -> nat, skipped: set<int>,
                                        runnable: seq<Placement>, skipped': set<int>, budget: map<string, int>)
    requires Progress(front, surplus, skipped, runnable, skipped', budget) && p.item in budget
    ensures p.optional && budget[p.item] <= 0 ==>
              Progress(front + [p], surplus, skipped, runnable, skipped' + {p.index}, budget)
    ensures !(p.optional && budget[p.item] <= 0) ==>
              Progress(front + [p], surplus, skipped, runnable + [p], skipped',
                       if p.optional then budget[p.item := budget[p.item] - 1] else budget)
  {
    hide Scheduled, LeftOut, Count;
    ScheduleStep(front, p, surplus);
    forall i ensures Count(front + [p], i, true) == Count(front, i, true) + if p.item == i && p.optional then 1 else 0 {
      CountStep(front, p, i);
    }
  }

  /** `have - required_remaining`, for the items that are asked for. */
  function OptionalBudget(ps: seq<Placement>, inventory: Inventory): map<string, int>
  {
    var items := set p | p in ps :: p.item;
    map i | i in items :: Surplus(inventory, ps, i)
  }

  lemma {:induction false} ProgressStart(ps: seq<Placement>, inventory: Inventory, skipped: set<int>)
    ensures Progress([], SurplusOf(inventory, ps), skipped, [], skipped, OptionalBudget(ps, inventory))
    ensures forall i | 0 <= i < |ps| :: ps[i].item in OptionalBudget(ps, inventory)
  {
  }

  lemma {:induction false} ProgressEnd(ps: seq<Placement>, surplus: string -> nat, skipped: set<int>,
                                       runnable: seq<Placement>, skipped': set<int>, budget: map<string, int>)
    requires Progress(ps, surplus, skipped, runnable, skipped', budget)
    ensures runnable == Scheduled(ps, surplus) && skipped' == skipped + LeftOut(ps, surplus)
  {
  }

  /** The scheduling loop, with its running optional budget. */
  method Schedule(ps: seq<Placement>, inventory: Inventory, skipped: set<int>)
    returns (runnable: seq<Placement>, skipped': set<int>)
    ensures runnable == Scheduled(ps, SurplusOf(inventory, ps))
    ensures skipped' == skipped + LeftOut(ps, SurplusOf(inventory, ps))
  {
    hide *;
    var budget := OptionalBudget(ps, inventory);
    runnable, skipped' := [], skipped;
    ghost var surplus := SurplusOf(inventory, ps);
    ProgressStart(ps, inventory, skipped);
    for k := 0 to |ps|
      invariant Progress(ps[..k], surplus, skipped, runnable, skipped', budget)
      invariant forall i | 0 <= i < |ps| :: ps[i].item in budget
    {
      var p := ps[k];
      assert ps[..k + 1] == ps[..k] + [p];
      ProgressStep(ps[..k], p, surplus, skipped, runnable, skipped', budget);
      if p.optional && budget[p.item] <= 0 {
        skipped' := skipped' + {p.index};
      } else {
        if p.optional { budget := budget[p.item := budget[p.item] - 1]; }
        runnable := runnable + [p];
      }
    }
    assert ps[..|ps|] == ps;
    ProgressEnd(ps, surplus, skipped, runnable, skipped', budget);
  }

  /** `MaterialPlanner.missing`: the shortfall of every item the unfinished required blocks need. */
  function NeedOf(bp: Blueprint, completed: set<int>, item: string, n: nat): nat
    requires n <= |bp.blocks|
  {
    if n == 0 then 0
    else NeedOf(bp, completed, item, n - 1) +
         if (n - 1) !in completed && !bp.blocks[n - 1].optional && bp.blocks[n - 1].item == item then 1 else 0
  }

  function Missing(bp: Blueprint, inventory: Inventory, completed: set<int>): map<string, int>
  {
    var items := set i | 0 <= i < |bp.blocks| :: bp.blocks[i].item;
    map item | item in items && NeedOf(bp, completed, item, |bp.blocks|) > 0
               && NeedOf(bp, completed, item, |bp.blocks|) > Have(inventory, item)
      :: NeedOf(bp, completed, item, |bp.blocks|) - Have(inventory, item)
  }

  /** An item is reported missing exactly when the unfinished required blocks need more than there is. */
  lemma {:induction false} MissingIsShortfall(bp: Blueprint, inventory: Inventory, completed: set<int>, item: string)
    ensures var need, m := NeedOf(bp, completed, item, |bp.blocks|), Missing(bp, inventory, completed);
            && (item in m <==> need > 0 && need > Have(inventory, item))
            && (item in m ==> m[item] == need - Have(inventory, item))
  {
    NeedIsMentioned(bp, completed, |bp.blocks|);
  }

  lemma {:induction false} NeedIsMentioned(bp: Blueprint, completed: set<int>, n: nat)
    requires n <= |bp.blocks|
    ensures forall item :: NeedOf(bp, completed, item, n) > 0 ==> exists i :: 0 <= i < n && bp.blocks[i].item == item
  {
    if n > 0 { NeedIsMentioned(bp, completed, n - 1); }
  }
}
