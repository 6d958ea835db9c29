/** The building language: five primitives expanded to blocks, and their merge into one blueprint. */
module BuildingDsl {
  import opened Integers
  import opened Lines
  import opened Options

  const MAX_BLOCKS := 100_000

  datatype Pos = Pos(x: int, y: int, z: int)

  datatype Block = Block(pos: Pos, item: string, blockId: string, face: string, optional: bool)

  datatype Style = Style(item: string, blockId: string, face: string, optional: bool)

  datatype Shape =
    | Floor(x1: int, z1: int, x2: int, z2: int, y: int)
    | Wall(start: Pos, end: Pos, height: int)
    | Box(origin: Pos, size: Pos, hollow: bool)
    | Outline(x1: int, z1: int, x2: int, z2: int, y: int)
    | Doorway(origin: Pos, width: int, height: int, alongX: bool)
    | Unknown(name: string)

  datatype Operation = Operation(shape: Shape, style: Style)

  datatype DslError = EmptyOperations | BadOperation | Conflict | TooManyBlocks

  datatype Compilation = Blocks(blocks: seq<Block>) | Rejected(error: DslError)

  predicate WellFormed(op: Operation)
  {
    && ':' in op.style.item
    && match op.shape
       case Floor(_, _, _, _, _) => true
       case Wall(start, end, height) => start.y == end.y && height >= 1
       case Box(_, size, _) => size.x >= 1 && size.y >= 1 && size.z >= 1
       case Outline(_, _, _, _, _) => true
       case Doorway(_, width, height, _) => width >= 1 && height >= 2
       case Unknown(_) => false
  }

  /** `_block`: an empty block id means the item, an empty face means up. */
  function BlockOf(style: Style, p: Pos): Block
  {
    Block(p, style.item, if style.blockId == "" then style.item else style.blockId,
          if style.face == "" then "UP" else style.face, style.optional)
  }

  /** A block takes what its operation says; without a block id it is the item's, without a face it looks up. */
  lemma {:induction false} BlockTakes(style: Style, p: Pos)
    ensures var b := BlockOf(style, p);
            && b.pos == p && b.item == style.item && b.optional == style.optional
            && (style.blockId != "" ==> b.blockId == style.blockId) && (style.blockId == "" ==> b.blockId == style.item)
            && (style.face != "" ==> b.face == style.face) && (style.face == "" ==> b.face == "UP")
  {
  }

  /** Which cells a shape is for, said without the order in which they are produced. */
  ghost predicate Covers(s: Shape, p: Pos)
  {
    match s
    case Floor(x1, z1, x2, z2, y) => InFloor(x1, z1, x2, z2, y, p)
    case Wall(start, end, height) =>
      && start.y <= p.y < start.y + height
      && exists k: nat :: k <= Max(Abs(end.x - start.x), Abs(end.z - start.z))
                          && IdealCell(start.x, start.z, end.x, end.z, k) == (p.x, p.z)
    case Box(o, n, hollow) =>
      InBox(o, n, p) && !(hollow && InBox(Pos(o.x + 1, o.y + 1, o.z + 1), Pos(n.x - 2, n.y - 2, n.z - 2), p))
    case Outline(x1, z1, x2, z2, y) =>
      && InFloor(x1, z1, x2, z2, y, p)
      && !(Min(x1, x2) < p.x < Max(x1, x2) && Min(z1, z2) < p.z < Max(z1, z2))
    case Doorway(o, width, height, alongX) =>
      && OnDoorPlane(o, alongX, p)
      && 0 <= Across(o, alongX, p) <= width + 1 && 0 <= p.y - o.y <= height
      && !(1 <= Across(o, alongX, p) <= width && p.y - o.y < height)
    case Unknown(_) => false
  }

  predicate InFloor(x1: int, z1: int, x2: int, z2: int, y: int, p: Pos)
  {
    p.y == y && Min(x1, x2) <= p.x <= Max(x1, x2) && Min(z1, z2) <= p.z <= Max(z1, z2)
  }

  predicate InBox(o: Pos, n: Pos, p: Pos)
  {
    o.x <= p.x < o.x + n.x && o.y <= p.y < o.y + n.y && o.z <= p.z < o.z + n.z
  }

  predicate OnDoorPlane(o: Pos, alongX: bool, p: Pos) { if alongX then p.z == o.z else p.x == o.x }

  function Across(o: Pos, alongX: bool, p: Pos): int { if alongX then p.x - o.x else p.z - o.z }

  ghost predicate Distinct<T>(s: seq<T>) { forall i, j | 0 <= i < j < |s| :: s[i] != s[j] }

  method FloorCells(x1: int, z1: int, x2: int, z2: int, y: int) returns (cells: seq<Pos>)
    ensures Distinct(cells)
    ensures forall p :: p in cells <==> Covers(Floor(x1, z1, x2, z2, y), p)
  {
    cells := [];
    var loX, hiX, loZ, hiZ := Min(x1, x2), Max(x1, x2), Min(z1, z2), Max(z1, z2);
    for x := loX to hiX + 1
      invariant Distinct(cells)
      invariant forall p :: p in cells <==> p.y == y && loX <= p.x < x && loZ <= p.z <= hiZ
    {
      for z := loZ to hiZ + 1
        invariant Distinct(cells)
        invariant forall p :: p in cells <==>
                    p.y == y && loZ <= p.z <= hiZ && (loX <= p.x < x || (p.x == x && p.z < z))
      {
        cells := cells + [Pos(x, y, z)];
      }
    }
  }

  method WallCells(start: Pos, end: Pos, height: int) returns (cells: seq<Pos>)
    requires height >= 1
    ensures Distinct(cells)
    ensures forall p :: p in cells <==> Covers(Wall(start, end, height), p)
  {
    var line := Line(start.x, start.z, end.x, end.z);
    cells := [];
    for k := 0 to |line|
      invariant Distinct(cells)
      invariant forall p :: p in cells <==> start.y <= p.y < start.y + height && (p.x, p.z) in line[..k]
    {
      assert line[..k + 1] == line[..k] + [line[k]];
      assert line[k] !in line[..k] by {
        forall n | 0 <= n < k ensures line[n] != line[k] {
          if line[n] == line[k] { LineCellsDistinct(start.x, start.z, end.x, end.z, n, k); }
        }
      }
      for dy := 0 to height
        invariant Distinct(cells)
        invariant forall p :: p in cells <==>
                    || (start.y <= p.y < start.y + height && (p.x, p.z) in line[..k])
                    || (start.y <= p.y < start.y + dy && (p.x, p.z) == line[k])
      {
        cells := cells + [Pos(line[k].0, start.y + dy, line[k].1)];
      }
    }
    assert line[..|line|] == line;
    forall p | Covers(Wall(start, end, height), p) ensures (p.x, p.z) in line {
      var k: nat :| k <= Max(Abs(end.x - start.x), Abs(end.z - start.z))
                    && IdealCell(start.x, start.z, end.x, end.z, k) == (p.x, p.z);
      assert line[k] == (p.x, p.z);
    }
  }

  method BoxCells(o: Pos, n: Pos, hollow: bool) returns (cells: seq<Pos>)
    requires n.x >= 1 && n.y >= 1 && n.z >= 1
    ensures Distinct(cells)
    ensures forall p :: p in cells <==> Covers(Box(o, n, hollow), p)
  {
    cells := [];
    for dx := 0 to n.x
      invariant Distinct(cells)
      invariant forall p :: p in cells <==> Covers(Box(o, n, hollow), p) && p.x < o.x + dx
    {
      for dy := 0 to n.y
        invariant Distinct(cells)
        invariant forall p :: p in cells <==>
                    Covers(Box(o, n, hollow), p) && (p.x < o.x + dx || (p.x == o.x + dx && p.y < o.y + dy))
      {
        for dz := 0 to n.z
          invariant Distinct(cells)
          invariant forall p :: p in cells <==>
                      && Covers(Box(o, n, hollow), p)
                      && (p.x < o.x + dx || (p.x == o.x + dx && p.y < o.y + dy)
                          || (p.x == o.x + dx && p.y == o.y + dy && p.z < o.z + dz))
        {
          var shell := dx == 0 || dx == n.x - 1 || dy == 0 || dy == n.y - 1 || dz == 0 || dz == n.z - 1;
          assert Covers(Box(o, n, hollow), Pos(o.x + dx, o.y + dy, o.z + dz)) <==> !hollow || shell;
          if !hollow || shell {
            cells := cells + [Pos(o.x + dx, o.y + dy, o.z + dz)];
          }
        }
      }
    }
  }

  method OutlineCells(x1: int, z1: int, x2: int, z2: int, y: int) returns (cells: seq<Pos>)
    ensures Distinct(cells)
    ensures forall p :: p in cells <==> Covers(Outline(x1, z1, x2, z2, y), p)
  {
    cells := [];
    var loX, hiX, loZ, hiZ := Min(x1, x2), Max(x1, x2), Min(z1, z2), Max(z1, z2);
    for x := loX to hiX + 1
      invariant Distinct(cells)
      invariant forall p :: p in cells <==> p.y == y && loX <= p.x < x && (p.z == loZ || p.z == hiZ)
    {
      cells := cells + [Pos(x, y, loZ)];
      if hiZ != loZ {
        cells := cells + [Pos(x, y, hiZ)];
      }
    }
    for z := loZ + 1 to if loZ + 1 <= hiZ then hiZ else loZ + 1
      invariant Distinct(cells)
      invariant forall p :: p in cells <==>
                  p.y == y && ((loX <= p.x <= hiX && (p.z == loZ || p.z == hiZ))
                   || ((p.x == loX || p.x == hiX) && loZ < p.z < z))
    {
      cells := cells + [Pos(loX, y, z)];
      if hiX != loX {
        cells := cells + [Pos(hiX, y, z)];
      }
    }
  }

  function DoorCell(o: Pos, alongX: bool, across: int, up: int): (p: Pos)
    ensures OnDoorPlane(o, alongX, p) && Across(o, alongX, p) == across && p.y - o.y == up
    ensures forall q :: OnDoorPlane(o, alongX, q) && Across(o, alongX, q) == across && q.y - o.y == up ==> q == p
  {
    Pos(o.x + (if alongX then across else 0), o.y + up, o.z + (if alongX then 0 else across))
  }

  ghost predicate InPosts(o: Pos, alongX: bool, width: int, up: int, p: Pos)
  {
    && OnDoorPlane(o, alongX, p) && 0 <= p.y - o.y < up
    && (Across(o, alongX, p) == 0 || Across(o, alongX, p) == width + 1)
  }

  ghost predicate InLintel(o: Pos, alongX: bool, width: int, height: int, p: Pos)
  {
    OnDoorPlane(o, alongX, p) && p.y - o.y == height && 1 <= Across(o, alongX, p) <= width
  }

  method DoorwayCells(o: Pos, width: int, height: int, alongX: bool) returns (cells: seq<Pos>)
    requires width >= 1 && height >= 2
    ensures Distinct(cells)
    ensures forall p :: p in cells <==> Covers(Doorway(o, width, height, alongX), p)
  {
    cells := [];
    for up := 0 to height + 1
      invariant Distinct(cells)
      invariant forall p :: p in cells <==> InPosts(o, alongX, width, up, p)
    {
      var left, right := DoorCell(o, alongX, 0, up), DoorCell(o, alongX, width + 1, up);
      forall p ensures InPosts(o, alongX, width, up + 1, p) <==> InPosts(o, alongX, width, up, p) || p == left || p == right {
      }
      assert left !in cells && right !in cells && left != right;
      cells := cells + [left] + [right];
    }
    for across := 1 to width + 1
      invariant Distinct(cells)
      invariant forall p :: p in cells <==>
                  InPosts(o, alongX, width, height + 1, p) || InLintel(o, alongX, across - 1, height, p)
    {
      var lintel := DoorCell(o, alongX, across, height);
      forall p ensures InLintel(o, alongX, across, height, p) <==> InLintel(o, alongX, across - 1, height, p) || p == lintel {
      }
      assert lintel !in cells;
      cells := cells + [lintel];
    }
  }

  method Expand(op: Operation) returns (blocks: seq<Block>)
    requires WellFormed(op)
    ensures forall b :: b in blocks <==> Covers(op.shape, b.pos) && b == BlockOf(op.style, b.pos)
    ensures Distinct(blocks)
  {
    var cells;
    match op.shape {
      case Floor(x1, z1, x2, z2, y) => cells := FloorCells(x1, z1, x2, z2, y);
      case Wall(start, end, height) => cells := WallCells(start, end, height);
      case Box(o, n, hollow) => cells := BoxCells(o, n, hollow);
      case Outline(x1, z1, x2, z2, y) => cells := OutlineCells(x1, z1, x2, z2, y);
      case Doorway(o, width, height, alongX) => cells := DoorwayCells(o, width, height, alongX);
    }
    blocks := seq(|cells|, i requires 0 <= i < |cells| => BlockOf(op.style, cells[i]));
    forall b ensures b in blocks <==> Covers(op.shape, b.pos) && b == BlockOf(op.style, b.pos) {
      if Covers(op.shape, b.pos) && b == BlockOf(op.style, b.pos) {
        var i :| 0 <= i < |cells| && cells[i] == b.pos;
        assert blocks[i] == b;
      }
    }
  }

  /** Some operation covers p. */
  ghost predicate Covered(ops: seq<Operation>, p: Pos) { exists op :: op in ops && Covers(op.shape, p) }

  /** Two operations that share a cell ask for the same material there. */
  ghost predicate Agree(ops: seq<Operation>)
  {
    forall a, b, p | a in ops && b in ops && Covers(a.shape, p) && Covers(b.shape, p) :: SameMaterial(a.style, b.style)
  }

  predicate SameMaterial(a: Style, b: Style) { a.item == b.item && a.optional == b.optional }

  ghost predicate Fits(ops: seq<Operation>)
  {
    exists cells: set<Pos> :: (forall p :: p in cells <==> Covered(ops, p)) && |cells| <= 100_000
  }

  ghost predicate Compiles(ops: seq<Operation>)
  {
    ops != [] && (forall op | op in ops :: WellFormed(op)) && Agree(ops) && Fits(ops)
  }

  /** The style of the last operation covering p: it also decides block id and face. */
  ghost function LastWord(ops: seq<Operation>, p: Pos): Option<Style>
  {
    if ops == [] then None
    else if Covers(ops[|ops| - 1].shape, p) then Some(ops[|ops| - 1].style)
    else LastWord(ops[..|ops| - 1], p)
  }

  lemma {:induction false} LastWordIsSpoken(ops: seq<Operation>, p: Pos)
    ensures LastWord(ops, p).Some? <==> Covered(ops, p)
    ensures LastWord(ops, p).Some? ==>
              exists op :: op in ops && Covers(op.shape, p) && op.style == LastWord(ops, p).value
  {
    if ops != [] {
      var last, rest := ops[|ops| - 1], ops[..|ops| - 1];
      assert last in ops && forall op :: op in ops <==> op in rest || op == last;
      LastWordIsSpoken(rest, p);
    }
  }

  ghost predicate UniquePositions(blocks: seq<Block>)
  {
    forall i, j | 0 <= i < j < |blocks| :: blocks[i].pos != blocks[j].pos
  }

  ghost predicate Compiled(ops: seq<Operation>, r: Compilation)
  {
    && (r.Blocks? <==> Compiles(ops))
    && (r.Rejected? ==> (r.error == EmptyOperations <==> ops == []))
    && (r.Blocks? ==>
          && UniquePositions(r.blocks) && |r.blocks| <= 100_000
          && (forall p :: Covered(ops, p) <==> exists b :: b in r.blocks && b.pos == p)
          && (forall b | b in r.blocks :: LastWord(ops, b.pos).Some? && b == BlockOf(LastWord(ops, b.pos).value, b.pos)))
  }

  /** The merge after all of `done` and, of one more operation, the cells in `added`. */
  ghost predicate Merged(done: seq<Operation>, op: Operation, added: set<Pos>,
                         order: seq<Pos>, merged: map<Pos, Block>)
  {
    && Distinct(order) && (forall p :: p in order <==> p in merged)
    && |order| == |merged| <= MAX_BLOCKS
    && (forall p :: p in merged <==> p in added || LastWord(done, p).Some?)
    && (forall p | p in added :: Covers(op.shape, p) && merged[p] == BlockOf(op.style, p))
    && (forall p | p in merged && p !in added :: merged[p] == BlockOf(LastWord(done, p).value, p))
    && (forall p | p in added && LastWord(done, p).Some? :: SameMaterial(LastWord(done, p).value, op.style))
  }

  /** Agreement can be checked against the last word alone. */
  lemma {:induction false} AgreeOneMore(done: seq<Operation>, op: Operation)
    ensures Agree(done + [op]) <==>
              && Agree(done)
              && forall p | Covers(op.shape, p) && LastWord(done, p).Some? :: SameMaterial(LastWord(done, p).value, op.style)
  {
    var ops := done + [op];
    assert forall a :: a in ops <==> a in done || a == op;
    if Agree(ops) {
      forall p | Covers(op.shape, p) && LastWord(done, p).Some? ensures SameMaterial(LastWord(done, p).value, op.style) {
        LastWordIsSpoken(done, p);
      }
    } else if Agree(done) {
      var a, b, p :| a in ops && b in ops && Covers(a.shape, p) && Covers(b.shape, p) && !SameMaterial(a.style, b.style);
      LastWordIsSpoken(done, p);
      assert Covered(done, p) && Covers(op.shape, p);
    }
  }

  lemma {:induction false} AgreePrefix(ops: seq<Operation>, n: nat)
    requires n <= |ops| && Agree(ops)
    ensures Agree(ops[..n])
  {
    forall a, b, p | a in ops[..n] && b in ops[..n] && Covers(a.shape, p) && Covers(b.shape, p)
      ensures SameMaterial(a.style, b.style)
    {
      assert a in ops && b in ops;
    }
  }

  lemma {:induction false} SubsetIsSmaller<T>(a: set<T>, b: set<T>)
    requires a <= b
    ensures |a| <= |b|
  {
    if a != {} {
      var x :| x in a;
      SubsetIsSmaller(a - {x}, b - {x});
    }
  }

  lemma {:induction false} TooManyDoesNotFit(ops: seq<Operation>, cells: set<Pos>)
    requires |cells| > MAX_BLOCKS && forall p | p in cells :: Covered(ops, p)
    ensures !Fits(ops)
  {
    forall all: set<Pos> | forall p :: p in all <==> Covered(ops, p) ensures |all| > MAX_BLOCKS {
      SubsetIsSmaller(cells, all);
    }
  }

  /** One operation's blocks, merged into the cells collected so far. */
  method MergeOperation(op: Operation, order: seq<Pos>, byPosition: map<Pos, Block>, ghost done: seq<Operation>)
    returns (error: Option<DslError>, order': seq<Pos>, byPosition': map<Pos, Block>)
    requires WellFormed(op) && Merged(done, op, {}, order, byPosition)
    ensures error.None? ==>
              && (forall next :: Merged(done + [op], next, {}, order', byPosition'))
              && forall p | Covers(op.shape, p) && LastWord(done, p).Some? :: SameMaterial(LastWord(done, p).value, op.style)
    ensures error.Some? ==> error.value != EmptyOperations
    ensures error.Some? ==>
              || (exists p :: Covers(op.shape, p) && LastWord(done, p).Some? && !SameMaterial(LastWord(done, p).value, op.style))
              || (|byPosition'| > MAX_BLOCKS && forall p | p in byPosition' :: Covered(done, p) || Covers(op.shape, p))
  {
    hide Merged, Covers, Covered, LastWord, Distinct;
    error, order', byPosition' := None, order, byPosition;
    ghost var added: set<Pos> := {};
    var blocks := Expand(op);
    ExpandedCells(op, blocks);
    for i := 0 to |blocks|
      invariant Merged(done, op, added, order', byPosition')
      invariant forall k | 0 <= k < |blocks| :: blocks[k].pos in added <==> k < i
    {
      var block := blocks[i];
      MergedSoFar(done, op, added, order', byPosition');
      if block.pos in byPosition'
         && (byPosition'[block.pos].item != block.item || byPosition'[block.pos].optional != block.optional) {
        return Some(Conflict), order', byPosition';
      }
      AddCell(done, op, added, order', byPosition', block.pos);
      if block.pos !in byPosition' { order' := order' + [block.pos]; }
      byPosition' := byPosition'[block.pos := block];
      added := added + {block.pos};
      if |byPosition'| > MAX_BLOCKS {
        return Some(TooManyBlocks), order', byPosition';
      }
    }
    forall p | Covers(op.shape, p) ensures p in added {
      assert BlockOf(op.style, p) in blocks;
    }
    OperationDone(done, op, added, order', byPosition');
  }

  /** What is merged is covered; what is there before this operation comes to it is the last word. */
  lemma {:induction false} MergedSoFar(done: seq<Operation>, op: Operation, added: set<Pos>, order: seq<Pos>, merged: map<Pos, Block>)
    requires Merged(done, op, added, order, merged)
    ensures forall p | p in merged :: Covered(done, p) || Covers(op.shape, p)
    ensures forall p | p !in added :: p in merged <==> LastWord(done, p).Some?
    ensures forall p | p in merged && p !in added ::
              merged[p].item == LastWord(done, p).value.item && merged[p].optional == LastWord(done, p).value.optional
  {
    hide Covers;
    forall p | p in merged ensures Covered(done, p) || Covers(op.shape, p) { LastWordIsSpoken(done, p); }
  }

  lemma {:induction false} ExpandedCells(op: Operation, blocks: seq<Block>)
    requires Distinct(blocks)
    requires forall b :: b in blocks <==> Covers(op.shape, b.pos) && b == BlockOf(op.style, b.pos)
    ensures forall k | 0 <= k < |blocks| :: blocks[k] == BlockOf(op.style, blocks[k].pos) && Covers(op.shape, blocks[k].pos)
    ensures UniquePositions(blocks)
  {
    forall k | 0 <= k < |blocks|
      ensures blocks[k] == BlockOf(op.style, blocks[k].pos) && Covers(op.shape, blocks[k].pos)
    {
      assert blocks[k] in blocks;
    }
  }

  lemma {:induction false} AddCell(done: seq<Operation>, op: Operation, added: set<Pos>,
                                   order: seq<Pos>, merged: map<Pos, Block>, p: Pos)
    requires Merged(done, op, added, order, merged) && Covers(op.shape, p) && p !in added
    requires LastWord(done, p).Some? ==> SameMaterial(LastWord(done, p).value, op.style)
    ensures var merged' := merged[p := BlockOf(op.style, p)];
            && (forall q :: q in merged' <==> q in merged || q == p)
            && (|merged'| <= MAX_BLOCKS ==>
                  Merged(done, op, added + {p}, if p in merged then order else order + [p], merged'))
  {
    var merged' := merged[p := BlockOf(op.style, p)];
    forall q | q in merged' && q !in added + {p} ensures merged'[q] == BlockOf(LastWord(done, q).value, q) {
      assert q in merged && q !in added;
    }
  }

  lemma {:induction false} OperationDone(done: seq<Operation>, op: Operation, added: set<Pos>,
                                         order: seq<Pos>, merged: map<Pos, Block>)
    requires Merged(done, op, added, order, merged)
    requires forall p :: Covers(op.shape, p) ==> p in added
    ensures forall next :: Merged(done + [op], next, {}, order, merged)
    ensures forall p | Covers(op.shape, p) && LastWord(done, p).Some? :: SameMaterial(LastWord(done, p).value, op.style)
  {
    var ops := done + [op];
    assert ops[..|done|] == done;
    assert forall p :: LastWord(ops, p) == if Covers(op.shape, p) then Some(op.style) else LastWord(done, p);
  }

  /** `compile_dsl`: merge in order, refuse conflicting materials, keep first-seen order. */
  method CompileDsl(ops: seq<Operation>) returns (r: Compilation)
    ensures Compiled(ops, r)
  {
    if ops == [] { return Rejected(EmptyOperations); }
    var order: seq<Pos> := [];
    var byPosition: map<Pos, Block> := map[];
    for n := 0 to |ops|
      invariant forall next :: Merged(ops[..n], next, {}, order, byPosition)
      invariant Agree(ops[..n]) && forall op | op in ops[..n] :: WellFormed(op)
    {
      ghost var done := ops[..n];
      assert ops[..n + 1] == done + [ops[n]];
      if !WellFormed(ops[n]) {
        assert ops[n] in ops;
        return Rejected(BadOperation);
      }
      AgreeOneMore(done, ops[n]);
      var error;
      error, order, byPosition := MergeOperation(ops[n], order, byPosition, done);
      if error.Some? {
        Refused(ops, n, byPosition);
        return Rejected(error.value);
      }
    }
    assert ops[..|ops|] == ops && Merged(ops, ops[0], {}, order, byPosition);
    MergedBlocks(ops, ops[0], order, byPosition);
    r := Blocks(seq(|order|, i requires 0 <= i < |order| => byPosition[order[i]]));
    Accepted(ops, order, byPosition, r.blocks);
  }

  lemma {:induction false} Refused(ops: seq<Operation>, n: nat, merged: map<Pos, Block>)
    requires n < |ops|
    requires || !Agree(ops[..n + 1])
             || (|merged| > MAX_BLOCKS && forall p | p in merged :: Covered(ops[..n], p) || Covers(ops[n].shape, p))
    ensures !Compiles(ops)
  {
    if Agree(ops) {
      AgreePrefix(ops, n + 1);
      assert ops[n] in ops && forall op | op in ops[..n] :: op in ops;
      TooManyDoesNotFit(ops, merged.Keys);
    }
  }

  /** The cells merged are the cells covered, and there are not too many. */
  lemma {:induction false} MergedCells(ops: seq<Operation>, op: Operation, order: seq<Pos>, merged: map<Pos, Block>)
    requires Merged(ops, op, {}, order, merged)
    ensures Fits(ops) && Distinct(order) && |order| <= MAX_BLOCKS && forall p :: p in order <==> Covered(ops, p)
  {
    hide Covers, Covered, LastWord;
    forall p ensures p in merged.Keys <==> Covered(ops, p) { LastWordIsSpoken(ops, p); }
    assert forall p :: p in order <==> p in merged.Keys;
  }

  /** The block at each cell is the last word's. */
  lemma {:induction false} MergedBlocks(ops: seq<Operation>, op: Operation, order: seq<Pos>, merged: map<Pos, Block>)
    requires Merged(ops, op, {}, order, merged)
    ensures forall i | 0 <= i < |order| ::
              order[i] in merged && LastWord(ops, order[i]).Some? && merged[order[i]] == BlockOf(LastWord(ops, order[i]).value, order[i])
  {
    hide Covers, Covered, LastWord, BlockOf;
    forall i | 0 <= i < |order|
      ensures order[i] in merged && LastWord(ops, order[i]).Some? && merged[order[i]] == BlockOf(LastWord(ops, order[i]).value, order[i])
    {
      assert order[i] in order;
    }
  }

  /** Blocks laid out in the order of their distinct cells. */
  lemma {:induction false} LaidOut(order: seq<Pos>, blocks: seq<Block>)
    requires Distinct(order) && |blocks| == |order| && forall i | 0 <= i < |order| :: blocks[i].pos == order[i]
    ensures UniquePositions(blocks)
    ensures forall p :: p in order <==> exists b :: b in blocks && b.pos == p
  {
    forall p | p in order ensures exists b :: b in blocks && b.pos == p {
      var i :| 0 <= i < |order| && order[i] == p;
      assert blocks[i] in blocks;
    }
  }

  lemma {:induction false} Accepted(ops: seq<Operation>, order: seq<Pos>, merged: map<Pos, Block>, blocks: seq<Block>)
    requires ops != [] && Agree(ops) && (forall op | op in ops :: WellFormed(op))
    requires Merged(ops, ops[0], {}, order, merged)
    requires |blocks| == |order| && forall i | 0 <= i < |order| :: order[i] in merged && blocks[i] == merged[order[i]]
    ensures Compiled(ops, Blocks(blocks))
  {
    hide Merged, Covers, Covered, LastWord, Agree, Fits, WellFormed, Distinct, UniquePositions;
    MergedCells(ops, ops[0], order, merged);
    MergedBlocks(ops, ops[0], order, merged);
    LaidOut(order, blocks);
  }

  /** Reordering operations changes neither success nor which material goes where. */
  lemma {:induction false} OrderIsIrrelevant(ops: seq<Operation>, ops': seq<Operation>, r: Compilation, r': Compilation)
    requires multiset(ops) == multiset(ops') && Compiled(ops, r) && Compiled(ops', r')
    ensures r.Blocks? <==> r'.Blocks?
    ensures r.Blocks? ==> forall b | b in r.blocks ::
              exists b' :: b' in r'.blocks && b'.pos == b.pos && b'.item == b.item && b'.optional == b.optional
  {
    SameOperations(ops, ops');
    if r.Blocks? {
      forall b | b in r.blocks
        ensures exists b' :: b' in r'.blocks && b'.pos == b.pos && b'.item == b.item && b'.optional == b.optional
      {
        LastWordIsSpoken(ops, b.pos);
        LastWordIsSpoken(ops', b.pos);
        assert Covered(ops', b.pos);
        var b' :| b' in r'.blocks && b'.pos == b.pos;
      }
    }
  }

  lemma {:induction false} SameOperations(ops: seq<Operation>, ops': seq<Operation>)
    requires multiset(ops) == multiset(ops')
    ensures forall op :: op in ops <==> op in ops'
    ensures forall p :: Covered(ops, p) <==> Covered(ops', p)
    ensures Compiles(ops) <==> Compiles(ops')
  {
    assert forall op :: op in ops <==> op in multiset(ops);
    assert forall op :: op in ops' <==> op in multiset(ops');
    assert |ops| == |multiset(ops)| == |multiset(ops')| == |ops'|;
    forall p ensures Covered(ops, p) <==> Covered(ops', p) {
      if Covered(ops, p) { var op :| op in ops && Covers(op.shape, p); assert op in ops'; }
      if Covered(ops', p) { var op :| op in ops' && Covers(op.shape, p); assert op in ops; }
    }
  }

  /** One operation alone compiles exactly when its item names a namespace, a wall is level and has height, a box has
      extent, a doorway has room to walk through, and it does not cover too many cells. */
  lemma {:induction false} OneOperation(op: Operation, r: Compilation)
    requires Compiled([op], r)
    ensures r.Blocks? <==>
              && ':' in op.style.item && !op.shape.Unknown? && Fits([op])
              && (op.shape.Wall? ==> op.shape.start.y == op.shape.end.y && op.shape.height > 0)
              && (op.shape.Box? ==> op.shape.size.x > 0 && op.shape.size.y > 0 && op.shape.size.z > 0)
              && (op.shape.Doorway? ==> op.shape.width > 0 && op.shape.height > 1)
  {
    hide Covers, Fits;
    assert op in [op] && forall a :: a in [op] <==> a == op;
  }

  /** Two operations of the same material on one cell. */
  lemma {:induction false} TwoOnOneCell(a: Operation, b: Operation, p: Pos)
    requires a.shape == b.shape == Floor(p.x, p.z, p.x, p.z, p.y) && SameMaterial(a.style, b.style) && WellFormed(a) && WellFormed(b)
    ensures Compiles([a, b]) && (forall q :: Covered([a, b], q) <==> q == p) && LastWord([a, b], p) == Some(b.style)
  {
    var ops := [a, b];
    assert a in ops && b in ops;
    forall q ensures Covered(ops, q) <==> q == p {
      if q == p { assert Covers(a.shape, p); }
    }
    var cells: set<Pos> := {p};
    assert (forall q :: q in cells <==> Covered(ops, q)) && |cells| == 1;
    assert Fits(ops);
  }

  /** The face is not material: the later of two agreeing operations decides it. */
  lemma {:induction false} LaterFaceWins(first: string, second: string, r: Compilation)
    requires var cell := Floor(0, 0, 0, 0, 0);
             Compiled([Operation(cell, Style("m:s", "", first, false)), Operation(cell, Style("m:s", "", second, false))], r)
    ensures r == Blocks([Block(Pos(0, 0, 0), "m:s", "m:s", if second == "" then "UP" else second, false)])
  {
    var cell, p := Floor(0, 0, 0, 0, 0), Pos(0, 0, 0);
    var a, b := Operation(cell, Style("m:s", "", first, false)), Operation(cell, Style("m:s", "", second, false));
    assert "m:s"[1] == ':';
    assert r.Blocks? && |r.blocks| > 1 ==> r.blocks[0].pos != r.blocks[1].pos;
    TwoOnOneCell(a, b, p);
    BlockTakes(b.style, p);
    hide Covers, Covered, Compiles, LastWord, WellFormed, BlockOf;
    assert Covered([a, b], p);
    var x :| x in r.blocks && x.pos == p;
    forall i | 0 <= i < |r.blocks| ensures r.blocks[i].pos == p && r.blocks[i] == BlockOf(b.style, p) {
      assert r.blocks[i] in r.blocks;
      assert Covered([a, b], r.blocks[i].pos);
    }
  }
}
