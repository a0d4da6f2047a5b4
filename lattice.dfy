/** Integer lattice geometry of the world: its size constants, bounds checks,
    row-major cell indexing, the chunk partition and which chunks a change at a
    pixel wakes. */
module Lattice {

  const WorldSize: int := 256
  const ChunkSize: int := 16
  /** WorldSize / ChunkSize; see SizeConstants. */
  const NumChunks: int := 16
  /** Length of the pixel array (WorldSize squared) and of the chunk array
      (NumChunks squared). */
  const Cells: int := 65536
  const ChunkCount: int := 256

  lemma SizeConstants()
    ensures WorldSize % ChunkSize == 0 && NumChunks == WorldSize / ChunkSize
    ensures Cells == WorldSize * WorldSize && ChunkCount == NumChunks * NumChunks
  {
  }

  /** An integer 2-D coordinate (a pixel, a chunk or an offset). */
  datatype Pos = Pos(x: int, y: int)

  function Add(a: Pos, b: Pos): Pos { Pos(a.x + b.x, a.y + b.y) }

  /** C++ integer division, which truncates toward zero. */
  function TruncDiv(a: int, b: int): int
    requires b > 0
  {
    if a >= 0 then a / b else -((-a) / b)
  }

  /** C++ remainder: it takes the sign of the dividend. */
  function TruncRem(a: int, b: int): int
    requires b > 0
  {
    if a >= 0 then a % b else -((-a) % b)
  }

  // ---------------------------------------------------------------------------
  // Pixels

  /** True exactly when the position exists in the grid. */
  predicate Valid(p: Pos)
  {
    0 <= p.x < WorldSize && 0 <= p.y < WorldSize
  }

  /** Row-major position of a cell in the pixel array. */
  function Index(p: Pos): int
  {
    p.x + WorldSize * p.y
  }

  /** The cell stored at a given slot of the pixel array. */
  function PosOf(i: int): Pos
  {
    Pos(i % WorldSize, i / WorldSize)
  }

  /** Indexing maps the valid positions onto [0, Cells) and PosOf undoes it. */
  lemma IndexRoundTrip(p: Pos)
    requires Valid(p)
    ensures 0 <= Index(p) < Cells
    ensures PosOf(Index(p)) == p
  {
  }

  /** Every slot of the pixel array belongs to exactly one valid position. */
  lemma PosOfRoundTrip(i: int)
    requires 0 <= i < Cells
    ensures Valid(PosOf(i))
    ensures Index(PosOf(i)) == i
  {
    assert i == WorldSize * (i / WorldSize) + i % WorldSize;
  }

  lemma IndexInjective(p: Pos, q: Pos)
    requires Valid(p) && Valid(q)
    ensures Index(p) == Index(q) <==> p == q
  {
    IndexRoundTrip(p);
    IndexRoundTrip(q);
  }

  // ---------------------------------------------------------------------------
  // Chunks

  predicate ChunkValid(c: Pos)
  {
    0 <= c.x < NumChunks && 0 <= c.y < NumChunks
  }

  function ChunkIndex(c: Pos): int
  {
    NumChunks * c.y + c.x
  }

  function ChunkPos(i: int): Pos
  {
    Pos(i % NumChunks, i / NumChunks)
  }

  /** The chunk a pixel belongs to (integer division of each coordinate). */
  function ChunkOf(p: Pos): Pos
  {
    Pos(TruncDiv(p.x, ChunkSize), TruncDiv(p.y, ChunkSize))
  }

  lemma ChunkRoundTrip(c: Pos)
    requires ChunkValid(c)
    ensures 0 <= ChunkIndex(c) < ChunkCount
    ensures ChunkPos(ChunkIndex(c)) == c
  {
  }

  lemma ChunkPosRoundTrip(i: int)
    requires 0 <= i < ChunkCount
    ensures ChunkValid(ChunkPos(i))
    ensures ChunkIndex(ChunkPos(i)) == i
  {
    assert i == NumChunks * (i / NumChunks) + i % NumChunks;
  }

  /** Every valid pixel lies in exactly one valid chunk. */
  lemma ChunkOfValid(p: Pos)
    requires Valid(p)
    ensures ChunkValid(ChunkOf(p))
    ensures ChunkSize * ChunkOf(p).x <= p.x < ChunkSize * ChunkOf(p).x + ChunkSize
    ensures ChunkSize * ChunkOf(p).y <= p.y < ChunkSize * ChunkOf(p).y + ChunkSize
  {
  }

  // ---------------------------------------------------------------------------
  // Waking

  /** The positions the waking code accepts: the grid, plus the column just left
      of it, which the free-fall cascade passes for a pixel in column 0. */
  predicate WakeDomain(p: Pos)
  {
    -1 <= p.x < WorldSize && 0 <= p.y < WorldSize
  }

  /** The boundary tests of the wake as written: the right/down neighbour
      for (x + 1) % 16 == 0, the left/up neighbour for (x - 1) % 16 == 0,
      skipping the far edge for the first and coordinate 0 for the second. */
  predicate OnRightEdge(p: Pos)
  {
    p.x != WorldSize - 1 && TruncRem(p.x + 1, ChunkSize) == 0
  }

  predicate OnLeftEdge(p: Pos)
  {
    p.x != 0 && TruncRem(p.x - 1, ChunkSize) == 0
  }

  predicate OnBottomEdge(p: Pos)
  {
    p.y != WorldSize - 1 && TruncRem(p.y + 1, ChunkSize) == 0
  }

  predicate OnTopEdge(p: Pos)
  {
    p.y != 0 && TruncRem(p.y - 1, ChunkSize) == 0
  }

  /** A wake across an edge happens when the boundary test holds and the
      neighbour chunk coordinate passes the pixel grid's bounds test. */
  predicate WakesRight(p: Pos)
    requires WakeDomain(p)
  {
    OnRightEdge(p) && Valid(Add(ChunkOf(p), Pos(1, 0)))
  }

  predicate WakesLeft(p: Pos)
    requires WakeDomain(p)
  {
    OnLeftEdge(p) && Valid(Add(ChunkOf(p), Pos(-1, 0)))
  }

  predicate WakesDown(p: Pos)
    requires WakeDomain(p)
  {
    OnBottomEdge(p) && Valid(Add(ChunkOf(p), Pos(0, 1)))
  }

  predicate WakesUp(p: Pos)
    requires WakeDomain(p)
  {
    OnTopEdge(p) && Valid(Add(ChunkOf(p), Pos(0, -1)))
  }

  /** Indices of the chunks that waking at `p` marks for the next frame. */
  function WokenChunks(p: Pos): set<int>
    requires WakeDomain(p)
  {
    var c := ChunkOf(p);
    {ChunkIndex(c)}
    + NeighbourWake(OnRightEdge(p), Add(c, Pos(1, 0)))
    + NeighbourWake(OnLeftEdge(p), Add(c, Pos(-1, 0)))
    + NeighbourWake(OnBottomEdge(p), Add(c, Pos(0, 1)))
    + NeighbourWake(OnTopEdge(p), Add(c, Pos(0, -1)))
  }

  /** One neighbour test of the wake: the neighbour chunk `n` is marked when
      the pixel lies on the boundary and `n` passes the grid's bounds test. */
  function NeighbourWake(onEdge: bool, n: Pos): set<int>
  {
    if onEdge && Valid(n) then {ChunkIndex(n)} else {}
  }

  /** The pixel's own chunk, and every chunk a wake marks across an edge, is
      a chunk of the array. */
  lemma WakeNeighboursInRange(p: Pos)
    requires WakeDomain(p)
    ensures var c := ChunkOf(p);
      && ChunkValid(c)
      && (WakesRight(p) ==> 0 <= ChunkIndex(Add(c, Pos(1, 0))) < ChunkCount)
      && (WakesLeft(p) ==> 0 <= ChunkIndex(Add(c, Pos(-1, 0))) < ChunkCount)
      && (WakesDown(p) ==> 0 <= ChunkIndex(Add(c, Pos(0, 1))) < ChunkCount)
      && (WakesUp(p) ==> 0 <= ChunkIndex(Add(c, Pos(0, -1))) < ChunkCount)
  {
  }

  /** Each wake test, for a pixel of the grid, in terms of the pixel's place in
      its chunk and the chunk's place in the grid. */
  lemma WakeTestsGeometry(p: Pos)
    requires Valid(p)
    ensures var c := ChunkOf(p);
      && (WakesRight(p) <==> p.x % ChunkSize == ChunkSize - 1 && c.x < NumChunks - 1)
      && (WakesLeft(p) <==> p.x % ChunkSize == 1 && c.x > 0)
      && (WakesDown(p) <==> p.y % ChunkSize == ChunkSize - 1 && c.y < NumChunks - 1)
      && (WakesUp(p) <==> p.y % ChunkSize == 1 && c.y > 0)
  {
    ChunkOfValid(p);
  }

  /** Geometric reading of the wake rule for a pixel of the grid: a chunk is
      woken iff it is the pixel's own chunk, or the chunk across the pixel's
      last column/row of its chunk (right, down), or the chunk on the other side
      when the pixel is in column/row 1 of its chunk (left, up). */
  lemma WokenChunksGeometry(p: Pos, j: int)
    requires Valid(p) && 0 <= j < ChunkCount
    ensures var c, q := ChunkOf(p), ChunkPos(j);
      j in WokenChunks(p) <==>
        q == c
        || (q == Pos(c.x + 1, c.y) && p.x % ChunkSize == ChunkSize - 1)
        || (q == Pos(c.x - 1, c.y) && p.x % ChunkSize == 1)
        || (q == Pos(c.x, c.y + 1) && p.y % ChunkSize == ChunkSize - 1)
        || (q == Pos(c.x, c.y - 1) && p.y % ChunkSize == 1)
  {
    var c, q := ChunkOf(p), ChunkPos(j);
    ChunkPosRoundTrip(j);
    ChunkOfValid(p);
    var r, l, d, u := Add(c, Pos(1, 0)), Add(c, Pos(-1, 0)), Add(c, Pos(0, 1)), Add(c, Pos(0, -1));
    WakeTestsGeometry(p);
    assert j in WokenChunks(p) <==>
      j == ChunkIndex(c)
      || (WakesRight(p) && j == ChunkIndex(r)) || (WakesLeft(p) && j == ChunkIndex(l))
      || (WakesDown(p) && j == ChunkIndex(d)) || (WakesUp(p) && j == ChunkIndex(u));
    ChunkIndexIs(j, c);
    ChunkIndexIs(j, r);
    ChunkIndexIs(j, l);
    ChunkIndexIs(j, d);
    ChunkIndexIs(j, u);
  }

  /** A chunk of the array has index j exactly when it is ChunkPos(j). */
  lemma ChunkIndexIs(j: int, c: Pos)
    requires 0 <= j < ChunkCount
    ensures ChunkValid(c) ==> (j == ChunkIndex(c) <==> ChunkPos(j) == c)
    ensures ChunkPos(j) == c ==> ChunkValid(c)
  {
    ChunkPosRoundTrip(j);
    if ChunkValid(c) {
      ChunkRoundTrip(c);
    }
  }

  /** The left test as written: a pixel in the first column of a chunk does not
      wake the chunk on its left, the pixel one column further right does. */
  lemma LeftWakeOffByOne()
    ensures ChunkIndex(Pos(0, 0)) !in WokenChunks(Pos(16, 5))
    ensures ChunkIndex(Pos(0, 0)) in WokenChunks(Pos(17, 5))
  {
    assert ChunkOf(Pos(16, 5)) == Pos(1, 0) && ChunkOf(Pos(17, 5)) == Pos(1, 0);
    assert WokenChunks(Pos(16, 5)) == {1};
    assert 0 in NeighbourWake(true, Pos(0, 0));
  }

  /** The column left of the grid belongs to chunk column 0, and waking there
      also wakes chunk column 1, since (-1 + 1) % 16 == 0. */
  lemma WakeLeftOfGrid(y: int)
    requires 0 <= y < WorldSize
    ensures ChunkOf(Pos(-1, y)) == Pos(0, y / ChunkSize)
    ensures ChunkIndex(Pos(1, y / ChunkSize)) in WokenChunks(Pos(-1, y))
  {
    var c := Pos(0, y / ChunkSize);
    assert TruncDiv(-1, ChunkSize) == 0 && TruncDiv(y, ChunkSize) == y / ChunkSize;
    assert ChunkOf(Pos(-1, y)) == c;
    assert TruncRem(-1 + 1, ChunkSize) == 0;
    assert Add(c, Pos(1, 0)) == Pos(1, y / ChunkSize) && Valid(Pos(1, y / ChunkSize));
    assert ChunkIndex(Pos(1, y / ChunkSize)) in NeighbourWake(true, Add(c, Pos(1, 0)));
  }

  /** The two horizontal tests, and the two vertical tests, exclude each other. */
  lemma WakeTestsExclusive(p: Pos)
    requires Valid(p)
    ensures !(WakesRight(p) && WakesLeft(p)) && !(WakesDown(p) && WakesUp(p))
  {
    NotBoth(p.x);
    NotBoth(p.y);
  }

  lemma NotBoth(x: int)
    requires 0 <= x < WorldSize
    ensures !(TruncRem(x + 1, ChunkSize) == 0 && x != 0 && TruncRem(x - 1, ChunkSize) == 0)
  {
  }

  /** The horizontal and the vertical neighbour a wake marks, if any. */
  function HorizontalWake(p: Pos): set<int>
    requires WakeDomain(p)
  {
    if WakesRight(p) then {ChunkIndex(Add(ChunkOf(p), Pos(1, 0)))}
    else if WakesLeft(p) then {ChunkIndex(Add(ChunkOf(p), Pos(-1, 0)))} else {}
  }

  function VerticalWake(p: Pos): set<int>
    requires WakeDomain(p)
  {
    if WakesDown(p) then {ChunkIndex(Add(ChunkOf(p), Pos(0, 1)))}
    else if WakesUp(p) then {ChunkIndex(Add(ChunkOf(p), Pos(0, -1)))} else {}
  }

  lemma WokenChunksShape(p: Pos)
    requires Valid(p)
    ensures WokenChunks(p) == {ChunkIndex(ChunkOf(p))} + HorizontalWake(p) + VerticalWake(p)
  {
    WakeTestsExclusive(p);
  }

  /** A wake marks at most three chunks: its own and one across each axis. */
  lemma WakesAtMostThree(p: Pos)
    requires Valid(p)
    ensures |WokenChunks(p)| <= 3
  {
    WokenChunksShape(p);
    var own := {ChunkIndex(ChunkOf(p))};
    assert |HorizontalWake(p)| <= 1 && |VerticalWake(p)| <= 1;
    CardUnion(own, HorizontalWake(p));
    CardUnion(own + HorizontalWake(p), VerticalWake(p));
  }

  lemma CardUnion<T>(a: set<T>, b: set<T>)
    ensures |a + b| <= |a| + |b|
  {
    assert |a + b| == |a| + |b| - |a * b|;
  }
}
