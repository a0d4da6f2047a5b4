/** How pixels move: the phase-ordered admission test, the integer sub-step path
    a move follows, and the neighbourhood and sign helpers of the position update. */
module Movement {
  import opened Materials
  import opened Lattice

  // ---------------------------------------------------------------------------
  // Admission

  /** Who may displace whom, for a non-empty destination. */
  predicate Admits(src: Phase, dst: Phase)
  {
    match src
    case Solid => dst == Liquid || dst == Gas
    case Liquid => dst == Gas
    case Gas => false
  }

  /** An independent reading of the phases: denser phases rank higher. */
  function Rank(p: Phase): nat
  {
    match p
    case Gas => 0
    case Liquid => 1
    case Solid => 2
  }

  /** A phase displaces exactly the phases ranked strictly below it. */
  lemma AdmitsIsRankOrder(src: Phase, dst: Phase)
    ensures Admits(src, dst) <==> Rank(src) > Rank(dst)
  {
  }

  /** A pixel of kind `src` may enter a cell holding kind `dst`. */
  predicate KindAdmits(mat: Table, src: PixelType, dst: PixelType)
  {
    dst == None || Admits(mat(src).phase, mat(dst).phase)
  }

  /** can_pixel_move_to over a snapshot of the grid. */
  function CanPixelMoveTo(mat: Table, g: seq<Pixel>, src: Pos, dst: Pos): (r: bool)
    requires |g| == Cells
    ensures r <==> Valid(src) && Valid(dst) && KindAdmits(mat, g[Index(src)].kind, g[Index(dst)].kind)
  {
    if !Valid(src) || !Valid(dst) then false
    else if g[Index(dst)].kind == None then true
    else
      var s := mat(g[Index(src)].kind).phase;
      var d := mat(g[Index(dst)].kind).phase;
      match s
      case Solid => d == Liquid || d == Gas
      case Liquid => d == Gas
      case _ => false
  }

  /** The admission test by rank: an empty cell admits anyone, a full one
      only a pixel of a strictly denser phase. */
  lemma KindAdmitsByRank(mat: Table, src: PixelType, dst: PixelType)
    ensures KindAdmits(mat, src, dst) <==> dst == None || Rank(mat(src).phase) > Rank(mat(dst).phase)
  {
    AdmitsIsRankOrder(mat(src).phase, mat(dst).phase);
  }

  /** No phase displaces its own phase, and nothing displaces a solid, so no
      pixel ever enters a titanium, rock, sand, dirt or coal cell. */
  lemma NothingEntersSolids(mat: Table, src: PixelType, dst: PixelType)
    requires mat(dst).phase == Solid && dst != None
    ensures !KindAdmits(mat, src, dst)
  {
  }

  lemma NoPhaseEntersItself(p: Phase)
    ensures !Admits(p, p)
  {
  }

  // ---------------------------------------------------------------------------
  // The sub-step path of a move

  function Abs(n: int): nat { if n < 0 then -n else n }

  /** max(|a.x - b.x|, |a.y - b.y|): the number of sub-steps from a to b. */
  function Steps(a: Pos, b: Pos): nat
  {
    if Abs(a.x - b.x) >= Abs(a.y - b.y) then Abs(a.x - b.x) else Abs(a.y - b.y)
  }

  /** a + (b - a) * k / steps, with C++'s truncating division per component. */
  function PathPoint(a: Pos, b: Pos, k: int): Pos
  {
    var s := Steps(a, b);
    if s == 0 then a
    else Pos(a.x + TruncDiv((b.x - a.x) * k, s), a.y + TruncDiv((b.y - a.y) * k, s))
  }

  lemma MulDivCancel(c: int, k: int)
    requires c > 0
    ensures (c * k) / c == k
  {
    var q := (c * k) / c;
    assert c * q + (c * k) % c == c * k;
    assert c * (k - q) == (c * k) % c;
    MulSign(c, k - q);
  }

  lemma MulSign(c: int, d: int)
    requires c > 0
    ensures d >= 1 ==> c * d >= c
    ensures d <= -1 ==> c * d <= -c
  {
    if d >= 1 {
      assert c * d == c + c * (d - 1);
    } else if d <= -1 {
      assert c * d == -c + c * (d + 1);
    }
  }

  lemma TruncDivMultiple(c: int, k: int, sign: int)
    requires c > 0 && k >= 0 && (sign == 1 || sign == -1)
    ensures TruncDiv(sign * c * k, c) == sign * k
  {
    MulDivCancel(c, k);
    if sign == -1 {
      assert -(sign * c * k) == c * k;
    }
  }

  /** Along the major axis the path advances by exactly one cell per sub-step. */
  lemma PathMajorAxis(a: Pos, b: Pos, k: int)
    requires Steps(a, b) > 0 && k >= 0
    ensures Abs(a.x - b.x) >= Abs(a.y - b.y) ==>
              PathPoint(a, b, k).x == a.x + (if b.x > a.x then k else -k)
    ensures Abs(a.x - b.x) < Abs(a.y - b.y) ==>
              PathPoint(a, b, k).y == a.y + (if b.y > a.y then k else -k)
  {
    var s := Steps(a, b);
    if Abs(a.x - b.x) >= Abs(a.y - b.y) {
      var sign := if b.x > a.x then 1 else -1;
      assert b.x - a.x == sign * s;
      TruncDivMultiple(s, k, sign);
      assert (b.x - a.x) * k == sign * s * k;
    } else {
      var sign := if b.y > a.y then 1 else -1;
      assert b.y - a.y == sign * s;
      TruncDivMultiple(s, k, sign);
      assert (b.y - a.y) * k == sign * s * k;
    }
  }

  /** The path starts at a and its last sub-step lands on b. */
  lemma PathEnds(a: Pos, b: Pos)
    ensures PathPoint(a, b, 0) == a
    ensures PathPoint(a, b, Steps(a, b)) == b
  {
    var s := Steps(a, b);
    if s > 0 {
      MulDivCancelSigned(b.x - a.x, s);
      MulDivCancelSigned(b.y - a.y, s);
    }
  }

  lemma MulDivCancelSigned(n: int, s: int)
    requires s > 0
    ensures TruncDiv(n * s, s) == n
  {
    if n >= 0 {
      MulDivCancel(s, n);
      assert n * s == s * n;
    } else {
      MulDivCancel(s, -n);
      assert -(n * s) == s * (-n);
    }
  }

  /** Distinct sub-steps land on distinct cells. */
  lemma PathInjective(a: Pos, b: Pos, k: int, m: int)
    requires Steps(a, b) > 0 && 0 <= k < m
    ensures PathPoint(a, b, k) != PathPoint(a, b, m)
  {
    PathMajorAxis(a, b, k);
    PathMajorAxis(a, b, m);
  }

  // ---------------------------------------------------------------------------
  // Neighbourhood and sign

  /** The eight neighbour offsets, in the order the engine tries them. */
  const NeighbourOffsets: seq<Pos> :=
    [Pos(1, 0), Pos(-1, 0), Pos(0, 1), Pos(0, -1), Pos(1, 1), Pos(-1, -1), Pos(-1, 1), Pos(1, -1)]

  /** is_surrounded, as the early-exit walk over the offsets from the k-th on. */
  function SurroundedFrom(g: seq<Pixel>, pos: Pos, k: nat): bool
    requires |g| == Cells && k <= |NeighbourOffsets|
    decreases |NeighbourOffsets| - k
  {
    if k == |NeighbourOffsets| then true
    else
      var n := Add(pos, NeighbourOffsets[k]);
      if Valid(n) && g[Index(n)].kind == None then false
      else SurroundedFrom(g, pos, k + 1)
  }

  function IsSurrounded(g: seq<Pixel>, pos: Pos): bool
    requires |g| == Cells
  {
    SurroundedFrom(g, pos, 0)
  }

  /** A pixel is surrounded iff no in-range 8-neighbour is empty; neighbours off
      the grid are ignored. */
  lemma {:induction false} SurroundedFromIff(g: seq<Pixel>, pos: Pos, k: nat)
    requires |g| == Cells && k <= |NeighbourOffsets|
    ensures SurroundedFrom(g, pos, k) <==>
      forall m :: k <= m < |NeighbourOffsets| && Valid(Add(pos, NeighbourOffsets[m])) ==>
        g[Index(Add(pos, NeighbourOffsets[m]))].kind != None
    decreases |NeighbourOffsets| - k
  {
    if k < |NeighbourOffsets| {
      SurroundedFromIff(g, pos, k + 1);
    }
  }

  lemma IsSurroundedIff(g: seq<Pixel>, pos: Pos)
    requires |g| == Cells
    ensures IsSurrounded(g, pos) <==>
      forall d :: d in NeighbourOffsets && Valid(Add(pos, d)) ==> g[Index(Add(pos, d))].kind != None
  {
    SurroundedFromIff(g, pos, 0);
    if !IsSurrounded(g, pos) {
      var m :| 0 <= m < |NeighbourOffsets| && Valid(Add(pos, NeighbourOffsets[m]))
               && g[Index(Add(pos, NeighbourOffsets[m]))].kind == None;
      assert NeighbourOffsets[m] in NeighbourOffsets;
    }
  }

  /** The offsets are the eight distinct king moves. */
  lemma NeighbourOffsetsAreKingMoves()
    ensures forall d :: d in NeighbourOffsets <==>
      (d != Pos(0, 0) && -1 <= d.x <= 1 && -1 <= d.y <= 1)
  {
  }

  /** sign(f) of a float, as an integer. */
  function Sign(f: real): (s: int)
    ensures -1 <= s <= 1
    ensures s == 0 <==> f == 0.0
    ensures s as real * f >= 0.0
  {
    if f < 0.0 then -1 else if f > 0.0 then 1 else 0
  }

  /** A float converted to an int: truncation toward zero. */
  function Trunc(r: real): (n: int)
    ensures Abs(n) as real <= (if r < 0.0 then -r else r) < Abs(n) as real + 1.0
    ensures (n >= 0 <==> r > -1.0) && (n <= 0 <==> r < 1.0)
  {
    if r >= 0.0 then r.Floor else -((-r).Floor)
  }
}
