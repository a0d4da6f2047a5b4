/** The in-place mover: set_adjacent_free_falling, move_offset and the position
    update of one pixel (gravity, inertial early-out, diagonal, dispersion). */
module Moves {
  import opened Materials
  import opened Lattice
  import opened Grid
  import opened Movement
  import Oracle

  /** The pixel with is_falling set. */
  function Falling(p: Pixel): (r: Pixel)
    ensures FlagsGrew(p, r) && r.flags == p.flags + {IsFalling}
  {
    p.(flags := p.flags + {IsFalling})
  }

  // ---------------------------------------------------------------------------
  // set_adjacent_free_falling

  /** `g1` is `g0` where some cells of `cells` whose material has a gravity
      factor have been set falling, and nothing else changed. */
  predicate Loosened(mat: Table, g0: seq<Pixel>, g1: seq<Pixel>, cells: set<int>)
  {
    |g0| == Cells && |g1| == Cells
    && forall j :: 0 <= j < Cells ==>
         g1[j] == g0[j]
         || (j in cells && g1[j] == Falling(g0[j]) && mat(g0[j].kind).gravityFactor != 0.0)
  }

  /** `b` is `a`, or `a` set falling when its material has a gravity factor:
      the only change set_adjacent_free_falling makes to a cell. */
  predicate Loose(mat: Table, a: Pixel, b: Pixel)
  {
    b == a || (b == Falling(a) && mat(a.kind).gravityFactor != 0.0)
  }

  lemma LooseTrans(mat: Table, a: Pixel, b: Pixel, c: Pixel)
    requires Loose(mat, a, b) && Loose(mat, b, c)
    ensures Loose(mat, a, c) && c.kind == a.kind
  {
  }

  /** The slots of the left and right neighbours of `pos` that lie in the grid. */
  function SideCells(pos: Pos): set<int>
  {
    (if Valid(Pos(pos.x - 1, pos.y)) then {Index(Pos(pos.x - 1, pos.y))} else {})
    + (if Valid(Pos(pos.x + 1, pos.y)) then {Index(Pos(pos.x + 1, pos.y))} else {})
  }

  /** A move never loosens the moving pixel itself: its slot is not a side cell. */
  lemma SideCellsExcludeSelf(pos: Pos)
    requires Valid(pos)
    ensures Index(pos) !in SideCells(pos)
  {
    if Valid(Pos(pos.x - 1, pos.y)) { IndexInjective(pos, Pos(pos.x - 1, pos.y)); }
    if Valid(Pos(pos.x + 1, pos.y)) { IndexInjective(pos, Pos(pos.x + 1, pos.y)); }
  }

  /** The chunks one iteration of the side loop wakes: those around the left
      neighbour `l`, whichever side `x` is, when `x` lies in the grid and its
      material has a gravity factor. */
  function SideWake(mat: Table, g: seq<Pixel>, x: Pos, l: Pos): set<int>
    requires |g| == Cells && WakeDomain(l)
  {
    if Valid(x) && mat(g[Index(x)].kind).gravityFactor != 0.0 then WokenChunks(l) else {}
  }

  /** The grid after one side cell's loosening under the draw `u`: a cell in
      the grid whose material has a gravity factor is set falling exactly when
      `u` exceeds that material's inertial resistance. */
  function Loosen(mat: Table, g: seq<Pixel>, x: Pos, u: real): (r: seq<Pixel>)
    requires |g| == Cells
    ensures Loosened(mat, g, r, if Valid(x) then {Index(x)} else {})
    ensures Valid(x) && mat(g[Index(x)].kind).gravityFactor != 0.0 ==>
      (u > mat(g[Index(x)].kind).inertialResistance ==> r[Index(x)] == Falling(g[Index(x)]))
      && (u <= mat(g[Index(x)].kind).inertialResistance ==> r == g)
  {
    if Valid(x) && mat(g[Index(x)].kind).gravityFactor != 0.0 && u > mat(g[Index(x)].kind).inertialResistance
    then g[Index(x) := Falling(g[Index(x)])]
    else g
  }

  /** One iteration of the side loop: a side cell whose material has a gravity
      factor wakes the chunks around `l` and, under the draw `u`, may be set
      falling. */
  method LoosenSide(w: World, mat: Table, x: Pos, l: Pos) returns (ghost u: real)
    requires w.Wellformed() && WakeDomain(l)
    modifies w.pixels, w.chunks
    ensures 0.0 <= u <= 1.0
    ensures w.pixels[..] == Loosen(mat, old(w.pixels[..]), x, u)
    ensures MarkedFrom(old(w.chunks[..]), w.chunks[..], SideWake(mat, old(w.pixels[..]), x, l))
    ensures ChunksWoken(old(w.chunks[..]), w.chunks[..])
  {
    u := 0.0;
    if Valid(x) {
      var px := w.At(x);
      var props := mat(px.kind);
      if props.gravityFactor != 0.0 {
        w.WakeChunkWithPixel(l);
        var draw := Oracle.RandomUnit();
        u := draw;
        if draw > props.inertialResistance {
          w.Set(x, Falling(px));
        }
        return;
      }
    }
    MarkedNone(w.chunks[..]);
  }

  /** set_adjacent_free_falling: loosens the left and right neighbours of
      `pos` under the draws `ul` and `ur`; the chunks around the left
      neighbour are woken when either side has a material with a gravity
      factor. */
  method SetAdjacentFreeFalling(w: World, mat: Table, pos: Pos) returns (ghost ul: real, ghost ur: real)
    requires w.Wellformed() && Valid(pos)
    modifies w.pixels, w.chunks
    ensures 0.0 <= ul <= 1.0 && 0.0 <= ur <= 1.0
    ensures w.pixels[..] == Loosen(mat, Loosen(mat, old(w.pixels[..]), Pos(pos.x - 1, pos.y), ul), Pos(pos.x + 1, pos.y), ur)
    ensures Loosened(mat, old(w.pixels[..]), w.pixels[..], SideCells(pos))
    ensures var l := Pos(pos.x - 1, pos.y);
      MarkedFrom(old(w.chunks[..]), w.chunks[..],
                 SideWake(mat, old(w.pixels[..]), l, l) + SideWake(mat, old(w.pixels[..]), Pos(pos.x + 1, pos.y), l))
    ensures ChunksWoken(old(w.chunks[..]), w.chunks[..])
  {
    var l := Pos(pos.x - 1, pos.y);
    var r := Pos(pos.x + 1, pos.y);
    ghost var g0, c0 := w.pixels[..], w.chunks[..];
    ul := LoosenSide(w, mat, l, l);
    ghost var g1, c1 := w.pixels[..], w.chunks[..];
    if Valid(r) {
      assert g1[Index(r)].kind == g0[Index(r)].kind;
    }
    assert SideWake(mat, g1, r, l) == SideWake(mat, g0, r, l);
    ur := LoosenSide(w, mat, r, l);
    if Valid(l) && Valid(r) { IndexInjective(l, r); }
    MarkedTrans(c0, c1, w.chunks[..], SideWake(mat, g0, l, l), SideWake(mat, g0, r, l));
  }

  // ---------------------------------------------------------------------------
  // move_offset

  /** `path[k]` is the slot of the k-th point of the path from a to b, for every
      k up to t, and each of those points lies in the grid. */
  predicate OnPath(a: Pos, b: Pos, path: seq<int>, t: nat)
  {
    |path| == t + 1
    && forall k :: 0 <= k <= t ==> Valid(PathPoint(a, b, k)) && path[k] == Index(PathPoint(a, b, k))
  }

  /** The side cells of the first t points after the start of the path from
      a to b: the cells a move of t sub-steps may loosen. */
  function PathSides(a: Pos, b: Pos, t: nat): set<int>
  {
    if t == 0 then {} else PathSides(a, b, t - 1) + SideCells(PathPoint(a, b, t))
  }

  /** The grid after the first t swaps of a walk from a to b, leaving out the
      loosening of side cells: sub-step k exchanges the cells of path points
      k - 1 and k. Loosening changes no type, so this grid has the types the
      walk leaves behind. */
  function Swept(g0: seq<Pixel>, a: Pos, b: Pos, t: nat): (r: seq<Pixel>)
    ensures |r| == |g0|
  {
    if t == 0 then g0
    else
      var s := Swept(g0, a, b, t - 1);
      var p, q := PathPoint(a, b, t - 1), PathPoint(a, b, t);
      if Valid(p) && Valid(q) && |s| == Cells then Swapped(s, Index(p), Index(q)) else s
  }

  /** The grid a sub-step from `p` into `q` leaves in `g` under the side
      draws `d`: the swap, then the loosening of the left neighbour of `q`
      under d.0 and of the right one under d.1. */
  function SubStep(mat: Table, g: seq<Pixel>, p: Pos, q: Pos, d: (real, real)): (r: seq<Pixel>)
    requires |g| == Cells && Valid(p) && Valid(q)
    ensures |r| == Cells
  {
    Loosen(mat, Loosen(mat, Swapped(g, Index(p), Index(q)), Pos(q.x - 1, q.y), d.0), Pos(q.x + 1, q.y), d.1)
  }

  /** Every pair of side draws lies in [0, 1]. */
  predicate UnitSides(ds: seq<(real, real)>)
  {
    forall k :: 0 <= k < |ds| ==> 0.0 <= ds[k].0 <= 1.0 && 0.0 <= ds[k].1 <= 1.0
  }

  /** The grid after the first |ds| sub-steps of a walk from a to b in `g0`,
      sub-step k + 1 taken under the side draws ds[k]. */
  function WalkGrid(mat: Table, g0: seq<Pixel>, a: Pos, b: Pos, ds: seq<(real, real)>): (r: seq<Pixel>)
    requires |g0| == Cells
    ensures |r| == Cells
    decreases |ds|
  {
    if |ds| == 0 then g0
    else
      var t := |ds|;
      var g := WalkGrid(mat, g0, a, b, ds[..t - 1]);
      if Valid(PathPoint(a, b, t - 1)) && Valid(PathPoint(a, b, t))
      then SubStep(mat, g, PathPoint(a, b, t - 1), PathPoint(a, b, t), ds[t - 1])
      else g
  }

  /** The grid move_offset leaves after |ds| sub-steps under the side draws
      `ds`: the walk's grid, with the mover marked falling when it moved. */
  function MoveGrid(mat: Table, g0: seq<Pixel>, a: Pos, b: Pos, ds: seq<(real, real)>): (r: seq<Pixel>)
    requires |g0| == Cells
    ensures |r| == Cells
  {
    var g := WalkGrid(mat, g0, a, b, ds);
    var q := PathPoint(a, b, |ds|);
    if |ds| > 0 && Valid(q) then g[Index(q) := Falling(g[Index(q)])] else g
  }

  /** Two grids of equal size that hold the same type in every cell. */
  predicate SameKinds(g: seq<Pixel>, h: seq<Pixel>)
  {
    |g| == |h| && forall j :: 0 <= j < |g| ==> g[j].kind == h[j].kind
  }

  /** The chunks set_adjacent_free_falling wakes after the sub-step into `p`,
      in a grid whose types are those of `g`. */
  function StepWake(mat: Table, g: seq<Pixel>, p: Pos): set<int>
    requires |g| == Cells
  {
    if Valid(p) then
      var l := Pos(p.x - 1, p.y);
      SideWake(mat, g, l, l) + SideWake(mat, g, Pos(p.x + 1, p.y), l)
    else {}
  }

  /** Only the types of a grid decide which chunks a sub-step wakes. */
  lemma StepWakeSameKinds(mat: Table, g: seq<Pixel>, h: seq<Pixel>, p: Pos)
    requires |g| == Cells && SameKinds(g, h)
    ensures StepWake(mat, g, p) == StepWake(mat, h, p)
  {
  }

  /** The chunks the side loosenings of the first t sub-steps of a walk from
      a to b in `g0` wake, each in the grid its swap left. */
  function WalkWakes(mat: Table, g0: seq<Pixel>, a: Pos, b: Pos, t: nat): set<int>
    requires |g0| == Cells
  {
    if t == 0 then {}
    else WalkWakes(mat, g0, a, b, t - 1) + StepWake(mat, Swept(g0, a, b, t), PathPoint(a, b, t))
  }

  /** The chunks move_offset wakes when it takes t sub-steps: those of the
      side loosenings and, when it moved, those around the point it reached. */
  function MoveWakes(mat: Table, g0: seq<Pixel>, a: Pos, b: Pos, t: nat): set<int>
    requires |g0| == Cells
  {
    WalkWakes(mat, g0, a, b, t)
    + if t > 0 && Valid(PathPoint(a, b, t)) then WokenChunks(PathPoint(a, b, t)) else {}
  }

  /** The state of a move after t sub-steps: the mover (the pixel that started
      at path[0]) sits unchanged at path[t]; each pixel it passed sits one
      sub-step back, at most loosened; every entered cell admitted the mover;
      a cell off the path is at most loosened, and only if it is beside a
      point the mover entered. */
  ghost predicate Walked(mat: Table, g0: seq<Pixel>, g: seq<Pixel>, a: Pos, b: Pos, path: seq<int>, t: nat)
  {
    |g0| == Cells && |g| == Cells && OnPath(a, b, path, t)
    && g[path[t]] == g0[path[0]]
    && (forall k :: 1 <= k <= t ==>
          Loose(mat, g0[path[k]], g[path[k - 1]]) && KindAdmits(mat, g0[path[0]].kind, g0[path[k]].kind))
    && (forall j :: 0 <= j < Cells && j !in path ==>
          Loose(mat, g0[j], g[j]) && (g[j] != g0[j] ==> j in PathSides(a, b, t)))
  }

  /** What move_offset leaves behind after taking t of the Steps(a, b)
      sub-steps: as Walked, except that a mover that moved is now falling, a
      move of no sub-step changes nothing, and when it stopped early the next
      point was off the grid or did not admit the mover. */
  ghost predicate MoveOutcome(mat: Table, g0: seq<Pixel>, g1: seq<Pixel>, a: Pos, b: Pos, path: seq<int>, t: nat)
  {
    |g0| == Cells && |g1| == Cells && t <= Steps(a, b) && OnPath(a, b, path, t)
    && g1[path[t]] == (if t == 0 then g0[path[0]] else Falling(g0[path[0]]))
    && (t == 0 ==> g1 == g0)
    && (forall k :: 1 <= k <= t ==>
          Loose(mat, g0[path[k]], g1[path[k - 1]]) && KindAdmits(mat, g0[path[0]].kind, g0[path[k]].kind))
    && (forall j :: 0 <= j < Cells && j !in path ==>
          Loose(mat, g0[j], g1[j]) && (g1[j] != g0[j] ==> j in PathSides(a, b, t)))
    && (t < Steps(a, b) ==>
          !(Valid(PathPoint(a, b, t + 1))
            && KindAdmits(mat, g0[path[0]].kind, g0[Index(PathPoint(a, b, t + 1))].kind)))
  }

  /** The slots of the first t + 1 path points are pairwise distinct, and the
      next point's slot is none of them. */
  lemma PathSlotsDistinct(a: Pos, b: Pos, path: seq<int>, t: nat)
    requires Steps(a, b) > 0 && OnPath(a, b, path, t)
    ensures forall k, m :: 0 <= k < m <= t ==> path[k] != path[m]
    ensures Valid(PathPoint(a, b, t + 1)) ==>
      forall k :: 0 <= k <= t ==> path[k] != Index(PathPoint(a, b, t + 1))
  {
    forall k, m | 0 <= k < m <= t
      ensures path[k] != path[m]
    {
      PathInjective(a, b, k, m);
      IndexInjective(PathPoint(a, b, k), PathPoint(a, b, m));
    }
    if Valid(PathPoint(a, b, t + 1)) {
      forall k | 0 <= k <= t
        ensures path[k] != Index(PathPoint(a, b, t + 1))
      {
        PathInjective(a, b, k, t + 1);
        IndexInjective(PathPoint(a, b, k), PathPoint(a, b, t + 1));
      }
    }
  }

  lemma WalkStart(mat: Table, g0: seq<Pixel>, a: Pos, b: Pos)
    requires |g0| == Cells && Valid(a)
    ensures Walked(mat, g0, g0, a, b, [Index(a)], 0)
  {
    PathEnds(a, b);
  }

  /** One admitted sub-step, performed as a swap, keeps the walk invariant. */
  lemma WalkStep(mat: Table, g0: seq<Pixel>, g: seq<Pixel>, a: Pos, b: Pos, path: seq<int>, t: nat)
    requires Walked(mat, g0, g, a, b, path, t) && Steps(a, b) > 0
    requires CanPixelMoveTo(mat, g, PathPoint(a, b, t), PathPoint(a, b, t + 1))
    ensures var n := Index(PathPoint(a, b, t + 1));
      Walked(mat, g0, Swapped(g, path[t], n), a, b, path + [n], t + 1)
  {
    var n := Index(PathPoint(a, b, t + 1));
    PathSlotsDistinct(a, b, path, t);
    assert n !in path;
    StepPassed(mat, g0, g, a, b, path, t, n);
    StepBeside(mat, g0, g, a, b, path, t, n);
  }

  /** After the swap into slot `n`, each pixel passed sits one sub-step back. */
  lemma StepPassed(mat: Table, g0: seq<Pixel>, g: seq<Pixel>, a: Pos, b: Pos, path: seq<int>, t: nat, n: int)
    requires Walked(mat, g0, g, a, b, path, t) && Steps(a, b) > 0
    requires CanPixelMoveTo(mat, g, PathPoint(a, b, t), PathPoint(a, b, t + 1))
    requires n == Index(PathPoint(a, b, t + 1)) && n !in path
    ensures var g', path' := Swapped(g, path[t], n), path + [n];
      forall k :: 1 <= k <= t + 1 ==>
        Loose(mat, g0[path'[k]], g'[path'[k - 1]]) && KindAdmits(mat, g0[path'[0]].kind, g0[path'[k]].kind)
  {
    PathSlotsDistinct(a, b, path, t);
    var g', path' := Swapped(g, path[t], n), path + [n];
    assert Loose(mat, g0[n], g[n]);
    assert g[n].kind == g0[n].kind;
    assert KindAdmits(mat, g0[path[0]].kind, g0[n].kind);
    forall k | 1 <= k <= t
      ensures Loose(mat, g0[path'[k]], g'[path'[k - 1]]) && KindAdmits(mat, g0[path'[0]].kind, g0[path'[k]].kind)
    {
      assert path'[k] == path[k] && path'[k - 1] == path[k - 1];
      assert g'[path[k - 1]] == g[path[k - 1]];
    }
    assert path'[t + 1] == n && path'[t] == path[t] && g'[path[t]] == g[n];
  }

  /** After the swap into slot `n`, the cells off the longer path are as the
      walk left them. */
  lemma StepBeside(mat: Table, g0: seq<Pixel>, g: seq<Pixel>, a: Pos, b: Pos, path: seq<int>, t: nat, n: int)
    requires Walked(mat, g0, g, a, b, path, t) && 0 <= n < Cells && n !in path
    ensures var g', path' := Swapped(g, path[t], n), path + [n];
      forall j :: 0 <= j < Cells && j !in path' ==>
        Loose(mat, g0[j], g'[j]) && (g'[j] != g0[j] ==> j in PathSides(a, b, t + 1))
  {
    var g', path' := Swapped(g, path[t], n), path + [n];
    forall j | 0 <= j < Cells && j !in path'
      ensures Loose(mat, g0[j], g'[j]) && (g'[j] != g0[j] ==> j in PathSides(a, b, t + 1))
    {
      assert j !in path && g'[j] == g[j];
    }
  }

  /** Loosening the side cells of the mover keeps the walk invariant. */
  lemma WalkLoosen(mat: Table, g0: seq<Pixel>, g: seq<Pixel>, g': seq<Pixel>, a: Pos, b: Pos, path: seq<int>, t: nat)
    requires Walked(mat, g0, g, a, b, path, t) && t > 0
    requires Loosened(mat, g, g', SideCells(PathPoint(a, b, t)))
    ensures Walked(mat, g0, g', a, b, path, t)
  {
    SideCellsExcludeSelf(PathPoint(a, b, t));
    forall k | 1 <= k <= t
      ensures Loose(mat, g0[path[k]], g'[path[k - 1]])
    {
      LooseTrans(mat, g0[path[k]], g[path[k - 1]], g'[path[k - 1]]);
    }
    forall j | 0 <= j < Cells && j !in path
      ensures Loose(mat, g0[j], g'[j]) && (g'[j] != g0[j] ==> j in PathSides(a, b, t))
    {
      LooseTrans(mat, g0[j], g[j], g'[j]);
    }
  }

  /** A refused sub-step was refused by the original occupant of its cell. */
  lemma WalkBlocked(mat: Table, g0: seq<Pixel>, g: seq<Pixel>, a: Pos, b: Pos, path: seq<int>, t: nat)
    requires Walked(mat, g0, g, a, b, path, t) && Steps(a, b) > 0
    requires !CanPixelMoveTo(mat, g, PathPoint(a, b, t), PathPoint(a, b, t + 1))
    ensures !(Valid(PathPoint(a, b, t + 1))
              && KindAdmits(mat, g0[path[0]].kind, g0[Index(PathPoint(a, b, t + 1))].kind))
  {
    PathSlotsDistinct(a, b, path, t);
  }

  /** Marking the mover falling at the end of a move of t > 0 sub-steps. */
  lemma WalkFinish(mat: Table, g0: seq<Pixel>, g: seq<Pixel>, a: Pos, b: Pos, path: seq<int>, t: nat)
    requires Walked(mat, g0, g, a, b, path, t) && t > 0 && t <= Steps(a, b)
    requires t < Steps(a, b) ==>
      !(Valid(PathPoint(a, b, t + 1)) && KindAdmits(mat, g0[path[0]].kind, g0[Index(PathPoint(a, b, t + 1))].kind))
    ensures MoveOutcome(mat, g0, g[path[t] := Falling(g[path[t]])], a, b, path, t)
  {
    PathSlotsDistinct(a, b, path, t);
    var g' := g[path[t] := Falling(g[path[t]])];
    forall k | 1 <= k <= t
      ensures Loose(mat, g0[path[k]], g'[path[k - 1]])
    {
      assert g'[path[k - 1]] == g[path[k - 1]];
    }
  }

  /** move_offset: walks towards pos + offset one sub-step at a time, swapping
      the mover forward while the next cell admits it; returns whether it moved
      and its new position. */
  method MoveOffset(w: World, mat: Table, pos: Pos, offset: Pos)
    returns (moved: bool, r: Pos, ghost path: seq<int>, ghost ds: seq<(real, real)>)
    requires w.Wellformed() && Valid(pos)
    modifies w.pixels, w.chunks
    ensures |path| >= 1 && |ds| == |path| - 1 && UnitSides(ds)
    ensures w.pixels[..] == MoveGrid(mat, old(w.pixels[..]), pos, Add(pos, offset), ds)
    ensures MoveOutcome(mat, old(w.pixels[..]), w.pixels[..], pos, Add(pos, offset), path, |path| - 1)
    ensures r == PathPoint(pos, Add(pos, offset), |path| - 1)
    ensures moved <==> r != pos
    ensures moved <==> |path| > 1
    ensures !moved ==> w.chunks[..] == old(w.chunks[..])
    ensures moved ==> SteppedNext(w.chunks[..], ChunkIndex(ChunkOf(r)))
    ensures MarkedFrom(old(w.chunks[..]), w.chunks[..], MoveWakes(mat, old(w.pixels[..]), pos, Add(pos, offset), |path| - 1))
    ensures ChunksWoken(old(w.chunks[..]), w.chunks[..])
  {
    var start := pos;
    var a := pos;
    var b := Add(pos, offset);
    ghost var g0, c0 := w.pixels[..], w.chunks[..];
    var i;
    r, path, i, ds := Walk(w, mat, a, b);
    if i > 0 {
      PathInjective(a, b, 0, i);
      PathEnds(a, b);
    }
    if start != r {
      Land(w, mat, g0, c0, a, b, path, i, ds, r);
      moved := true;
    } else {
      PathEnds(a, b);
      MarkedNone(c0);
      moved := false;
    }
  }

  /** The end of a move that took i > 0 sub-steps: the mover, now at `r`,
      is marked falling and the chunks around it are woken. */
  method Land(w: World, mat: Table, ghost g0: seq<Pixel>, ghost c0: seq<Chunk>, a: Pos, b: Pos,
              ghost path: seq<int>, i: nat, ghost ds: seq<(real, real)>, r: Pos)
    requires w.Wellformed() && 0 < i <= Steps(a, b) && r == PathPoint(a, b, i)
    requires Walked(mat, g0, w.pixels[..], a, b, path, i)
    requires |ds| == i && w.pixels[..] == WalkGrid(mat, g0, a, b, ds)
    requires i < Steps(a, b) ==>
      !(Valid(PathPoint(a, b, i + 1)) && KindAdmits(mat, g0[path[0]].kind, g0[Index(PathPoint(a, b, i + 1))].kind))
    requires MarkedFrom(c0, w.chunks[..], WalkWakes(mat, g0, a, b, i)) && ChunksWoken(c0, w.chunks[..])
    modifies w.pixels, w.chunks
    ensures w.pixels[..] == MoveGrid(mat, g0, a, b, ds)
    ensures MoveOutcome(mat, g0, w.pixels[..], a, b, path, i)
    ensures SteppedNext(w.chunks[..], ChunkIndex(ChunkOf(r)))
    ensures MarkedFrom(c0, w.chunks[..], MoveWakes(mat, g0, a, b, i))
    ensures ChunksWoken(c0, w.chunks[..])
  {
    ghost var g, c := w.pixels[..], w.chunks[..];
    w.Set(r, Falling(w.At(r)));
    WalkFinish(mat, g0, g, a, b, path, i);
    w.WakeChunkWithPixel(r);
    ChunkOfValid(r);
    ChunkRoundTrip(ChunkOf(r));
    assert ChunkIndex(ChunkOf(r)) in WokenChunks(r);
    ChunksWokenTrans(c0, c, w.chunks[..]);
    MarkedTrans(c0, c, w.chunks[..], WalkWakes(mat, g0, a, b, i), WokenChunks(r));
  }

  /** The loop of move_offset: swaps the mover forward one sub-step at a time
      while the next cell admits it. Returns where it stopped, the slots it
      passed through and the number of sub-steps taken. */
  method Walk(w: World, mat: Table, a: Pos, b: Pos)
    returns (r: Pos, ghost path: seq<int>, i: nat, ghost ds: seq<(real, real)>)
    requires w.Wellformed() && Valid(a)
    modifies w.pixels, w.chunks
    ensures i <= Steps(a, b) && r == PathPoint(a, b, i)
    ensures |ds| == i && UnitSides(ds) && w.pixels[..] == WalkGrid(mat, old(w.pixels[..]), a, b, ds)
    ensures Walked(mat, old(w.pixels[..]), w.pixels[..], a, b, path, i)
    ensures i < Steps(a, b) ==>
      !(Valid(PathPoint(a, b, i + 1)) && KindAdmits(mat, old(w.pixels[..])[path[0]].kind, old(w.pixels[..])[Index(PathPoint(a, b, i + 1))].kind))
    ensures MarkedFrom(old(w.chunks[..]), w.chunks[..], WalkWakes(mat, old(w.pixels[..]), a, b, i))
    ensures ChunksWoken(old(w.chunks[..]), w.chunks[..])
    ensures i == 0 ==> w.pixels[..] == old(w.pixels[..]) && w.chunks[..] == old(w.chunks[..])
  {
    var steps := Steps(a, b);
    ghost var g0 := w.pixels[..];
    WalkStart(mat, g0, a, b);
    MarkedNone(w.chunks[..]);
    r := a;
    path := [Index(a)];
    i := 0;
    ds := [];
    while i != steps
      invariant 0 <= i <= steps
      invariant r == PathPoint(a, b, i)
      invariant WalkState(mat, g0, old(w.chunks[..]), w.pixels[..], w.chunks[..], a, b, path, ds, i)
      invariant i == 0 ==> w.pixels[..] == g0 && w.chunks[..] == old(w.chunks[..])
    {
      var next := PathPoint(a, b, i + 1);
      if !CanPixelMoveTo(mat, w.pixels[..], r, next) {
        WalkBlocked(mat, g0, w.pixels[..], a, b, path, i);
        break;
      }
      ghost var g, c, p0 := w.pixels[..], w.chunks[..], path;
      ghost var d;
      r, path, d := StepForward(w, mat, g0, a, b, path, i);
      WalkStateStep(mat, g0, old(w.chunks[..]), g, c, w.pixels[..], w.chunks[..], a, b, p0, path, ds, d, i);
      ds := ds + [d];
      i := i + 1;
    }
  }

  /** The state of a walk from a to b in `g0` with chunks `c0` after i
      sub-steps under the side draws `ds`: Walked, the types of Swept, the
      grid WalkGrid of the draws, and exactly the chunks of WalkWakes marked. */
  ghost predicate WalkState(mat: Table, g0: seq<Pixel>, c0: seq<Chunk>, g: seq<Pixel>, c: seq<Chunk>,
                            a: Pos, b: Pos, path: seq<int>, ds: seq<(real, real)>, i: nat)
  {
    Walked(mat, g0, g, a, b, path, i) && SameKinds(g, Swept(g0, a, b, i))
    && |ds| == i && UnitSides(ds) && g == WalkGrid(mat, g0, a, b, ds)
    && MarkedFrom(c0, c, WalkWakes(mat, g0, a, b, i)) && ChunksWoken(c0, c)
  }

  /** One sub-step as StepForward states it carries the walk's state one
      sub-step further. */
  lemma WalkStateStep(mat: Table, g0: seq<Pixel>, c0: seq<Chunk>, g: seq<Pixel>, c: seq<Chunk>,
                      g': seq<Pixel>, c': seq<Chunk>, a: Pos, b: Pos, path: seq<int>, path': seq<int>,
                      ds: seq<(real, real)>, d: (real, real), i: nat)
    requires WalkState(mat, g0, c0, g, c, a, b, path, ds, i)
    requires Valid(PathPoint(a, b, i)) && Valid(PathPoint(a, b, i + 1))
    requires 0.0 <= d.0 <= 1.0 && 0.0 <= d.1 <= 1.0
    requires g' == SubStep(mat, g, PathPoint(a, b, i), PathPoint(a, b, i + 1), d)
    requires Walked(mat, g0, g', a, b, path', i + 1) && SameKinds(g', Swept(g0, a, b, i + 1))
    requires MarkedFrom(c, c', StepWake(mat, Swept(g0, a, b, i + 1), PathPoint(a, b, i + 1))) && ChunksWoken(c, c')
    ensures WalkState(mat, g0, c0, g', c', a, b, path', ds + [d], i + 1)
  {
    assert (ds + [d])[..i] == ds;
    ChunksWokenTrans(c0, c, c');
    MarkedTrans(c0, c, c', WalkWakes(mat, g0, a, b, i), StepWake(mat, Swept(g0, a, b, i + 1), PathPoint(a, b, i + 1)));
  }

  /** One admitted sub-step of the walk: the swap into the next cell, then the
      loosening of the cells beside it. */
  method StepForward(w: World, mat: Table, ghost g0: seq<Pixel>, a: Pos, b: Pos, ghost path: seq<int>, i: nat)
    returns (r: Pos, ghost path': seq<int>, ghost d: (real, real))
    requires w.Wellformed() && Steps(a, b) > 0
    requires Walked(mat, g0, w.pixels[..], a, b, path, i)
    requires SameKinds(w.pixels[..], Swept(g0, a, b, i))
    requires CanPixelMoveTo(mat, w.pixels[..], PathPoint(a, b, i), PathPoint(a, b, i + 1))
    modifies w.pixels, w.chunks
    ensures r == PathPoint(a, b, i + 1) && Valid(PathPoint(a, b, i)) && Valid(r)
    ensures 0.0 <= d.0 <= 1.0 && 0.0 <= d.1 <= 1.0
    ensures w.pixels[..] == SubStep(mat, old(w.pixels[..]), PathPoint(a, b, i), r, d)
    ensures Walked(mat, g0, w.pixels[..], a, b, path', i + 1)
    ensures SameKinds(w.pixels[..], Swept(g0, a, b, i + 1))
    ensures MarkedFrom(old(w.chunks[..]), w.chunks[..], StepWake(mat, Swept(g0, a, b, i + 1), PathPoint(a, b, i + 1)))
    ensures ChunksWoken(old(w.chunks[..]), w.chunks[..])
  {
    var next := PathPoint(a, b, i + 1);
    ghost var g := w.pixels[..];
    WalkSlots(mat, g0, g, a, b, path, i);
    r, d := SwapAndLoosen(w, mat, PathPoint(a, b, i), next);
    ghost var gs := Swapped(g, Index(PathPoint(a, b, i)), Index(next));
    SweptStep(g0, g, a, b, i);
    path' := path + [Index(next)];
    LoosenedSameKinds(mat, gs, w.pixels[..], SideCells(r));
    StepWakeSameKinds(mat, gs, Swept(g0, a, b, i + 1), r);
    WalkAdvance(mat, g0, g, w.pixels[..], a, b, path, i);
  }

  /** The body of one sub-step: the swap into `q`, then
      set_adjacent_free_falling at `q`. */
  method SwapAndLoosen(w: World, mat: Table, p: Pos, q: Pos) returns (r: Pos, ghost d: (real, real))
    requires w.Wellformed() && Valid(p) && Valid(q)
    modifies w.pixels, w.chunks
    ensures r == q
    ensures 0.0 <= d.0 <= 1.0 && 0.0 <= d.1 <= 1.0
    ensures w.pixels[..] == SubStep(mat, old(w.pixels[..]), p, q, d)
    ensures Loosened(mat, Swapped(old(w.pixels[..]), Index(p), Index(q)), w.pixels[..], SideCells(q))
    ensures MarkedFrom(old(w.chunks[..]), w.chunks[..], StepWake(mat, Swapped(old(w.pixels[..]), Index(p), Index(q)), q))
    ensures ChunksWoken(old(w.chunks[..]), w.chunks[..])
  {
    ghost var c0 := w.chunks[..];
    r := w.Swap(p, q);
    ghost var gs := w.pixels[..];
    assert gs == Swapped(old(w.pixels[..]), Index(p), Index(q)) && w.chunks[..] == c0;
    ghost var ul, ur := SetAdjacentFreeFalling(w, mat, q);
    d := (ul, ur);
    assert StepWake(mat, gs, q) == SideWake(mat, gs, Pos(q.x - 1, q.y), Pos(q.x - 1, q.y)) + SideWake(mat, gs, Pos(q.x + 1, q.y), Pos(q.x - 1, q.y));
  }

  /** A swap of the next two path points keeps the types of the walk's grid
      equal to those of Swept. */
  lemma SweptStep(g0: seq<Pixel>, g: seq<Pixel>, a: Pos, b: Pos, i: nat)
    requires |g| == Cells && SameKinds(g, Swept(g0, a, b, i))
    requires Valid(PathPoint(a, b, i)) && Valid(PathPoint(a, b, i + 1))
    ensures SameKinds(Swapped(g, Index(PathPoint(a, b, i)), Index(PathPoint(a, b, i + 1))), Swept(g0, a, b, i + 1))
  {
  }

  /** Loosening changes no type. */
  lemma LoosenedSameKinds(mat: Table, g0: seq<Pixel>, g1: seq<Pixel>, cells: set<int>)
    requires Loosened(mat, g0, g1, cells)
    ensures SameKinds(g1, g0) && SameKinds(g0, g1)
  {
  }

  /** The slots a sub-step swaps: the current point's and the next one's. */
  lemma WalkSlots(mat: Table, g0: seq<Pixel>, g: seq<Pixel>, a: Pos, b: Pos, path: seq<int>, t: nat)
    requires Walked(mat, g0, g, a, b, path, t) && Steps(a, b) > 0
    requires CanPixelMoveTo(mat, g, PathPoint(a, b, t), PathPoint(a, b, t + 1))
    ensures Valid(PathPoint(a, b, t)) && Valid(PathPoint(a, b, t + 1)) && path[t] == Index(PathPoint(a, b, t))
  {
  }

  /** A swap into the next cell followed by the loosening beside it keeps the
      walk invariant, one sub-step further. */
  lemma WalkAdvance(mat: Table, g0: seq<Pixel>, g: seq<Pixel>, g': seq<Pixel>, a: Pos, b: Pos, path: seq<int>, t: nat)
    requires Walked(mat, g0, g, a, b, path, t) && Steps(a, b) > 0
    requires CanPixelMoveTo(mat, g, PathPoint(a, b, t), PathPoint(a, b, t + 1))
    requires Valid(PathPoint(a, b, t)) && Valid(PathPoint(a, b, t + 1))
    requires Loosened(mat, Swapped(g, Index(PathPoint(a, b, t)), Index(PathPoint(a, b, t + 1))), g', SideCells(PathPoint(a, b, t + 1)))
    ensures Walked(mat, g0, g', a, b, path + [Index(PathPoint(a, b, t + 1))], t + 1)
  {
    WalkSlots(mat, g0, g, a, b, path, t);
    WalkStep(mat, g0, g, a, b, path, t);
    var n := Index(PathPoint(a, b, t + 1));
    WalkLoosen(mat, g0, Swapped(g, path[t], n), g', a, b, path + [n], t + 1);
  }

  // ---------------------------------------------------------------------------
  // Properties of a move

  /** A move relocates its pixel: either nothing changed, or the mover now sits
      at its destination, falling. A mover that is not titanium leaves every
      titanium cell titanium, since no phase displaces a solid. */
  ghost predicate Relocated(mat: Table, g0: seq<Pixel>, g1: seq<Pixel>, a: Pos, r: Pos)
  {
    |g0| == Cells && |g1| == Cells && Valid(a) && Valid(r)
    && (r == a ==> g1 == g0)
    && (r != a ==> g1[Index(r)] == Falling(g0[Index(a)]))
    && (g0[Index(a)].kind != Titanium && mat(Titanium).phase == Solid ==> TitaniumKept(g0, g1))
  }

  lemma MoveRelocates(mat: Table, g0: seq<Pixel>, g1: seq<Pixel>, a: Pos, b: Pos, path: seq<int>, t: nat)
    requires MoveOutcome(mat, g0, g1, a, b, path, t)
    ensures Relocated(mat, g0, g1, a, PathPoint(a, b, t))
  {
    if t > 0 {
      PathInjective(a, b, 0, t);
      PathEnds(a, b);
    }
    if g0[Index(a)].kind != Titanium && mat(Titanium).phase == Solid {
      MoveKeepsTitanium(mat, g0, g1, a, b, path, t);
    }
  }

  /** Titanium is never entered, so a move of anything else keeps it. */
  lemma MoveKeepsTitanium(mat: Table, g0: seq<Pixel>, g1: seq<Pixel>, a: Pos, b: Pos, path: seq<int>, t: nat)
    requires MoveOutcome(mat, g0, g1, a, b, path, t) && g0[path[0]].kind != Titanium && mat(Titanium).phase == Solid
    ensures TitaniumKept(g0, g1)
  {
    forall j | 0 <= j < Cells && g0[j].kind == Titanium
      ensures g1[j].kind == Titanium
    {
      if j in path {
        var k :| 0 <= k < |path| && path[k] == j;
        NothingEntersSolids(mat, g0[path[0]].kind, Titanium);
      }
    }
  }

  /** A move that takes every sub-step ends exactly at pos + offset. */
  lemma MoveReachesTarget(mat: Table, g0: seq<Pixel>, g1: seq<Pixel>, a: Pos, b: Pos, path: seq<int>)
    requires MoveOutcome(mat, g0, g1, a, b, path, Steps(a, b))
    ensures PathPoint(a, b, Steps(a, b)) == b
    ensures Steps(a, b) > 0 ==> g1[Index(b)] == Falling(g0[Index(a)])
  {
    PathEnds(a, b);
  }

  /** A zero offset takes no sub-step and changes nothing. */
  lemma ZeroOffsetStays(mat: Table, g0: seq<Pixel>, g1: seq<Pixel>, a: Pos, path: seq<int>, t: nat)
    requires MoveOutcome(mat, g0, g1, a, a, path, t)
    ensures t == 0 && g1 == g0
  {
  }

  // ---------------------------------------------------------------------------
  // update_pixel_position

  /** `g1` is `g0` after one move_offset of the pixel at `pos` by `offset`
      that went through the slots `path` and stopped at `r`. */
  ghost predicate MovedBy(mat: Table, g0: seq<Pixel>, g1: seq<Pixel>, pos: Pos, offset: Pos, path: seq<int>, r: Pos)
  {
    |path| >= 1 && MoveOutcome(mat, g0, g1, pos, Add(pos, offset), path, |path| - 1)
    && r == PathPoint(pos, Add(pos, offset), |path| - 1)
    && (r == pos <==> |path| == 1)
  }

  /** `c1` is `c0` with exactly the chunks marked that the move of the pixel
      at `pos` by `offset` in `g0`, taking |path| - 1 sub-steps, wakes. */
  ghost predicate WokeBy(mat: Table, g0: seq<Pixel>, c0: seq<Chunk>, c1: seq<Chunk>, pos: Pos, offset: Pos, path: seq<int>)
  {
    |g0| == Cells && |path| >= 1 && MarkedFrom(c0, c1, MoveWakes(mat, g0, pos, Add(pos, offset), |path| - 1))
  }

  /** The first sub-step of a move of the pixel at `pos` by `offset` is
      refused: the offset is zero, or the first point is off the grid or does
      not admit the pixel. */
  ghost predicate Stuck(mat: Table, g: seq<Pixel>, pos: Pos, offset: Pos)
    requires |g| == Cells && Valid(pos)
  {
    var b := Add(pos, offset);
    Steps(pos, b) == 0
    || !(Valid(PathPoint(pos, b, 1)) && KindAdmits(mat, g[Index(pos)].kind, g[Index(PathPoint(pos, b, 1))].kind))
  }

  /** A move stays put exactly when its first sub-step is refused, and then
      it changes nothing. */
  lemma StayedIffStuck(mat: Table, g0: seq<Pixel>, g1: seq<Pixel>, pos: Pos, offset: Pos, path: seq<int>, r: Pos)
    requires Valid(pos) && MovedBy(mat, g0, g1, pos, offset, path, r)
    ensures r == pos <==> Stuck(mat, g0, pos, offset)
    ensures r == pos ==> g1 == g0
  {
    PathEnds(pos, Add(pos, offset));
  }

  /** The offset (x, y) seen in a mirror: (-x, y). */
  function Mirror(p: Pos): Pos
  {
    Pos(-p.x, p.y)
  }

  /** Tries two offsets in turn; the second only when the first one's first
      sub-step is refused, which leaves the grid as it was. */
  method MoveFirst(w: World, mat: Table, pos: Pos, first: Pos, second: Pos)
    returns (moved: bool, r: Pos, ghost tried: Pos, ghost path: seq<int>)
    requires w.Wellformed() && Valid(pos)
    modifies w.pixels, w.chunks
    ensures tried == if Stuck(mat, old(w.pixels[..]), pos, first) then second else first
    ensures MovedBy(mat, old(w.pixels[..]), w.pixels[..], pos, tried, path, r)
    ensures WokeBy(mat, old(w.pixels[..]), old(w.chunks[..]), w.chunks[..], pos, tried, path)
    ensures moved <==> r != pos
    ensures !moved ==> w.chunks[..] == old(w.chunks[..])
    ensures ChunksWoken(old(w.chunks[..]), w.chunks[..])
  {
    ghost var g0 := w.pixels[..];
    ghost var ds;
    moved, r, path, ds := MoveOffset(w, mat, pos, first);
    tried := first;
    StayedIffStuck(mat, g0, w.pixels[..], pos, first, path, r);
    if !moved {
      moved, r, path, ds := MoveOffset(w, mat, pos, second);
      tried := second;
    }
  }

  /** A material that neither falls, slides diagonally nor disperses. */
  predicate Immobile(props: Properties)
  {
    props.gravityFactor == 0.0 && !props.canMoveDiagonally && props.dispersionRate == 0
  }

  /** A pixel held in place by its inertial resistance. */
  predicate Resting(mat: Table, p: Pixel)
  {
    var props := mat(p.kind);
    props.gravityFactor == 0.0 && props.inertialResistance != 0.0 && IsFalling !in p.flags
  }

  /** The pixel `b` is `a` carried along, possibly with another velocity. */
  predicate CarriedFrom(a: Pixel, b: Pixel)
  {
    b == a.(velocity := b.velocity)
  }

  /** `g1` is `g0` after one stage of the position update of the pixel at
      `pos`, which ends at `r`: a pixel that stayed kept everything but its
      velocity and nothing else changed; a pixel that moved arrived falling;
      titanium survives unless it was the mover. */
  ghost predicate Shifted(mat: Table, g0: seq<Pixel>, g1: seq<Pixel>, pos: Pos, r: Pos)
  {
    |g0| == Cells && |g1| == Cells && Valid(pos) && Valid(r)
    && (r == pos ==> CarriedFrom(g0[Index(pos)], g1[Index(pos)]) && g1 == g0[Index(pos) := g1[Index(pos)]])
    && (r != pos ==> CarriedFrom(Falling(g0[Index(pos)]), g1[Index(r)]))
    && (g0[Index(pos)].kind != Titanium && mat(Titanium).phase == Solid ==> TitaniumKept(g0, g1))
  }

  lemma RelocatedIsShifted(mat: Table, g0: seq<Pixel>, g1: seq<Pixel>, pos: Pos, r: Pos)
    requires Relocated(mat, g0, g1, pos, r)
    ensures Shifted(mat, g0, g1, pos, r)
  {
    if r == pos {
      assert g0[Index(pos) := g0[Index(pos)]] == g0;
    }
  }

  /** A stage that kept the pixel in place followed by any stage is a stage. */
  lemma ShiftedTrans(mat: Table, g0: seq<Pixel>, g1: seq<Pixel>, g2: seq<Pixel>, pos: Pos, r: Pos)
    requires Shifted(mat, g0, g1, pos, pos) && Shifted(mat, g1, g2, pos, r)
    ensures Shifted(mat, g0, g2, pos, r)
  {
    if r != pos {
      assert Falling(g1[Index(pos)]) == Falling(g0[Index(pos)]).(velocity := g1[Index(pos)].velocity);
    }
  }

  /** `g` with the velocity of the pixel at `pos` replaced by `v`. */
  function WithVelocity(g: seq<Pixel>, pos: Pos, v: Vec): seq<Pixel>
    requires |g| == Cells && Valid(pos)
  {
    g[Index(pos) := g[Index(pos)].(velocity := v)]
  }

  /** Only the velocity of the pixel at `pos` is replaced. */
  lemma NewVelocityIsShifted(mat: Table, g0: seq<Pixel>, pos: Pos, v: Vec)
    requires |g0| == Cells && Valid(pos)
    ensures Shifted(mat, g0, WithVelocity(g0, pos, v), pos, pos)
  {
  }

  /** Replacing a velocity twice replaces it once; replacing it by itself
      changes nothing. */
  lemma VelocityTwice(g: seq<Pixel>, pos: Pos, v: Vec, v': Vec)
    requires |g| == Cells && Valid(pos)
    ensures WithVelocity(WithVelocity(g, pos, v), pos, v') == WithVelocity(g, pos, v')
    ensures WithVelocity(g, pos, g[Index(pos)].velocity) == g
  {
  }

  /** A new velocity followed by a move is one stage of the position update. */
  lemma MovedIsShifted(mat: Table, g0: seq<Pixel>, g1: seq<Pixel>, pos: Pos, v: Vec, offset: Pos, path: seq<int>, r: Pos)
    requires |g0| == Cells && Valid(pos)
    requires MovedBy(mat, WithVelocity(g0, pos, v), g1, pos, offset, path, r)
    ensures Shifted(mat, g0, g1, pos, r)
  {
    var gv := WithVelocity(g0, pos, v);
    NewVelocityIsShifted(mat, g0, pos, v);
    MoveRelocates(mat, gv, g1, pos, Add(pos, offset), path, |path| - 1);
    RelocatedIsShifted(mat, gv, g1, pos, r);
    ShiftedTrans(mat, g0, gv, g1, pos, r);
  }

  /** The velocity the gravity stage gives a pixel of velocity `v`. */
  function Accelerated(v: Vec, factor: real, step: Vec): Vec
  {
    Vec(v.x + factor * step.x, v.y + factor * step.y)
  }

  /** A velocity truncated towards zero to whole cells. */
  function Whole(v: Vec): Pos
  {
    Pos(Trunc(v.x), Trunc(v.y))
  }

  /** The gravity stage: adds the gravity factor times the gravity step to the
      velocity and moves by that velocity truncated to whole cells. */
  method Fall(w: World, mat: Table, pos: Pos, gravityFactor: real, gravityStep: Vec)
    returns (moved: bool, r: Pos, ghost path: seq<int>)
    requires w.Wellformed() && Valid(pos)
    modifies w.pixels, w.chunks
    ensures var v := Accelerated(old(w.At(pos)).velocity, gravityFactor, gravityStep);
      MovedBy(mat, WithVelocity(old(w.pixels[..]), pos, v), w.pixels[..], pos, Whole(v), path, r)
      && WokeBy(mat, WithVelocity(old(w.pixels[..]), pos, v), old(w.chunks[..]), w.chunks[..], pos, Whole(v), path)
    ensures moved <==> r != pos
    ensures !moved ==> w.chunks[..] == old(w.chunks[..])
    ensures ChunksWoken(old(w.chunks[..]), w.chunks[..])
  {
    var data := w.At(pos);
    var v := Accelerated(data.velocity, gravityFactor, gravityStep);
    w.Set(pos, data.(velocity := v));
    var offset := Whole(v);
    ghost var ds;
    moved, r, path, ds := MoveOffset(w, mat, pos, offset);
  }

  /** The diagonal stage: tries (-1, dir) and (1, dir) in a random order and,
      if neither moves the pixel, zeroes its vertical velocity. */
  method Slide(w: World, mat: Table, pos: Pos, dir: int)
    returns (moved: bool, r: Pos, first: Pos, ghost tried: Pos, ghost path: seq<int>)
    requires w.Wellformed() && Valid(pos)
    modifies w.pixels, w.chunks
    ensures first == Pos(-1, dir) || first == Pos(1, dir)
    ensures moved <==> r != pos
    ensures moved ==>
      tried == (if Stuck(mat, old(w.pixels[..]), pos, first) then Mirror(first) else first)
      && MovedBy(mat, old(w.pixels[..]), w.pixels[..], pos, tried, path, r)
      && WokeBy(mat, old(w.pixels[..]), old(w.chunks[..]), w.chunks[..], pos, tried, path)
    ensures !moved ==>
      Stuck(mat, old(w.pixels[..]), pos, Pos(-1, dir)) && Stuck(mat, old(w.pixels[..]), pos, Pos(1, dir))
      && w.pixels[..] == WithVelocity(old(w.pixels[..]), pos, old(w.At(pos)).velocity.(y := 0.0))
      && w.chunks[..] == old(w.chunks[..])
    ensures ChunksWoken(old(w.chunks[..]), w.chunks[..])
  {
    ghost var g0 := w.pixels[..];
    first := Pos(-1, dir);
    var second := Pos(1, dir);
    var flip := Oracle.CoinFlip();
    if flip {
      first, second := second, first;
    }
    moved, r, tried, path := MoveFirst(w, mat, pos, first, second);
    if !moved {
      StayedIffStuck(mat, g0, w.pixels[..], pos, tried, path, r);
      var d := w.At(pos);
      w.Set(pos, d.(velocity := d.velocity.(y := 0.0)));
    }
  }

  /** The dispersion stage: zeroes the vertical velocity, then tries (-dr, 0)
      and (dr, 0) in a random order. */
  method Disperse(w: World, mat: Table, pos: Pos, dr: int)
    returns (r: Pos, first: Pos, ghost tried: Pos, ghost path: seq<int>)
    requires w.Wellformed() && Valid(pos)
    modifies w.pixels, w.chunks
    ensures first == Pos(-dr, 0) || first == Pos(dr, 0)
    ensures var g1 := WithVelocity(old(w.pixels[..]), pos, old(w.At(pos)).velocity.(y := 0.0));
      tried == (if Stuck(mat, g1, pos, first) then Mirror(first) else first)
      && MovedBy(mat, g1, w.pixels[..], pos, tried, path, r)
      && WokeBy(mat, g1, old(w.chunks[..]), w.chunks[..], pos, tried, path)
    ensures r == pos ==> w.chunks[..] == old(w.chunks[..])
    ensures ChunksWoken(old(w.chunks[..]), w.chunks[..])
  {
    var d := w.At(pos);
    w.Set(pos, d.(velocity := d.velocity.(y := 0.0)));
    first := Pos(-dr, 0);
    var second := Pos(dr, 0);
    var flip := Oracle.CoinFlip();
    if flip {
      first, second := second, first;
    }
    var moved;
    moved, r, tried, path := MoveFirst(w, mat, pos, first, second);
  }

  /** The velocity and offset with which the diagonal or the dispersion
      stage can move a pixel of properties `props` that reaches them with
      velocity `base`: by (-1, dir) or (1, dir) keeping `base`, or with the
      vertical velocity zeroed by (-dr, 0) or (dr, 0). */
  ghost predicate SpreadMove(props: Properties, base: Vec, v: Vec, offset: Pos)
  {
    var dir := Sign(props.gravityFactor);
    var dr := props.dispersionRate;
    (props.canMoveDiagonally && v == base && (offset == Pos(-1, dir) || offset == Pos(1, dir)))
    || (dr != 0 && v == base.(y := 0.0) && (offset == Pos(-dr, 0) || offset == Pos(dr, 0)))
  }

  /** The velocity and offset with which the position update can move a pixel
      `p` of properties `props`: the gravity stage moves it by its accelerated
      velocity truncated; unless its inertial resistance holds it, the
      diagonal or the dispersion stage moves it as SpreadMove says. */
  ghost predicate StageMove(props: Properties, p: Pixel, gravityStep: Vec, v: Vec, offset: Pos)
  {
    var base := GravityBase(props, p, gravityStep);
    var held := props.inertialResistance != 0.0 && IsFalling !in p.flags;
    (props.gravityFactor != 0.0 && v == base && offset == Whole(base))
    || (!held && SpreadMove(props, base, v, offset))
  }

  /** The velocity of the pixel `p` after the gravity stage: accelerated by
      its gravity factor times the gravity step when it has one, else its
      own. */
  function GravityBase(props: Properties, p: Pixel, gravityStep: Vec): Vec
  {
    if props.gravityFactor != 0.0 then Accelerated(p.velocity, props.gravityFactor, gravityStep) else p.velocity
  }

  /** The velocity kept by a pixel that reaches the diagonal and dispersion
      stages with velocity `base` and is moved by neither: a failed diagonal
      stage and the dispersion stage each zero its vertical component. */
  function SpreadStay(props: Properties, base: Vec): Vec
  {
    if props.canMoveDiagonally || props.dispersionRate != 0 then base.(y := 0.0) else base
  }

  /** The velocity the position update leaves on a pixel `p` that does not
      move: its velocity after the gravity stage, then, unless its inertial
      resistance holds it, as SpreadStay says. */
  function StayVelocity(props: Properties, p: Pixel, gravityStep: Vec): Vec
  {
    var base := GravityBase(props, p, gravityStep);
    if props.inertialResistance != 0.0 && IsFalling !in p.flags then base else SpreadStay(props, base)
  }

  /** The body of update_pixel_position, up to its scope exit: gravity, the
      inertial early-out, the diagonal slide, then dispersion, each tried only
      while the pixel has not moved. `gravityStep` is the engine's gravity
      times its time step. A pixel that moved did so by one move_offset, with
      a velocity and offset of one of the stages. */
  method Reposition(w: World, mat: Table, pos: Pos, gravityStep: Vec)
    returns (r: Pos, ghost v: Vec, ghost offset: Pos, ghost path: seq<int>)
    requires w.Wellformed() && Valid(pos)
    modifies w.pixels, w.chunks
    ensures Shifted(mat, old(w.pixels[..]), w.pixels[..], pos, r)
    ensures r != pos ==>
      MovedBy(mat, WithVelocity(old(w.pixels[..]), pos, v), w.pixels[..], pos, offset, path, r)
      && WokeBy(mat, WithVelocity(old(w.pixels[..]), pos, v), old(w.chunks[..]), w.chunks[..], pos, offset, path)
      && StageMove(mat(old(w.At(pos)).kind), old(w.At(pos)), gravityStep, v, offset)
    ensures r == pos ==>
      w.pixels[..] == WithVelocity(old(w.pixels[..]), pos, StayVelocity(mat(old(w.At(pos)).kind), old(w.At(pos)), gravityStep))
      && w.chunks[..] == old(w.chunks[..])
    ensures Resting(mat, old(w.At(pos))) ==> r == pos && w.pixels[..] == old(w.pixels[..])
    ensures Immobile(mat(old(w.At(pos)).kind)) ==> r == pos && w.pixels[..] == old(w.pixels[..])
    ensures ChunksWoken(old(w.chunks[..]), w.chunks[..])
  {
    ghost var g0 := w.pixels[..];
    var data := w.At(pos);
    var props := mat(data.kind);
    r := pos;
    v := data.velocity;
    offset := Pos(0, 0);
    path := [Index(pos)];
    VelocityTwice(g0, pos, v, v);
    if props.gravityFactor != 0.0 {
      var moved;
      v := Accelerated(data.velocity, props.gravityFactor, gravityStep);
      offset := Whole(v);
      moved, r, path := Fall(w, mat, pos, props.gravityFactor, gravityStep);
      MovedIsShifted(mat, g0, w.pixels[..], pos, v, offset, path, r);
      if moved {
        return;
      }
      StayedIffStuck(mat, WithVelocity(g0, pos, v), w.pixels[..], pos, offset, path, r);
    }
    assert w.pixels[..] == WithVelocity(g0, pos, v);
    NewVelocityIsShifted(mat, g0, pos, v);
    if props.inertialResistance != 0.0 && IsFalling !in w.At(pos).flags {
      return;
    }
    ghost var base := v;
    r, v, offset, path := Spread(w, mat, pos, props, g0, base);
  }

  /** The diagonal stage, then, while the pixel has not moved, the dispersion
      stage, for a pixel of properties `props` that reaches them with
      velocity `base` in a grid that is `g0` with that velocity. */
  method Spread(w: World, mat: Table, pos: Pos, props: Properties, ghost g0: seq<Pixel>, ghost base: Vec)
    returns (r: Pos, ghost v: Vec, ghost offset: Pos, ghost path: seq<int>)
    requires w.Wellformed() && Valid(pos) && |g0| == Cells
    requires w.pixels[..] == WithVelocity(g0, pos, base)
    modifies w.pixels, w.chunks
    ensures Shifted(mat, g0, w.pixels[..], pos, r)
    ensures r != pos ==>
      MovedBy(mat, WithVelocity(g0, pos, v), w.pixels[..], pos, offset, path, r)
      && WokeBy(mat, WithVelocity(g0, pos, v), old(w.chunks[..]), w.chunks[..], pos, offset, path)
      && SpreadMove(props, base, v, offset)
    ensures r == pos ==> w.pixels[..] == WithVelocity(g0, pos, SpreadStay(props, base)) && w.chunks[..] == old(w.chunks[..])
    ensures !props.canMoveDiagonally && props.dispersionRate == 0 ==> r == pos && w.pixels[..] == old(w.pixels[..])
    ensures ChunksWoken(old(w.chunks[..]), w.chunks[..])
  {
    r, v, offset, path := pos, base, Pos(0, 0), [Index(pos)];
    NewVelocityIsShifted(mat, g0, pos, v);
    if props.canMoveDiagonally {
      var moved, first;
      moved, r, first, offset, path := Slide(w, mat, pos, Sign(props.gravityFactor));
      if moved {
        MovedIsShifted(mat, g0, w.pixels[..], pos, v, offset, path, r);
        return;
      }
      VelocityTwice(g0, pos, v, v.(y := 0.0));
      v := v.(y := 0.0);
      NewVelocityIsShifted(mat, g0, pos, v);
    }
    if props.dispersionRate != 0 {
      var first;
      VelocityTwice(g0, pos, v, v.(y := 0.0));
      v := v.(y := 0.0);
      ghost var gb := w.pixels[..];
      r, first, offset, path := Disperse(w, mat, pos, props.dispersionRate);
      MovedIsShifted(mat, g0, w.pixels[..], pos, v, offset, path, r);
      if r == pos {
        StayedIffStuck(mat, WithVelocity(gb, pos, gb[Index(pos)].velocity.(y := 0.0)), w.pixels[..], pos, offset, path, r);
      }
    }
  }

  /** What update_pixel_position leaves in the grid for a pixel that started
      at `pos` and ended at `r`: a pixel that stayed kept everything but its
      velocity, which is StayVelocity, and its is_falling flag, which is
      cleared, and nothing else changed; a pixel that moved did so by one move_offset with the velocity
      `v` and the offset of one of the stages; a resting pixel changed
      nothing, an immobile one only lost is_falling; and titanium survives
      when titanium is inert. */
  ghost predicate Repositioned(mat: Table, g0: seq<Pixel>, g1: seq<Pixel>, pos: Pos, gravityStep: Vec,
                               r: Pos, v: Vec, offset: Pos, path: seq<int>)
  {
    |g0| == Cells && |g1| == Cells && Valid(pos) && Valid(r)
    && (IsFalling in g1[Index(r)].flags <==> r != pos)
    && g1[Index(r)].kind == g0[Index(pos)].kind
    && (r == pos ==>
          g1 == g0[Index(pos) := g0[Index(pos)].(velocity := StayVelocity(mat(g0[Index(pos)].kind), g0[Index(pos)], gravityStep),
                                                 flags := g0[Index(pos)].flags - {IsFalling})])
    && (r != pos ==>
          MovedBy(mat, WithVelocity(g0, pos, v), g1, pos, offset, path, r)
          && StageMove(mat(g0[Index(pos)].kind), g0[Index(pos)], gravityStep, v, offset))
    && (Resting(mat, g0[Index(pos)]) ==> r == pos && g1 == g0)
    && (Immobile(mat(g0[Index(pos)].kind)) ==>
          r == pos && g1 == g0[Index(pos) := g0[Index(pos)].(flags := g0[Index(pos)].flags - {IsFalling})])
    && (TitaniumInert(mat) ==> TitaniumKept(g0, g1))
  }

  /** A pixel that stayed has the velocity of the gravity stage, with its
      vertical component zeroed when inertia does not hold it and its
      material slides diagonally or disperses. */
  lemma StayedVelocity(mat: Table, g0: seq<Pixel>, g1: seq<Pixel>, pos: Pos, gravityStep: Vec,
                       v: Vec, offset: Pos, path: seq<int>)
    requires Repositioned(mat, g0, g1, pos, gravityStep, pos, v, offset, path)
    ensures var p, props := g0[Index(pos)], mat(g0[Index(pos)].kind);
      var base := GravityBase(props, p, gravityStep);
      var held := props.inertialResistance != 0.0 && IsFalling !in p.flags;
      (held || (!props.canMoveDiagonally && props.dispersionRate == 0) ==> g1[Index(pos)].velocity == base)
      && (!held && (props.canMoveDiagonally || props.dispersionRate != 0) ==> g1[Index(pos)].velocity == base.(y := 0.0))
      && g1[Index(pos)].kind == p.kind && IsFalling !in g1[Index(pos)].flags
  {
  }

  /** update_pixel_position: moves the pixel and, on every exit, sets its
      is_falling flag to whether its position changed. */
  method UpdatePixelPosition(w: World, mat: Table, pos: Pos, gravityStep: Vec)
    returns (r: Pos, ghost v: Vec, ghost offset: Pos, ghost path: seq<int>)
    requires w.Wellformed() && Valid(pos)
    modifies w.pixels, w.chunks
    ensures Repositioned(mat, old(w.pixels[..]), w.pixels[..], pos, gravityStep, r, v, offset, path)
    ensures r != pos ==> WokeBy(mat, WithVelocity(old(w.pixels[..]), pos, v), old(w.chunks[..]), w.chunks[..], pos, offset, path)
    ensures r == pos ==> w.chunks[..] == old(w.chunks[..])
    ensures ChunksWoken(old(w.chunks[..]), w.chunks[..])
  {
    ghost var g0 := w.pixels[..];
    r, v, offset, path := Reposition(w, mat, pos, gravityStep);
    var falling := r != pos;
    var d := w.At(r);
    ghost var g1 := w.pixels[..];
    w.Set(r, d.(flags := if falling then d.flags + {IsFalling} else d.flags - {IsFalling}));
    if falling {
      assert d.flags + {IsFalling} == d.flags;
      assert w.pixels[..] == g1;
    }
    if !falling && IsFalling !in d.flags {
      assert d.flags - {IsFalling} == d.flags;
      assert w.pixels[..] == g1;
    }
  }
}
