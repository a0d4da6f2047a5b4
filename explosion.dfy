/** The ray-cast explosion: from a real-valued centre, rays to every point of
    a square's perimeter. Each ray first destroys cells out to a random blast
    limit, stopping at titanium or the grid's edge, then darkens the solid
    cells beyond out to a random scorch limit. */
module Explosion {
  import opened Materials
  import opened Lattice
  import opened Grid
  import opened Movement
  import opened Update
  import Oracle

  /** The explosion descriptor: the range of the blast radius and the
      deviation of the scorch band. */
  datatype Explosion = Explosion(minRadius: real, maxRadius: real, scorch: real)

  // ---------------------------------------------------------------------------
  // Real-valued geometry

  function RAbs(r: real): real { if r < 0.0 then -r else r }

  function Minus(a: Vec, b: Vec): Vec { Vec(a.x - b.x, a.y - b.y) }

  /** glm::length2. */
  function Len2(v: Vec): real { v.x * v.x + v.y * v.y }

  /** max(|v.x|, |v.y|). */
  function MaxAbs(v: Vec): real
  {
    if RAbs(v.x) >= RAbs(v.y) then RAbs(v.x) else RAbs(v.y)
  }

  /** The cell holding a real position: both coordinates truncated toward zero. */
  function Cell(v: Vec): Pos { Pos(Trunc(v.x), Trunc(v.y)) }

  /** The ray's step from start to end: the line scaled so that its larger
      component has magnitude one. */
  function StepOf(start: Vec, end: Vec): Vec
    requires end != start
  {
    var line := Minus(end, start);
    var m := MaxAbs(line);
    Vec(line.x / m, line.y / m)
  }

  /** The position after k steps, each adding `step` as the engine's
      `curr += step` does. */
  function RayPoint(start: Vec, step: Vec, k: nat): Vec
  {
    if k == 0 then start
    else
      var p := RayPoint(start, step, k - 1);
      Vec(p.x + step.x, p.y + step.y)
  }

  function RayCell(start: Vec, step: Vec, k: nat): Pos { Cell(RayPoint(start, step, k)) }

  /** Step k of the ray is on the grid and strictly within distance `limit`
      of the start, compared as squares as glm::length2 does. */
  predicate InBlast(start: Vec, step: Vec, k: nat, limit: real)
  {
    Valid(RayCell(start, step, k)) && Len2(Minus(RayPoint(start, step, k), start)) < limit * limit
  }

  /** Step k of the ray is on the grid and within the scorch limit of a ray
      whose destruction stopped at squared distance d0. */
  predicate InScorch(start: Vec, step: Vec, k: nat, d0: real, e: real)
  {
    Valid(RayCell(start, step, k)) && WithinScorch(Len2(Minus(RayPoint(start, step, k), start)), d0, e)
  }

  /** Step k of the ray is on the grid, and its cell, when it held a solid
      of non-negative colour in `g0`, is at most 0.8 times as bright in `g`. */
  predicate ScorchedStep(g0: seq<Pixel>, g: seq<Pixel>, start: Vec, step: Vec, k: nat)
  {
    var c := RayCell(start, step, k);
    Valid(c) && |g0| == Cells && |g| == Cells
    && (PhaseOf(g0[Index(c)].kind) == Solid && 0.0 <= g0[Index(c)].colour ==>
          g[Index(c)].colour <= 0.8 * g0[Index(c)].colour)
  }

  /** The same for a cell that held titanium. */
  predicate TitaniumScorchedStep(g0: seq<Pixel>, g: seq<Pixel>, start: Vec, step: Vec, k: nat)
  {
    var c := RayCell(start, step, k);
    Valid(c) && |g0| == Cells && |g| == Cells
    && (g0[Index(c)].kind == Titanium && 0.0 <= g0[Index(c)].colour ==>
          g[Index(c)].colour <= 0.8 * g0[Index(c)].colour)
  }

  /** The cells of steps from..to-1. */
  function RayCells(start: Vec, step: Vec, from: nat, to: nat): set<Pos>
  {
    set k: nat | from <= k < to :: RayCell(start, step, k)
  }

  /** After k steps the offset from the start is k times the step. */
  lemma {:induction false} RayOffset(start: Vec, step: Vec, k: nat)
    ensures Minus(RayPoint(start, step, k), start) == Vec(k as real * step.x, k as real * step.y)
  {
    if k > 0 {
      RayOffset(start, step, k - 1);
    }
  }

  lemma MulNonneg(a: real, b: real)
    requires 0.0 <= a && 0.0 <= b
    ensures 0.0 <= a * b
  {
  }

  lemma MulPos(a: real, b: real)
    requires 0.0 < a && 0.0 < b
    ensures 0.0 < a * b
  {
  }

  lemma SquareNonneg(x: real)
    ensures 0.0 <= x * x
  {
    if x < 0.0 {
      MulNonneg(-x, -x);
      assert x * x == (-x) * (-x);
    } else {
      MulNonneg(x, x);
    }
  }

  /** A component of magnitude at most m, divided by m, has magnitude at most
      one, and exactly one when it is m or -m. */
  lemma DivByMax(a: real, m: real)
    requires m > 0.0 && RAbs(a) <= m
    ensures RAbs(a / m) <= 1.0
    ensures RAbs(a) == m ==> RAbs(a / m) == 1.0
  {
    assert (a / m) * m == a;
    if a == -m {
      assert -a == m && (-a) / m == 1.0;
      assert a / m == -((-a) / m);
    }
  }

  /** The step's larger component has magnitude exactly one, so the ray
      advances one cell per step along its major axis and misses no cell. */
  lemma StepIsUnit(start: Vec, end: Vec)
    requires end != start
    ensures MaxAbs(StepOf(start, end)) == 1.0
  {
    var line := Minus(end, start);
    var m := MaxAbs(line);
    assert m > 0.0;
    DivByMax(line.x, m);
    DivByMax(line.y, m);
  }

  /** A unit step times k along one axis is k or -k. */
  lemma ScaleUnit(kk: real, s: real)
    requires RAbs(s) == 1.0
    ensures (kk * s) * (kk * s) == kk * kk
  {
    if s == 1.0 {
      assert kk * s == kk;
    } else {
      assert kk * s == -kk;
      assert (-kk) * (-kk) == kk * kk;
    }
  }

  /** After k unit steps the ray is at least k away from its start. */
  lemma RayGrows(start: Vec, step: Vec, k: nat)
    requires MaxAbs(step) == 1.0
    ensures Len2(Minus(RayPoint(start, step, k), start)) >= k as real * k as real >= k as real
  {
    var d := Minus(RayPoint(start, step, k), start);
    var kk := k as real;
    RayOffset(start, step, k);
    if RAbs(step.x) == 1.0 {
      ScaleUnit(kk, step.x);
      SquareNonneg(d.y);
    } else {
      ScaleUnit(kk, step.y);
      SquareNonneg(d.x);
    }
    if k > 0 {
      MulNonneg(kk, kk - 1.0);
      assert kk * kk - kk == kk * (kk - 1.0);
    }
  }

  /** While the ray is within a limit, its step count is at most the floor of
      the limit: the measure of both phases' loops. */
  lemma StepsWithin(start: Vec, step: Vec, k: nat, limit2: real)
    requires MaxAbs(step) == 1.0 && Len2(Minus(RayPoint(start, step, k), start)) < limit2
    ensures k <= limit2.Floor
  {
    RayGrows(start, step, k);
  }

  /** The cells of one more step. */
  lemma RayCellsExtend(start: Vec, step: Vec, from: nat, to: nat)
    requires from <= to
    ensures RayCells(start, step, from, to + 1) == RayCells(start, step, from, to) + {RayCell(start, step, to)}
  {
  }

  // ---------------------------------------------------------------------------
  // The scorch limit without a square root

  /** `dist2 < (sqrt(d0) + e)^2`, stated without the square root. */
  predicate WithinScorch(dist2: real, d0: real, e: real)
  {
    var x := dist2 - d0 - e * e;
    x < 0.0 || x * x < 4.0 * e * e * d0
  }

  lemma SquareMono(a: real, b: real)
    requires 0.0 <= a && 0.0 <= b
    ensures a < b <==> a * a < b * b
  {
    assert b * b - a * a == (b - a) * (b + a);
    if a < b {
      MulPos(b - a, b + a);
    } else {
      MulNonneg(a - b, b + a);
      assert a * a - b * b == (a - b) * (b + a);
    }
  }

  /** For the true length L of the offset where destruction stopped, the test
      above is exactly the engine's `length2(curr - start) < (L + e)^2`. */
  lemma WithinScorchIff(dist2: real, d0: real, e: real, len: real)
    requires len >= 0.0 && len * len == d0 && e >= 0.0
    ensures dist2 < (len + e) * (len + e) <==> WithinScorch(dist2, d0, e)
  {
    var x := dist2 - d0 - e * e;
    assert (len + e) * (len + e) == d0 + 2.0 * e * len + e * e;
    MulNonneg(2.0 * e, len);
    if x >= 0.0 {
      SquareMono(x, 2.0 * e * len);
      assert (2.0 * e * len) * (2.0 * e * len) == 4.0 * e * e * (len * len);
    }
  }

  /** Inside the scorch limit the squared distance is below 2 (d0 + e^2). */
  lemma ScorchBound(dist2: real, d0: real, e: real)
    requires WithinScorch(dist2, d0, e) && d0 >= 0.0 && e >= 0.0
    ensures dist2 < 2.0 * (d0 + e * e)
  {
    var x := dist2 - d0 - e * e;
    var s := d0 + e * e;
    if x >= 0.0 {
      assert s * s == (e * e - d0) * (e * e - d0) + 4.0 * e * e * d0;
      SquareNonneg(e * e - d0);
      SquareMono(x, s);
    }
  }

  // ---------------------------------------------------------------------------
  // What a ray does to a cell

  /** `b` is `a` with only its colour changed, and that only when `a` is of a
      solid phase, and never brighter. */
  predicate Darkened(a: Pixel, b: Pixel)
  {
    b == a.(colour := b.colour)
    && (b.colour != a.colour ==> PhaseOf(a.kind) == Solid)
    && (0.0 <= a.colour ==> 0.0 <= b.colour <= a.colour)
  }

  /** A cell after a ray: darkened, or a non-titanium cell blasted to air or
      ember and perhaps darkened after that. */
  predicate Affected(a: Pixel, b: Pixel)
  {
    Darkened(a, b)
    || (a.kind != Titanium && (Darkened(Pixel.Air(), b) || Darkened(Pixel.Ember(), b)))
  }

  lemma DarkenedTrans(a: Pixel, b: Pixel, c: Pixel)
    requires Darkened(a, b) && Darkened(b, c)
    ensures Darkened(a, c)
  {
  }

  /** Several rays compose into one. */
  lemma AffectedTrans(a: Pixel, b: Pixel, c: Pixel)
    requires Affected(a, b) && Affected(b, c)
    ensures Affected(a, c)
  {
    if Darkened(b, c) {
      if Darkened(a, b) {
        DarkenedTrans(a, b, c);
      } else if Darkened(Pixel.Air(), b) {
        DarkenedTrans(Pixel.Air(), b, c);
      } else {
        DarkenedTrans(Pixel.Ember(), b, c);
      }
    }
  }

  /** No ray changes a titanium cell's type. */
  lemma AffectedKeepsKind(a: Pixel, b: Pixel)
    requires Affected(a, b) && a.kind == Titanium
    ensures b.kind == Titanium
  {
  }

  /** A blast followed by darkening affects every cell. */
  lemma BlastThenDarken(g0: seq<Pixel>, g1: seq<Pixel>, g2: seq<Pixel>, hit: set<Pos>)
    requires BlastedOn(g0, g1, hit) && |g2| == Cells
    requires forall j :: 0 <= j < Cells ==> Darkened(g1[j], g2[j])
    ensures forall j :: 0 <= j < Cells ==> Affected(g0[j], g2[j])
  {
    forall j | 0 <= j < Cells
      ensures Affected(g0[j], g2[j])
    {
      PosOfRoundTrip(j);
    }
  }

  // ---------------------------------------------------------------------------
  // One ray

  /** The destructive phase: from the start, one step at a time while the
      cell is on the grid and within the blast limit, turning each cell into
      air or ember, and stopping at the first titanium cell. Returns the
      position reached after `stop` steps. */
  method BlastPhase(w: World, start: Vec, step: Vec, blastLimit: real)
    returns (curr: Vec, ghost stop: nat, ghost draws: map<Pos, real>)
    requires w.Wellformed() && MaxAbs(step) == 1.0
    modifies w.pixels
    ensures curr == RayPoint(start, step, stop)
    ensures forall k :: 0 <= k < stop ==> InBlast(start, step, k, blastLimit)
    ensures BlastedOn(old(w.pixels[..]), w.pixels[..], RayCells(start, step, 0, stop))
    ensures draws.Keys == RayCells(start, step, 0, stop) && DrawnOn(w.pixels[..], draws)
    ensures InBlast(start, step, stop, blastLimit) ==>
      w.At(Cell(curr)).kind == Titanium && w.At(Cell(curr)) == old(w.At(Cell(curr)))
  {
    ghost var g0 := w.pixels[..];
    curr, stop, draws := start, 0, map[];
    assert RayCells(start, step, 0, 0) == {};
    ghost var bound := (blastLimit * blastLimit).Floor;
    // The engine breaks out of the loop at the top of its body on a titanium
    // cell; the test sits in the loop guard here, to the same effect.
    while Valid(Cell(curr)) && Len2(Minus(curr, start)) < blastLimit * blastLimit
          && w.At(Cell(curr)).kind != Titanium
      invariant curr == RayPoint(start, step, stop)
      invariant forall k :: 0 <= k < stop ==> InBlast(start, step, k, blastLimit)
      invariant BlastedOn(g0, w.pixels[..], RayCells(start, step, 0, stop))
      invariant draws.Keys == RayCells(start, step, 0, stop) && DrawnOn(w.pixels[..], draws)
      decreases bound - stop
    {
      StepsWithin(start, step, stop, blastLimit * blastLimit);
      var c := Cell(curr);
      ghost var u := BlastCell(w, g0, RayCells(start, step, 0, stop), draws, c);
      draws := draws[c := u];
      RayCellsExtend(start, step, 0, stop);
      curr := Vec(curr.x + step.x, curr.y + step.y);
      stop := stop + 1;
    }
    if Valid(Cell(curr)) && Len2(Minus(curr, start)) < blastLimit * blastLimit {
      BlastSparesTitanium(g0, w.pixels[..], RayCells(start, step, 0, stop), Cell(curr));
    }
  }

  /** The scorch phase: onwards from step `from`, one step at a time while the
      cell is on the grid and within the scorch limit, multiplying the colour
      of every solid-phase cell by 0.8. */
  method ScorchPhase(w: World, start: Vec, step: Vec, curr0: Vec, ghost from: nat, d0: real, e: real)
    returns (curr: Vec, ghost last: nat)
    requires w.Wellformed() && MaxAbs(step) == 1.0 && curr0 == RayPoint(start, step, from)
    requires d0 >= 0.0 && e >= 0.0
    modifies w.pixels
    ensures from <= last && curr == RayPoint(start, step, last)
    ensures forall k :: from <= k < last ==> InScorch(start, step, k, d0, e)
    ensures forall k :: from <= k < last ==> ScorchedStep(old(w.pixels[..]), w.pixels[..], start, step, k)
    ensures !InScorch(start, step, last, d0, e)
    ensures forall j :: 0 <= j < Cells ==> Darkened(old(w.pixels[j]), w.pixels[j])
    ensures forall j :: 0 <= j < Cells && PosOf(j) !in RayCells(start, step, from, last) ==> w.pixels[j] == old(w.pixels[j])
    ensures w.pixels[..] == ScorchFold(old(w.pixels[..]), start, step, from, last)
  {
    ghost var g0 := w.pixels[..];
    curr, last := curr0, from;
    ghost var bound := (2.0 * (d0 + e * e)).Floor;
    while Valid(Cell(curr)) && WithinScorch(Len2(Minus(curr, start)), d0, e)
      invariant from <= last && curr == RayPoint(start, step, last)
      invariant forall k :: from <= k < last ==> InScorch(start, step, k, d0, e)
      invariant ScorchedUpTo(g0, w.pixels[..], start, step, from, last)
      decreases bound - last
    {
      ScorchBound(Len2(Minus(curr, start)), d0, e);
      StepsWithin(start, step, last, 2.0 * (d0 + e * e));
      var c := Cell(curr);
      ghost var g := w.pixels[..];
      ScorchOne(g0, g, start, step, from, last);
      ScorchCell(w, c);
      curr := Vec(curr.x + step.x, curr.y + step.y);
      last := last + 1;
    }
  }

  /** One step of the scorch phase: a solid-phase pixel at `c` keeps 0.8 of
      its colour. */
  method ScorchCell(w: World, c: Pos)
    requires w.Wellformed() && Valid(c)
    modifies w.pixels
    ensures w.pixels[..] == old(w.pixels[..])[Index(c) := Scorch(old(w.At(c)))]
  {
    var px := w.At(c);
    if PhaseOf(px.kind) == Solid {
      w.Set(c, px.(colour := px.colour * 0.8));
    }
  }

  /** What the scorch phase leaves in one cell. */
  function Scorch(p: Pixel): Pixel
  {
    if PhaseOf(p.kind) == Solid then p.(colour := p.colour * 0.8) else p
  }

  /** `g0` with the cell of every on-grid step from..last-1 scorched, in
      step order. */
  function ScorchFold(g0: seq<Pixel>, start: Vec, step: Vec, from: nat, last: nat): (r: seq<Pixel>)
    requires |g0| == Cells
    ensures |r| == Cells
    decreases last
  {
    if last <= from then g0
    else
      var g := ScorchFold(g0, start, step, from, last - 1);
      var c := RayCell(start, step, last - 1);
      if Valid(c) then g[Index(c) := Scorch(g[Index(c)])] else g
  }

  /** `g` is `g0` after the scorch phase went from step `from` up to `last`:
      exactly the scorch of those steps, so every cell darkened at most, the
      solid cells of those steps scorched, and every cell off those steps as
      it was. */
  predicate ScorchedUpTo(g0: seq<Pixel>, g: seq<Pixel>, start: Vec, step: Vec, from: nat, last: nat)
  {
    |g0| == Cells && |g| == Cells
    && (forall j :: 0 <= j < Cells ==> Darkened(g0[j], g[j]))
    && (forall k :: from <= k < last ==> ScorchedStep(g0, g, start, step, k))
    && (forall j :: 0 <= j < Cells && PosOf(j) !in RayCells(start, step, from, last) ==> g[j] == g0[j])
    && g == ScorchFold(g0, start, step, from, last)
  }

  /** Scorching the cell of step `last` extends the scorch by that step. */
  lemma ScorchOne(g0: seq<Pixel>, g: seq<Pixel>, start: Vec, step: Vec, from: nat, last: nat)
    requires ScorchedUpTo(g0, g, start, step, from, last) && from <= last && Valid(RayCell(start, step, last))
    ensures var i := Index(RayCell(start, step, last));
      ScorchedUpTo(g0, g[i := Scorch(g[i])], start, step, from, last + 1)
  {
    var c := RayCell(start, step, last);
    var i := Index(c);
    IndexRoundTrip(c);
    var g' := g[i := Scorch(g[i])];
    assert Darkened(g0[i], g'[i]);
    forall k | from <= k < last + 1
      ensures ScorchedStep(g0, g', start, step, k)
    {
      if k < last {
        assert ScorchedStep(g0, g, start, step, k);
      }
      IndexRoundTrip(RayCell(start, step, k));
    }
    RayCellsExtend(start, step, from, last);
    forall j | 0 <= j < Cells && PosOf(j) !in RayCells(start, step, from, last + 1)
      ensures g'[j] == g0[j]
    {
      PosOfRoundTrip(j);
    }
  }

  /** Every step before `stop` is within the blast limit. */
  predicate Blasting(start: Vec, step: Vec, stop: nat, limit: real)
  {
    forall k :: 0 <= k < stop ==> InBlast(start, step, k, limit)
  }

  /** Every step from `from` up to `last` is within the scorch limit. */
  predicate Scorching(start: Vec, step: Vec, from: nat, last: nat, d0: real, e: real)
  {
    forall k :: from <= k < last ==> InScorch(start, step, k, d0, e)
  }

  /** The choices of one explosion_ray: the blast limit drawn, the magnitude
      of the normal draw, the steps at which destruction and scorching
      stopped, the unit draw that made each blasted cell ember or air, and
      the grid between the two phases. */
  datatype RayTrace = RayTrace(blastLimit: real, e: real, stop: nat, last: nat, blasts: map<Pos, real>, mid: seq<Pixel>)

  /** `g` is `g0` after explosion_ray from `start` towards `end` with the
      choices `t`. The destructive phase blasted exactly the cells of the
      first `t.stop` steps, every one within the blast limit, each into the
      debris of its recorded draw, and stopped at the grid's edge, at the
      limit or at a titanium cell; the scorch phase then scorched exactly the
      steps from `t.stop` up to `t.last`, every one within the distance
      destruction reached plus `t.e`, and stopped at the first step beyond it
      or off the grid. */
  ghost predicate RayDone(g0: seq<Pixel>, g: seq<Pixel>, start: Vec, end: Vec, info: Explosion, t: RayTrace)
  {
    end != start
    && Oracle.Between(info.minRadius, info.maxRadius, t.blastLimit) && t.e >= 0.0 && t.stop <= t.last
    && var step := StepOf(start, end);
       var d0 := Len2(Minus(RayPoint(start, step, t.stop), start));
       Blasting(start, step, t.stop, t.blastLimit)
       && BlastedOn(g0, t.mid, RayCells(start, step, 0, t.stop))
       && t.blasts.Keys == RayCells(start, step, 0, t.stop) && DrawnOn(t.mid, t.blasts)
       && (InBlast(start, step, t.stop, t.blastLimit) ==> g0[Index(RayCell(start, step, t.stop))].kind == Titanium)
       && Scorching(start, step, t.stop, t.last, d0, t.e)
       && !InScorch(start, step, t.last, d0, t.e)
       && ScorchedUpTo(t.mid, g, start, step, t.stop, t.last)
  }

  /** explosion_ray: a destructive phase out to a blast limit drawn between
      the two radii, then a scorch phase out to the distance destruction
      reached plus the magnitude `e` of a normal draw. */
  method ExplosionRay(w: World, start: Vec, end: Vec, info: Explosion) returns (ghost t: RayTrace)
    requires w.Wellformed() && end != start
    modifies w.pixels
    ensures RayDone(old(w.pixels[..]), w.pixels[..], start, end, info, t)
    ensures forall j :: 0 <= j < Cells ==> Affected(old(w.pixels[j]), w.pixels[j])
    ensures TitaniumKept(old(w.pixels[..]), w.pixels[..])
  {
    var line := Minus(end, start);
    var step := Vec(line.x / MaxAbs(line), line.y / MaxAbs(line));
    StepIsUnit(start, end);
    ghost var g0 := w.pixels[..];
    var limit := Oracle.RandomFromRange(info.minRadius, info.maxRadius);
    var curr;
    ghost var stop, draws;
    curr, stop, draws := BlastPhase(w, start, step, limit);
    ghost var g1 := w.pixels[..];
    var noise := Oracle.RandomNormal(0.0, info.scorch);
    var excess := RAbs(noise);
    var d0 := Len2(Minus(curr, start));
    assert w.pixels[..] == g1;
    ghost var last;
    curr, last := ScorchPhase(w, start, step, curr, stop, d0, excess);
    t := RayTrace(limit, excess, stop, last, draws, g1);
    assert ScorchedUpTo(g1, w.pixels[..], start, step, stop, last);
    assert Blasting(start, step, stop, limit);
    assert Scorching(start, step, stop, last, d0, excess);
    RayDoneFacts(g0, w.pixels[..], start, end, info, t);
  }

  /** What a ray implies for every cell: cells off its first `t.last` steps
      are as they were, every cell is affected, titanium stays titanium and
      a titanium cell on the scorch path ends at most 0.8 times as bright;
      with a positive excess, a ray stopped by titanium scorches that cell. */
  lemma RayDoneFacts(g0: seq<Pixel>, g: seq<Pixel>, start: Vec, end: Vec, info: Explosion, t: RayTrace)
    requires RayDone(g0, g, start, end, info, t)
    ensures forall j :: 0 <= j < Cells && PosOf(j) !in RayCells(start, StepOf(start, end), 0, t.last) ==> g[j] == g0[j]
    ensures forall j :: 0 <= j < Cells ==> Affected(g0[j], g[j])
    ensures TitaniumKept(g0, g)
    ensures forall k :: t.stop <= k < t.last ==> TitaniumScorchedStep(g0, g, start, StepOf(start, end), k)
    ensures InBlast(start, StepOf(start, end), t.stop, t.blastLimit) && t.e > 0.0 ==> t.stop < t.last
  {
    var step := StepOf(start, end);
    StepIsUnit(start, end);
    var d0 := Len2(Minus(RayPoint(start, step, t.stop), start));
    assert forall k :: t.stop <= k < t.last ==> ScorchedStep(t.mid, g, start, step, k);
    TitaniumScorched(g0, t.mid, g, start, step, t.stop, t.last);
    BlastThenDarken(g0, t.mid, g, RayCells(start, step, 0, t.stop));
    if Valid(Cell(RayPoint(start, step, t.stop))) && t.e > 0.0 {
      ScorchCoversStop(start, step, t.stop, t.last, d0, t.e);
    }
    RayFrame(g0, t.mid, g, start, step, t.stop, t.last);
    AffectedKeepsTitanium(g0, g);
  }

  /** With a positive excess the scorch phase covers at least the step where
      destruction stopped, when that cell is on the grid. */
  lemma ScorchCoversStop(start: Vec, step: Vec, stop: nat, last: nat, d0: real, e: real)
    requires d0 == Len2(Minus(RayPoint(start, step, stop), start)) && e > 0.0 && stop <= last
    requires Valid(RayCell(start, step, stop))
    requires !InScorch(start, step, last, d0, e)
    ensures stop < last
  {
    MulPos(e, e);
    assert WithinScorch(d0, d0, e);
  }

  lemma RayCellsWithin(start: Vec, step: Vec, from: nat, to: nat, from': nat, to': nat)
    requires from' <= from && to <= to'
    ensures RayCells(start, step, from, to) <= RayCells(start, step, from', to')
  {
  }

  /** The two phases together change only cells of the ray's first `last`
      steps. */
  lemma RayFrame(g0: seq<Pixel>, g1: seq<Pixel>, g2: seq<Pixel>, start: Vec, step: Vec, stop: nat, last: nat)
    requires BlastedOn(g0, g1, RayCells(start, step, 0, stop)) && |g2| == Cells && stop <= last
    requires forall j :: 0 <= j < Cells && PosOf(j) !in RayCells(start, step, stop, last) ==> g2[j] == g1[j]
    ensures forall j :: 0 <= j < Cells && PosOf(j) !in RayCells(start, step, 0, last) ==> g2[j] == g0[j]
  {
    RayCellsWithin(start, step, 0, stop, 0, last);
    RayCellsWithin(start, step, stop, last, 0, last);
  }

  /** A titanium cell on the scorch path, untouched by the blast, ends at most
      0.8 times as bright. */
  lemma TitaniumScorched(g0: seq<Pixel>, g1: seq<Pixel>, g2: seq<Pixel>, start: Vec, step: Vec, stop: nat, last: nat)
    requires BlastedOn(g0, g1, RayCells(start, step, 0, stop)) && |g2| == Cells
    requires forall k :: stop <= k < last ==> ScorchedStep(g1, g2, start, step, k)
    ensures forall k :: stop <= k < last ==> TitaniumScorchedStep(g0, g2, start, step, k)
  {
    forall k | stop <= k < last
      ensures TitaniumScorchedStep(g0, g2, start, step, k)
    {
      assert ScorchedStep(g1, g2, start, step, k);
      IndexRoundTrip(RayCell(start, step, k));
    }
  }

  /** The cells a ray affects keep titanium. */
  lemma AffectedKeepsTitanium(g0: seq<Pixel>, g: seq<Pixel>)
    requires |g0| == Cells && |g| == Cells
    requires forall j :: 0 <= j < Cells ==> Affected(g0[j], g[j])
    ensures TitaniumKept(g0, g)
  {
    forall j | 0 <= j < Cells && g0[j].kind == Titanium
      ensures g[j].kind == Titanium
    {
      AffectedKeepsKind(g0[j], g[j]);
    }
  }

  // ---------------------------------------------------------------------------
  // The whole explosion

  /** max_radius + 3 * scorch: the half-side of the square of ray ends. */
  function Boundary(info: Explosion): real { info.maxRadius + 3.0 * info.scorch }

  /** The four ray ends of loop index i. */
  function EndsAt(pos: Vec, b: real, i: int): seq<Vec>
  {
    [Vec(pos.x + i as real, pos.y + b), Vec(pos.x + i as real, pos.y + -b),
     Vec(pos.x + b, pos.y + i as real), Vec(pos.x + -b, pos.y + i as real)]
  }

  /** The ray ends of loop indices -b..i-1, in order. */
  function EndsBefore(pos: Vec, b: int, i: int): seq<Vec>
    decreases i + b
  {
    if i <= -b then [] else EndsBefore(pos, b, i - 1) + EndsAt(pos, b as real, i - 1)
  }

  /** `e` is an integer offset from `pos` at Chebyshev distance b. */
  predicate OnSquare(pos: Vec, b: int, e: Vec)
  {
    var dx, dy := e.x - pos.x, e.y - pos.y;
    dx.Floor as real == dx && dy.Floor as real == dy && MaxAbs(Vec(dx, dy)) == b as real
  }

  lemma OnSquareAt(pos: Vec, b: int, dx: int, dy: int)
    requires MaxAbs(Vec(dx as real, dy as real)) == b as real
    ensures OnSquare(pos, b, Vec(pos.x + dx as real, pos.y + dy as real))
  {
    assert (pos.x + dx as real) - pos.x == dx as real;
    assert (pos.y + dy as real) - pos.y == dy as real;
  }

  /** Every ray end lies on the square's perimeter. */
  lemma {:induction false} EndsOnSquare(pos: Vec, b: int, i: int)
    requires b >= 1 && -b <= i <= b + 1
    ensures forall e :: e in EndsBefore(pos, b, i) ==> OnSquare(pos, b, e)
    decreases i + b
  {
    if i > -b {
      EndsOnSquare(pos, b, i - 1);
      var m := i - 1;
      OnSquareAt(pos, b, m, b);
      OnSquareAt(pos, b, m, -b);
      OnSquareAt(pos, b, b, m);
      OnSquareAt(pos, b, -b, m);
      var at := EndsAt(pos, b as real, m);
      assert at == [Vec(pos.x + m as real, pos.y + b as real), Vec(pos.x + m as real, pos.y + (-b) as real),
                    Vec(pos.x + b as real, pos.y + m as real), Vec(pos.x + (-b) as real, pos.y + m as real)];
      forall e | e in EndsBefore(pos, b, i)
        ensures OnSquare(pos, b, e)
      {
        if e !in EndsBefore(pos, b, i - 1) {
          assert e in at;
        }
      }
    }
  }

  /** The ends of every earlier loop index stay in the list. */
  lemma {:induction false} EndsBeforeContains(pos: Vec, b: int, i: int, m: int)
    requires -b <= m < i
    ensures forall e :: e in EndsAt(pos, b as real, m) ==> e in EndsBefore(pos, b, i)
    decreases i + b
  {
    if m < i - 1 {
      EndsBeforeContains(pos, b, i - 1, m);
    }
  }

  /** Every integer point of the perimeter is a ray end. */
  lemma EndsCoverSquare(pos: Vec, b: int, dx: int, dy: int)
    requires b >= 1 && MaxAbs(Vec(dx as real, dy as real)) == b as real
    ensures Vec(pos.x + dx as real, pos.y + dy as real) in EndsBefore(pos, b, b + 1)
  {
    if RAbs(dy as real) == b as real {
      EndsBeforeContains(pos, b, b + 1, dx);
      assert Vec(pos.x + dx as real, pos.y + dy as real) in EndsAt(pos, b as real, dx);
    } else {
      EndsBeforeContains(pos, b, b + 1, dy);
      assert Vec(pos.x + dx as real, pos.y + dy as real) in EndsAt(pos, b as real, dy);
    }
  }

  /** `grids` are the grids before and after each ray, in order: ray r went
      from `pos` to `ends[r]` with the choices `traces[r]`. */
  ghost predicate RaysAlong(grids: seq<seq<Pixel>>, pos: Vec, ends: seq<Vec>, info: Explosion, traces: seq<RayTrace>)
  {
    |grids| == |ends| + 1 && |traces| == |ends|
    && forall r :: 0 <= r < |ends| ==> RayDone(grids[r], grids[r + 1], pos, ends[r], info, traces[r])
  }

  /** One more ray extends the log. */
  lemma RaysAlongStep(grids: seq<seq<Pixel>>, pos: Vec, ends: seq<Vec>, info: Explosion, traces: seq<RayTrace>,
                      g: seq<Pixel>, end: Vec, t: RayTrace)
    requires RaysAlong(grids, pos, ends, info, traces)
    requires RayDone(grids[|ends|], g, pos, end, info, t)
    ensures RaysAlong(grids + [g], pos, ends + [end], info, traces + [t])
  {
    var grids', ends', traces' := grids + [g], ends + [end], traces + [t];
    forall r | 0 <= r < |ends'|
      ensures RayDone(grids'[r], grids'[r + 1], pos, ends'[r], info, traces'[r])
    {
      if r < |ends| {
        assert grids'[r] == grids[r] && grids'[r + 1] == grids[r + 1];
      }
    }
  }

  /** apply_explosion: four rays for each int i from -boundary until
      boundary + 1, to (i, boundary), (i, -boundary), (boundary, i) and
      (-boundary, i) about `pos`. The loop ends only when the boundary is a
      whole number, and a zero boundary would give a ray of no direction.
      Returns the ends the rays went to, the grids before and after each ray
      and each ray's choices. */
  method ApplyExplosion(w: World, pos: Vec, info: Explosion)
    returns (ghost ends: seq<Vec>, ghost grids: seq<seq<Pixel>>, ghost traces: seq<RayTrace>)
    requires w.Wellformed()
    requires Boundary(info) >= 1.0 && Boundary(info).Floor as real == Boundary(info)
    modifies w.pixels
    ensures ends == EndsBefore(pos, Boundary(info).Floor, Boundary(info).Floor + 1)
    ensures RaysAlong(grids, pos, ends, info, traces)
    ensures grids[0] == old(w.pixels[..]) && grids[|ends|] == w.pixels[..]
    ensures forall j :: 0 <= j < Cells ==> Affected(old(w.pixels[j]), w.pixels[j])
    ensures TitaniumKept(old(w.pixels[..]), w.pixels[..])
  {
    ghost var g0 := w.pixels[..];
    ghost var b := Boundary(info).Floor;
    var boundary := info.maxRadius + 3.0 * info.scorch;
    var i := Trunc(-boundary);
    assert i == -b;
    ends, grids, traces := [], [g0], [];
    while i as real != boundary + 1.0
      invariant -b <= i <= b + 1
      invariant ends == EndsBefore(pos, b, i)
      invariant RaysAlong(grids, pos, ends, info, traces)
      invariant grids[0] == g0 && grids[|ends|] == w.pixels[..]
      invariant forall j :: 0 <= j < Cells ==> Affected(g0[j], w.pixels[j])
      decreases b + 1 - i
    {
      var targets := EndsAt(pos, boundary, i);
      grids, traces := RaysTo(w, pos, info, targets, g0, ends, grids, traces);
      ends := ends + targets;
      i := i + 1;
    }
    forall j | 0 <= j < Cells && g0[j].kind == Titanium
      ensures w.pixels[j].kind == Titanium
    {
      AffectedKeepsKind(g0[j], w.pixels[j]);
    }
  }

  /** One column of ExplosionRay calls, one per target in order, extending
      the log of grids and traces kept since the blast began at `g0`. */
  method RaysTo(w: World, pos: Vec, info: Explosion, targets: seq<Vec>, ghost g0: seq<Pixel>,
                ghost ends: seq<Vec>, ghost grids: seq<seq<Pixel>>, ghost traces: seq<RayTrace>)
    returns (ghost grids': seq<seq<Pixel>>, ghost traces': seq<RayTrace>)
    requires w.Wellformed() && |g0| == Cells
    requires forall k :: 0 <= k < |targets| ==> targets[k] != pos
    requires RaysAlong(grids, pos, ends, info, traces)
    requires grids[0] == g0 && grids[|ends|] == w.pixels[..]
    requires forall j :: 0 <= j < Cells ==> Affected(g0[j], w.pixels[j])
    modifies w.pixels
    ensures RaysAlong(grids', pos, ends + targets, info, traces')
    ensures grids'[0] == g0 && grids'[|ends| + |targets|] == w.pixels[..]
    ensures forall j :: 0 <= j < Cells ==> Affected(g0[j], w.pixels[j])
  {
    grids', traces' := grids, traces;
    for r := 0 to |targets|
      invariant RaysAlong(grids', pos, ends + targets[..r], info, traces')
      invariant grids'[0] == g0 && grids'[|ends| + r] == w.pixels[..]
      invariant forall j :: 0 <= j < Cells ==> Affected(g0[j], w.pixels[j])
    {
      ghost var g := w.pixels[..];
      ghost var t := ExplosionRay(w, pos, targets[r], info);
      forall j | 0 <= j < Cells
        ensures Affected(g0[j], w.pixels[j])
      {
        AffectedTrans(g0[j], g[j], w.pixels[j]);
      }
      RaysAlongStep(grids', pos, ends + targets[..r], info, traces', w.pixels[..], targets[r], t);
      assert ends + targets[..r] + [targets[r]] == ends + targets[..r + 1];
      grids', traces' := grids' + [w.pixels[..]], traces' + [t];
    }
    assert targets[..|targets|] == targets;
  }
}
