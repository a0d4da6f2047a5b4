/** The per-pixel update (move, decay, react, mark) and the lattice explosion
    that walks integer rays through the grid, sharing one set of cells already
    blasted. */
module Update {
  import opened Materials
  import opened Lattice
  import opened Grid
  import opened Movement
  import opened Moves
  import opened Reactions
  import Oracle

  // ---------------------------------------------------------------------------
  // update_pixel

  /** The decay of one cell keeps titanium when titanium cannot burn out. */
  lemma DecayKeepsTitanium(mat: Table, g: seq<Pixel>, p: Pos, u1: real, u2: real)
    requires |g| == Cells && Valid(p) && TitaniumInert(mat) && 0.0 <= u2
    ensures TitaniumKept(g, g[Index(p) := Decay(mat(g[Index(p)].kind), g[Index(p)], IsSurrounded(g, p), u1, u2)])
  {
    if g[Index(p)].kind == Titanium {
      DecayKeepsKind(mat(Titanium), g[Index(p)], IsSurrounded(g, p), u1, u2);
    }
  }

  /** The neighbour reactions keep titanium when titanium is inert. */
  lemma AffectKeepsTitanium(mat: Table, g: seq<Pixel>, p: Pos, ds: seq<Draws>)
    requires |g| == Cells && Valid(p) && |ds| == |NeighbourOffsets| && TitaniumInert(mat)
    requires forall m :: 0 <= m < |ds| ==> UnitDraws(ds[m])
    ensures TitaniumKept(g, AffectUpTo(mat, mat(g[Index(p)].kind), g, p, ds, |ds|))
  {
    AffectNeighboursFacts(mat, mat(g[Index(p)].kind), g, p, ds, |ds|);
  }

  /** What decay at `p` and then the reactions with its neighbours do to the
      grid `g`, given their draws. The reactions use the properties of the
      pixel as decay left it. */
  function DecayAndReact(mat: Table, g: seq<Pixel>, p: Pos, u1: real, u2: real, ds: seq<Draws>): seq<Pixel>
    requires |g| == Cells && Valid(p) && |ds| == |NeighbourOffsets|
  {
    var h := g[Index(p) := Decay(mat(g[Index(p)].kind), g[Index(p)], IsSurrounded(g, p), u1, u2)];
    AffectUpTo(mat, mat(h[Index(p)].kind), h, p, ds, |ds|)
  }

  /** The choices one update_pixel made: the grid after the position update,
      the velocity, offset and path of the move, the two decay draws and the
      draws of the eight neighbour reactions. */
  datatype Trace = Trace(moved: seq<Pixel>, v: Vec, offset: Pos, path: seq<int>, u1: real, u2: real, ds: seq<Draws>)

  /** The draws of `t` are those the oracle can give: the decay draws in
      [0, 1] and eight reaction draws, each in [0, 1]. */
  predicate Drawn(t: Trace)
  {
    0.0 <= t.u1 <= 1.0 && 0.0 <= t.u2 <= 1.0
    && |t.ds| == |NeighbourOffsets| && (forall m :: 0 <= m < |t.ds| ==> UnitDraws(t.ds[m]))
  }

  /** `g` is `g0` after the three stages of update_pixel for the pixel at
      `pos`, which moved to `p`, with the choices `t`. */
  ghost predicate Advanced(mat: Table, g0: seq<Pixel>, g: seq<Pixel>, pos: Pos, gravityStep: Vec, p: Pos, t: Trace)
  {
    Repositioned(mat, g0, t.moved, pos, gravityStep, p, t.v, t.offset, t.path) && Drawn(t)
    && g == DecayAndReact(mat, t.moved, p, t.u1, t.u2, t.ds)
  }

  /** The pixel `p` marked updated. */
  function Marked(p: Pixel): Pixel
  {
    p.(flags := p.flags + {IsUpdated})
  }

  /** `g` is `g0` after update_pixel at `pos` with the choices `t`: an empty or
      already-updated cell is left alone; any other pixel moves to `final`,
      decays, reacts with its neighbours and is marked updated there. */
  ghost predicate Updated(mat: Table, g0: seq<Pixel>, g: seq<Pixel>, pos: Pos, gravityStep: Vec, final: Pos, t: Trace)
  {
    |g0| == Cells && Valid(pos)
    && if g0[Index(pos)].kind == None || IsUpdated in g0[Index(pos)].flags then final == pos && g == g0
       else
         Repositioned(mat, g0, t.moved, pos, gravityStep, final, t.v, t.offset, t.path) && Drawn(t)
         && var h := DecayAndReact(mat, t.moved, final, t.u1, t.u2, t.ds);
            g == h[Index(final) := Marked(h[Index(final)])]
  }

  /** The chunks the attribute update and the reactions at `p` mark: those
      around `p` when the pixel there burns, then those of the eight
      reactions after the decay. */
  function AttributeWakes(mat: Table, g: seq<Pixel>, p: Pos, u1: real, u2: real, ds: seq<Draws>): set<int>
    requires |g| == Cells && Valid(p) && |ds| == |NeighbourOffsets|
  {
    var h := g[Index(p) := Decay(mat(g[Index(p)].kind), g[Index(p)], IsSurrounded(g, p), u1, u2)];
    (if IsBurning in g[Index(p)].flags then WokenChunks(p) else {}) + WakesUpTo(mat, mat(h[Index(p)].kind), h, p, ds, |ds|)
  }

  /** The chunks the three stages of update_pixel wake for the pixel at `pos`
      of `g0` that moved to `p` with the choices `t`: those of the move, those
      around `p` when the pixel there was burning, and those of the neighbour
      reactions at `p` after decay. */
  function AdvanceWakes(mat: Table, g0: seq<Pixel>, pos: Pos, p: Pos, t: Trace): set<int>
    requires |g0| == Cells && Valid(pos) && Valid(p) && |t.moved| == Cells && |t.ds| == |NeighbourOffsets|
  {
    (if p != pos && |t.path| >= 1 then MoveWakes(mat, WithVelocity(g0, pos, t.v), pos, Add(pos, t.offset), |t.path| - 1) else {})
    + AttributeWakes(mat, t.moved, p, t.u1, t.u2, t.ds)
  }

  /** The chunks marked by the three stages of update_pixel, the position
      update's exact set composed with that of the other two. */
  lemma AdvanceWakesCompose(mat: Table, g0: seq<Pixel>, pos: Pos, p: Pos, t: Trace,
                            c0: seq<Chunk>, c1: seq<Chunk>, c2: seq<Chunk>)
    requires |g0| == Cells && Valid(pos) && Valid(p) && |t.moved| == Cells && |t.ds| == |NeighbourOffsets|
    requires p != pos ==> WokeBy(mat, WithVelocity(g0, pos, t.v), c0, c1, pos, t.offset, t.path)
    requires p == pos ==> c1 == c0
    requires MarkedFrom(c1, c2, AttributeWakes(mat, t.moved, p, t.u1, t.u2, t.ds))
    ensures MarkedFrom(c0, c2, AdvanceWakes(mat, g0, pos, p, t))
  {
    var s1 := if p != pos && |t.path| >= 1 then MoveWakes(mat, WithVelocity(g0, pos, t.v), pos, Add(pos, t.offset), |t.path| - 1) else {};
    var s2 := AttributeWakes(mat, t.moved, p, t.u1, t.u2, t.ds);
    assert AdvanceWakes(mat, g0, pos, p, t) == s1 + s2;
    if p == pos {
      MarkedNone(c0);
    } else {
      assert MarkedFrom(c0, c1, s1);
    }
    MarkedTrans(c0, c1, c2, s1, s2);
  }

  /** update_pixel_attributes followed by affect_neighbours at `p`: the grid
      is `DecayAndReact` of the old one under draws in [0, 1], and the chunks
      marked are exactly `AttributeWakes`. */
  method DecayAndAffect(w: World, mat: Table, p: Pos) returns (ghost u1: real, ghost u2: real, ghost ds: seq<Draws>)
    requires w.Wellformed() && Valid(p)
    modifies w.pixels, w.chunks
    ensures 0.0 <= u1 <= 1.0 && 0.0 <= u2 <= 1.0
    ensures |ds| == |NeighbourOffsets| && forall m :: 0 <= m < |ds| ==> UnitDraws(ds[m])
    ensures w.pixels[..] == DecayAndReact(mat, old(w.pixels[..]), p, u1, u2, ds)
    ensures MarkedFrom(old(w.chunks[..]), w.chunks[..], AttributeWakes(mat, old(w.pixels[..]), p, u1, u2, ds))
    ensures TitaniumInert(mat) ==> TitaniumKept(old(w.pixels[..]), w.pixels[..])
    ensures ChunksWoken(old(w.chunks[..]), w.chunks[..])
  {
    ghost var g0, c0 := w.pixels[..], w.chunks[..];
    u1, u2 := UpdatePixelAttributes(w, mat, p);
    ghost var g1, c1 := w.pixels[..], w.chunks[..];
    ds := AffectNeighbours(w, mat, p);
    ChunksWokenTrans(c0, c1, w.chunks[..]);
    if IsBurning !in g0[Index(p)].flags { MarkedNone(c0); }
    MarkedTrans(c0, c1, w.chunks[..], if IsBurning in g0[Index(p)].flags then WokenChunks(p) else {},
                WakesUpTo(mat, mat(g1[Index(p)].kind), g1, p, ds, |ds|));
    if TitaniumInert(mat) {
      DecayKeepsTitanium(mat, g0, p, u1, u2);
      AffectKeepsTitanium(mat, g1, p, ds);
      TitaniumKeptTrans(g0, g1, w.pixels[..]);
    }
  }

  /** The three stages of update_pixel: the position update, then decay and
      neighbour reactions at the position the pixel moved to. */
  method Advance(w: World, mat: Table, pos: Pos, gravityStep: Vec) returns (p: Pos, ghost t: Trace)
    requires w.Wellformed() && Valid(pos)
    modifies w.pixels, w.chunks
    ensures Advanced(mat, old(w.pixels[..]), w.pixels[..], pos, gravityStep, p, t)
    ensures MarkedFrom(old(w.chunks[..]), w.chunks[..], AdvanceWakes(mat, old(w.pixels[..]), pos, p, t))
    ensures TitaniumInert(mat) ==> TitaniumKept(old(w.pixels[..]), w.pixels[..])
    ensures ChunksWoken(old(w.chunks[..]), w.chunks[..])
  {
    ghost var g0, c0 := w.pixels[..], w.chunks[..];
    ghost var v, off, path;
    p, v, off, path := UpdatePixelPosition(w, mat, pos, gravityStep);
    ghost var g1, c1 := w.pixels[..], w.chunks[..];
    ghost var u1, u2, ds := DecayAndAffect(w, mat, p);
    ChunksWokenTrans(c0, c1, w.chunks[..]);
    t := Trace(g1, v, off, path, u1, u2, ds);
    AdvanceWakesCompose(mat, g0, pos, p, t, c0, c1, w.chunks[..]);
    if TitaniumInert(mat) {
      TitaniumKeptTrans(g0, g1, w.pixels[..]);
    }
  }

  /** update_pixel. An empty or already-updated cell is left alone; any other
      pixel moves, decays, reacts with its neighbours and is marked updated at
      the position it moved to, returned as `final`. */
  method UpdatePixel(w: World, mat: Table, pos: Pos, gravityStep: Vec) returns (ghost final: Pos, ghost t: Trace)
    requires w.Wellformed() && Valid(pos)
    modifies w.pixels, w.chunks
    ensures Valid(final)
    ensures Updated(mat, old(w.pixels[..]), w.pixels[..], pos, gravityStep, final, t)
    ensures old(w.At(pos)).kind == None || IsUpdated in old(w.At(pos)).flags ==>
      w.chunks[..] == old(w.chunks[..])
    ensures old(w.At(pos)).kind != None && IsUpdated !in old(w.At(pos)).flags ==>
      IsUpdated in w.At(final).flags
      && MarkedFrom(old(w.chunks[..]), w.chunks[..], AdvanceWakes(mat, old(w.pixels[..]), pos, final, t))
    ensures TitaniumInert(mat) ==> TitaniumKept(old(w.pixels[..]), w.pixels[..])
    ensures ChunksWoken(old(w.chunks[..]), w.chunks[..])
  {
    final := pos;
    t := Trace([], Vec(0.0, 0.0), Pos(0, 0), [], 0.0, 0.0, []);
    if w.At(pos).kind == None || IsUpdated in w.At(pos).flags {
      return;
    }
    var p;
    p, t := Advance(w, mat, pos, gravityStep);
    ghost var g := w.pixels[..];
    var px := w.At(p);
    w.Set(p, Marked(px));
    assert TitaniumKept(g, w.pixels[..]);
    final := p;
  }

  // ---------------------------------------------------------------------------
  // The lattice explosion

  /** What a blast leaves in a cell. */
  predicate Blasted(p: Pixel)
  {
    p == Pixel.Air() || p == Pixel.Ember()
  }

  /** `g` is `g0` with exactly the cells at `hit` blasted, none of which held
      titanium, and every other cell as it was. */
  predicate BlastedOn(g0: seq<Pixel>, g: seq<Pixel>, hit: set<Pos>)
  {
    |g0| == Cells && |g| == Cells
    && (forall p :: p in hit ==> Valid(p) && g0[Index(p)].kind != Titanium && Blasted(g[Index(p)]))
    && (forall j :: 0 <= j < Cells && PosOf(j) !in hit ==> g[j] == g0[j])
  }

  /** The pixel a blast leaves under the unit draw `u`: an ember when
      u < 0.05, air otherwise. */
  function Debris(u: real): Pixel
  {
    if u < 0.05 then Pixel.Ember() else Pixel.Air()
  }

  /** Every cell p of `draws` is on the grid and holds in `g` what a blast
      leaves under the unit draw draws[p]. */
  predicate DrawnOn(g: seq<Pixel>, draws: map<Pos, real>)
  {
    |g| == Cells
    && forall p :: p in draws ==> Valid(p) && 0.0 <= draws[p] <= 1.0 && g[Index(p)] == Debris(draws[p])
  }

  /** Blasting one more cell under a unit draw records that draw. */
  lemma DrawOne(g: seq<Pixel>, draws: map<Pos, real>, p: Pos, u: real)
    requires DrawnOn(g, draws) && Valid(p) && 0.0 <= u <= 1.0
    ensures DrawnOn(g[Index(p) := Debris(u)], draws[p := u])
  {
    IndexRoundTrip(p);
    forall q | q in draws[p := u]
      ensures Valid(q) && g[Index(p) := Debris(u)][Index(q)] == Debris(draws[p := u][q])
    {
      IndexInjective(p, q);
    }
  }

  /** A later blast on other cells keeps the draws recorded so far, and the
      draws of both blasts together are recorded in the final grid. */
  lemma DrawnTrans(g1: seq<Pixel>, g2: seq<Pixel>, d1: map<Pos, real>, d2: map<Pos, real>, h2: set<Pos>)
    requires DrawnOn(g1, d1) && BlastedOn(g1, g2, h2) && d1.Keys !! h2 && DrawnOn(g2, d2)
    ensures DrawnOn(g2, d1 + d2)
  {
    forall p | p in d1
      ensures g2[Index(p)] == g1[Index(p)]
    {
      IndexRoundTrip(p);
    }
  }

  /** A blast never removes titanium. */
  lemma BlastedKeepsTitanium(g0: seq<Pixel>, g: seq<Pixel>, hit: set<Pos>)
    requires BlastedOn(g0, g, hit)
    ensures TitaniumKept(g0, g)
  {
    forall j | 0 <= j < Cells && g0[j].kind == Titanium
      ensures g[j].kind == Titanium
    {
      PosOfRoundTrip(j);
    }
  }

  /** A cell that is titanium after a blast was not blasted: it is as it was. */
  lemma BlastSparesTitanium(g0: seq<Pixel>, g: seq<Pixel>, hit: set<Pos>, c: Pos)
    requires BlastedOn(g0, g, hit) && Valid(c) && g[Index(c)].kind == Titanium
    ensures c !in hit && g[Index(c)] == g0[Index(c)]
  {
    IndexRoundTrip(c);
  }

  /** Two blasts on disjoint cells make one blast on their union. */
  lemma BlastedOnTrans(g0: seq<Pixel>, g1: seq<Pixel>, g2: seq<Pixel>, h1: set<Pos>, h2: set<Pos>)
    requires BlastedOn(g0, g1, h1) && BlastedOn(g1, g2, h2) && h1 !! h2
    ensures BlastedOn(g0, g2, h1 + h2)
  {
    forall p | p in h1 + h2
      ensures Valid(p) && g0[Index(p)].kind != Titanium && Blasted(g2[Index(p)])
    {
      IndexRoundTrip(p);
    }
  }

  /** Blasting one more non-titanium cell extends a blast by that cell. */
  lemma BlastOne(g0: seq<Pixel>, g: seq<Pixel>, hit: set<Pos>, p: Pos, px: Pixel)
    requires BlastedOn(g0, g, hit) && Valid(p)
    requires g[Index(p)].kind != Titanium && Blasted(px)
    ensures BlastedOn(g0, g[Index(p) := px], hit + {p})
  {
    IndexRoundTrip(p);
    forall q | q in hit + {p}
      ensures Valid(q) && g0[Index(q)].kind != Titanium && Blasted(g[Index(p) := px][Index(q)])
    {
      IndexInjective(p, q);
    }
    forall j | 0 <= j < Cells && PosOf(j) !in hit + {p}
      ensures g[Index(p) := px][j] == g0[j]
    {
      PosOfRoundTrip(j);
    }
  }

  /** Blasts the cell `c`, which is not titanium: an ember under a draw below
      0.05, air otherwise. The cells `hit` blasted before, with their `draws`,
      stay blasted and drawn, now with `c` and its draw `u` added. */
  method BlastCell(w: World, ghost g0: seq<Pixel>, ghost hit: set<Pos>, ghost draws: map<Pos, real>, c: Pos)
    returns (ghost u: real)
    requires w.Wellformed() && Valid(c) && w.At(c).kind != Titanium
    requires BlastedOn(g0, w.pixels[..], hit) && DrawnOn(w.pixels[..], draws)
    modifies w.pixels
    ensures 0.0 <= u <= 1.0
    ensures w.pixels[..] == old(w.pixels[..])[Index(c) := Debris(u)]
    ensures BlastedOn(g0, w.pixels[..], hit + {c}) && DrawnOn(w.pixels[..], draws[c := u])
  {
    var r := Oracle.RandomUnit();
    var px := if r < 0.05 then Pixel.Ember() else Pixel.Air();
    BlastOne(g0, w.pixels[..], hit, c, px);
    DrawOne(w.pixels[..], draws, c, r);
    w.Set(c, px);
    u := r;
  }

  /** explosion_ray of the per-pixel update. Walks a + (b - a) * i / steps for
      i from 0 below steps, skipping cells already in `checked`, and stops at
      sub-step `stop` when it meets an invalid position or titanium. Every cell
      it blasts becomes air or ember and joins the checked set. */
  method LatticeRay(w: World, checked: set<Pos>, pos: Pos, end: Pos)
    returns (checked': set<Pos>, ghost stop: nat, ghost draws: map<Pos, real>)
    requires w.Wellformed()
    modifies w.pixels
    ensures stop <= Steps(pos, end)
    ensures checked <= checked'
    ensures forall k :: 0 <= k < stop ==> PathPoint(pos, end, k) in checked'
    ensures forall p :: p in checked' - checked ==> exists k :: 0 <= k < stop && p == PathPoint(pos, end, k)
    ensures BlastedOn(old(w.pixels[..]), w.pixels[..], checked' - checked)
    ensures draws.Keys == checked' - checked && DrawnOn(w.pixels[..], draws)
    ensures stop < Steps(pos, end) ==>
      var p := PathPoint(pos, end, stop);
      p !in checked && (!Valid(p) || old(w.At(p)).kind == Titanium)
  {
    ghost var g0 := w.pixels[..];
    var steps := Steps(pos, end);
    checked' := checked;
    draws := map[];
    var i := 0;
    while i < steps
      invariant 0 <= i <= steps
      invariant checked <= checked'
      invariant forall k :: 0 <= k < i ==> PathPoint(pos, end, k) in checked'
      invariant forall p :: p in checked' - checked ==> exists k :: 0 <= k < i && p == PathPoint(pos, end, k)
      invariant BlastedOn(g0, w.pixels[..], checked' - checked)
      invariant draws.Keys == checked' - checked && DrawnOn(w.pixels[..], draws)
    {
      var curr := Pos(pos.x + TruncDiv((end.x - pos.x) * i, steps), pos.y + TruncDiv((end.y - pos.y) * i, steps));
      assert curr == PathPoint(pos, end, i);
      if curr in checked' {
        i := i + 1;
        continue;
      }
      if !Valid(curr) {
        stop := i;
        return;
      }
      IndexRoundTrip(curr);
      if w.At(curr).kind == Titanium {
        stop := i;
        return;
      }
      ghost var u := BlastCell(w, g0, checked' - checked, draws, curr);
      draws := draws[curr := u];
      assert (checked' - checked) + {curr} == (checked' + {curr}) - checked;
      checked' := checked' + {curr};
      i := i + 1;
    }
    stop := steps;
  }

  /** A ray stops at `p`: it is off the grid or titanium in `g`. */
  predicate Blocks(g: seq<Pixel>, p: Pos)
  {
    |g| == Cells && (!Valid(p) || g[Index(p)].kind == Titanium)
  }

  /** Ray r reached sub-step `stops[r]`: every point before it is in `hit`,
      and a ray that stopped early stopped at a point that blocks in `g`. */
  ghost predicate RaysReached(g: seq<Pixel>, pos: Pos, ends: seq<Pos>, stops: seq<nat>, hit: set<Pos>)
  {
    |stops| == |ends|
    && (forall r :: 0 <= r < |ends| ==> stops[r] <= Steps(pos, ends[r]))
    && (forall r, k :: 0 <= r < |ends| && 0 <= k < stops[r] ==> PathPoint(pos, ends[r], k) in hit)
    && (forall r :: 0 <= r < |ends| && stops[r] < Steps(pos, ends[r]) ==>
          Blocks(g, PathPoint(pos, ends[r], stops[r])))
  }

  /** The state of apply_explosion after its first r rays: the cells `checked`
      so far are blasted from `g0` with their `draws`, each lies on one of
      those rays, and the rays reached `stops`. */
  ghost predicate LatticeState(g0: seq<Pixel>, g: seq<Pixel>, pos: Pos, ends: seq<Pos>, r: nat,
                               stops: seq<nat>, checked: set<Pos>, draws: map<Pos, real>)
    requires r <= |ends|
  {
    BlastedOn(g0, g, checked) && draws.Keys == checked && DrawnOn(g, draws)
    && (forall p :: p in checked ==>
          exists r', k :: 0 <= r' < r && 0 <= k < Steps(pos, ends[r']) && p == PathPoint(pos, ends[r'], k))
    && RaysReached(g0, pos, ends[..r], stops, checked)
  }

  /** One more ray, with the outcome `LatticeRay` promises from `g1` to `g2`,
      keeps the state, one ray further. */
  lemma LatticeStateStep(g0: seq<Pixel>, g1: seq<Pixel>, g2: seq<Pixel>, pos: Pos, ends: seq<Pos>, r: nat,
                         stops: seq<nat>, before: set<Pos>, checked: set<Pos>, stop: nat,
                         draws: map<Pos, real>, d: map<Pos, real>)
    requires r < |ends| && |g1| == Cells && |g2| == Cells
    requires LatticeState(g0, g1, pos, ends, r, stops, before, draws)
    requires stop <= Steps(pos, ends[r]) && before <= checked
    requires forall k :: 0 <= k < stop ==> PathPoint(pos, ends[r], k) in checked
    requires forall p :: p in checked - before ==> exists k :: 0 <= k < stop && p == PathPoint(pos, ends[r], k)
    requires BlastedOn(g1, g2, checked - before)
    requires d.Keys == checked - before && DrawnOn(g2, d)
    requires stop < Steps(pos, ends[r]) ==>
      var p := PathPoint(pos, ends[r], stop);
      p !in before && (!Valid(p) || g1[Index(p)].kind == Titanium)
    ensures LatticeState(g0, g2, pos, ends, r + 1, stops + [stop], checked, draws + d)
  {
    BlastedOnTrans(g0, g1, g2, before, checked - before);
    DrawnTrans(g1, g2, draws, d, checked - before);
    assert before + (checked - before) == checked;
    if stop < Steps(pos, ends[r]) && Valid(PathPoint(pos, ends[r], stop)) {
      BlastSparesTitanium(g0, g1, before, PathPoint(pos, ends[r], stop));
    }
    assert ends[..r + 1] == ends[..r] + [ends[r]];
  }

  /** apply_explosion of the per-pixel update, over the ray ends it computes:
      one ray from `pos` to each end in order, all sharing one checked set.
      Every cell it changes lies on some ray, held no titanium and is now air
      or ember; ray r has taken every point before `stops[r]`, where it met
      the grid's edge or titanium, or its end. */
  method ApplyLatticeExplosion(w: World, pos: Pos, ends: seq<Pos>)
    returns (ghost hit: set<Pos>, ghost stops: seq<nat>, ghost draws: map<Pos, real>)
    requires w.Wellformed()
    modifies w.pixels
    ensures BlastedOn(old(w.pixels[..]), w.pixels[..], hit)
    ensures draws.Keys == hit && DrawnOn(w.pixels[..], draws)
    ensures forall p :: p in hit ==>
      exists r, k :: 0 <= r < |ends| && 0 <= k < Steps(pos, ends[r]) && p == PathPoint(pos, ends[r], k)
    ensures RaysReached(old(w.pixels[..]), pos, ends, stops, hit)
    ensures TitaniumKept(old(w.pixels[..]), w.pixels[..])
  {
    ghost var g0 := w.pixels[..];
    var checked: set<Pos> := {};
    stops := [];
    draws := map[];
    for r := 0 to |ends|
      invariant LatticeState(g0, w.pixels[..], pos, ends, r, stops, checked, draws)
    {
      ghost var g1 := w.pixels[..];
      ghost var before := checked;
      ghost var stop, d;
      checked, stop, d := LatticeRay(w, checked, pos, ends[r]);
      LatticeStateStep(g0, g1, w.pixels[..], pos, ends, r, stops, before, checked, stop, draws, d);
      draws := draws + d;
      stops := stops + [stop];
    }
    assert ends[..|ends|] == ends;
    hit := checked;
    BlastedKeepsTitanium(g0, w.pixels[..], hit);
  }
}
