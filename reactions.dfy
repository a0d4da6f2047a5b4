/** What a pixel does to itself and to its neighbours once it has moved:
    burning decay (update_pixel_attributes) and the neighbour reactions
    (affect_neighbours): boiling, corrosion, ignition and embers. */
module Reactions {
  import opened Materials
  import opened Lattice
  import opened Grid
  import opened Movement
  import Oracle

  // ---------------------------------------------------------------------------
  // Burning decay

  /** The decay of a pixel of material `props`: a burning pixel is put out when
      the first draw falls below its put-out chance (the surrounded one when it
      has no empty neighbour), and then turns to air when the second draw falls
      below its burn-out chance. */
  function Decay(props: Properties, p: Pixel, surrounded: bool, u1: real, u2: real): Pixel
  {
    if IsBurning !in p.flags then p
    else
      var putOut := if surrounded then props.putOutSurrounded else props.putOut;
      var p1 := if u1 < putOut then p.(flags := p.flags - {IsBurning}) else p;
      if u2 < props.burnOutChance then Pixel.Air() else p1
  }

  /** A pixel that is not burning is left alone; a burning one is kept, put out
      or burnt to air. */
  lemma DecayOutcomes(props: Properties, p: Pixel, surrounded: bool, u1: real, u2: real)
    ensures var r := Decay(props, p, surrounded, u1, u2);
      (IsBurning !in p.flags ==> r == p)
      && (r == p || r == p.(flags := p.flags - {IsBurning}) || r == Pixel.Air())
  {
  }

  /** A burning pixel burns out exactly when the second draw is below its
      burn-out chance, and otherwise stops burning exactly when the first draw is
      below the put-out chance that applies. */
  lemma DecayByDraws(props: Properties, p: Pixel, surrounded: bool, u1: real, u2: real)
    requires IsBurning in p.flags && p.kind != None
    ensures var r := Decay(props, p, surrounded, u1, u2);
      && (r.kind == None <==> u2 < props.burnOutChance)
      && (r.kind != None ==>
            r.kind == p.kind
            && (IsBurning !in r.flags <==> u1 < (if surrounded then props.putOutSurrounded else props.putOut)))
  {
  }

  /** With a burn-out chance of zero (titanium's) no draw destroys the pixel. */
  lemma DecayKeepsKind(props: Properties, p: Pixel, surrounded: bool, u1: real, u2: real)
    requires props.burnOutChance == 0.0 && 0.0 <= u2
    ensures Decay(props, p, surrounded, u1, u2).kind == p.kind
  {
  }

  /** update_pixel_attributes. Returns the two draws it made (zero when the
      pixel was not burning and nothing was drawn). */
  method UpdatePixelAttributes(w: World, mat: Table, pos: Pos) returns (ghost u1: real, ghost u2: real)
    requires w.Wellformed() && Valid(pos)
    modifies w.pixels, w.chunks
    ensures 0.0 <= u1 <= 1.0 && 0.0 <= u2 <= 1.0
    ensures w.pixels[..] == old(w.pixels[..])[Index(pos) :=
      Decay(mat(old(w.At(pos)).kind), old(w.At(pos)), IsSurrounded(old(w.pixels[..]), pos), u1, u2)]
    ensures IsBurning in old(w.At(pos)).flags ==> MarkedFrom(old(w.chunks[..]), w.chunks[..], WokenChunks(pos))
    ensures IsBurning !in old(w.At(pos)).flags ==> w.chunks[..] == old(w.chunks[..])
    ensures ChunksWoken(old(w.chunks[..]), w.chunks[..])
  {
    ghost var g0 := w.pixels[..];
    var burning := IsBurning in w.At(pos).flags;
    u1, u2 := 0.0, 0.0;
    if burning {
      w.WakeChunkWithPixel(pos);
    }
    assert w.pixels[..] == g0;
    if burning {
      u1, u2 := BurningDecay(w, mat, pos);
    } else {
      assert g0[Index(pos) := Decay(mat(g0[Index(pos)].kind), g0[Index(pos)], IsSurrounded(g0, pos), u1, u2)] == g0;
    }
  }

  /** The burning branch of update_pixel_attributes: the put-out test, then
      the burn-out test, each on a fresh draw. */
  method BurningDecay(w: World, mat: Table, pos: Pos) returns (ghost u1: real, ghost u2: real)
    requires w.Wellformed() && Valid(pos) && IsBurning in w.At(pos).flags
    modifies w.pixels
    ensures 0.0 <= u1 <= 1.0 && 0.0 <= u2 <= 1.0
    ensures w.pixels[..] == old(w.pixels[..])[Index(pos) :=
      Decay(mat(old(w.At(pos)).kind), old(w.At(pos)), IsSurrounded(old(w.pixels[..]), pos), u1, u2)]
  {
    ghost var g0 := w.pixels[..];
    var pixel := w.At(pos);
    var props := mat(pixel.kind);
    var putOut := if IsSurrounded(w.pixels[..], pos) then props.putOutSurrounded else props.putOut;
    var u := Oracle.RandomUnit();
    u1 := u;
    if u < putOut {
      pixel := pixel.(flags := pixel.flags - {IsBurning});
      w.Set(pos, pixel);
    }
    u := Oracle.RandomUnit();
    u2 := u;
    if u < props.burnOutChance {
      pixel := Pixel.Air();
      w.Set(pos, pixel);
    }
    assert w.pixels[..] == g0[Index(pos) := pixel];
  }

  // ---------------------------------------------------------------------------
  // Neighbour reactions

  /** The draws one neighbour's reactions may consume: the corrosion test, the
      test whether the corroding pixel is used up, ignition and embers. */
  datatype Draws = Draws(corrode: real, selfCorrode: real, ignite: real, ember: real)

  predicate UnitDraws(d: Draws)
  {
    0.0 <= d.corrode <= 1.0 && 0.0 <= d.selfCorrode <= 1.0
    && 0.0 <= d.ignite <= 1.0 && 0.0 <= d.ember <= 1.0
  }

  /** The pixel and its neighbour after one reaction stage, and whether the
      neighbour's chunk was woken. */
  datatype Reaction = Reaction(me: Pixel, them: Pixel, woken: bool)

  /** A boiling source turns a water neighbour into steam. */
  function Boil(props: Properties, them: Pixel): Pixel
  {
    if props.canBoilWater && them.kind == Water then Pixel.Steam() else them
  }

  /** A corrosion source destroys a neighbour whose resistance the draw exceeds,
      and is itself used up when the second draw exceeds 0.9. */
  function Corrode(mat: Table, props: Properties, me: Pixel, them: Pixel, d: Draws): Reaction
  {
    if props.isCorrosionSource && d.corrode > mat(them.kind).corrosionResist then
      Reaction(if d.selfCorrode > 0.9 then Pixel.Air() else me, Pixel.Air(), false)
    else Reaction(me, them, false)
  }

  /** A burn source, or a burning pixel, sets a neighbour burning when the draw
      is below the neighbour's flammability, and wakes the neighbour's chunk. */
  function Ignite(mat: Table, props: Properties, me: Pixel, them: Pixel, d: Draws): Reaction
  {
    if (props.isBurnSource || IsBurning in me.flags) && d.ignite < mat(them.kind).flammability then
      Reaction(me, them.(flags := them.flags + {IsBurning}), true)
    else Reaction(me, them, false)
  }

  /** An ember source, or a burning pixel, puts an ember into an empty
      neighbour when the draw is below 0.01. */
  function Spark(props: Properties, me: Pixel, them: Pixel, d: Draws): Reaction
  {
    if (props.isEmberSource || IsBurning in me.flags) && them.kind == None && d.ember < 0.01 then
      Reaction(me, Pixel.Ember(), true)
    else Reaction(me, them, false)
  }

  /** All four reactions with one neighbour, in the engine's order. `props` is
      the record of the pixel's type when the reactions began; `me` is the
      pixel as it is now. */
  function React(mat: Table, props: Properties, me: Pixel, them: Pixel, d: Draws): Reaction
  {
    var c := Corrode(mat, props, me, Boil(props, them), d);
    var i := Ignite(mat, props, c.me, c.them, d);
    var s := Spark(props, c.me, i.them, d);
    Reaction(c.me, s.them, i.woken || s.woken)
  }

  /** The reacting pixel itself is either unchanged or, only when it is a
      corrosion source that ate its neighbour and drew above 0.9, air. */
  lemma ReactSelf(mat: Table, props: Properties, me: Pixel, them: Pixel, d: Draws)
    ensures var r := React(mat, props, me, them, d);
      (r.me == me || r.me == Pixel.Air())
      && (r.me != me ==>
            props.isCorrosionSource && d.selfCorrode > 0.9
            && d.corrode > mat(Boil(props, them).kind).corrosionResist)
  {
  }

  /** A pixel that is no source of anything and is not burning leaves its
      neighbour alone. */
  lemma ReactInert(mat: Table, props: Properties, me: Pixel, them: Pixel, d: Draws)
    requires !props.canBoilWater && !props.isCorrosionSource && !props.isBurnSource && !props.isEmberSource
    requires IsBurning !in me.flags
    ensures React(mat, props, me, them, d) == Reaction(me, them, false)
  {
  }

  /** Ignition happens exactly when the pixel is a burn source or burning and
      the draw is below the neighbour's flammability. */
  lemma IgnitionByDraw(mat: Table, props: Properties, me: Pixel, them: Pixel, d: Draws)
    requires IsBurning !in them.flags
    ensures IsBurning in Ignite(mat, props, me, them, d).them.flags <==>
      (props.isBurnSource || IsBurning in me.flags) && d.ignite < mat(them.kind).flammability
  {
  }

  /** Corrosion of a non-empty neighbour happens exactly when the draw exceeds
      its material's corrosion resistance. */
  lemma CorrosionByDraw(mat: Table, props: Properties, me: Pixel, them: Pixel, d: Draws)
    requires props.isCorrosionSource && them.kind != None
    ensures Corrode(mat, props, me, them, d).them.kind == None <==> d.corrode > mat(them.kind).corrosionResist
  {
  }

  /** A new ember needs an empty neighbour, a source or burning pixel and a
      draw below 0.01. */
  lemma EmberByDraw(props: Properties, me: Pixel, them: Pixel, d: Draws)
    requires them.kind != Ember
    ensures Spark(props, me, them, d).them.kind == Ember <==>
      (props.isEmberSource || IsBurning in me.flags) && them.kind == None && d.ember < 0.01
  {
  }

  /** A neighbour that was neither burning nor an ember has its chunks woken
      exactly when the reactions leave it burning or an ember. */
  lemma WokenIffLit(mat: Table, props: Properties, me: Pixel, them: Pixel, d: Draws)
    requires IsBurning !in them.flags && them.kind != Ember
    ensures var r := React(mat, props, me, them, d);
      r.woken <==> IsBurning in r.them.flags || r.them.kind == Ember
  {
  }

  /** With an inert titanium, no draw in [0, 1] changes a titanium neighbour. */
  lemma ReactSparesTitanium(mat: Table, props: Properties, me: Pixel, them: Pixel, d: Draws)
    requires TitaniumInert(mat) && UnitDraws(d) && them.kind == Titanium
    ensures React(mat, props, me, them, d).them == them
  {
  }

  /** In the engine's table, lava next to water leaves steam. */
  lemma LavaBoilsWater(me: Pixel, d: Draws)
    requires UnitDraws(d)
    ensures React(PropertiesOf, PropertiesOf(Lava), me, Pixel.Water(), d).them == Pixel.Steam()
  {
  }

  /** In the engine's table, a non-burning acid pixel destroys a neighbour other
      than water and air exactly when the draw exceeds the neighbour's
      resistance, and otherwise leaves it alone. */
  lemma AcidCorrodes(me: Pixel, them: Pixel, d: Draws)
    requires IsBurning !in me.flags && them.kind != None
    ensures React(PropertiesOf, PropertiesOf(Acid), me, them, d).them ==
      if d.corrode > PropertiesOf(them.kind).corrosionResist then Pixel.Air() else them
  {
  }

  // ---------------------------------------------------------------------------
  // Over the grid

  /** The grid after the reactions with the neighbour at `pos + off`. */
  function ReactAt(mat: Table, props: Properties, g: seq<Pixel>, pos: Pos, off: Pos, d: Draws): (r: seq<Pixel>)
    requires |g| == Cells && Valid(pos)
    ensures |r| == Cells
  {
    var n := Add(pos, off);
    if !Valid(n) then g
    else
      var re := React(mat, props, g[Index(pos)], g[Index(n)], d);
      g[Index(n) := re.them][Index(pos) := re.me]
  }

  /** The grid after the reactions with the first k neighbours, in order. */
  function AffectUpTo(mat: Table, props: Properties, g: seq<Pixel>, pos: Pos, ds: seq<Draws>, k: nat): (r: seq<Pixel>)
    requires |g| == Cells && Valid(pos) && k <= |ds| && k <= |NeighbourOffsets|
    ensures |r| == Cells
    decreases k
  {
    if k == 0 then g
    else ReactAt(mat, props, AffectUpTo(mat, props, g, pos, ds, k - 1), pos, NeighbourOffsets[k - 1], ds[k - 1])
  }

  /** Only the first k draws matter. */
  lemma {:induction false} AffectUpToPrefix(mat: Table, props: Properties, g: seq<Pixel>, pos: Pos, ds: seq<Draws>, ds': seq<Draws>, k: nat)
    requires |g| == Cells && Valid(pos) && k <= |ds| && k <= |ds'| && k <= |NeighbourOffsets|
    requires ds[..k] == ds'[..k]
    ensures AffectUpTo(mat, props, g, pos, ds, k) == AffectUpTo(mat, props, g, pos, ds', k)
    decreases k
  {
    if k > 0 {
      assert ds[..k - 1] == ds[..k][..k - 1] && ds'[..k - 1] == ds'[..k][..k - 1];
      assert ds[k - 1] == ds[..k][k - 1] && ds'[k - 1] == ds'[..k][k - 1];
      AffectUpToPrefix(mat, props, g, pos, ds, ds', k - 1);
    }
  }

  /** The chunks the reactions with the neighbour at `pos + off` wake: those
      around the neighbour, when it caught fire or got an ember. */
  function ReactWake(mat: Table, props: Properties, g: seq<Pixel>, pos: Pos, off: Pos, d: Draws): set<int>
    requires |g| == Cells && Valid(pos)
  {
    var n := Add(pos, off);
    if Valid(n) && React(mat, props, g[Index(pos)], g[Index(n)], d).woken then WokenChunks(n) else {}
  }

  /** The chunks the reactions with the first k neighbours wake, each
      neighbour's reaction seeing the grid the earlier ones left. */
  function WakesUpTo(mat: Table, props: Properties, g: seq<Pixel>, pos: Pos, ds: seq<Draws>, k: nat): set<int>
    requires |g| == Cells && Valid(pos) && k <= |ds| && k <= |NeighbourOffsets|
    decreases k
  {
    if k == 0 then {}
    else WakesUpTo(mat, props, g, pos, ds, k - 1)
         + ReactWake(mat, props, AffectUpTo(mat, props, g, pos, ds, k - 1), pos, NeighbourOffsets[k - 1], ds[k - 1])
  }

  /** Only the first k draws matter to the wakes either. */
  lemma {:induction false} WakesUpToPrefix(mat: Table, props: Properties, g: seq<Pixel>, pos: Pos, ds: seq<Draws>, ds': seq<Draws>, k: nat)
    requires |g| == Cells && Valid(pos) && k <= |ds| && k <= |ds'| && k <= |NeighbourOffsets|
    requires ds[..k] == ds'[..k]
    ensures WakesUpTo(mat, props, g, pos, ds, k) == WakesUpTo(mat, props, g, pos, ds', k)
    decreases k
  {
    if k > 0 {
      assert ds[..k - 1] == ds[..k][..k - 1] && ds'[..k - 1] == ds'[..k][..k - 1];
      assert ds[k - 1] == ds[..k][k - 1] && ds'[k - 1] == ds'[..k][k - 1];
      WakesUpToPrefix(mat, props, g, pos, ds, ds', k - 1);
      AffectUpToPrefix(mat, props, g, pos, ds, ds', k - 1);
    }
  }

  /** The slots of the in-range 8-neighbours of `pos`. */
  function Neighbourhood(pos: Pos): set<int>
  {
    set k | 0 <= k < |NeighbourOffsets| && Valid(Add(pos, NeighbourOffsets[k])) :: Index(Add(pos, NeighbourOffsets[k]))
  }

  /** One neighbour's reactions change only that neighbour and the pixel, keep
      titanium, and leave the pixel either as it was or air. */
  lemma ReactAtFacts(mat: Table, props: Properties, g: seq<Pixel>, pos: Pos, k: nat, d: Draws)
    requires |g| == Cells && Valid(pos) && k < |NeighbourOffsets|
    requires TitaniumInert(mat) && UnitDraws(d)
    requires g[Index(pos)].kind == Titanium ==> !props.isCorrosionSource
    ensures var r := ReactAt(mat, props, g, pos, NeighbourOffsets[k], d);
      && TitaniumKept(g, r)
      && (r[Index(pos)] == g[Index(pos)] || r[Index(pos)] == Pixel.Air())
      && (forall j :: 0 <= j < Cells && j != Index(pos) && j !in Neighbourhood(pos) ==> r[j] == g[j])
  {
    var n := Add(pos, NeighbourOffsets[k]);
    if Valid(n) {
      IndexInjective(pos, n);
      assert Index(n) in Neighbourhood(pos);
      ReactSelf(mat, props, g[Index(pos)], g[Index(n)], d);
      if g[Index(n)].kind == Titanium {
        ReactSparesTitanium(mat, props, g[Index(pos)], g[Index(n)], d);
      }
    }
  }

  /** The neighbour reactions keep every titanium cell, change nothing outside
      the pixel and its 8-neighbourhood, and leave the pixel as it was or air. */
  lemma {:induction false} AffectNeighboursFacts(mat: Table, props: Properties, g: seq<Pixel>, pos: Pos, ds: seq<Draws>, k: nat)
    requires |g| == Cells && Valid(pos) && k <= |ds| && k <= |NeighbourOffsets|
    requires TitaniumInert(mat) && forall m :: 0 <= m < k ==> UnitDraws(ds[m])
    requires g[Index(pos)].kind == Titanium ==> !props.isCorrosionSource
    ensures var r := AffectUpTo(mat, props, g, pos, ds, k);
      && TitaniumKept(g, r)
      && (r[Index(pos)] == g[Index(pos)] || r[Index(pos)] == Pixel.Air())
      && (forall j :: 0 <= j < Cells && j != Index(pos) && j !in Neighbourhood(pos) ==> r[j] == g[j])
    decreases k
  {
    if k > 0 {
      AffectNeighboursFacts(mat, props, g, pos, ds, k - 1);
      var h := AffectUpTo(mat, props, g, pos, ds, k - 1);
      ReactAtFacts(mat, props, h, pos, k - 1, ds[k - 1]);
      TitaniumKeptTrans(g, h, AffectUpTo(mat, props, g, pos, ds, k));
    }
  }

  /** The corrosion stage of one iteration, with its draws. */
  method CorrodeStage(mat: Table, props: Properties, me: Pixel, them: Pixel, ghost d: Draws) returns (me': Pixel, them': Pixel, ghost d': Draws)
    ensures d' == d.(corrode := d'.corrode, selfCorrode := d'.selfCorrode)
    ensures props.isCorrosionSource ==> 0.0 <= d'.corrode <= 1.0 && 0.0 <= d'.selfCorrode <= 1.0
    ensures !props.isCorrosionSource ==> d' == d
    ensures Corrode(mat, props, me, them, d') == Reaction(me', them', false)
  {
    me', them', d' := me, them, d;
    if props.isCorrosionSource {
      var u := Oracle.RandomUnit();
      d' := d'.(corrode := u, selfCorrode := 0.0);
      if u > mat(them.kind).corrosionResist {
        them' := Pixel.Air();
        var v := Oracle.RandomUnit();
        d' := d'.(selfCorrode := v);
        if v > 0.9 {
          me' := Pixel.Air();
        }
      }
    }
  }

  /** The ignition stage of one iteration, with its draw and its wake. */
  method IgniteStage(w: World, mat: Table, props: Properties, me: Pixel, them: Pixel, n: Pos, ghost d: Draws) returns (them': Pixel, ghost d': Draws)
    requires w.Wellformed() && Valid(n)
    modifies w.chunks
    ensures d' == d.(ignite := d'.ignite)
    ensures (props.isBurnSource || IsBurning in me.flags) ==> 0.0 <= d'.ignite <= 1.0
    ensures !(props.isBurnSource || IsBurning in me.flags) ==> d' == d
    ensures Ignite(mat, props, me, them, d').them == them'
    ensures MarkedFrom(old(w.chunks[..]), w.chunks[..],
                       if Ignite(mat, props, me, them, d').woken then WokenChunks(n) else {})
    ensures ChunksWoken(old(w.chunks[..]), w.chunks[..])
  {
    them', d' := them, d;
    if props.isBurnSource || IsBurning in me.flags {
      var u := Oracle.RandomUnit();
      d' := d'.(ignite := u);
      if u < mat(them.kind).flammability {
        them' := them.(flags := them.flags + {IsBurning});
        w.WakeChunkWithPixel(n);
        return;
      }
    }
    MarkedNone(w.chunks[..]);
  }

  /** The ember stage of one iteration, with its draw and its wake. */
  method SparkStage(w: World, props: Properties, me: Pixel, them: Pixel, n: Pos, ghost d: Draws) returns (them': Pixel, ghost d': Draws)
    requires w.Wellformed() && Valid(n)
    modifies w.chunks
    ensures d' == d.(ember := d'.ember)
    ensures (props.isEmberSource || IsBurning in me.flags) && them.kind == None ==> 0.0 <= d'.ember <= 1.0
    ensures !((props.isEmberSource || IsBurning in me.flags) && them.kind == None) ==> d' == d
    ensures Spark(props, me, them, d').them == them'
    ensures MarkedFrom(old(w.chunks[..]), w.chunks[..],
                       if Spark(props, me, them, d').woken then WokenChunks(n) else {})
    ensures ChunksWoken(old(w.chunks[..]), w.chunks[..])
  {
    them', d' := them, d;
    var canProduceEmbers := props.isEmberSource || IsBurning in me.flags;
    if canProduceEmbers && them.kind == None {
      var u := Oracle.RandomUnit();
      d' := d'.(ember := u);
      if u < 0.01 {
        them' := Pixel.Ember();
        w.WakeChunkWithPixel(n);
        return;
      }
    }
    MarkedNone(w.chunks[..]);
  }

  /** The three stages run one after another, each drawing only its own
      values, compute the reaction with the last draws. */
  lemma StagesCompose(mat: Table, props: Properties, me0: Pixel, them0: Pixel, boiled: Pixel,
                      me: Pixel, corroded: Pixel, ignited: Pixel, them: Pixel, d1: Draws, d2: Draws, d3: Draws)
    requires boiled == Boil(props, them0)
    requires d1 == Draws(0.0, 0.0, 0.0, 0.0).(corrode := d1.corrode, selfCorrode := d1.selfCorrode)
    requires props.isCorrosionSource ==> 0.0 <= d1.corrode <= 1.0 && 0.0 <= d1.selfCorrode <= 1.0
    requires !props.isCorrosionSource ==> d1 == Draws(0.0, 0.0, 0.0, 0.0)
    requires Corrode(mat, props, me0, boiled, d1) == Reaction(me, corroded, false)
    requires d2 == d1.(ignite := d2.ignite)
    requires (props.isBurnSource || IsBurning in me.flags) ==> 0.0 <= d2.ignite <= 1.0
    requires !(props.isBurnSource || IsBurning in me.flags) ==> d2 == d1
    requires Ignite(mat, props, me, corroded, d2).them == ignited
    requires d3 == d2.(ember := d3.ember)
    requires (props.isEmberSource || IsBurning in me.flags) && ignited.kind == None ==> 0.0 <= d3.ember <= 1.0
    requires !((props.isEmberSource || IsBurning in me.flags) && ignited.kind == None) ==> d3 == d2
    requires Spark(props, me, ignited, d3).them == them
    ensures UnitDraws(d3)
    ensures React(mat, props, me0, them0, d3).me == me && React(mat, props, me0, them0, d3).them == them
    ensures React(mat, props, me0, them0, d3).woken ==
      (Ignite(mat, props, me, corroded, d2).woken || Spark(props, me, ignited, d3).woken)
  {
    assert Corrode(mat, props, me0, boiled, d3) == Corrode(mat, props, me0, boiled, d1);
    assert Ignite(mat, props, me, corroded, d3) == Ignite(mat, props, me, corroded, d2);
  }

  /** Marking a set when one test holds, then again when another holds,
      marks it when either holds. */
  lemma MarkedEither(a: seq<Chunk>, b: seq<Chunk>, c: seq<Chunk>, s: set<int>, x: bool, y: bool)
    requires MarkedFrom(a, b, if x then s else {}) && MarkedFrom(b, c, if y then s else {})
    ensures MarkedFrom(a, c, if x || y then s else {})
  {
    MarkedTrans(a, b, c, if x then s else {}, if y then s else {});
    assert (if x then s else {}) + (if y then s else {}) == (if x || y then s else {});
  }

  /** One iteration of affect_neighbours. The pixel and the neighbour are read
      into locals, which stand for the engine's references into the grid, and
      written back when the iteration ends. */
  method AffectNeighbour(w: World, mat: Table, props: Properties, pos: Pos, off: Pos) returns (ghost d: Draws)
    requires w.Wellformed() && Valid(pos) && off in NeighbourOffsets
    modifies w.pixels, w.chunks
    ensures UnitDraws(d)
    ensures w.pixels[..] == ReactAt(mat, props, old(w.pixels[..]), pos, off, d)
    ensures MarkedFrom(old(w.chunks[..]), w.chunks[..], ReactWake(mat, props, old(w.pixels[..]), pos, off, d))
    ensures ChunksWoken(old(w.chunks[..]), w.chunks[..])
  {
    var n := Add(pos, off);
    d := Draws(0.0, 0.0, 0.0, 0.0);
    if Valid(n) {
      IndexInjective(pos, n);
      d := ReactWith(w, mat, props, pos, n);
    } else {
      MarkedNone(w.chunks[..]);
    }
  }

  /** The reactions of the pixel at `pos` with its in-range neighbour `n`. */
  method ReactWith(w: World, mat: Table, props: Properties, pos: Pos, n: Pos) returns (ghost d: Draws)
    requires w.Wellformed() && Valid(pos) && Valid(n) && Index(pos) != Index(n)
    modifies w.pixels, w.chunks
    ensures UnitDraws(d)
    ensures var re := React(mat, props, old(w.At(pos)), old(w.At(n)), d);
      w.pixels[..] == old(w.pixels[..])[Index(n) := re.them][Index(pos) := re.me]
      && MarkedFrom(old(w.chunks[..]), w.chunks[..], if re.woken then WokenChunks(n) else {})
    ensures ChunksWoken(old(w.chunks[..]), w.chunks[..])
  {
    ghost var g0 := w.pixels[..];
    var me, them := w.At(pos), w.At(n);
    if props.canBoilWater {
      if them.kind == Water {
        them := Pixel.Steam();
      }
    }
    ghost var boiled := them;
    ghost var d1, d2, d3;
    me, them, d1 := CorrodeStage(mat, props, me, them, Draws(0.0, 0.0, 0.0, 0.0));
    ghost var corroded := them;
    ghost var c1 := w.chunks[..];
    them, d2 := IgniteStage(w, mat, props, me, them, n, d1);
    ghost var ignited := them;
    ghost var c2 := w.chunks[..];
    them, d3 := SparkStage(w, props, me, them, n, d2);
    ChunksWokenTrans(c1, c2, w.chunks[..]);
    d := d3;
    StagesCompose(mat, props, g0[Index(pos)], g0[Index(n)], boiled, me, corroded, ignited, them, d1, d2, d3);
    MarkedEither(c1, c2, w.chunks[..], WokenChunks(n),
                 Ignite(mat, props, me, corroded, d2).woken, Spark(props, me, ignited, d3).woken);
    w.Set(n, them);
    w.Set(pos, me);
  }

  /** affect_neighbours: the reactions with each in-range neighbour, in the
      order of the offsets. `props` is fixed when the walk starts. */
  method AffectNeighbours(w: World, mat: Table, pos: Pos) returns (ghost ds: seq<Draws>)
    requires w.Wellformed() && Valid(pos)
    modifies w.pixels, w.chunks
    ensures |ds| == |NeighbourOffsets| && forall m :: 0 <= m < |ds| ==> UnitDraws(ds[m])
    ensures w.pixels[..] == AffectUpTo(mat, mat(old(w.At(pos)).kind), old(w.pixels[..]), pos, ds, |ds|)
    ensures MarkedFrom(old(w.chunks[..]), w.chunks[..], WakesUpTo(mat, mat(old(w.At(pos)).kind), old(w.pixels[..]), pos, ds, |ds|))
    ensures ChunksWoken(old(w.chunks[..]), w.chunks[..])
  {
    ghost var g0 := w.pixels[..];
    var props := mat(w.At(pos).kind);
    ds := [];
    MarkedNone(w.chunks[..]);
    for k := 0 to |NeighbourOffsets|
      invariant |ds| == k && forall m :: 0 <= m < k ==> UnitDraws(ds[m])
      invariant w.pixels[..] == AffectUpTo(mat, props, g0, pos, ds, k)
      invariant MarkedFrom(old(w.chunks[..]), w.chunks[..], WakesUpTo(mat, props, g0, pos, ds, k))
      invariant ChunksWoken(old(w.chunks[..]), w.chunks[..])
    {
      ghost var c := w.chunks[..];
      ghost var g := w.pixels[..];
      var d := AffectNeighbour(w, mat, props, pos, NeighbourOffsets[k]);
      ChunksWokenTrans(old(w.chunks[..]), c, w.chunks[..]);
      MarkedTrans(old(w.chunks[..]), c, w.chunks[..], WakesUpTo(mat, props, g0, pos, ds, k),
                  ReactWake(mat, props, g, pos, NeighbourOffsets[k], d));
      AffectUpToPrefix(mat, props, g0, pos, ds, ds + [d], k);
      WakesUpToPrefix(mat, props, g0, pos, ds, ds + [d], k);
      ds := ds + [d];
    }
  }
}
