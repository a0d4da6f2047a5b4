/** One simulation frame: the bottom-to-top scan that updates every pixel not
    yet updated, then the clearing of the updated marks and the copy of every
    colour into the render buffer. */
module Frame {
  import opened Materials
  import opened Lattice
  import opened Grid
  import opened Update
  import Oracle

  // ---------------------------------------------------------------------------
  // The scan order

  /** The k-th position visited in a frame whose rows, from the bottom one up,
      were scanned ascending in x exactly where `dirs` holds. */
  function ScanPoint(dirs: seq<bool>, k: int): Pos
    requires 0 <= k < WorldSize * |dirs|
  {
    var r, c := k / WorldSize, k % WorldSize;
    Pos(if dirs[r] then c else WorldSize - 1 - c, WorldSize - 1 - r)
  }

  /** When a valid position is visited in such a frame. */
  function ScanIndex(dirs: seq<bool>, p: Pos): int
    requires |dirs| == WorldSize && Valid(p)
  {
    var r := WorldSize - 1 - p.y;
    r * WorldSize + (if dirs[r] then p.x else WorldSize - 1 - p.x)
  }

  lemma RowDivMod(r: int, c: int)
    requires 0 <= r && 0 <= c < WorldSize
    ensures (r * WorldSize + c) / WorldSize == r && (r * WorldSize + c) % WorldSize == c
  {
  }

  /** Every step of the scan visits a valid position, and that position is
      visited at that step only. */
  lemma ScanPointRoundTrip(dirs: seq<bool>, k: int)
    requires |dirs| == WorldSize && 0 <= k < Cells
    ensures Valid(ScanPoint(dirs, k)) && ScanIndex(dirs, ScanPoint(dirs, k)) == k
  {
    RowDivMod(k / WorldSize, k % WorldSize);
  }

  /** Every valid position is visited, at exactly one step. */
  lemma ScanIndexRoundTrip(dirs: seq<bool>, p: Pos)
    requires |dirs| == WorldSize && Valid(p)
    ensures 0 <= ScanIndex(dirs, p) < Cells && ScanPoint(dirs, ScanIndex(dirs, p)) == p
  {
    var r := WorldSize - 1 - p.y;
    RowDivMod(r, if dirs[r] then p.x else WorldSize - 1 - p.x);
  }

  /** Together: the scan visits every coordinate exactly once. */
  lemma ScanVisitsEachOnce(dirs: seq<bool>, p: Pos)
    requires |dirs| == WorldSize && Valid(p)
    ensures exists k :: 0 <= k < Cells && ScanPoint(dirs, k) == p
    ensures forall k, m :: 0 <= k < Cells && 0 <= m < Cells && ScanPoint(dirs, k) == p && ScanPoint(dirs, m) == p ==> k == m
  {
    ScanIndexRoundTrip(dirs, p);
    forall k | 0 <= k < Cells
      ensures ScanPoint(dirs, k) == p ==> k == ScanIndex(dirs, p)
    {
      ScanPointRoundTrip(dirs, k);
    }
  }

  /** Rows go from the bottom one upwards: a later step is never lower. */
  lemma ScanBottomUp(dirs: seq<bool>, k: int, m: int)
    requires |dirs| == WorldSize && 0 <= k <= m < Cells
    ensures ScanPoint(dirs, k).y >= ScanPoint(dirs, m).y
  {
    var qk, qm := k / WorldSize, m / WorldSize;
    assert k == qk * WorldSize + k % WorldSize;
    assert m == qm * WorldSize + m % WorldSize;
  }

  /** Within a row, the scan moves one way only: rightwards in an ascending
      row and leftwards otherwise. */
  lemma ScanRowOneWay(dirs: seq<bool>, k: int, m: int)
    requires |dirs| == WorldSize && 0 <= k < m < Cells && k / WorldSize == m / WorldSize
    ensures dirs[k / WorldSize] ==> ScanPoint(dirs, k).x < ScanPoint(dirs, m).x
    ensures !dirs[k / WorldSize] ==> ScanPoint(dirs, k).x > ScanPoint(dirs, m).x
  {
    assert k == (k / WorldSize) * WorldSize + k % WorldSize;
    assert m == (m / WorldSize) * WorldSize + m % WorldSize;
  }

  /** Appending a scanned row to the log extends the scan by one row. */
  lemma ScanExtend(dirs: seq<bool>, order: seq<Pos>, flip: bool, row: seq<Pos>)
    requires |dirs| < WorldSize && |order| == WorldSize * |dirs|
    requires forall k :: 0 <= k < |order| ==> order[k] == ScanPoint(dirs, k)
    requires |row| == WorldSize
    requires forall c :: 0 <= c < WorldSize ==>
      row[c] == Pos(if flip then c else WorldSize - 1 - c, WorldSize - 1 - |dirs|)
    ensures forall k :: 0 <= k < |order + row| ==> (order + row)[k] == ScanPoint(dirs + [flip], k)
  {
    forall k | 0 <= k < |order + row|
      ensures (order + row)[k] == ScanPoint(dirs + [flip], k)
    {
      if k < |order| {
        assert k / WorldSize < |dirs| by {
          assert k == (k / WorldSize) * WorldSize + k % WorldSize;
        }
      } else {
        RowDivMod(|dirs|, k - |order|);
      }
    }
  }

  // ---------------------------------------------------------------------------
  // The frame

  /** `grids` are the grids between the updates of the cells `cells`, in
      order: each is the one before after update_pixel at the next cell, with
      the final position and choices logged in `finals` and `traces`. */
  ghost predicate UpdatedAlong(mat: Table, grids: seq<seq<Pixel>>, cells: seq<Pos>, gravityStep: Vec,
                               finals: seq<Pos>, traces: seq<Trace>)
  {
    |grids| == |cells| + 1 && |finals| == |cells| && |traces| == |cells|
    && forall c :: 0 <= c < |cells| ==>
         Updated(mat, grids[c], grids[c + 1], cells[c], gravityStep, finals[c], traces[c])
  }

  /** No cell: the log holds the one grid. */
  lemma UpdatedAlongStart(mat: Table, g: seq<Pixel>, gravityStep: Vec)
    ensures UpdatedAlong(mat, [g], [], gravityStep, [], [])
  {
  }

  /** One more update extends the log. */
  lemma UpdatedAlongStep(mat: Table, grids: seq<seq<Pixel>>, cells: seq<Pos>, gravityStep: Vec,
                         finals: seq<Pos>, traces: seq<Trace>, g: seq<Pixel>, p: Pos, f: Pos, t: Trace)
    requires UpdatedAlong(mat, grids, cells, gravityStep, finals, traces)
    requires Updated(mat, grids[|cells|], g, p, gravityStep, f, t)
    ensures UpdatedAlong(mat, grids + [g], cells + [p], gravityStep, finals + [f], traces + [t])
  {
    var grids', cells' := grids + [g], cells + [p];
    forall c | 0 <= c < |cells'|
      ensures Updated(mat, grids'[c], grids'[c + 1], cells'[c], gravityStep, (finals + [f])[c], (traces + [t])[c])
    {
      if c < |cells| {
        assert grids'[c] == grids[c] && grids'[c + 1] == grids[c + 1];
      }
    }
  }

  /** Two logs that meet at a grid join into one. */
  lemma UpdatedAlongJoin(mat: Table, a: seq<seq<Pixel>>, ca: seq<Pos>, fa: seq<Pos>, ta: seq<Trace>,
                         b: seq<seq<Pixel>>, cb: seq<Pos>, fb: seq<Pos>, tb: seq<Trace>, gravityStep: Vec)
    requires UpdatedAlong(mat, a, ca, gravityStep, fa, ta) && UpdatedAlong(mat, b, cb, gravityStep, fb, tb)
    requires b[0] == a[|ca|]
    ensures UpdatedAlong(mat, a + b[1..], ca + cb, gravityStep, fa + fb, ta + tb)
    ensures (a + b[1..])[0] == a[0] && (a + b[1..])[|ca + cb|] == b[|cb|]
  {
    var g, cs, fs, ts := a + b[1..], ca + cb, fa + fb, ta + tb;
    forall c | 0 <= c < |cs|
      ensures Updated(mat, g[c], g[c + 1], cs[c], gravityStep, fs[c], ts[c])
    {
      if c < |ca| {
        assert g[c] == a[c] && g[c + 1] == a[c + 1];
      } else {
        var m := c - |ca|;
        assert g[c] == b[m] && g[c + 1] == b[m + 1] && cs[c] == cb[m] && fs[c] == fb[m] && ts[c] == tb[m];
      }
    }
  }

  /** The scan's treatment of one cell: update it unless already updated
      this frame. `called` says whether update_pixel ran. */
  method Visit(w: World, mat: Table, p: Pos, gravityStep: Vec) returns (ghost called: bool, ghost final: Pos, ghost t: Trace)
    requires w.Wellformed() && Valid(p)
    modifies w.pixels, w.chunks
    ensures called <==> IsUpdated !in old(w.At(p)).flags
    ensures Updated(mat, old(w.pixels[..]), w.pixels[..], p, gravityStep, final, t)
    ensures !called ==> w.pixels[..] == old(w.pixels[..]) && w.chunks[..] == old(w.chunks[..])
    ensures TitaniumInert(mat) ==> TitaniumKept(old(w.pixels[..]), w.pixels[..])
    ensures ChunksWoken(old(w.chunks[..]), w.chunks[..])
  {
    called := false;
    final := p;
    t := Trace([], Vec(0.0, 0.0), Pos(0, 0), [], 0.0, 0.0, []);
    if IsUpdated !in w.At(p).flags {
      final, t := UpdatePixel(w, mat, p, gravityStep);
      called := true;
    }
  }

  /** A visit of `p` that extends the log of the visits so far. */
  method VisitLogged(w: World, mat: Table, p: Pos, gravityStep: Vec, ghost grids: seq<seq<Pixel>>, ghost cells: seq<Pos>,
                     ghost finals: seq<Pos>, ghost traces: seq<Trace>)
    returns (ghost grids': seq<seq<Pixel>>, ghost finals': seq<Pos>, ghost traces': seq<Trace>)
    requires w.Wellformed() && Valid(p)
    requires UpdatedAlong(mat, grids, cells, gravityStep, finals, traces) && grids[|cells|] == w.pixels[..]
    modifies w.pixels, w.chunks
    ensures UpdatedAlong(mat, grids', cells + [p], gravityStep, finals', traces')
    ensures grids' == grids + [w.pixels[..]]
    ensures TitaniumInert(mat) ==> TitaniumKept(old(w.pixels[..]), w.pixels[..])
    ensures ChunksWoken(old(w.chunks[..]), w.chunks[..])
  {
    ghost var called, f, t := Visit(w, mat, p, gravityStep);
    UpdatedAlongStep(mat, grids, cells, gravityStep, finals, traces, w.pixels[..], p, f, t);
    grids', finals', traces' := grids + [w.pixels[..]], finals + [f], traces + [t];
  }

  /** One row of the scan, in the direction the coin chose. `row` logs the
      positions visited, in order, and `grids` the grid before and after each
      visit. */
  method VisitRow(w: World, mat: Table, y: int, ascending: bool, gravityStep: Vec)
    returns (ghost row: seq<Pos>, ghost grids: seq<seq<Pixel>>, ghost finals: seq<Pos>, ghost traces: seq<Trace>)
    requires w.Wellformed() && 0 <= y < WorldSize
    modifies w.pixels, w.chunks
    ensures |row| == WorldSize
    ensures forall c :: 0 <= c < WorldSize ==> row[c] == Pos(if ascending then c else WorldSize - 1 - c, y)
    ensures UpdatedAlong(mat, grids, row, gravityStep, finals, traces)
    ensures grids[0] == old(w.pixels[..]) && grids[WorldSize] == w.pixels[..]
    ensures TitaniumInert(mat) ==> TitaniumKept(old(w.pixels[..]), w.pixels[..])
    ensures ChunksWoken(old(w.chunks[..]), w.chunks[..])
  {
    row, grids, finals, traces := [], [w.pixels[..]], [], [];
    UpdatedAlongStart(mat, w.pixels[..], gravityStep);
    if ascending {
      var x := 0;
      while x != WorldSize
        invariant 0 <= x <= WorldSize && |row| == x
        invariant forall c :: 0 <= c < x ==> row[c] == Pos(c, y)
        invariant UpdatedAlong(mat, grids, row, gravityStep, finals, traces)
        invariant grids[0] == old(w.pixels[..]) && grids[x] == w.pixels[..]
        invariant TitaniumInert(mat) ==> TitaniumKept(old(w.pixels[..]), w.pixels[..])
        invariant ChunksWoken(old(w.chunks[..]), w.chunks[..])
      {
        ghost var g, ch := w.pixels[..], w.chunks[..];
        grids, finals, traces := VisitLogged(w, mat, Pos(x, y), gravityStep, grids, row, finals, traces);
        ChunksWokenTrans(old(w.chunks[..]), ch, w.chunks[..]);
        if TitaniumInert(mat) {
          TitaniumKeptTrans(old(w.pixels[..]), g, w.pixels[..]);
        }
        row := row + [Pos(x, y)];
        x := x + 1;
      }
    } else {
      var x := WorldSize;
      while x != 0
        invariant 0 <= x <= WorldSize && |row| == WorldSize - x
        invariant forall c :: 0 <= c < |row| ==> row[c] == Pos(WorldSize - 1 - c, y)
        invariant UpdatedAlong(mat, grids, row, gravityStep, finals, traces)
        invariant grids[0] == old(w.pixels[..]) && grids[|row|] == w.pixels[..]
        invariant TitaniumInert(mat) ==> TitaniumKept(old(w.pixels[..]), w.pixels[..])
        invariant ChunksWoken(old(w.chunks[..]), w.chunks[..])
      {
        x := x - 1;
        ghost var g, ch := w.pixels[..], w.chunks[..];
        grids, finals, traces := VisitLogged(w, mat, Pos(x, y), gravityStep, grids, row, finals, traces);
        ChunksWokenTrans(old(w.chunks[..]), ch, w.chunks[..]);
        if TitaniumInert(mat) {
          TitaniumKeptTrans(old(w.pixels[..]), g, w.pixels[..]);
        }
        row := row + [Pos(x, y)];
      }
    }
  }

  /** tile::simulate. Scans the rows from y = WorldSize - 1 down to 0, each in
      the direction a coin flip picks (`dirs`, bottom row first), updating the
      cells logged in `order` one after another (`grids` holds the grid
      before and after each); then clears every updated mark and copies
      every colour into the buffer. */
  method Simulate(w: World, mat: Table, gravityStep: Vec)
    returns (ghost dirs: seq<bool>, ghost order: seq<Pos>, ghost grids: seq<seq<Pixel>>,
             ghost finals: seq<Pos>, ghost traces: seq<Trace>)
    requires w.Wellformed()
    modifies w.pixels, w.chunks, w.buffer
    ensures |dirs| == WorldSize && |order| == Cells
    ensures forall k :: 0 <= k < Cells ==> order[k] == ScanPoint(dirs, k)
    ensures UpdatedAlong(mat, grids, order, gravityStep, finals, traces) && grids[0] == old(w.pixels[..])
    ensures |grids[Cells]| == Cells
    ensures forall i :: 0 <= i < Cells ==>
      w.pixels[i] == grids[Cells][i].(flags := grids[Cells][i].flags - {IsUpdated})
    ensures forall i :: 0 <= i < Cells ==> IsUpdated !in w.pixels[i].flags
    ensures forall i :: 0 <= i < Cells ==> w.buffer[i] == w.pixels[i].colour
    ensures TitaniumInert(mat) ==> TitaniumKept(old(w.pixels[..]), w.pixels[..])
    ensures ChunksWoken(old(w.chunks[..]), w.chunks[..])
  {
    dirs, order := [], [];
    grids, finals, traces := [w.pixels[..]], [], [];
    UpdatedAlongStart(mat, w.pixels[..], gravityStep);
    var y := WorldSize;
    while y != 0
      invariant 0 <= y <= WorldSize && |dirs| == WorldSize - y && |order| == WorldSize * |dirs|
      invariant forall k :: 0 <= k < |order| ==> order[k] == ScanPoint(dirs, k)
      invariant UpdatedAlong(mat, grids, order, gravityStep, finals, traces)
      invariant grids[0] == old(w.pixels[..]) && grids[|order|] == w.pixels[..]
      invariant TitaniumInert(mat) ==> TitaniumKept(old(w.pixels[..]), w.pixels[..])
      invariant ChunksWoken(old(w.chunks[..]), w.chunks[..])
    {
      y := y - 1;
      var flip := Oracle.CoinFlip();
      ghost var g, ch := w.pixels[..], w.chunks[..];
      ghost var row, rowGrids, rowFinals, rowTraces := VisitRow(w, mat, y, flip, gravityStep);
      ChunksWokenTrans(old(w.chunks[..]), ch, w.chunks[..]);
      if TitaniumInert(mat) {
        TitaniumKeptTrans(old(w.pixels[..]), g, w.pixels[..]);
      }
      ScanExtend(dirs, order, flip, row);
      UpdatedAlongJoin(mat, grids, order, finals, traces, rowGrids, row, rowFinals, rowTraces, gravityStep);
      dirs, order := dirs + [flip], order + row;
      grids, finals, traces := grids + rowGrids[1..], finals + rowFinals, traces + rowTraces;
    }
    ghost var scanned := w.pixels[..];
    forall i | 0 <= i < w.pixels.Length {
      w.pixels[i] := w.pixels[i].(flags := w.pixels[i].flags - {IsUpdated});
    }
    assert TitaniumKept(scanned, w.pixels[..]);
    if TitaniumInert(mat) {
      TitaniumKeptTrans(old(w.pixels[..]), scanned, w.pixels[..]);
    }
    ghost var cleared, woken := w.pixels[..], w.chunks[..];
    for i := 0 to Cells
      invariant w.pixels[..] == cleared && w.chunks[..] == woken
      invariant forall j :: 0 <= j < i ==> w.buffer[j] == w.pixels[j].colour
    {
      w.buffer[i] := w.pixels[i].colour;
    }
  }
}
