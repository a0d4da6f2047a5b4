/** The world: a fixed square array of pixels, the chunk array of the sleep/wake
    scheduler and the colour buffer handed to the renderer, with the
    bounds-checked accessors every other component goes through. */
module Grid {
  import opened Materials
  import opened Lattice

  /** Scheduling state of one chunk. */
  datatype Chunk = Chunk(shouldStep: bool, shouldStepNext: bool)

  /** A chunk as the default member initialisers build it. */
  const FreshChunk := Chunk(true, true)

  // ---------------------------------------------------------------------------
  // Relations between two snapshots of the grid

  /** `b` is `a` with possibly more flags set and nothing else changed. */
  predicate FlagsGrew(a: Pixel, b: Pixel)
  {
    b == a.(flags := b.flags) && a.flags <= b.flags
  }

  /** The second chunk array is the first with some more should_step_next set. */
  predicate ChunksWoken(a: seq<Chunk>, b: seq<Chunk>)
  {
    |a| == |b|
    && forall j :: 0 <= j < |a| ==>
         b[j].shouldStep == a[j].shouldStep && (a[j].shouldStepNext ==> b[j].shouldStepNext)
  }

  /** Chunk `j` exists and will be stepped next frame. */
  predicate SteppedNext(cs: seq<Chunk>, j: int)
  {
    0 <= j < |cs| && cs[j].shouldStepNext
  }

  /** `b` is `a` with should_step_next set on exactly the chunks in `woken`. */
  predicate MarkedFrom(a: seq<Chunk>, b: seq<Chunk>, woken: set<int>)
  {
    |a| == |b|
    && forall j :: 0 <= j < |a| ==> b[j] == if j in woken then a[j].(shouldStepNext := true) else a[j]
  }

  /** The second chunk array is the first with should_step_next set on some of
      the chunks in `s` and nothing else changed. */
  predicate WokenOnly(a: seq<Chunk>, b: seq<Chunk>, s: set<int>)
  {
    |a| == |b|
    && forall j :: 0 <= j < |a| ==> b[j] == a[j] || (j in s && b[j] == a[j].(shouldStepNext := true))
  }

  lemma MarkedIsWokenOnly(a: seq<Chunk>, b: seq<Chunk>, s: set<int>)
    requires MarkedFrom(a, b, s)
    ensures WokenOnly(a, b, s) && ChunksWoken(a, b)
  {
  }

  lemma WokenOnlyTrans(a: seq<Chunk>, b: seq<Chunk>, c: seq<Chunk>, s: set<int>)
    requires WokenOnly(a, b, s) && WokenOnly(b, c, s)
    ensures WokenOnly(a, c, s) && ChunksWoken(a, c)
  {
  }

  /** Marking chunks twice marks the union of the two sets. */
  lemma MarkedTrans(a: seq<Chunk>, b: seq<Chunk>, c: seq<Chunk>, s: set<int>, t: set<int>)
    requires MarkedFrom(a, b, s) && MarkedFrom(b, c, t)
    ensures MarkedFrom(a, c, s + t)
  {
  }

  /** Marking no chunk changes nothing. */
  lemma MarkedNone(a: seq<Chunk>)
    ensures MarkedFrom(a, a, {})
  {
  }

  /** Every titanium cell of the first grid is still titanium in the second. */
  predicate TitaniumKept(a: seq<Pixel>, b: seq<Pixel>)
  {
    |a| == |b| && forall i :: 0 <= i < |a| && a[i].kind == PixelType.Titanium ==> b[i].kind == PixelType.Titanium
  }

  lemma ChunksWokenTrans(a: seq<Chunk>, b: seq<Chunk>, c: seq<Chunk>)
    requires ChunksWoken(a, b) && ChunksWoken(b, c)
    ensures ChunksWoken(a, c)
  {
  }

  lemma TitaniumKeptTrans(a: seq<Pixel>, b: seq<Pixel>, c: seq<Pixel>)
    requires TitaniumKept(a, b) && TitaniumKept(b, c)
    ensures TitaniumKept(a, c)
  {
  }

  /** The grid after exchanging two slots. */
  function Swapped<T>(s: seq<T>, i: int, j: int): (r: seq<T>)
    requires 0 <= i < |s| && 0 <= j < |s|
    ensures |r| == |s| && r[i] == s[j] && r[j] == s[i]
    ensures forall k :: 0 <= k < |s| && k != i && k != j ==> r[k] == s[k]
  {
    s[i := s[j]][j := s[i]]
  }

  /** Swapping twice restores the grid. */
  lemma SwapTwice<T>(s: seq<T>, i: int, j: int)
    requires 0 <= i < |s| && 0 <= j < |s|
    ensures Swapped(Swapped(s, i, j), i, j) == s
  {
    var r := Swapped(Swapped(s, i, j), i, j);
    assert forall k :: 0 <= k < |s| ==> r[k] == s[k];
  }

  /** Swapping a cell with itself changes nothing. */
  lemma SwapSelf<T>(s: seq<T>, i: int)
    requires 0 <= i < |s|
    ensures Swapped(s, i, i) == s
  {
  }

  class World {
    const pixels: array<Pixel>
    const chunks: array<Chunk>
    /** The renderer's copy of every cell's colour. */
    const buffer: array<real>

    ghost predicate Wellformed()
    {
      pixels.Length == Cells && chunks.Length == ChunkCount && buffer.Length == Cells
    }

    /** A fresh world: every cell is air and every chunk wants stepping. */
    constructor ()
      ensures Wellformed()
      ensures forall i :: 0 <= i < Cells ==> pixels[i] == Pixel.Air() && buffer[i] == Pixel.Air().colour
      ensures forall j :: 0 <= j < ChunkCount ==> chunks[j] == FreshChunk
    {
      pixels := new Pixel[Cells](_ => Pixel.Air());
      buffer := new real[Cells](_ => Pixel.Air().colour);
      chunks := new Chunk[ChunkCount](_ => FreshChunk);
    }

    /** The cell at a valid position. */
    function At(p: Pos): Pixel
      reads pixels
      requires Wellformed() && Lattice.Valid(p)
    {
      pixels[Index(p)]
    }

    /** Overwrites one cell and leaves every other cell as it was. */
    method Set(p: Pos, px: Pixel)
      requires Wellformed() && Lattice.Valid(p)
      modifies pixels
      ensures pixels[..] == old(pixels[..])[Index(p) := px]
    {
      pixels[Index(p)] := px;
    }

    /** Overwrites every cell with the same pixel. */
    method Fill(px: Pixel)
      requires Wellformed()
      modifies pixels
      ensures forall i :: 0 <= i < pixels.Length ==> pixels[i] == px
    {
      forall i | 0 <= i < pixels.Length {
        pixels[i] := px;
      }
    }

    /** Exchanges two cells and returns the second position, where the first
        cell's content now is. */
    method Swap(lhs: Pos, rhs: Pos) returns (r: Pos)
      requires Wellformed() && Lattice.Valid(lhs) && Lattice.Valid(rhs)
      modifies pixels
      ensures r == rhs
      ensures pixels[..] == Swapped(old(pixels[..]), Index(lhs), Index(rhs))
    {
      pixels[Index(lhs)], pixels[Index(rhs)] := pixels[Index(rhs)], pixels[Index(lhs)];
      r := rhs;
    }

    /** Marks the pixel's chunk, and the neighbour chunk across a boundary the
        pixel lies on, for stepping in the next frame. */
    method WakeChunkWithPixel(p: Pos)
      requires Wellformed() && WakeDomain(p)
      modifies chunks
      ensures MarkedFrom(old(chunks[..]), chunks[..], WokenChunks(p))
      ensures ChunksWoken(old(chunks[..]), chunks[..])
    {
      ghost var base := chunks[..];
      var c := ChunkOf(p);
      WakeNeighboursInRange(p);
      ghost var woken := Mark(ChunkIndex(c), base, {});
      assert woken == {ChunkIndex(c)};
      woken := WakeNeighbour(OnRightEdge(p), Add(c, Pos(1, 0)), base, woken);
      woken := WakeNeighbour(OnLeftEdge(p), Add(c, Pos(-1, 0)), base, woken);
      woken := WakeNeighbour(OnBottomEdge(p), Add(c, Pos(0, 1)), base, woken);
      woken := WakeNeighbour(OnTopEdge(p), Add(c, Pos(0, -1)), base, woken);
      MarkedIsWokenOnly(base, chunks[..], woken);
    }

    /** One neighbour test of the wake: when the pixel lies on the boundary
        (`onEdge`) and the neighbour's chunk coordinate passes the grid's bounds
        test, that chunk is marked. */
    method WakeNeighbour(onEdge: bool, n: Pos, ghost base: seq<Chunk>, ghost woken: set<int>) returns (ghost woken': set<int>)
      requires Wellformed() && (onEdge && Lattice.Valid(n) ==> 0 <= ChunkIndex(n) < ChunkCount)
      requires MarkedFrom(base, chunks[..], woken)
      modifies chunks
      ensures woken' == woken + NeighbourWake(onEdge, n)
      ensures MarkedFrom(base, chunks[..], woken')
    {
      woken' := woken;
      if onEdge {
        if Lattice.Valid(n) {
          woken' := Mark(ChunkIndex(n), base, woken);
        }
      }
    }

    /** Sets should_step_next of chunk `j`; `woken` tracks the chunks marked so far. */
    method Mark(j: int, ghost base: seq<Chunk>, ghost woken: set<int>) returns (ghost woken': set<int>)
      requires Wellformed() && 0 <= j < ChunkCount
      requires MarkedFrom(base, chunks[..], woken)
      modifies chunks
      ensures woken' == woken + {j}
      ensures MarkedFrom(base, chunks[..], woken')
    {
      chunks[j] := chunks[j].(shouldStepNext := true);
      woken' := woken + {j};
    }
  }
}
