/**
  The anchor grid of the palm detector.

  The detector emits one row per anchor, 2016 rows in all. Each anchor is the
  centre of a cell of one of two square grids laid over the 192x192 model
  input: 24x24 cells of 8 pixels with 2 anchors per cell (1152 rows), then
  12x12 cells of 16 pixels with 6 anchors per cell (864 rows). Offsets are
  measured from the middle of the input, so a cell in column c of a grid of
  `rows` columns sits at cellWidth * (c - (rows - 1) / 2).

  The grid is stored flat, four slots per anchor: x offset, y offset and two
  slots that stay zero (the anchors contribute no width or height).
*/
module Anchors {

  /** Number of anchors, i.e. rows of the detector's output tensors. */
  const AnchorCount: nat := 2016
  /** Slots per anchor in the flat grid buffer. */
  const SlotsPerAnchor: nat := 4
  /** Number of anchors of the first (24x24) sub-grid. */
  const FineAnchors: nat := 1152

  /** Offset of column `c` of a grid of `rows` cells of `cellWidth` pixels. */
  function CellCentre(rows: nat, cellWidth: nat, c: int): real
  {
    cellWidth as real * (c as real - (rows - 1) as real * 0.5)
  }

  /** x offset written for the `j`-th anchor of a sub-grid: cell column (j / repeats) % rows. */
  function GridX(rows: nat, repeats: nat, cellWidth: nat, j: nat): real
    requires rows > 0 && repeats > 0
  {
    CellCentre(rows, cellWidth, (j / repeats) % rows)
  }

  /** y offset written for the `j`-th anchor of a sub-grid: cell row j / repeats / rows. */
  function GridY(rows: nat, repeats: nat, cellWidth: nat, j: nat): real
    requires rows > 0 && repeats > 0
  {
    CellCentre(rows, cellWidth, j / repeats / rows)
  }

  /**
    Value of slot `i` of a buffer whose old value there was `prev`, after the
    anchors 0 .. count-1 of a sub-grid have been written from slot `start` on.
  */
  function Filled(rows: nat, repeats: nat, cellWidth: nat, start: nat, count: nat, i: nat, prev: real): real
    requires rows > 0 && repeats > 0
  {
    if start <= i < start + 4 * count && (i - start) % 4 == 0 then GridX(rows, repeats, cellWidth, (i - start) / 4)
    else if start <= i < start + 4 * count && (i - start) % 4 == 1 then GridY(rows, repeats, cellWidth, (i - start) / 4)
    else prev
  }

  /**
    Writes the anchors of one sub-grid into `offsets` from slot `n` on and
    returns the advanced counter. Per anchor j the x offset goes to slot n,
    the y offset to slot n + 1, and the counter moves on by four, so slots
    n + 2 and n + 3 are never written. The caller must leave room up to the
    last write, slot n + 4 * (repeats * rows * rows) - 3.
  */
  method AddGrid(offsets: array<real>, rows: nat, repeats: nat, cellWidth: nat, n: nat) returns (next: nat)
    requires repeats * rows * rows == 0 || n + 4 * (repeats * rows * rows) <= offsets.Length + 2
    modifies offsets
    ensures next == n + 4 * (repeats * rows * rows)
    ensures repeats * rows * rows == 0 ==> offsets[..] == old(offsets[..])
    ensures repeats * rows * rows != 0 ==>
      forall i | 0 <= i < offsets.Length :: offsets[i] == Filled(rows, repeats, cellWidth, n, repeats * rows * rows, i, old(offsets[i]))
  {
    var total := repeats * rows * rows;
    if total == 0 {
      return n;
    }
    assert rows > 0 && repeats > 0;
    next := n;
    for j := 0 to total
      invariant next == n + 4 * j
      invariant forall i | 0 <= i < offsets.Length :: offsets[i] == Filled(rows, repeats, cellWidth, n, j, i, old(offsets[i]))
    {
      offsets[next] := GridX(rows, repeats, cellWidth, j);
      next := next + 1;
      offsets[next] := GridY(rows, repeats, cellWidth, j);
      next := next + 3;
    }
  }

  /** x offset of anchor `k` in closed form. */
  function AnchorX(k: nat): real
    requires k < AnchorCount
  {
    if k < FineAnchors then 8.0 * (((k / 2) % 24) as real - 11.5)
    else 16.0 * ((((k - FineAnchors) / 6) % 12) as real - 5.5)
  }

  /** y offset of anchor `k` in closed form. */
  function AnchorY(k: nat): real
    requires k < AnchorCount
  {
    if k < FineAnchors then 8.0 * ((k / 2 / 24) as real - 11.5)
    else 16.0 * (((k - FineAnchors) / 6 / 12) as real - 5.5)
  }

  /** Slot `i` of the flat anchor grid: x, y, then two zeros per anchor. */
  function AnchorSlot(i: nat): real
    requires i < AnchorCount * SlotsPerAnchor
  {
    if i % 4 == 0 then AnchorX(i / 4)
    else if i % 4 == 1 then AnchorY(i / 4)
    else 0.0
  }

  /** The whole flat anchor grid, as a value. */
  function AnchorTable(): seq<real>
  {
    seq(AnchorCount * SlotsPerAnchor, i requires 0 <= i < AnchorCount * SlotsPerAnchor => AnchorSlot(i))
  }

  /**
    Builds the anchor grid: a zeroed buffer of 2016 * 4 slots, filled by the
    24x24 sub-grid and then by the 12x12 sub-grid through one shared counter,
    which ends at exactly 8064.
  */
  method GetGridBoxCoords() returns (offsets: seq<real>)
    ensures offsets == AnchorTable()
  {
    var buffer := new real[AnchorCount * SlotsPerAnchor](_ => 0.0);
    var n := 0;
    n := AddGrid(buffer, 24, 2, 8, n);
    assert n == 4 * FineAnchors;
    ghost var afterFine := buffer[..];
    n := AddGrid(buffer, 12, 6, 16, n);
    assert n == AnchorCount * SlotsPerAnchor;
    forall i | 0 <= i < buffer.Length
      ensures buffer[i] == AnchorSlot(i)
    {
      if i < 4 * FineAnchors {
        assert buffer[i] == afterFine[i];
      } else {
        assert (i - 4 * FineAnchors) / 4 == i / 4 - FineAnchors;
      }
    }
    offsets := buffer[..];
  }

  /** The anchors lie on the 192x192 input: |x|, |y| <= 92 in the fine grid and <= 88 in the coarse one. */
  lemma AnchorBounds(k: nat)
    requires k < AnchorCount
    ensures k < FineAnchors ==> -92.0 <= AnchorX(k) <= 92.0 && -92.0 <= AnchorY(k) <= 92.0
    ensures FineAnchors <= k ==> -88.0 <= AnchorX(k) <= 88.0 && -88.0 <= AnchorY(k) <= 88.0
  {
  }

  /** The cell that anchor `k` belongs to, numbered row-major across both sub-grids. */
  function CellOf(k: nat): nat
    requires k < AnchorCount
  {
    if k < FineAnchors then k / 2 else 576 + (k - FineAnchors) / 6
  }

  /**
    Two anchors have the same offset exactly when they belong to the same
    cell: the `repeats` consecutive rows of a cell share it, and no two cells
    do, not even one of each sub-grid (fine-grid offsets are 4 more than a
    multiple of 8, coarse-grid ones are multiples of 8).
  */
  lemma SameOffsetIffSameCell(k: nat, l: nat)
    requires k < AnchorCount && l < AnchorCount
    ensures (AnchorX(k) == AnchorX(l) && AnchorY(k) == AnchorY(l)) <==> CellOf(k) == CellOf(l)
  {
  }

  /** The rows of a cell are consecutive and share its offset: 2 rows per cell in the fine grid, 6 in the coarse one. */
  lemma CellRowsShareOffset(k: nat, r: nat)
    requires k < FineAnchors ==> k % 2 == 0 && r < 2
    requires FineAnchors <= k ==> (k - FineAnchors) % 6 == 0 && r < 6
    requires k + r < AnchorCount
    ensures CellOf(k + r) == CellOf(k)
    ensures AnchorX(k + r) == AnchorX(k) && AnchorY(k + r) == AnchorY(k)
  {
  }
}
