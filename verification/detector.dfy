/**
  Per-frame decoding of the palm detector's output.

  The inference engine returns two tensors: 2016 rows of 18 regressor values
  (box centre x, y, width, height, then seven landmark x, y pairs, all in
  model pixels relative to the row's anchor) and 2016 scores. Anchors are
  added to the box centres, the rows are ranked by score, and at most the
  four best rows scoring at least 0.8 become palms: a rectangle and seven
  landmarks in frame pixels.
*/
module Detector {
  import opened Anchors
  import opened Geometry
  import opened Ranking

  /** Values per regressor row. */
  const RegressorWidth: nat := 18
  /** Landmarks per palm. */
  const LandmarkCount: nat := 7

  /** A palm to draw: the row it came from, its score, its box and its landmarks, in frame pixels. */
  datatype Palm = Palm(index: nat, score: real, box: Rect, landmarks: seq<Point>)

  /**
    The decoded boxes: the first four values of every regressor row plus the
    anchor grid, slot by slot (centre offsets gain the anchor, sizes gain the
    grid's zeros).
  */
  function AddAnchors(regressors: seq<real>, anchors: seq<real>): (boxes: seq<real>)
    requires |regressors| == AnchorCount * RegressorWidth
    requires |anchors| == AnchorCount * SlotsPerAnchor
    ensures |boxes| == |anchors|
  {
    seq(AnchorCount * SlotsPerAnchor, i requires 0 <= i < AnchorCount * SlotsPerAnchor =>
      regressors[RegressorWidth * (i / 4) + i % 4] + anchors[i])
  }

  /** Row `k` of the decoded boxes, as a model-space box. */
  function BoxAt(boxes: seq<real>, k: nat): CentreBox
    requires |boxes| == AnchorCount * SlotsPerAnchor && k < AnchorCount
  {
    CentreBox(boxes[4 * k], boxes[4 * k + 1], boxes[4 * k + 2], boxes[4 * k + 3])
  }

  /**
    Offset of landmark `i` of row `k` from the row's regressed box centre:
    the landmark's regressed position minus the box centre's regressed
    position (both relative to the anchor, which cancels out).
  */
  function LandmarkOffset(regressors: seq<real>, k: nat, i: nat): Point
    requires |regressors| == AnchorCount * RegressorWidth
    requires k < AnchorCount && i < LandmarkCount
  {
    var row := RegressorWidth * k;
    Point(regressors[row + 4 + 2 * i] - regressors[row], regressors[row + 5 + 2 * i] - regressors[row + 1])
  }

  /**
    The palm drawn for ranked entry `entry`: it keeps the entry's row and
    score, its box is the frame image of the row's decoded box, and it has
    seven landmarks.
  */
  function DecodePalm(regressors: seq<real>, boxes: seq<real>, entry: Scored, scaleX: real, scaleY: real): (p: Palm)
    requires |regressors| == AnchorCount * RegressorWidth
    requires |boxes| == AnchorCount * SlotsPerAnchor
    requires entry.index < AnchorCount
    ensures p.index == entry.index && p.score == entry.score
    ensures p.box == ToImage(BoxAt(boxes, entry.index), scaleX, scaleY)
    ensures |p.landmarks| == LandmarkCount
  {
    var r := ToImage(BoxAt(boxes, entry.index), scaleX, scaleY);
    Palm(entry.index, entry.score, r,
         seq(LandmarkCount, i requires 0 <= i < LandmarkCount => Landmark(r, LandmarkOffset(regressors, entry.index, i), scaleX)))
  }

  /**
    One frame's post-processing. `outputs` are the two tensors the inference
    engine returned, flattened; the frame is `width` x `height` pixels.
    Returns the ranked (index, score) list and the palms drawn, which are the
    longest run of at most four best-ranked rows scoring at least 0.8.
  */
  method DetectPalms(outputs: seq<seq<real>>, width: nat, height: nat) returns (ranked: seq<Scored>, palms: seq<Palm>)
    requires |outputs| == 2
    requires |outputs[0]| == AnchorCount * RegressorWidth
    requires |outputs[1]| == AnchorCount
    ensures IsRanking(outputs[1], ranked)
    ensures forall k | 0 <= k < |ranked| :: ranked[k].index < AnchorCount && ranked[k].score == outputs[1][ranked[k].index]
    ensures IsSelection(ranked, |palms|)
    ensures forall k | 0 <= k < |palms| ::
      palms[k] == DecodePalm(outputs[0], AddAnchors(outputs[0], AnchorTable()), ranked[k], ScaleFor(width), ScaleFor(height))
  {
    // Removing the first output twice, each time swapping the last one into
    // its place, yields the regressors and then the scores.
    var regressors := outputs[0];
    var scores := outputs[1];
    var offsets := GetGridBoxCoords();
    var boxes := AddAnchors(regressors, offsets);
    var scaleX := ScaleFor(width);
    var scaleY := ScaleFor(height);
    ranked := RankScores(scores);
    RankedEntries(scores, ranked);
    palms := DrawPalms(regressors, boxes, ranked, scaleX, scaleY);
  }

  /**
    The drawing loop: walks the first four ranked entries, stops at the
    first score below 0.8, and decodes a palm for each entry before it.
  */
  method DrawPalms(regressors: seq<real>, boxes: seq<real>, ranked: seq<Scored>, scaleX: real, scaleY: real)
    returns (palms: seq<Palm>)
    requires |regressors| == AnchorCount * RegressorWidth
    requires |boxes| == AnchorCount * SlotsPerAnchor
    requires MaxDrawn <= |ranked|
    requires forall k | 0 <= k < |ranked| :: ranked[k].index < AnchorCount
    ensures IsSelection(ranked, |palms|)
    ensures forall k | 0 <= k < |palms| :: palms[k] == DecodePalm(regressors, boxes, ranked[k], scaleX, scaleY)
  {
    palms := [];
    for k := 0 to MaxDrawn
      invariant |palms| == k
      invariant forall q | 0 <= q < k :: ranked[q].score >= ScoreThreshold
      invariant forall q | 0 <= q < k :: palms[q] == DecodePalm(regressors, boxes, ranked[q], scaleX, scaleY)
    {
      var entry := ranked[k];
      if entry.score < ScoreThreshold {
        break;
      }
      palms := palms + [DecodePalm(regressors, boxes, entry, scaleX, scaleY)];
    }
  }

  /** Slot `4 * k + j` of a flat buffer belongs to row `k`, column `j`. */
  lemma SlotOf(k: nat, j: nat)
    requires j < 4
    ensures (4 * k + j) / 4 == k && (4 * k + j) % 4 == j
  {
  }

  /**
    Anchor addition on the real grid: a row's box centre is its regressed
    centre plus its anchor, and its width and height are the regressed ones,
    unchanged.
  */
  lemma DecodedBox(regressors: seq<real>, k: nat)
    requires |regressors| == AnchorCount * RegressorWidth && k < AnchorCount
    ensures BoxAt(AddAnchors(regressors, AnchorTable()), k) ==
      CentreBox(regressors[RegressorWidth * k] + AnchorX(k), regressors[RegressorWidth * k + 1] + AnchorY(k),
                regressors[RegressorWidth * k + 2], regressors[RegressorWidth * k + 3])
  {
    var boxes, table := AddAnchors(regressors, AnchorTable()), AnchorTable();
    SlotOf(k, 0);
    SlotOf(k, 1);
    SlotOf(k, 2);
    SlotOf(k, 3);
    assert boxes[4 * k] == regressors[RegressorWidth * k] + table[4 * k];
    assert boxes[4 * k + 1] == regressors[RegressorWidth * k + 1] + table[4 * k + 1];
    assert boxes[4 * k + 2] == regressors[RegressorWidth * k + 2] + table[4 * k + 2];
    assert boxes[4 * k + 3] == regressors[RegressorWidth * k + 3] + table[4 * k + 3];
    assert table[4 * k] == AnchorX(k);
    assert table[4 * k + 1] == AnchorY(k);
    assert table[4 * k + 2] == 0.0 && table[4 * k + 3] == 0.0;
  }

  /**
    Where a palm's box comes from: it is the frame image of the row's
    model-space box, whose centre is the regressed centre plus the row's
    anchor and whose size is the regressed size (see `ToImageMeaning` for
    what the frame image is).
  */
  lemma PalmBox(regressors: seq<real>, entry: Scored, scaleX: real, scaleY: real)
    requires |regressors| == AnchorCount * RegressorWidth && entry.index < AnchorCount
    ensures var p := DecodePalm(regressors, AddAnchors(regressors, AnchorTable()), entry, scaleX, scaleY);
      var k, row := entry.index, RegressorWidth * entry.index;
      && p.index == k && p.score == entry.score
      && p.box == ToImage(CentreBox(regressors[row] + AnchorX(k), regressors[row + 1] + AnchorY(k),
                                    regressors[row + 2], regressors[row + 3]), scaleX, scaleY)
  {
    DecodedBox(regressors, entry.index);
  }

  /** Unfolds landmark `i` of a palm: the box's corner plus the landmark's offset from the centre, scaled by `scaleX`. */
  lemma PalmLandmarks(regressors: seq<real>, boxes: seq<real>, entry: Scored, scaleX: real, scaleY: real, i: nat)
    requires |regressors| == AnchorCount * RegressorWidth && |boxes| == AnchorCount * SlotsPerAnchor
    requires entry.index < AnchorCount && i < LandmarkCount
    ensures var p := DecodePalm(regressors, boxes, entry, scaleX, scaleY);
      |p.landmarks| == LandmarkCount && p.landmarks[i] == Landmark(p.box, LandmarkOffset(regressors, entry.index, i), scaleX)
  {
  }

  /**
    Where a palm's landmarks land, for any frame: landmark i is the frame
    image of its absolute model-space position (anchor plus regressed
    landmark), moved up and left by half the box size, because the offsets
    are added to the box's corner and not to its centre, and moved down by
    its vertical offset from the box centre times `scaleX - scaleY`, because
    that offset is scaled by the horizontal factor.
  */
  lemma PalmLandmarkPlacement(regressors: seq<real>, entry: Scored, scaleX: real, scaleY: real, i: nat)
    requires |regressors| == AnchorCount * RegressorWidth && entry.index < AnchorCount
    requires i < LandmarkCount
    ensures var p := DecodePalm(regressors, AddAnchors(regressors, AnchorTable()), entry, scaleX, scaleY);
      var k, row := entry.index, RegressorWidth * entry.index;
      |p.landmarks| == LandmarkCount &&
      p.landmarks[i] ==
        Point(ToFrame(AnchorX(k) + regressors[row + 4 + 2 * i], scaleX) - p.box.width / 2.0,
              ToFrame(AnchorY(k) + regressors[row + 5 + 2 * i], scaleY) - p.box.height / 2.0
                + Drift(regressors[row + 5 + 2 * i] - regressors[row + 1], scaleX, scaleY))
  {
    var k, row := entry.index, RegressorWidth * entry.index;
    var anchor, centre := Point(AnchorX(k), AnchorY(k)), Point(regressors[row], regressors[row + 1]);
    var size, mark := Point(regressors[row + 2], regressors[row + 3]), Point(regressors[row + 4 + 2 * i], regressors[row + 5 + 2 * i]);
    PalmLandmarkIsLandmark(regressors, entry, scaleX, scaleY, i);
    LandmarkPlacement(anchor, centre, size, mark, scaleX, scaleY);
  }

  /** Landmark `i` of a palm decoded against the anchor grid, with its box and offset written out. */
  lemma PalmLandmarkIsLandmark(regressors: seq<real>, entry: Scored, scaleX: real, scaleY: real, i: nat)
    requires |regressors| == AnchorCount * RegressorWidth && entry.index < AnchorCount
    requires i < LandmarkCount
    ensures var p := DecodePalm(regressors, AddAnchors(regressors, AnchorTable()), entry, scaleX, scaleY);
      var k, row := entry.index, RegressorWidth * entry.index;
      var r := ToImage(CentreBox(AnchorX(k) + regressors[row], AnchorY(k) + regressors[row + 1],
                                 regressors[row + 2], regressors[row + 3]), scaleX, scaleY);
      |p.landmarks| == LandmarkCount && p.box == r &&
      p.landmarks[i] == Landmark(r, Point(regressors[row + 4 + 2 * i] - regressors[row],
                                          regressors[row + 5 + 2 * i] - regressors[row + 1]), scaleX)
  {
    var k, row := entry.index, RegressorWidth * entry.index;
    var boxes := AddAnchors(regressors, AnchorTable());
    var p := DecodePalm(regressors, boxes, entry, scaleX, scaleY);
    PalmBox(regressors, entry, scaleX, scaleY);
    assert CentreBox(regressors[row] + AnchorX(k), regressors[row + 1] + AnchorY(k), regressors[row + 2], regressors[row + 3])
        == CentreBox(AnchorX(k) + regressors[row], AnchorY(k) + regressors[row + 1], regressors[row + 2], regressors[row + 3]);
    PalmLandmarks(regressors, boxes, entry, scaleX, scaleY, i);
  }

  /**
    In a square frame (equal scale factors) the vertical drift vanishes:
    landmark i is the frame image of anchor plus regressed landmark, moved
    up and left by half the box size.
  */
  lemma SquareFrameLandmarks(regressors: seq<real>, entry: Scored, scale: real, i: nat)
    requires |regressors| == AnchorCount * RegressorWidth && entry.index < AnchorCount
    requires i < LandmarkCount
    ensures var p := DecodePalm(regressors, AddAnchors(regressors, AnchorTable()), entry, scale, scale);
      var k, row := entry.index, RegressorWidth * entry.index;
      |p.landmarks| == LandmarkCount &&
      p.landmarks[i] == Point(ToFrame(AnchorX(k) + regressors[row + 4 + 2 * i], scale) - p.box.width / 2.0,
                              ToFrame(AnchorY(k) + regressors[row + 5 + 2 * i], scale) - p.box.height / 2.0)
  {
    var row := RegressorWidth * entry.index;
    PalmLandmarkPlacement(regressors, entry, scale, scale, i);
    assert Drift(regressors[row + 5 + 2 * i] - regressors[row + 1], scale, scale) == 0.0;
  }
}
