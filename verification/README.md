# Palm detector post-processing, modelled in Dafny

This project models the per-frame decoding step of a webcam palm detector
(`MyApp::update` in `src/main.rs`). The inference engine hands back two
tensors: 2016 rows of 18 regressor values and 2016 scores. The decoding step
does four things:

- It builds the anchor grid. This is a flat buffer of 2016 × 4 offsets,
  filled in place by `add_grid` through a shared counter. The first sub-grid
  has 24×24 cells with 2 anchors per cell. The second has 12×12 cells with 6
  anchors per cell.
- It adds each row's anchor to the first four regressor values of that row.
- It pairs every score with its row index and sorts the pairs by descending
  score with a stable sort. It then walks at most the first four pairs and
  stops at the first score below 0.8.
- It maps each accepted row to the camera frame. The box centre is shifted
  by 96, scaled per axis by frame size / 192, and turned into a top-left
  corner. Each of the seven landmarks is placed at that corner plus its
  offset from the regressed centre, scaled by `scale_x`.

Modules:

- `Anchors` (`anchors.dfy`): `AddGrid` is an in-place loop over an `array`.
  `GetGridBoxCoords` returns the filled buffer as a sequence. The grid also
  has a closed form (`AnchorX`, `AnchorY`, `AnchorSlot`).
- `Ranking` (`ranking.dfy`): the enumerate-and-sort step is a stable
  insertion sort on an array of `(index, score)` pairs. `IsSelection`
  describes which entries the top-four walk accepts.
- `Geometry` (`geometry.dfy`): maps boxes and landmarks from model space to
  the frame, and back.
- `Detector` (`detector.dfy`): anchor addition, the per-frame method
  `DetectPalms`, and the drawing loop `DrawPalms` with its early exit.

Scores are plain ordered keys of type `real`. Coordinates are exact `real`
values. The anchor offsets are whole numbers (8·c − 92 and 16·c − 88), so
`real` is exact for them.

## Model

| member | source | states |
|---|---|---|
| `Anchors.AddGrid` | src/main.rs:113-128 | The counter advances by exactly 4 per anchor, ending at n + 4·repeats·rows². Anchor j's x and y offsets go to slots n+4j and n+4j+1. Every other slot keeps its old value. The precondition only requires room up to the last slot written. |
| `Anchors.GetGridBoxCoords` | src/main.rs:106-111 | The returned buffer equals the closed-form table `AnchorTable` of 2016·4 = 8064 slots. (That the shared counter ends at exactly 8064, 1152 rows and then 864, follows from `AddGrid`'s counter postcondition and is asserted in the body, not stated by this contract.) Slot 4k holds anchor k's x offset and slot 4k+1 its y offset, in the closed form 8·(((k/2)%24) − 11.5) and 8·((k/2/24) − 11.5) for k < 1152, and 16·(…−5.5) with j = k − 1152 after that. Slots 4k+2 and 4k+3 stay 0. |
| `Anchors.AnchorBounds` | src/main.rs:120-125 | Both offsets lie within ±92 in the first sub-grid and within ±88 in the second, so every anchor lies on the 192×192 input. |
| `Anchors.SameOffsetIffSameCell` | src/main.rs:120-125 | Any two anchors have the same (x, y) offset if and only if they belong to the same cell. This holds across the two sub-grids too: no fine cell shares its offset with a coarse cell. |
| `Anchors.CellRowsShareOffset` | src/main.rs:120-125 | The rows of one cell are consecutive (2 per cell in the first sub-grid, 6 in the second) and share the cell's (x, y) offset. |
| `Detector.AddAnchors` | src/main.rs:136 | The decoded boxes have exactly one slot per grid slot (2016·4). What each slot holds on the real grid is stated by `DecodedBox`. |
| `Detector.DecodedBox` | src/main.rs:136 | After `regressors[.., 0..4] + anchors`, row k's centre is the regressed centre plus anchor k. Its width and height (columns 2 and 3) are the regressed ones, unchanged, because the grid's slots there are 0. |
| `Geometry.ScaleFor` | src/main.rs:138-139 | The scale factor times 192 is the frame size, and it is positive for a non-empty frame. |
| `Geometry.ToImage` | src/main.rs:156-168 | The mapped rectangle's centre is the frame image of the box centre, (cx + 96)·scale_x and (cy + 96)·scale_y. Its width is w·scale_x and its height h·scale_y. |
| `Geometry.ToImageMeaning` | src/main.rs:156-168 | The mapped rectangle's centre is ((cx + 96)·scale_x, (cy + 96)·scale_y). Its width is w·scale_x and its height h·scale_y. Its top-left corner is ((cx + 96)·scale_x − w·scale_x/2, (cy + 96)·scale_y − h·scale_y/2). |
| `Geometry.ModelRoundTrip` | src/main.rs:156-168 | For non-zero scale factors, mapping a model-space box to the frame and back recovers it exactly. |
| `Geometry.ImageRoundTrip` | src/main.rs:156-168 | Conversely, every frame rectangle is the image of the model-space box obtained by mapping it back. |
| `Geometry.InsideInputMapsInsideFrame` | src/main.rs:156-168 | A box that lies inside the 192×192 input maps inside the frame [0, 192·scale_x] × [0, 192·scale_y]. |
| `Geometry.Landmark` | src/main.rs:175-181 | Defines one landmark of lines 176-181: the rectangle's corner plus the offset scaled by scale_x on both axes. Its own contract only reads that definition back. Where the landmark lands relative to the model-space landmark is stated by `Geometry.LandmarkPlacement`. |
| `Geometry.LandmarkPlacement` | src/main.rs:156-181 | For any two scale factors, a landmark lands at the frame image of its own model position (anchor + regressed landmark), moved up and left by half the box's frame size, and moved vertically by its vertical offset from the centre times (scale_x − scale_y). |
| `Geometry.CornerLandmark` | src/main.rs:175-181 | With one scale on both axes the vertical drift is zero: a landmark lands at the frame image of its own model position, moved up and left by half the box's frame size. |
| `Detector.DecodePalm` | src/main.rs:156-181 | Defines the palm drawn for one ranked entry (lines 156-181). Its own contract only reads back the fields it builds: index, score, box and landmark count. What the box and landmarks are on the anchor grid is stated by `Detector.PalmBox` and `Detector.PalmLandmarkPlacement`. |
| `Detector.PalmBox` | src/main.rs:156-168 | A palm keeps its row index and score. Its box is the frame image of the model-space box centred at regressed centre + anchor, with the regressed size. |
| `Detector.PalmLandmarkPlacement` | src/main.rs:156-181 | For any frame, landmark i of a drawn palm is at the frame image of anchor + regressed landmark i, minus half the box's frame size, plus a vertical drift of (reg[5+2i] − reg[1])·(scale_x − scale_y). The drift is zero only for a square frame or a landmark level with the box centre. |
| `Detector.SquareFrameLandmarks` | src/main.rs:156-181 | In a square frame (the special case of `PalmLandmarkPlacement`), landmark i of a drawn palm is at the frame image of anchor + regressed landmark, minus half the box's frame size. |
| `Ranking.RankScores` | src/main.rs:141-142 | The result has one entry per score and is a permutation (as a multiset) of `enumerate(scores)`. Scores are non-increasing, and entries with equal scores are in index order, as a stable sort leaves them. |
| `Ranking.InsertLast` | src/main.rs:142 | One insertion step of the in-place sort: the prefix up to i is ranked afterwards, the slots after i are unchanged, and the array's multiset of entries is unchanged. |
| `Ranking.Swap` | src/main.rs:142 | Exchanges two neighbouring entries and leaves every other slot and the multiset of entries unchanged. |
| `Ranking.RankedEntries` | src/main.rs:141 | Every ranked entry is a valid row index paired with that row's own score. |
| `Ranking.EveryRowRanked` | src/main.rs:141 | Every row appears in the ranking with its score. |
| `Ranking.RankedRowsDistinct` | src/main.rs:141-142 | No row index appears twice in the ranking. |
| `Ranking.HigherScoreRankedEarlier` | src/main.rs:142 | A row whose score is strictly higher than the entry at rank p is ranked before p. |
| `Ranking.RankedUnique` | src/main.rs:142 | Two ranked sequences with the same elements are equal. |
| `Ranking.RankingUnique` | src/main.rs:141-142 | The ranking is determined by the scores alone. Any stable sort by descending score gives the same list as the insertion sort modelled here. |
| `Ranking.SelectionUnique` | src/main.rs:150-155 | The walk over the first four entries accepts exactly one well-defined number of entries. |
| `Ranking.ConfidentRowsAccepted` | src/main.rs:150-155 | When fewer than four entries are accepted, every row scoring ≥ 0.8 is among them. |
| `Ranking.AcceptedOutscoreRest` | src/main.rs:150-155 | No row left out of the accepted entries scores higher than an accepted one. |
| `Ranking.OnlyConfidentRowAccepted` | src/main.rs:150-155 | When exactly one row scores ≥ 0.8, exactly one entry is accepted, and it is that row. |
| `Detector.DrawPalms` | src/main.rs:150-181 | The loop with its early `break` accepts exactly the entries `IsSelection` describes. Palm k is ranked entry k decoded and mapped to the frame. |
| `Detector.DetectPalms` | src/main.rs:104-181 | Takes the two outputs (regressors first, then scores) and the frame size. Returns the stable descending ranking of the scores and the palms drawn. The palms are for the longest prefix of the first 4 ranked entries whose scores are all ≥ 0.8: at most 4, none after the first score below 0.8. Palm k is ranked entry k decoded against the anchor grid and mapped with scale factors width/192 and height/192. |

## Left out

- Camera capture and frame decoding (`get_pixel_data`, `Camera::new`, `open_stream`): device I/O. The frame reaches the model only through its width and height.
- Session construction, CUDA registration, `session.run` and tensor extraction: foreign inference calls. Their two outputs are inputs of `DetectPalms`: a flat regressor sequence of 2016·18 values and 2016 scores.
- Resizing the frame to 192×192 with the Triangle filter and dividing by 255: floating-point image processing inside a library.
- All drawing and GUI code: rectangles, circles, egui textures, the four score labels and `request_repaint`. This is rendering only.
- `assert_eq!(outputs.len(), 2)`, the `unwrap`s on reshapes, and the `scores[..4]` slice would panic on bad shapes. Here they are preconditions, so the model has no error path for them.
- The sort: Rust's `sort_by` is a stable merge sort, while the model uses a stable insertion sort. `RankingUnique` shows both give the same list. `total_cmp` on NaN and on −0.0 versus +0.0 is not modelled, because scores are `real`.
- DetectPalms: coordinates are exact reals. The model does not cover f32 rounding, the truncating, saturating `as i32` / `as u32` casts of the box corner, size and landmark offsets, or the `.max(1)` applied to the drawn size.
- `swap_remove(0)` is not modelled as a vector operation. Calling it twice on a two-element vector yields the first output and then the second, which is how `DetectPalms` reads them.
