# Colour-sort tube puzzle: recognition and goal test

This project models the pure logic in the tube-puzzle solver's recognition and
puzzle code. The repository reads a screenshot of a colour-sort puzzle. It
finds the tubes by their grey outline, packs each sampled pixel into a 24-bit
colour token, and decides whether an arrangement of tubes is solved.

Modules:

- `Pixels` (pixels.dfy): `pack`, which turns an RGB pixel into `r << 16 | g << 8 | b`
  in a `u32`, and the tube-marker colour `0xBCBCBC`. Both source files define the
  same `pack` (src/puzzle.rs:142-144 and src/recognition.rs:88-90), and both compare a
  packed pixel with the marker (src/puzzle.rs:34 and src/recognition.rs:52). The model
  defines each of these once.
- `Tubes` (tubes.dfy): the tube record. `Tube` (src/puzzle.rs:79-105) and `ParsedTube`
  (src/recognition.rs:7-34) have the same fields and the same `new`, `inside` and
  id-only `PartialEq`, so one datatype models both. The coordinate and size fields
  are unbounded `nat`s. The `u32` range enters only through `New`'s requires (its
  arguments are below 2^32) and `Inside`'s requires (`x + width` and `y + height`
  are below 2^32). Colours are `bv32`.
- `Goal` (goal.dfy): `solved` from src/puzzle.rs:146-162. The method is written as
  the source's two loops, and it is proved equal to the reference reading "every
  tube's units all have one colour".
- `Recognition` (recognition.dfy): two pure steps of the scan. One is the "skip
  pixels already inside a known tube" loop. The other is placing a new tube's box
  at the marker pixel.
- `Wrappers` (wrappers.dfy): `Option`, used for the scan step that has no value on
  unsigned underflow.

The code of `solved` has no length or fullness check: a tube holding `[c]` or `[c, c]` counts as solved. The model follows the code.
`Goal.PartialTubesSolved` states it.

## Model

| member | source | states |
|---|---|---|
| `Pixels.PackChannels` | src/puzzle.rs:142-144 | The packed colour is below 2^24, and bytes 2, 1 and 0 of it are red, green and blue |
| `Pixels.PackIsSum` | src/puzzle.rs:143 | The three shifted channels have disjoint bits, so the bitwise or equals their sum |
| `Pixels.PackArithmetic` | src/puzzle.rs:142-144 | The packed colour equals r * 65536 + g * 256 + b, and that value is below 2^24, so the 32-bit arithmetic never wraps |
| `Pixels.UnpackPack` | src/recognition.rs:88-90 | Reading the three bytes back out of a packed colour gives the original pixel |
| `Pixels.PackUnpack` | src/recognition.rs:88-90 | Every value below 2^24 is the packing of the pixel its bytes describe, so `pack` maps pixels onto all 24-bit values |
| `Pixels.PackInjective` | src/recognition.rs:88-90 | Two pixels pack to the same colour if and only if they are the same pixel |
| `Pixels.MarkerIsGrey` | src/recognition.rs:52 | A pixel's packed colour equals the tube marker 0xBCBCBC if and only if all three channels are 0xBC |
| `Tubes.New` | src/puzzle.rs:94-101 | A new tube keeps the given id, position and size unchanged and starts with no colours |
| `Tubes.InsideIffInRegion` | src/puzzle.rs:103-105 | The containment test accepts exactly the points (x + dx, y + dy) with 0 <= dx <= width and 0 <= dy <= height |
| `Tubes.InsideCorners` | src/recognition.rs:31-33 | All four corners, including (x, y) and (x + width, y + height), are inside, so every edge is inclusive |
| `Tubes.OutsideBeyondEdges` | src/puzzle.rs:103-105 | A point with px < x, px > x + width, py < y or py > y + height is never inside, whatever its other coordinate is |
| `Tubes.SameTubeIsEquivalence` | src/puzzle.rs:88-92 | Tube equality is reflexive, symmetric and transitive |
| `Tubes.SameTubeIgnoresContents` | src/recognition.rs:16-20 | A tube equals any tube with the same id, whatever its box or colours, and no tube with another id |
| `Tubes.SameTubeCoarserThanIdentity` | src/puzzle.rs:88-92 | Identical records compare equal, and two tubes with one id but different colours compare equal although they are different records |
| `Goal.MatchesFirstIffAllSame` | src/puzzle.rs:149-156 | Checking each unit against the first one remembered is the same as requiring every pair of units to match |
| `Goal.CheckSolved` | src/puzzle.rs:146-162 | The loop skips empty tubes, remembers the first colour and returns false at the first unit that differs; it returns true if and only if every tube's units all have one colour |
| `Goal.EmptyTubesSolved` | src/puzzle.rs:146-148 | An empty list of tubes is solved, and so is a list whose tubes are all empty |
| `Goal.PartialTubesSolved` | src/puzzle.rs:148-158 | Fullness is not required: tubes holding `[c]` or `[c, c]`, even beside an empty tube, are solved |
| `Goal.MixedTubeUnsolved` | src/puzzle.rs:150-155 | Two different colours in any tube, at any position in the list, make the arrangement unsolved |
| `Goal.UnsolvedHasMixedTube` | src/puzzle.rs:146-162 | Conversely, an unsolved arrangement has some tube with two different colours in it |
| `Goal.SolvedIgnoresGeometry` | src/puzzle.rs:147-158 | The verdict depends only on the colours: two lists of tubes whose colour lists match position by position get the same verdict, whatever their ids and boxes |
| `Goal.SolvedUnderReordering` | src/puzzle.rs:147-158 | Any reordering of the tubes (equal multisets) gives the same verdict |
| `Goal.SolvedContained` | src/puzzle.rs:147-158 | Removing tubes from a solved list, in any order, leaves it solved |
| `Goal.SolvedAppend` | src/puzzle.rs:147-161 | Two lists concatenated are solved if and only if each list is solved |
| `Goal.NewTubeKeepsVerdict` | src/recognition.rs:22-29 | Adding a newly created tube, which holds no colours, never changes the verdict |
| `Recognition.Covered` | src/recognition.rs:43-50 | The skip check returns true if and only if some tube already found contains the pixel |
| `Recognition.Anchor` | src/recognition.rs:52-53 | A marker pixel (px, py) anchors a tube with the next id and no colours. Its box has its corner at (px - 11, py - 3) and measures 134 x 479, and it contains the pixel. There is no tube exactly when px < 11 or py < 3, where the unsigned subtraction underflows |
| `Recognition.AnchorCoversBox` | src/recognition.rs:41-57 | After the anchored tube is added, every containment test over the list is still defined. Every pixel of the new box lies in some tube of the list, including the marker pixel and the outline in later rows, so the skip check at lines 43-50 passes over all of them and no second tube is anchored inside the box |

## Left out

- Image input and output: opening and decoding the screenshot, the row and column walk over the picture, and saving the annotated copy (src/puzzle.rs:15-56, src/recognition.rs:38-68). These are file I/O through an image library. Only the skip test and the tube anchoring inside that walk are modelled.
- `pop_colors` (src/puzzle.rs:121-138, src/recognition.rs:70-86): it classifies pixels by converting them to floating-point HSV through a colour library. This is floating-point code from outside this repository.
- `draw_bounds` (src/puzzle.rs:107-119) writes pixels into an image, and the `println!` calls print debug output. Neither has a result to reason about.
- `Puzzle::solve` (src/puzzle.rs:58-76) is unfinished. It depends on `InfCell` from src/util.rs, which is not part of this model, it discards its result, and its search queue is commented out.
- `TubeState`, `PuzzleState` and `TubeState::from` are imported at src/recognition.rs:4-5 and used at src/recognition.rs:62-64. Neither src/puzzle.rs, the module `TubeState` is imported from, nor the crate root src/main.rs defines them, so there is no definition to model. Pour rules and search over those types are not modelled.
- src/main.rs only handles command-line arguments.
- `Tubes.Inside` is defined only when `x + width` and `y + height` fit in a `u32` (`EdgesFit`). The source adds in `u32`, which panics on overflow in a debug build and wraps in a release build. Neither outcome is modelled.
- `Recognition.Anchor` gives `None` where `x - 11` or `y - 3` would underflow. The source panics there in a debug build and wraps in a release build. The scan starts at row 470, so only the column subtraction can underflow in practice.
- `Pixels.PackArithmetic` states the value r * 65536 + g * 256 + b in 32-bit arithmetic together with the bound 2^24, not as a mathematical integer. Because the sum is below 2^24, the two readings agree.
- Tube ids are `usize` in the source. The model uses unbounded `nat`s, because ids are only compared.
