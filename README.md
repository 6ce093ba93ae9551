# Fractal tree renderer and slider handlers, in Dafny

This project models the two pieces of logic in the `treeshapes-react` app.

- **The draw effect of `App`.** It clears the canvas to `'#EEE'` and draws a recursive fractal tree. `drawBranch` strokes one black line from `(x, y)` to `(x - len·sin a, y - len·cos a)`. It then recurses `branchPropagation` times, once per child. Each child starts at that end point, with length `len·heightFactor`, thickness `thickness·2/3`, depth `depth + 1`, and an orientation taken from a fan that is symmetric about the parent. The recursion stops once `depth > maxDepth`.
- **The rotation tick.** It advances the spread `angle` by one degree and wraps to 0 at 360.
- **The three event handlers of `InputSlider`.** Each one decides whether `emitChange` is called, and with which value.

The project has five modules:

- `FractalTree` (`fractal_tree.dfy`) is the pure specification. `Branch` and `Children` give the draw operations of one `drawBranch` call in the order it issues them. `Render` gives the whole effect. The lemmas state the shape of the recursion, the symmetry of the fan, the geometry of each level, the segment counts, the trunk, and the tick.
- `CanvasContext` (`canvas_context.dfy`) is the imperative version. A `Context` class holds the style fields that the effect sets (`fillStyle`, `lineWidth`, `strokeStyle`) and the sequence of draw calls issued so far. `CreateRect`, `DrawLine` and `DrawBranch` append to that sequence, and `DrawBranch` uses a `for` loop over the children. `DrawBranch` and `DrawEffect` are proved to issue exactly the operations of `FractalTree.Branch` and `FractalTree.Render`.
- `InputSlider` (`input_slider.dfy`) holds the three handlers. Each is a function returning `Option<real>`: `Some(v)` means `emitChange(v)` is called, `None` means nothing is emitted.
- `Series` (`series.dfy`) holds powers, the size of a complete n-ary tree, and the geometric series with its closed form.
- `Wrappers` (`wrappers.dfy`) holds `Option`.

Modelling choices:

- `Math.sin` and `Math.cos` are the two fields of a `Trig` value. They are arbitrary total functions on the reals. The only facts used about them are `sin 0 = 0` and `cos 0 = 1`, where the trunk is stated, and `sin^2 + cos^2 = 1` at one orientation, as a precondition of `BranchLength`.
- `Math.PI` is the real constant `3.141592653589793`. All arithmetic is on unbounded reals.
- Depth is real, as in the source. The root call at `src/App.tsx:96` passes `0` as the orientation and `Math.PI / 2` as the depth, so the trunk points straight up and starts at depth pi/2, which lies between 1 and 2.
- Termination uses `Levels(maxDepth, depth)`. It is 0 once `depth > maxDepth`, and otherwise `floor(maxDepth - depth) + 1`. It counts the levels still to draw.
- A node of the tree is named by its path of child indices from the trunk. `Index` gives the position of a node in depth-first order. `LineAt` and `PathAt` prove that the lines of a render are exactly the lines of the nodes on valid paths, each at its depth-first position.

Two consequences of the code are easy to miss:

- The root call at `src/App.tsx:96` passes `Math.PI / 2` in the depth position, so the trunk starts at depth pi/2, not 0. For an integer maxDepth `m >= 1` this draws `m - 1` levels, so maxDepth 1 or 0 draws only the background (`RootLevels`, `MaxDepthOneDrawsOnlyBackground`).
- `incrementAngle` (`src/App.tsx:105-111`) advances `angle`, which is the spread between siblings (`src/App.tsx:43`). The trunk orientation stays 0.

## Model

| member | source | states |
|---|---|---|
| `FractalTree.Levels` | src/App.tsx:64 | no level is left to draw exactly when `depth > maxDepth`; otherwise `L` is the number of whole steps from `depth` that stay within `maxDepth` |
| `FractalTree.LevelsStep` | src/App.tsx:89-90 | a recursive call at `depth + 1` has exactly one level fewer to draw, so the recursion terminates |
| `FractalTree.Trunc` | src/App.tsx:84-85 | `Math.trunc` rounds toward zero and is non-negative on non-negative input |
| `FractalTree.DegreesToRadians` | src/App.tsx:43 | `AngleIncrement` converts the spread from degrees to radians: it is 0 exactly for no spread, keeps the sign, maps 180 degrees to pi, and 360 more degrees add a full turn of 2 pi |
| `FractalTree.LineOf` | src/App.tsx:66-71 | the line a call strokes is black, has the call's thickness and starts at the call's `(x, y)`; an upright branch (orientation 0) ends `len` straight above its start |
| `FractalTree.BranchLength` | src/App.tsx:66-67 | the end point `(EndX, EndY)` lies `len` away from the start wherever `sin^2 + cos^2 = 1` holds at the branch's orientation |
| `FractalTree.AngleStart` | src/App.tsx:82-85 | the even formula and the odd formula for `angleStart` both equal `angle - (n - 1) * angleIncrement / 2` |
| `FractalTree.FanMirror` | src/App.tsx:82-90 | child `i` is `i - (n - 1) / 2` increments from the parent, and the offsets of children `i` and `n - 1 - i` are opposite, so the first is the negation of the last |
| `FractalTree.OffsetSumPartial` | src/App.tsx:82-90 | the offsets of the first `k` children sum to `k (k - n) angleIncrement / 2` |
| `FractalTree.FanBalanced` | src/App.tsx:82-90 | the offsets of all `n` children from the parent's orientation sum to 0 |
| `FractalTree.Branch` | src/App.tsx:63-92 | a `drawBranch` call issues only black lines, and issues nothing exactly when `depth > maxDepth` |
| `FractalTree.Children` | src/App.tsx:89-91 | the recursive calls of the loop issue only black lines |
| `FractalTree.Render` | src/App.tsx:37-97 | no canvas, no operations; with a canvas, exactly one `'#EEE'` rectangle over `(0, 0, W, H)` comes first and every later operation is a black line |
| `FractalTree.BranchSize` | src/App.tsx:63-92 | a call draws a complete `branchPropagation`-ary tree with one level per level left to draw |
| `FractalTree.ChildrenSize` | src/App.tsx:89-91 | the first `k` recursive calls issue `k` times the size of one child tree |
| `FractalTree.ChildrenAt` | src/App.tsx:89-91 | position `j` of block `i` among the first `k` children is position `j` of child `i`'s own operations |
| `FractalTree.ChildSize` | src/App.tsx:73-90 | each child has one level fewer to draw than its parent, and draws a tree of that many levels |
| `FractalTree.BranchStructure` | src/App.tsx:64-91 | a call with `depth <= maxDepth` issues its own line first, followed by exactly `branchPropagation` equal blocks, one per recursive call at `depth + 1` |
| `FractalTree.BranchAt` | src/App.tsx:63-92 | position `1 + i*B + j` of a call's operations is position `j` of the recursive call for child `i` |
| `FractalTree.NodeGeometry` | src/App.tsx:73-74 | `k` levels below a call the length is `len * heightFactor^k`, the thickness `thickness * (2/3)^k` and the depth `depth + k` |
| `FractalTree.NodeSnoc` | src/App.tsx:89-90 | extending a path by child `i` reaches the `i`-th recursive call of the node the path reached |
| `FractalTree.ChildGeometry` | src/App.tsx:66-90 | the arguments `Child` builds for recursive call `i`: it starts at its parent's end point `(x - len sin a, y - len cos a)`, so its line starts where the parent's line ends; it is one depth further, `heightFactor` times as long, two thirds as thick, and `i - (n - 1) / 2` increments from the parent |
| `FractalTree.LineAt` | src/App.tsx:63-92 | every node on a valid path above the depth limit is drawn as its own line, at its depth-first position |
| `FractalTree.PathAt` | src/App.tsx:63-92 | every operation of a call is the line of some node on a valid path above the depth limit, at that node's depth-first position |
| `FractalTree.Root` | src/App.tsx:44-46 | the root call starts centred horizontally, `GroundOffset` (100) above the bottom edge, with 7/24 of the canvas height as length, the chosen thickness, orientation 0, and a depth (pi/2) strictly between 1 and 2 |
| `FractalTree.RootLevels` | src/App.tsx:96 | from the pi/2 root depth, an integer maxDepth `m >= 1` draws `m - 1` levels |
| `FractalTree.RenderCount` | src/App.tsx:89-96 | a render issues the rectangle plus n^0 + ... + n^(L-1) lines, where `L` is the number of levels drawn from the root depth |
| `FractalTree.RenderCountForIntegerDepth` | src/App.tsx:89-96 | for an integer maxDepth `m >= 1` there are n^0 + ... + n^(m-2) lines, and `(n - 1)` times that count is `n^(m-1) - 1` |
| `FractalTree.MaxDepthOneDrawsOnlyBackground` | src/App.tsx:64-96 | with maxDepth 1 the render is the background rectangle alone |
| `FractalTree.TrunkIsVertical` | src/App.tsx:44-96 | when the trunk is drawn, it is the line from `(W/2, H-100)` to `(W/2, H-100-H*7/24)` with the given thickness, in black |
| `FractalTree.SegmentGeometry` | src/App.tsx:46-96 | the node `k` levels below the trunk has length `(H*7/24) * heightFactor^k`, thickness `thickness * (2/3)^k` and depth `pi/2 + k` |
| `FractalTree.SegmentAtLevel` | src/App.tsx:46-96 | every node `k` levels below the trunk, above the depth limit, is drawn right after the rectangle at its depth-first position, with that length and thickness |
| `FractalTree.LevelOfSegment` | src/App.tsx:46-96 | every line of a render belongs to a node some `k` levels below the trunk, with length `(H*7/24) * heightFactor^k` and thickness `thickness * (2/3)^k` |
| `FractalTree.Tick` | src/App.tsx:105-111 | a tick yields 0 whenever `angle + 1 >= 360`, so 359 goes to 0, and yields exactly `angle + 1` otherwise, for any angle; it keeps an angle in `[0, 360)` in `[0, 360)` |
| `FractalTree.Ticks` | src/App.tsx:103-111 | repeated ticks keep an angle in `[0, 360)` in `[0, 360)`, and `k` ticks that never reach 360 advance the angle by exactly `k` |
| `FractalTree.TicksModulo` | src/App.tsx:103-111 | from a whole number of degrees `a` in `[0, 360)`, `k` ticks give `(a + k) mod 360` |
| `FractalTree.TicksPeriodic` | src/App.tsx:103-111 | 360 more ticks return a whole-degree angle to where it was |
| `CanvasContext.Context.CreateRect` | src/App.tsx:48-51 | sets `fillStyle` to the colour and appends one filled rectangle; the stroke fields are unchanged |
| `CanvasContext.Context.DrawLine` | src/App.tsx:53-61 | sets `lineWidth` and `strokeStyle` and appends one stroked line; `fillStyle` is unchanged |
| `CanvasContext.Context.DrawBranch` | src/App.tsx:63-92 | the recursive method with its `for` loop appends exactly `Branch`'s operations and leaves `fillStyle` unchanged; past `maxDepth` the stroke fields are unchanged, otherwise `strokeStyle` is black and `lineWidth` is the width of the last line issued |
| `CanvasContext.DrawEffect` | src/App.tsx:37-97 | the effect body appends exactly `Render`'s operations: nothing without a canvas, otherwise the background rectangle and then the tree; `fillStyle` is unchanged without a canvas and `'#EEE'` with one |
| `InputSlider.HandleSliderChange` | src/components/InputSlider.tsx:23-25 | a change emits exactly when the slider reports a single number, and then emits that number unchanged; arrays are ignored |
| `InputSlider.HandleInputChange` | src/components/InputSlider.tsx:27-30 | empty text emits nothing; any other text emits its numeric value, unclamped |
| `InputSlider.HandleBlur` | src/components/InputSlider.tsx:32-38 | below `min` emits exactly `min`; otherwise above `max` emits exactly `max`; within `[min, max]` emits nothing |
| `InputSlider.Clamp` | src/components/InputSlider.tsx:32-38 | independent reference for blur: the clamped value lies in `[min, max]` and equals the input exactly when the input is already in range |
| `InputSlider.BlurClamps` | src/components/InputSlider.tsx:32-38 | with `min <= max`, blur emits at most one value, which lies in `[min, max]`; it emits exactly when the value is out of range; the value afterwards is the clamped value |
| `InputSlider.BlurIdempotent` | src/components/InputSlider.tsx:32-38 | blurring again after the emitted value has been applied emits nothing |
| `InputSlider.TypeThenBlurInRange` | src/components/InputSlider.tsx:27-38 | typed text may leave the range, but the blur that follows brings the value back into `[min, max]` |

## Left out

- React state, `useEffect` and `useLayoutEffect`: the state setters, the dependency lists and the container sizing (`src/App.tsx:9-34`) are framework plumbing. A render is a function of its parameters and canvas. The effect's re-running on each change is not modelled.
- The `setInterval` and `clearInterval` timer and the rotate switch (`src/App.tsx:100-119`) are not modelled. Only the arithmetic of one tick, and of repeated ticks, is.
- The window resize listener (`src/App.tsx:122-130`) is not modelled. Canvas width and height are inputs.
- Canvas API internals (`beginPath`, `moveTo`, `lineTo`, `closePath`, `stroke`, `fillRect`) are left out. Each draw call is recorded as one `Rect` or `Line` value.
- `Math.sin`, `Math.cos` and `Math.PI` are not computed. The first two are uninterpreted, and floating-point rounding is not modelled anywhere.
- Non-integer and negative `branchPropagation` values are not modelled. `branchPropagation` is a natural number. A typed value such as `2.5` would make the source's loop run 3 times and its parity test fail; the model does not cover that.
- JavaScript's `Number()` parsing is a parameter (`toNumber`) of `HandleInputChange`. NaN and the loose comparison of string or array `value`s against numbers on blur are not modelled. `value` is a real.
- The MUI layout and the JSX of both components (`src/App.tsx:132-162`, `src/components/InputSlider.tsx:40-75`) are not modelled. That includes each slider's `[min, max, step]` configuration.
