/** The fractal-tree renderer of `App`: the draw effect (root setup, background
    rectangle, recursive `drawBranch`) as a function from the parameters and the
    canvas to the sequence of draw operations it issues, and the rotation tick.
    `CanvasContext` holds the imperative version and proves it issues exactly
    `Render`'s operations. */
module FractalTree {
  import opened Wrappers
  import opened Series

  /** `Math.PI`, as the decimal literal of the double; no floating point is modelled. */
  const Pi: real := 3.141592653589793

  /** The depth passed to the root call: the source passes `Math.PI / 2` in the depth
      position, so the trunk is at depth pi/2, which lies strictly between 1 and 2. */
  const RootDepth: real := Pi / 2.0

  /** Background fill colour of the cleared canvas. */
  const Background: string := "#EEE"

  /** Stroke colour of every branch. */
  const Black: string := "black"

  /** Distance of the root of the trunk above the bottom edge of the canvas. */
  const GroundOffset: real := 100.0

  /** `Math.sin` and `Math.cos`, left uninterpreted. */
  datatype Trig = Trig(sin: real -> real, cos: real -> real)
  {
    function Sin(a: real): real
    {
      sin(a)
    }

    function Cos(a: real): real
    {
      cos(a)
    }

    /** The only facts about the two functions the model relies on. */
    predicate AtZero()
    {
      Sin(0.0) == 0.0 && Cos(0.0) == 1.0
    }
  }

  /** The user-adjustable parameters of one render; `angle` is the spread between
      sibling branches, in degrees. */
  datatype Params = Params(
    thickness: real,
    heightFactor: real,
    maxDepth: real,
    branchPropagation: nat,
    angle: real)

  /** Pixel dimensions of the drawing surface. */
  datatype Canvas = Canvas(width: nat, height: nat)

  /** One draw call against the 2D context: a filled rectangle or a stroked line. */
  datatype DrawOp =
    | Rect(x: real, y: real, w: real, h: real, fill: string)
    | Line(x1: real, y1: real, x2: real, y2: real, width: real, stroke: string)

  /** The arguments of one `drawBranch` call: start point, length, line width,
      orientation (radians from the upward vertical) and depth. */
  datatype Seg = Seg(x: real, y: real, len: real, width: real, orient: real, depth: real)

  /** The spread between siblings, converted from degrees to radians. */
  function AngleIncrement(p: Params): real
  {
    (p.angle * Pi) / 180.0
  }

  /** The spread is converted from degrees to radians: no spread stays none, the sign
      is kept, 180 degrees is pi, and 360 more degrees add one full turn. */
  lemma DegreesToRadians(p: Params)
    ensures AngleIncrement(p) == 0.0 <==> p.angle == 0.0
    ensures AngleIncrement(p) > 0.0 <==> p.angle > 0.0
    ensures p.angle == 180.0 ==> AngleIncrement(p) == Pi
    ensures AngleIncrement(p.(angle := p.angle + 360.0)) == AngleIncrement(p) + 2.0 * Pi
  {
  }

  /** `Math.trunc`: rounds toward zero. */
  function Trunc(x: real): (r: int)
    ensures x >= 0.0 ==> 0 <= r && r as real <= x < r as real + 1.0
    ensures x < 0.0 ==> r <= 0 && r as real - 1.0 < x <= r as real
  {
    if x >= 0.0 then x.Floor else -((-x).Floor)
  }

  /** How many further levels `drawBranch` draws from a call at `depth`: none once
      `depth > maxDepth`, otherwise one for each whole step up to `maxDepth`. It is
      also the termination measure of the recursion. */
  function Levels(maxDepth: real, depth: real): (L: nat)
    ensures L == 0 <==> depth > maxDepth
    ensures L > 0 ==> depth + (L - 1) as real <= maxDepth < depth + L as real
  {
    if depth > maxDepth then 0 else (maxDepth - depth).Floor + 1
  }

  /** A child call, one depth further, has exactly one level fewer to draw. */
  lemma LevelsStep(maxDepth: real, depth: real)
    requires depth <= maxDepth
    ensures Levels(maxDepth, depth + 1.0) == Levels(maxDepth, depth) - 1
  {
  }

  /** The orientation of the first of `n` children: the source has one formula for
      even `n` and one for odd `n`; both put the fan's centre on the parent's orientation. */
  function AngleStart(n: nat, orient: real, inc: real): (r: real)
    ensures r == orient - (n as real - 1.0) * inc / 2.0
  {
    assert Trunc(n as real / 2.0) == n / 2 by {
      assert n as real / 2.0 == (n / 2) as real + (n % 2) as real / 2.0;
    }
    if n % 2 == 0 then
      orient - inc / 2.0 - (Trunc(n as real / 2.0) as real - 1.0) * inc
    else
      assert (n as real - 1.0) * inc / 2.0 == (n / 2) as real * inc;
      orient - Trunc(n as real / 2.0) as real * inc
  }

  /** Orientation of child `i` of a branch oriented `orient`. */
  function ChildOrient(n: nat, orient: real, inc: real, i: nat): real
  {
    AngleStart(n, orient, inc) + i as real * inc
  }

  /** Far end of a branch. */
  function EndX(t: Trig, s: Seg): real
  {
    s.x - s.len * t.Sin(s.orient)
  }

  function EndY(t: Trig, s: Seg): real
  {
    s.y - s.len * t.Cos(s.orient)
  }

  /** The line `drawBranch` strokes for its own branch. */
  function LineOf(t: Trig, s: Seg): (r: DrawOp)
    ensures r.Line? && r.stroke == Black && r.width == s.width
    ensures r.x1 == s.x && r.y1 == s.y
    ensures t.AtZero() && s.orient == 0.0 ==> r.x2 == s.x && r.y2 == s.y - s.len
  {
    Line(s.x, s.y, EndX(t, s), EndY(t, s), s.width, Black)
  }

  /** The arguments of the `i`-th recursive call made by a `drawBranch` call on `s`. */
  function Child(p: Params, t: Trig, s: Seg, i: nat): Seg
  {
    Seg(EndX(t, s), EndY(t, s),
        s.len * p.heightFactor,
        (s.width * 2.0) / 3.0,
        ChildOrient(p.branchPropagation, s.orient, AngleIncrement(p), i),
        s.depth + 1.0)
  }

  /** The draw operations of one `drawBranch` call, in the order it issues them:
      nothing past `maxDepth`; otherwise its own line, then the children depth first. */
  function Branch(p: Params, t: Trig, s: Seg): (ops: seq<DrawOp>)
    ensures forall op <- ops :: op.Line? && op.stroke == Black
    ensures ops == [] <==> s.depth > p.maxDepth
    decreases Levels(p.maxDepth, s.depth), 1, 0
  {
    if s.depth > p.maxDepth then []
    else [LineOf(t, s)] + Children(p, t, s, p.branchPropagation)
  }

  /** The operations of the first `k` recursive calls of a `drawBranch` call on `s`. */
  function Children(p: Params, t: Trig, s: Seg, k: nat): (ops: seq<DrawOp>)
    requires s.depth <= p.maxDepth
    ensures forall op <- ops :: op.Line? && op.stroke == Black
    decreases Levels(p.maxDepth, s.depth), 0, k
  {
    if k == 0 then []
    else
      LevelsStep(p.maxDepth, s.depth);
      Children(p, t, s, k - 1) + Branch(p, t, Child(p, t, s, k - 1))
  }

  /** One more recursive call appends that call's operations. */
  lemma ChildrenStep(p: Params, t: Trig, s: Seg, i: nat)
    requires s.depth <= p.maxDepth
    ensures Children(p, t, s, i + 1) == Children(p, t, s, i) + Branch(p, t, Child(p, t, s, i))
  {
  }

  /** The root call: from the middle of the canvas, `GroundOffset` above its bottom
      edge, with 7/24 of the canvas height as length, orientation 0 and depth pi/2. */
  function Root(p: Params, c: Canvas): (r: Seg)
    ensures r.x * 2.0 == c.width as real && c.height as real - r.y == GroundOffset
    ensures r.len * 24.0 == c.height as real * 7.0 && r.width == p.thickness
    ensures r.orient == 0.0 && 1.0 < r.depth < 2.0
  {
    Seg(c.width as real / 2.0, c.height as real - GroundOffset,
        (c.height as real * 7.0) / 24.0, p.thickness, 0.0, RootDepth)
  }

  /** Everything the draw effect issues: nothing without a canvas; otherwise a
      background rectangle over the whole canvas and then the tree. */
  function Render(p: Params, t: Trig, canvas: Option<Canvas>): (ops: seq<DrawOp>)
    ensures canvas.None? ==> ops == []
    ensures canvas.Some? ==>
      |ops| >= 1 &&
      ops[0] == Rect(0.0, 0.0, canvas.value.width as real, canvas.value.height as real, Background) &&
      forall i :: 1 <= i < |ops| ==> ops[i].Line? && ops[i].stroke == Black
  {
    match canvas
    case None => []
    case Some(c) =>
      [Rect(0.0, 0.0, c.width as real, c.height as real, Background)] + Branch(p, t, Root(p, c))
  }

  // ---------------------------------------------------------------------------
  // The fan of children

  /** Sum of the offsets of the first `k` children from the parent's orientation. */
  function OffsetSum(n: nat, orient: real, inc: real, k: nat): real
  {
    if k == 0 then 0.0
    else OffsetSum(n, orient, inc, k - 1) + (ChildOrient(n, orient, inc, k - 1) - orient)
  }

  /** Child `i` is spaced `i - (n - 1) / 2` increments away from its parent, so the
      offsets of child `i` and of child `n - 1 - i` are opposite; in particular the
      first offset is the negation of the last. */
  lemma FanMirror(n: nat, orient: real, inc: real, i: nat)
    requires i < n
    ensures ChildOrient(n, orient, inc, i) - orient == (i as real - (n as real - 1.0) / 2.0) * inc
    ensures ChildOrient(n, orient, inc, i) - orient == -(ChildOrient(n, orient, inc, n - 1 - i) - orient)
  {
  }

  lemma {:induction false} OffsetSumPartial(n: nat, orient: real, inc: real, k: nat)
    ensures OffsetSum(n, orient, inc, k) == (k as real) * (k as real - n as real) * inc / 2.0
  {
    if k > 0 {
      OffsetSumPartial(n, orient, inc, k - 1);
      var offset := ChildOrient(n, orient, inc, k - 1) - orient;
      assert offset == (k - 1) as real * inc - (n as real - 1.0) * inc / 2.0;
      OffsetSumStep(n, inc, k, OffsetSum(n, orient, inc, k - 1), offset);
    }
  }

  /** The inductive step of `OffsetSumPartial`: adding the offset of child `k - 1`. */
  lemma OffsetSumStep(n: nat, inc: real, k: nat, prev: real, offset: real)
    requires k > 0
    requires prev == ((k - 1) as real) * ((k - 1) as real - n as real) * inc / 2.0
    requires offset == (k - 1) as real * inc - (n as real - 1.0) * inc / 2.0
    ensures prev + offset == (k as real) * (k as real - n as real) * inc / 2.0
  {
    var K, N := (k - 1) as real, n as real;
    assert k as real == K + 1.0;
    assert prev + offset == (K * (K - N) + 2.0 * K + 1.0 - N) * inc / 2.0;
    assert K * (K - N) + 2.0 * K + 1.0 - N == (K + 1.0) * (K + 1.0 - N);
  }

  /** The fan is balanced: the offsets of all `n` children from the parent's
      orientation sum to zero, whichever of the two `angleStart` formulas applies. */
  lemma FanBalanced(n: nat, orient: real, inc: real)
    ensures OffsetSum(n, orient, inc, n) == 0.0
  {
    OffsetSumPartial(n, orient, inc, n);
  }

  // ---------------------------------------------------------------------------
  // Shape of the recursion

  /** A call that draws anything draws a complete `branchPropagation`-ary tree with
      one node per level still to draw. */
  lemma {:induction false} BranchSize(p: Params, t: Trig, s: Seg)
    ensures |Branch(p, t, s)| == TreeSize(p.branchPropagation, Levels(p.maxDepth, s.depth))
    decreases Levels(p.maxDepth, s.depth), 1, 0
  {
    if s.depth <= p.maxDepth {
      ChildrenSize(p, t, s, p.branchPropagation);
    }
  }

  lemma {:induction false} ChildrenSize(p: Params, t: Trig, s: Seg, k: nat)
    requires s.depth <= p.maxDepth
    ensures |Children(p, t, s, k)| == k * TreeSize(p.branchPropagation, Levels(p.maxDepth, s.depth) - 1)
    decreases Levels(p.maxDepth, s.depth), 0, k
  {
    if k > 0 {
      var B := TreeSize(p.branchPropagation, Levels(p.maxDepth, s.depth) - 1);
      var last := Child(p, t, s, k - 1);
      assert Children(p, t, s, k) == Children(p, t, s, k - 1) + Branch(p, t, last);
      ChildrenSize(p, t, s, k - 1);
      assert |Branch(p, t, last)| == B by {
        LevelsStep(p.maxDepth, s.depth);
        BranchSize(p, t, last);
      }
      MulSucc(k - 1, B);
    }
  }

  lemma MulSucc(k: nat, B: nat)
    ensures k * B + B == (k + 1) * B
  {
  }

  /** Position `j` of the block of child `i` among the first `k` children. */
  lemma {:induction false} ChildrenAt(p: Params, t: Trig, s: Seg, k: nat, i: nat, j: nat)
    requires s.depth <= p.maxDepth
    requires i < k
    requires j < TreeSize(p.branchPropagation, Levels(p.maxDepth, s.depth) - 1)
    ensures var B := TreeSize(p.branchPropagation, Levels(p.maxDepth, s.depth) - 1);
      i * B + j < |Children(p, t, s, k)| &&
      j < |Branch(p, t, Child(p, t, s, i))| &&
      Children(p, t, s, k)[i * B + j] == Branch(p, t, Child(p, t, s, i))[j]
  {
    var B := TreeSize(p.branchPropagation, Levels(p.maxDepth, s.depth) - 1);
    var prefix := Children(p, t, s, k - 1);
    var last := Branch(p, t, Child(p, t, s, k - 1));
    assert Children(p, t, s, k) == prefix + last;
    ChildrenSize(p, t, s, k - 1);
    ChildSize(p, t, s, k - 1);
    ChildSize(p, t, s, i);
    if i < k - 1 {
      ChildrenAt(p, t, s, k - 1, i, j);
      MulStep(i, k - 1, j, B);
    } else {
      assert i * B == |prefix|;
    }
  }

  /** `i * B + j` stays below `k * B` when `i < k` and `j < B`. */
  lemma MulStep(i: nat, k: nat, j: nat, B: nat)
    requires i < k && j < B
    ensures i * B + j < k * B
    ensures (i + 1) * B == i * B + B <= k * B
  {
  }

  /** Each child block is a tree of one level fewer than its parent's. */
  lemma ChildSize(p: Params, t: Trig, s: Seg, i: nat)
    requires s.depth <= p.maxDepth
    ensures Levels(p.maxDepth, Child(p, t, s, i).depth) == Levels(p.maxDepth, s.depth) - 1
    ensures |Branch(p, t, Child(p, t, s, i))| ==
      TreeSize(p.branchPropagation, Levels(p.maxDepth, s.depth) - 1)
  {
    LevelsStep(p.maxDepth, s.depth);
    BranchSize(p, t, Child(p, t, s, i));
  }

  /** Position `j` of the block of child `i` in the operations of a `drawBranch` call:
      after its own line and the `i` blocks before it. */
  lemma BranchAt(p: Params, t: Trig, s: Seg, i: nat, j: nat)
    requires s.depth <= p.maxDepth
    requires i < p.branchPropagation
    requires j < TreeSize(p.branchPropagation, Levels(p.maxDepth, s.depth) - 1)
    ensures var B := TreeSize(p.branchPropagation, Levels(p.maxDepth, s.depth) - 1);
      1 + i * B + j < |Branch(p, t, s)| &&
      j < |Branch(p, t, Child(p, t, s, i))| &&
      Branch(p, t, s)[1 + i * B + j] == Branch(p, t, Child(p, t, s, i))[j]
  {
    var B := TreeSize(p.branchPropagation, Levels(p.maxDepth, s.depth) - 1);
    var kids := Children(p, t, s, p.branchPropagation);
    var ops := Branch(p, t, s);
    assert ops == [LineOf(t, s)] + kids;
    ChildrenAt(p, t, s, p.branchPropagation, i, j);
    var x := i * B + j;
    assert x < |kids|;
    assert ops[1 + x] == kids[x];
  }

  /** A `drawBranch` call with `depth <= maxDepth` issues exactly one line, its own,
      followed by exactly `branchPropagation` blocks of equal size, one per recursive
      call at `depth + 1` (`BranchAt` says what each block holds). */
  lemma BranchStructure(p: Params, t: Trig, s: Seg)
    requires s.depth <= p.maxDepth
    ensures var B := TreeSize(p.branchPropagation, Levels(p.maxDepth, s.depth) - 1);
      |Branch(p, t, s)| == 1 + p.branchPropagation * B &&
      Branch(p, t, s)[0] == LineOf(t, s) &&
      forall i :: 0 <= i < p.branchPropagation ==>
        Child(p, t, s, i).depth == s.depth + 1.0 && |Branch(p, t, Child(p, t, s, i))| == B
  {
    ChildrenSize(p, t, s, p.branchPropagation);
    forall i | 0 <= i < p.branchPropagation
      ensures |Branch(p, t, Child(p, t, s, i))| ==
        TreeSize(p.branchPropagation, Levels(p.maxDepth, s.depth) - 1)
    {
      ChildSize(p, t, s, i);
    }
  }

  // ---------------------------------------------------------------------------
  // Paths from the trunk

  /** A path picks one child index per level; it is valid when every index names a child. */
  predicate ValidPath(n: nat, path: seq<nat>)
  {
    forall j :: 0 <= j < |path| ==> path[j] < n
  }

  /** The arguments of the call reached from `s` by following `path`. */
  function Node(p: Params, t: Trig, s: Seg, path: seq<nat>): Seg
    decreases |path|
  {
    if path == [] then s else Node(p, t, Child(p, t, s, path[0]), path[1..])
  }

  /** Position, in depth-first order, of the node reached by `path` in a tree of `L` levels. */
  function Index(n: nat, L: nat, path: seq<nat>): nat
    decreases |path|
  {
    if path == [] || L == 0 then 0
    else 1 + path[0] * TreeSize(n, L - 1) + Index(n, L - 1, path[1..])
  }

  /** Length and thickness decay exactly: `k` levels below `s` the length is
      `s.len * heightFactor^k`, the thickness `s.width * (2/3)^k`, the depth `s.depth + k`. */
  lemma {:induction false} NodeGeometry(p: Params, t: Trig, s: Seg, path: seq<nat>)
    ensures Node(p, t, s, path).len == s.len * RealPow(p.heightFactor, |path|)
    ensures Node(p, t, s, path).width == s.width * RealPow(2.0 / 3.0, |path|)
    ensures Node(p, t, s, path).depth == s.depth + |path| as real
    decreases |path|
  {
    if path != [] {
      var c := Child(p, t, s, path[0]);
      var k := |path| - 1;
      NodeGeometry(p, t, c, path[1..]);
      assert Node(p, t, s, path) == Node(p, t, c, path[1..]);
      Associate(s.len, p.heightFactor, RealPow(p.heightFactor, k));
      Associate(s.width, 2.0 / 3.0, RealPow(2.0 / 3.0, k));
    }
  }

  lemma Associate(a: real, b: real, c: real)
    ensures (a * b) * c == a * (b * c)
    ensures ((a * 2.0) / 3.0) * c == a * ((2.0 / 3.0) * c)
  {
  }

  lemma {:induction false} NodeSnoc(p: Params, t: Trig, s: Seg, path: seq<nat>, i: nat)
    ensures Node(p, t, s, path + [i]) == Child(p, t, Node(p, t, s, path), i)
    decreases |path|
  {
    if path != [] {
      assert (path + [i])[1..] == path[1..] + [i];
      NodeSnoc(p, t, Child(p, t, s, path[0]), path[1..], i);
    }
  }

  /** The arguments of every recursive call: the child starts at its parent's computed
      endpoint `(x - len * sin orient, y - len * cos orient)`, so the line drawn for a
      child starts where the line drawn for its parent ends; it is one depth further,
      `heightFactor` times as long and two thirds as thick, and child `i` is turned
      `i - (n - 1) / 2` increments from its parent. Together with `NodeSnoc` this holds
      of every parent and child along any path. */
  lemma ChildGeometry(p: Params, t: Trig, parent: Seg, i: nat)
    ensures var child := Child(p, t, parent, i);
      child.x == parent.x - parent.len * t.Sin(parent.orient) &&
      child.y == parent.y - parent.len * t.Cos(parent.orient) &&
      LineOf(t, child).x1 == LineOf(t, parent).x2 &&
      LineOf(t, child).y1 == LineOf(t, parent).y2 &&
      child.depth == parent.depth + 1.0 &&
      child.len == parent.len * p.heightFactor &&
      child.width * 3.0 == parent.width * 2.0
    ensures i < p.branchPropagation ==>
      Child(p, t, parent, i).orient - parent.orient ==
        (i as real - (p.branchPropagation as real - 1.0) / 2.0) * AngleIncrement(p)
  {
    if i < p.branchPropagation {
      FanMirror(p.branchPropagation, parent.orient, AngleIncrement(p), i);
    }
  }

  /** Each line is drawn with its branch's length: wherever `sin^2 + cos^2 = 1` holds at
      the branch's orientation, the far end lies `len` away from the start. */
  lemma BranchLength(t: Trig, s: Seg)
    requires t.Sin(s.orient) * t.Sin(s.orient) + t.Cos(s.orient) * t.Cos(s.orient) == 1.0
    ensures var dx := s.x - EndX(t, s);
      var dy := s.y - EndY(t, s);
      dx * dx + dy * dy == s.len * s.len
  {
    var sn, cs := t.Sin(s.orient), t.Cos(s.orient);
    assert s.x - EndX(t, s) == s.len * sn;
    assert s.y - EndY(t, s) == s.len * cs;
    assert (s.len * sn) * (s.len * sn) + (s.len * cs) * (s.len * cs)
        == (s.len * s.len) * (sn * sn + cs * cs);
  }

  /** Every node on a valid path above the depth limit is drawn, at its depth-first
      position, as its own line. */
  lemma {:induction false} LineAt(p: Params, t: Trig, s: Seg, path: seq<nat>)
    requires ValidPath(p.branchPropagation, path)
    requires |path| < Levels(p.maxDepth, s.depth)
    ensures var L := Levels(p.maxDepth, s.depth);
      Index(p.branchPropagation, L, path) < |Branch(p, t, s)| &&
      Branch(p, t, s)[Index(p.branchPropagation, L, path)] == LineOf(t, Node(p, t, s, path))
    decreases |path|
  {
    if path != [] {
      var n := p.branchPropagation;
      var L := Levels(p.maxDepth, s.depth);
      var i := path[0];
      var rest := path[1..];
      var c := Child(p, t, s, i);
      assert ValidPath(n, rest) by {
        forall j | 0 <= j < |rest| ensures rest[j] < n { assert rest[j] == path[j + 1]; }
      }
      ChildSize(p, t, s, i);
      LineAt(p, t, c, rest);
      BranchAt(p, t, s, i, Index(n, L - 1, rest));
    }
  }

  /** Conversely, every operation of a `drawBranch` call is the line of the node on
      some valid path above the depth limit, and that path's depth-first position is
      where the operation stands. */
  lemma {:induction false} PathAt(p: Params, t: Trig, s: Seg, idx: nat) returns (path: seq<nat>)
    requires idx < |Branch(p, t, s)|
    ensures ValidPath(p.branchPropagation, path)
    ensures |path| < Levels(p.maxDepth, s.depth)
    ensures Index(p.branchPropagation, Levels(p.maxDepth, s.depth), path) == idx
    ensures Branch(p, t, s)[idx] == LineOf(t, Node(p, t, s, path))
    decreases Levels(p.maxDepth, s.depth)
  {
    if idx == 0 {
      path := [];
    } else {
      var n := p.branchPropagation;
      var L := Levels(p.maxDepth, s.depth);
      var i, j := SplitIndex(p, t, s, idx);
      var c := Child(p, t, s, i);
      var rest := PathAt(p, t, c, j);
      path := [i] + rest;
      assert path[1..] == rest;
      assert Node(p, t, s, path) == Node(p, t, c, rest);
      assert Index(n, L, path) == 1 + i * TreeSize(n, L - 1) + Index(n, L - 1, rest);
      assert ValidPath(n, path) by {
        forall m | 0 <= m < |path| ensures path[m] < n {
          if m > 0 { assert path[m] == rest[m - 1]; }
        }
      }
    }
  }

  /** A position after a call's own line lies in the block of some child `i`, at some
      offset `j` of that child's operations. */
  lemma SplitIndex(p: Params, t: Trig, s: Seg, idx: nat) returns (i: nat, j: nat)
    requires 1 <= idx < |Branch(p, t, s)|
    ensures s.depth <= p.maxDepth
    ensures i < p.branchPropagation
    ensures Levels(p.maxDepth, Child(p, t, s, i).depth) == Levels(p.maxDepth, s.depth) - 1
    ensures j < |Branch(p, t, Child(p, t, s, i))|
    ensures idx == 1 + i * TreeSize(p.branchPropagation, Levels(p.maxDepth, s.depth) - 1) + j
    ensures Branch(p, t, s)[idx] == Branch(p, t, Child(p, t, s, i))[j]
  {
    var n := p.branchPropagation;
    var B := TreeSize(n, Levels(p.maxDepth, s.depth) - 1);
    assert idx - 1 < n * B by {
      ChildrenSize(p, t, s, n);
    }
    DivMod(idx - 1, B, n);
    i := (idx - 1) / B;
    j := (idx - 1) % B;
    BranchAt(p, t, s, i, j);
    ChildSize(p, t, s, i);
  }

  /** Splitting a position below `n * B` into a block number below `n` and an offset in the block. */
  lemma DivMod(x: nat, B: nat, n: nat)
    requires x < n * B
    ensures B > 0
    ensures x / B < n && x % B < B && x == (x / B) * B + x % B
  {
  }

  // ---------------------------------------------------------------------------
  // The whole render

  /** The number of levels drawn from the root for an integer depth limit `m >= 1`:
      since the root call starts at depth pi/2, `m - 1`. */
  lemma RootLevels(m: int)
    requires m >= 1
    ensures Levels(m as real, RootDepth) == m - 1
  {
  }

  /** A render issues the background rectangle and then n^0 + ... + n^(L-1) lines,
      where `L` is the number of levels drawn from the pi/2 root depth. */
  lemma RenderCount(p: Params, t: Trig, c: Canvas)
    ensures |Render(p, t, Some(c))| ==
      1 + GeometricSum(p.branchPropagation, Levels(p.maxDepth, RootDepth))
  {
    BranchSize(p, t, Root(p, c));
    TreeSizeIsGeometricSum(p.branchPropagation, Levels(p.maxDepth, RootDepth));
  }

  /** For an integer depth limit `m >= 1` a render draws n^0 + ... + n^(m-2) lines,
      that is (n^(m-1) - 1) / (n - 1) of them when n > 1. */
  lemma RenderCountForIntegerDepth(p: Params, t: Trig, c: Canvas, m: int)
    requires m >= 1 && p.maxDepth == m as real
    ensures |Render(p, t, Some(c))| == 1 + GeometricSum(p.branchPropagation, m - 1)
    ensures (p.branchPropagation - 1) * (|Render(p, t, Some(c))| - 1) ==
      Pow(p.branchPropagation, m - 1) - 1
  {
    RenderCount(p, t, c);
    RootLevels(m);
    GeometricSumClosedForm(p.branchPropagation, m - 1);
  }

  /** With the smallest depth limit the slider offers, 1, nothing but the background
      is drawn: the pi/2 root depth is already past the limit. */
  lemma MaxDepthOneDrawsOnlyBackground(p: Params, t: Trig, c: Canvas)
    requires p.maxDepth == 1.0
    ensures Render(p, t, Some(c)) == [Rect(0.0, 0.0, c.width as real, c.height as real, Background)]
  {
  }

  /** The trunk starts at `(W/2, H - 100)` with orientation 0, so it is vertical and
      ends `H * 7/24` higher. */
  lemma TrunkIsVertical(p: Params, t: Trig, c: Canvas)
    requires t.AtZero()
    requires RootDepth <= p.maxDepth
    ensures var W := c.width as real;
      var H := c.height as real;
      |Render(p, t, Some(c))| >= 2 &&
      Render(p, t, Some(c))[1] ==
        Line(W / 2.0, H - 100.0, W / 2.0, H - 100.0 - (H * 7.0) / 24.0, p.thickness, Black)
  {
  }

  /** A segment `k` levels below the trunk has length `(H * 7/24) * heightFactor^k` and
      thickness `thickness * (2/3)^k`; every node on a valid path above the depth limit
      is drawn, at its depth-first position after the background rectangle. */
  lemma SegmentAtLevel(p: Params, t: Trig, c: Canvas, path: seq<nat>)
    requires ValidPath(p.branchPropagation, path)
    requires |path| < Levels(p.maxDepth, RootDepth)
    ensures var nd := Node(p, t, Root(p, c), path);
      var at := 1 + Index(p.branchPropagation, Levels(p.maxDepth, RootDepth), path);
      at < |Render(p, t, Some(c))| &&
      Render(p, t, Some(c))[at] == LineOf(t, nd) &&
      nd.len == ((c.height as real * 7.0) / 24.0) * RealPow(p.heightFactor, |path|) &&
      nd.width == p.thickness * RealPow(2.0 / 3.0, |path|) &&
      nd.depth == RootDepth + |path| as real
  {
    var root := Root(p, c);
    assert Render(p, t, Some(c)) ==
      [Rect(0.0, 0.0, c.width as real, c.height as real, Background)] + Branch(p, t, root);
    LineAt(p, t, root, path);
    SegmentGeometry(p, t, c, path);
  }

  /** Length, thickness and depth of the node `|path|` levels below the trunk. */
  lemma SegmentGeometry(p: Params, t: Trig, c: Canvas, path: seq<nat>)
    ensures var nd := Node(p, t, Root(p, c), path);
      nd.len == ((c.height as real * 7.0) / 24.0) * RealPow(p.heightFactor, |path|) &&
      nd.width == p.thickness * RealPow(2.0 / 3.0, |path|) &&
      nd.depth == RootDepth + |path| as real
  {
    NodeGeometry(p, t, Root(p, c), path);
  }

  /** Every line a render issues is the segment of some node `k` levels below the
      trunk, with length `(H * 7/24) * heightFactor^k` and thickness `thickness * (2/3)^k`. */
  lemma LevelOfSegment(p: Params, t: Trig, c: Canvas, at: nat) returns (path: seq<nat>)
    requires 1 <= at < |Render(p, t, Some(c))|
    ensures ValidPath(p.branchPropagation, path)
    ensures |path| < Levels(p.maxDepth, RootDepth)
    ensures Render(p, t, Some(c))[at] == LineOf(t, Node(p, t, Root(p, c), path))
    ensures Node(p, t, Root(p, c), path).len ==
      ((c.height as real * 7.0) / 24.0) * RealPow(p.heightFactor, |path|)
    ensures Node(p, t, Root(p, c), path).width == p.thickness * RealPow(2.0 / 3.0, |path|)
  {
    var root := Root(p, c);
    assert Render(p, t, Some(c)) ==
      [Rect(0.0, 0.0, c.width as real, c.height as real, Background)] + Branch(p, t, root);
    path := PathAt(p, t, root, at - 1);
    SegmentGeometry(p, t, c, path);
  }

  // ---------------------------------------------------------------------------
  // Rotation

  /** One tick of the rotation timer: the spread angle advances by one degree and
      wraps to 0 once it would reach 360. */
  function Tick(angle: real): (r: real)
    ensures r == 0.0 || r == angle + 1.0
    ensures angle + 1.0 >= 360.0 ==> r == 0.0
    ensures angle + 1.0 < 360.0 ==> r == angle + 1.0
    ensures 0.0 <= angle < 360.0 ==> 0.0 <= r < 360.0
  {
    var newAngle := angle + 1.0;
    if newAngle >= 360.0 then 0.0 else newAngle
  }

  /** The angle after `k` ticks. */
  function Ticks(angle: real, k: nat): (r: real)
    ensures 0.0 <= angle < 360.0 ==> 0.0 <= r < 360.0
    ensures angle + k as real < 360.0 ==> r == angle + k as real
  {
    if k == 0 then angle else Tick(Ticks(angle, k - 1))
  }

  /** From a whole number of degrees in [0, 360), `k` ticks count modulo 360. */
  lemma {:induction false} TicksModulo(a: int, k: nat)
    requires 0 <= a < 360
    ensures Ticks(a as real, k) == ((a + k) % 360) as real
  {
    if k > 0 {
      TicksModulo(a, k - 1);
      NextModulo(a + k - 1);
    }
  }

  /** Counting one further modulo 360. */
  lemma NextModulo(x: int)
    ensures (x + 1) % 360 == if x % 360 == 359 then 0 else x % 360 + 1
  {
  }

  /** The rotation is periodic: 360 more ticks from a whole-degree angle lead to the same angle. */
  lemma TicksPeriodic(a: int, k: nat)
    requires 0 <= a < 360
    ensures Ticks(a as real, k + 360) == Ticks(a as real, k)
  {
    TicksModulo(a, k);
    TicksModulo(a, k + 360);
    ModuloPeriod(a + k);
  }

  lemma ModuloPeriod(x: int)
    ensures (x + 360) % 360 == x % 360
  {
  }
}
