/** The draw effect of `App` as it runs: the inner helpers `createRect`, `drawLine`
    and `drawBranch` set the 2D context's style fields and issue draw calls one
    after another. The context is a class whose `ops` field records the calls in
    order; every method is proved to issue exactly the operations `FractalTree`
    specifies. */
module CanvasContext {
  import opened Wrappers
  import opened FractalTree

  /** The last operation issued is a line drawn with width `w`. */
  predicate EndsWithLineOfWidth(ops: seq<DrawOp>, w: real)
  {
    |ops| > 0 && ops[|ops| - 1].Line? && ops[|ops| - 1].width == w
  }

  /** The canvas' 2D rendering context: the style fields the effect sets and the
      draw calls issued so far. */
  class Context {
    var fillStyle: string
    var lineWidth: real
    var strokeStyle: string
    var ops: seq<DrawOp>

    constructor ()
      ensures ops == []
    {
      fillStyle, lineWidth, strokeStyle, ops := "#000000", 1.0, "#000000", [];
    }

    /** `createRect`: fill a rectangle in the given colour. */
    method CreateRect(x: real, y: real, w: real, h: real, color: string)
      modifies this
      ensures fillStyle == color
      ensures lineWidth == old(lineWidth) && strokeStyle == old(strokeStyle)
      ensures ops == old(ops) + [Rect(x, y, w, h, color)]
    {
      fillStyle := color;
      ops := ops + [Rect(x, y, w, h, color)];
    }

    /** `drawLine`: stroke one straight line with the given width and colour. */
    method DrawLine(x1: real, y1: real, x2: real, y2: real, thickness: real, color: string)
      modifies this
      ensures lineWidth == thickness && strokeStyle == color
      ensures fillStyle == old(fillStyle)
      ensures ops == old(ops) + [Line(x1, y1, x2, y2, thickness, color)]
    {
      lineWidth := thickness;
      strokeStyle := color;
      ops := ops + [Line(x1, y1, x2, y2, thickness, color)];
    }

    /** `drawBranch`: stop past the depth limit; otherwise draw this branch, then
        recurse once per child, each from this branch's end, one level deeper. */
    method DrawBranch(p: Params, t: Trig, s: Seg)
      modifies this
      ensures ops == old(ops) + Branch(p, t, s)
      ensures fillStyle == old(fillStyle)
      ensures s.depth > p.maxDepth ==> lineWidth == old(lineWidth) && strokeStyle == old(strokeStyle)
      ensures s.depth <= p.maxDepth ==> strokeStyle == Black && EndsWithLineOfWidth(ops, lineWidth)
      decreases Levels(p.maxDepth, s.depth)
    {
      if s.depth > p.maxDepth {
        return;
      }
      var endX := s.x - s.len * t.Sin(s.orient);
      var endY := s.y - s.len * t.Cos(s.orient);
      DrawLine(s.x, s.y, endX, endY, s.width, Black);

      var newHeight := s.len * p.heightFactor;
      var newThickness := (s.width * 2.0) / 3.0;
      var angleIncrement := AngleIncrement(p);
      var angleStart := AngleStart(p.branchPropagation, s.orient, angleIncrement);

      LevelsStep(p.maxDepth, s.depth);
      assert endX == EndX(t, s);
      assert LineOf(t, s) == Line(s.x, s.y, endX, endY, s.width, Black);
      assert ops == old(ops) + [LineOf(t, s)];
      assert Children(p, t, s, 0) == [];
      assert ops == old(ops) + [LineOf(t, s)] + Children(p, t, s, 0);
      for i := 0 to p.branchPropagation
        invariant ops == old(ops) + [LineOf(t, s)] + Children(p, t, s, i)
        invariant fillStyle == old(fillStyle)
        invariant strokeStyle == Black && EndsWithLineOfWidth(ops, lineWidth)
      {
        var child := Seg(endX, endY, newHeight, newThickness,
                         angleStart + i as real * angleIncrement, s.depth + 1.0);
        assert child == Child(p, t, s, i);
        DrawBranch(p, t, child);
        ChildrenStep(p, t, s, i);
      }
    }
  }

  /** The draw effect: without a canvas nothing happens; otherwise clear the canvas to
      the background colour and draw the tree from its root. */
  method DrawEffect(p: Params, t: Trig, canvas: Option<Canvas>, ctx: Context)
    modifies ctx
    ensures ctx.ops == old(ctx.ops) + Render(p, t, canvas)
    ensures canvas.None? ==> ctx.fillStyle == old(ctx.fillStyle)
    ensures canvas.Some? ==> ctx.fillStyle == Background
  {
    if canvas.None? {
      return;
    }
    var c := canvas.value;
    ctx.CreateRect(0.0, 0.0, c.width as real, c.height as real, Background);
    ctx.DrawBranch(p, t, Root(p, c));
  }
}
