/**
 * Composition for `Append` (src/main.rs:125-160): the canvas size, where each of the two
 * images is placed, and the proof that the program's two `copy_from` calls draw both images
 * intact on that canvas.
 */
module Compose {
  import opened Common
  import opened Raster
  import opened MainActions

  /** Canvas width: unchanged when stacking, the sum when side by side. */
  function CanvasWidth(working: Image, appended: Image, d: Direction): (r: nat) {
    if IsVertical(d) then working.width else working.width + appended.width
  }

  /** Canvas height: the sum when stacking, unchanged when side by side. */
  function CanvasHeight(working: Image, appended: Image, d: Direction): (r: nat) {
    if IsVertical(d) then working.height + appended.height else working.height
  }

  /** Whether the canvas size is computed without overflowing `u32`. */
  predicate Representable(working: Image, appended: Image, d: Direction) {
    CanvasWidth(working, appended, d) < U32_LIMIT && CanvasHeight(working, appended, d) < U32_LIMIT
  }

  /**
   * What the resize before composing establishes: a stacked image is no wider than the
   * working image, a side-by-side one no taller.
   */
  predicate Aligned(working: Image, appended: Image, d: Direction) {
    if IsVertical(d) then appended.width <= working.width else appended.height <= working.height
  }

  /** Top-left corner of the appended image on the canvas. */
  function AppendedOrigin(working: Image, appended: Image, d: Direction): (u32, u32) {
    match d
    case Up => (0, 0)
    case Down => (0, working.height)
    case Left => (0, 0)
    case Right => (working.width, 0)
  }

  /** Top-left corner of the working image on the canvas. */
  function WorkingOrigin(working: Image, appended: Image, d: Direction): (u32, u32) {
    match d
    case Up => (0, appended.height)
    case Down => (0, 0)
    case Left => (appended.width, 0)
    case Right => (0, 0)
  }

  /** The blits as the program performs them: a blank canvas, then two `copy_from` calls. */
  function Blits(working: Image, appended: Image, d: Direction): (r: Image)
    requires Representable(working, appended, d)
  {
    var canvas := Blank(CanvasWidth(working, appended, d), CanvasHeight(working, appended, d));
    match d
    case Up => CopyFrom(CopyFrom(canvas, appended, 0, 0), working, 0, appended.height)
    case Down => CopyFrom(CopyFrom(canvas, working, 0, 0), appended, 0, working.height)
    case Left => CopyFrom(CopyFrom(canvas, appended, 0, 0), working, appended.width, 0)
    case Right => CopyFrom(CopyFrom(canvas, working, 0, 0), appended, working.width, 0)
  }

  /** The intended picture: each canvas pixel shows the appended image, the working image or nothing. */
  function Composite(working: Image, appended: Image, d: Direction): (c: Image)
    requires Representable(working, appended, d)
  {
    var (ax, ay) := AppendedOrigin(working, appended, d);
    var (wx, wy) := WorkingOrigin(working, appended, d);
    var cw: u32, ch: u32 := CanvasWidth(working, appended, d), CanvasHeight(working, appended, d);
    var rows := seq(ch, y requires 0 <= y < ch =>
      seq(cw, x requires 0 <= x < cw =>
        if InRect(x, y, ax, ay, appended.width, appended.height) then appended.rows[y - ay][x - ax]
        else if InRect(x, y, wx, wy, working.width, working.height) then working.rows[y - wy][x - wx]
        else Transparent));
    assert forall y | 0 <= y < ch :: |rows[y]| == cw;
    Raster(cw, ch, rows)
  }

  /** Two images with the same size and the same pixels are the same image. */
  lemma SamePixels(p: Image, q: Image)
    requires p.width == q.width && p.height == q.height
    requires forall x, y | 0 <= x < p.width && 0 <= y < p.height :: At(p, x, y) == At(q, x, y)
    ensures p == q
  {
    forall y | 0 <= y < p.height ensures p.rows[y] == q.rows[y] {
      assert forall x | 0 <= x < p.width :: p.rows[y][x] == At(p, x, y);
    }
  }

  /**
   * Given the alignment, both rectangles lie inside the canvas and they do not overlap.
   */
  lemma Placement(working: Image, appended: Image, d: Direction)
    requires Aligned(working, appended, d)
    ensures var (ax, ay) := AppendedOrigin(working, appended, d);
      ax + appended.width <= CanvasWidth(working, appended, d)
      && ay + appended.height <= CanvasHeight(working, appended, d)
    ensures var (wx, wy) := WorkingOrigin(working, appended, d);
      wx + working.width <= CanvasWidth(working, appended, d)
      && wy + working.height <= CanvasHeight(working, appended, d)
    ensures var (ax, ay) := AppendedOrigin(working, appended, d);
      var (wx, wy) := WorkingOrigin(working, appended, d);
      forall x, y :: !(InRect(x, y, ax, ay, appended.width, appended.height)
                       && InRect(x, y, wx, wy, working.width, working.height))
  {
  }

  /**
   * The composite has the canvas size, shows both images intact at their origins and is
   * transparent everywhere else.
   */
  lemma CompositeLayout(working: Image, appended: Image, d: Direction)
    requires Representable(working, appended, d) && Aligned(working, appended, d)
    ensures var c := Composite(working, appended, d);
      && (IsVertical(d) ==> c.width == working.width && c.height == working.height + appended.height)
      && (!IsVertical(d) ==> c.width == working.width + appended.width && c.height == working.height)
    ensures var c := Composite(working, appended, d);
      var (wx, wy) := WorkingOrigin(working, appended, d);
      forall i, j | 0 <= i < working.width && 0 <= j < working.height ::
        wx + i < c.width && wy + j < c.height && At(c, wx + i, wy + j) == At(working, i, j)
    ensures var c := Composite(working, appended, d);
      var (ax, ay) := AppendedOrigin(working, appended, d);
      forall i, j | 0 <= i < appended.width && 0 <= j < appended.height ::
        ax + i < c.width && ay + j < c.height && At(c, ax + i, ay + j) == At(appended, i, j)
    ensures var c := Composite(working, appended, d);
      var (ax, ay) := AppendedOrigin(working, appended, d);
      var (wx, wy) := WorkingOrigin(working, appended, d);
      forall x, y | 0 <= x < c.width && 0 <= y < c.height
                    && !InRect(x, y, ax, ay, appended.width, appended.height)
                    && !InRect(x, y, wx, wy, working.width, working.height) ::
        At(c, x, y) == Transparent
  {
    WorkingIntact(working, appended, d);
    AppendedIntact(working, appended, d);
  }

  /** The working image appears unchanged at its origin on the composite. */
  lemma WorkingIntact(working: Image, appended: Image, d: Direction)
    requires Representable(working, appended, d) && Aligned(working, appended, d)
    ensures var c := Composite(working, appended, d);
      var (wx, wy) := WorkingOrigin(working, appended, d);
      forall i, j | 0 <= i < working.width && 0 <= j < working.height ::
        wx + i < c.width && wy + j < c.height && At(c, wx + i, wy + j) == At(working, i, j)
  {
    Placement(working, appended, d);
    var c := Composite(working, appended, d);
    var (ax, ay) := AppendedOrigin(working, appended, d);
    var (wx, wy) := WorkingOrigin(working, appended, d);
    forall i, j | 0 <= i < working.width && 0 <= j < working.height
      ensures wx + i < c.width && wy + j < c.height && At(c, wx + i, wy + j) == At(working, i, j)
    {
      assert !InRect(wx + i, wy + j, ax, ay, appended.width, appended.height);
      assert InRect(wx + i, wy + j, wx, wy, working.width, working.height);
      assert c.rows[wy + j][wx + i] == working.rows[j][i];
    }
  }

  /** The appended image appears unchanged at its origin on the composite. */
  lemma AppendedIntact(working: Image, appended: Image, d: Direction)
    requires Representable(working, appended, d) && Aligned(working, appended, d)
    ensures var c := Composite(working, appended, d);
      var (ax, ay) := AppendedOrigin(working, appended, d);
      forall i, j | 0 <= i < appended.width && 0 <= j < appended.height ::
        ax + i < c.width && ay + j < c.height && At(c, ax + i, ay + j) == At(appended, i, j)
  {
    Placement(working, appended, d);
    var c := Composite(working, appended, d);
    var (ax, ay) := AppendedOrigin(working, appended, d);
    forall i, j | 0 <= i < appended.width && 0 <= j < appended.height
      ensures ax + i < c.width && ay + j < c.height && At(c, ax + i, ay + j) == At(appended, i, j)
    {
      assert c.rows[ay + j][ax + i] == appended.rows[j][i];
    }
  }

  /** The program's blits draw exactly the intended composite. */
  lemma BlitsAreComposite(working: Image, appended: Image, d: Direction)
    requires Representable(working, appended, d) && Aligned(working, appended, d)
    ensures Blits(working, appended, d) == Composite(working, appended, d)
  {
    var b, c := Blits(working, appended, d), Composite(working, appended, d);
    Placement(working, appended, d);
    forall x, y | 0 <= x < b.width && 0 <= y < b.height ensures At(b, x, y) == At(c, x, y) {
    }
    SamePixels(b, c);
  }

  /**
   * A working image with no pixels along the side the appended image is fitted to gives a
   * canvas without pixels, so the blits again equal the composite, aligned or not.
   */
  lemma EmptySideBlits(working: Image, appended: Image, d: Direction)
    requires Representable(working, appended, d)
    requires if IsVertical(d) then working.width == 0 else working.height == 0
    ensures Blits(working, appended, d) == Composite(working, appended, d)
  {
    var b, c := Blits(working, appended, d), Composite(working, appended, d);
    assert b.width == c.width && b.height == c.height;
    assert b.width == 0 || b.height == 0;
    SamePixels(b, c);
  }
}
