/**
 Value types shared by the matcher and the dispatcher of the auto-collector:
 screen points, raw match offsets, template sizes, the game-window region,
 and the two fixed pixel constants of the bot.
 */
module Screen {

  datatype Option<+T> = None | Some(value: T)

  /** A position in screen (global) coordinates; also what the pointer reports. */
  datatype Point = Point(x: int, y: int)

  /** A raw match offset inside the screenshot: column `x`, row `y`. */
  datatype Offset = Offset(x: nat, y: nat)

  /** The size of a template image: `template.shape[:2]` is `(h, w)`. */
  datatype Template = Template(w: nat, h: nat)

  /** The game window found at start-up; the screenshot origin is its top-left corner. */
  datatype Region = Region(left: int, top: int, width: int, height: int)

  /** The rectangle handed to the screen grabber: (left, top, right, bottom). */
  datatype Box = Box(left: int, top: int, right: int, bottom: int)

  /** Two centres closer than this (Euclidean) are taken to be the same marker. */
  const DedupRadius: nat := 20

  /** Pointer motion (Manhattan) above this between two reads means a human took over. */
  const MouseMoveThreshold: nat := 10

  function Abs(n: int): nat
  {
    if n < 0 then -n else n
  }

  /** Squared Euclidean distance; `sqrt(d) < 20` holds exactly when `d < 400`. */
  function SqDist(a: Point, b: Point): int
  {
    (a.x - b.x) * (a.x - b.x) + (a.y - b.y) * (a.y - b.y)
  }

  /** Manhattan distance from `a` back to the reference point `b`. */
  function Manhattan(a: Point, b: Point): nat
  {
    Abs(a.x - b.x) + Abs(a.y - b.y)
  }

  /** The screen-space centre of the template placed at offset `o` of the screenshot. */
  function Center(t: Template, r: Region, o: Offset): Point
  {
    Point(o.x + t.w / 2 + r.left, o.y + t.h / 2 + r.top)
  }

  lemma SqDistSymmetric(a: Point, b: Point)
    ensures SqDist(a, b) == SqDist(b, a)
  {
  }
}
