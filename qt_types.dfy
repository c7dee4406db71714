/** The few Qt values the core reads: key codes, key and mouse events, points
    and rectangles, all on integer coordinates. */
module Qt {

  import opened Wrappers

  /** Qt.Key.Key_W, Key_A, Key_S and Key_D (the ASCII codes of the
      upper-case letters). */
  const KeyW: int := 0x57
  const KeyA: int := 0x41
  const KeyS: int := 0x53
  const KeyD: int := 0x44

  datatype KeyEvent = KeyEvent(key: int, isAutoRepeat: bool)

  datatype MouseButton = LeftButton | RightButton | MiddleButton | OtherButton

  datatype Point = Point(x: int, y: int)

  function Add(p: Point, q: Point): Point
  {
    Point(p.x + q.x, p.y + q.y)
  }

  /** QPoint subtraction; adding the subtrahend back gives the minuend. */
  function Sub(p: Point, q: Point): (r: Point)
    ensures Add(r, q) == p
  {
    Point(p.x - q.x, p.y - q.y)
  }

  /** `button()` is the button that caused the event (none for a move);
      `buttons()` is the set of buttons held down. */
  datatype MouseEvent = MouseEvent(button: Option<MouseButton>, buttons: set<MouseButton>, globalPos: Point)

  datatype Rect = Rect(x: int, y: int, w: int, h: int)
}
