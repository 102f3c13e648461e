/** The player's square and its keyboard moves. */
module Players {
  import opened Kinematics

  /** Side of the player's square. */
  const PLAYER_SIZE: real := 80.0

  /** The key codes checkKey reacts to. */
  const KEY_LEFT: int := 37
  const KEY_UP: int := 38
  const KEY_RIGHT: int := 39
  const KEY_DOWN: int := 40

  datatype Direction = Left | Up | Right | Down

  datatype Option<T> = None | Some(value: T)

  /** checkKey's dispatch: the four arrow codes select a move, every other code is
      ignored. */
  function KeyDirection(code: int): (d: Option<Direction>)
    ensures d.Some? <==> KEY_LEFT <= code <= KEY_DOWN
    ensures d == Some(Left) <==> code == KEY_LEFT
    ensures d == Some(Up) <==> code == KEY_UP
    ensures d == Some(Right) <==> code == KEY_RIGHT
    ensures d == Some(Down) <==> code == KEY_DOWN
  {
    if code == KEY_LEFT then Some(Left)
    else if code == KEY_UP then Some(Up)
    else if code == KEY_RIGHT then Some(Right)
    else if code == KEY_DOWN then Some(Down)
    else None
  }

  /** The smaller of two coordinates. */
  function Min(a: real, b: real): (m: real)
    ensures m <= a && m <= b && (m == a || m == b)
  {
    if a <= b then a else b
  }

  /** The larger of two coordinates. */
  function Max(a: real, b: real): (m: real)
    ensures m >= a && m >= b && (m == a || m == b)
  {
    if a >= b then a else b
  }

  /** A step towards 0 on one axis as player.move writes it for LEFT and UP: the test
      looks at the current near edge (c - e/2), not at the edge after the step. From
      at least a side away it is the half step clamped at half a side; between half a
      side and a side it takes the centre below half a side; closer in it clamps. */
  function BackAsWritten(c: real, e: real): (r: real)
    ensures e > 0.0 && c >= e ==> r == Max(c - e / 2.0, e / 2.0)
    ensures e / 2.0 < c < e ==> r == c - e / 2.0 && r < e / 2.0
    ensures c <= e / 2.0 ==> r == e / 2.0
  {
    if c - e / 2.0 > 0.0 then c - e / 2.0 else e / 2.0
  }

  /** A step towards 0 with the test the RIGHT/DOWN branches use, mirrored: the half
      step, clamped so that the centre stays at least half a side from 0. */
  function Back(c: real, e: real): (r: real)
    ensures r == Max(c - e / 2.0, e / 2.0)
  {
    if c - e > 0.0 then c - e / 2.0 else e / 2.0
  }

  /** A step away from 0 on one axis (RIGHT and DOWN): the half step, clamped so that
      the centre stays at least half a side from the far edge. */
  function Forth(c: real, e: real, limit: real): (r: real)
    ensures r == Min(c + e / 2.0, limit - e / 2.0)
  {
    if c + e < limit then c + e / 2.0 else limit - e / 2.0
  }

  /** The square is on the canvas: its centre is at least half a side from every edge. */
  predicate InBounds(p: Box, canvasWidth: nat, canvasHeight: nat)
  {
    p.width / 2.0 <= p.x <= canvasWidth as real - p.width / 2.0 &&
    p.height / 2.0 <= p.y <= canvasHeight as real - p.height / 2.0
  }

  /** player.move as written: RIGHT and DOWN take the clamped half step; LEFT and UP
      do so only from at least a side away from 0, and from between half a side and a
      side they leave the centre less than half a side from 0. */
  function MovedAsWritten(p: Box, direction: Direction, canvasWidth: nat, canvasHeight: nat): (q: Box)
    ensures q.width == p.width && q.height == p.height
    ensures direction in {Left, Right} ==> q.y == p.y
    ensures direction in {Up, Down} ==> q.x == p.x
    ensures p.width > 0.0 && direction == Left ==> q.x > 0.0
    ensures p.height > 0.0 && direction == Up ==> q.y > 0.0
    ensures p.width > 0.0 && p.x >= p.width && direction == Left ==>
              q.x == Max(p.x - p.width / 2.0, p.width / 2.0)
    ensures p.height > 0.0 && p.y >= p.height && direction == Up ==>
              q.y == Max(p.y - p.height / 2.0, p.height / 2.0)
    ensures p.width / 2.0 < p.x < p.width && direction == Left ==>
              q.x == p.x - p.width / 2.0 && q.x < p.width / 2.0
    ensures p.height / 2.0 < p.y < p.height && direction == Up ==>
              q.y == p.y - p.height / 2.0 && q.y < p.height / 2.0
    ensures p.x <= p.width / 2.0 && direction == Left ==> q.x == p.width / 2.0
    ensures p.y <= p.height / 2.0 && direction == Up ==> q.y == p.height / 2.0
    ensures direction == Right ==> q.x == Min(p.x + p.width / 2.0, canvasWidth as real - p.width / 2.0)
    ensures direction == Down ==> q.y == Min(p.y + p.height / 2.0, canvasHeight as real - p.height / 2.0)
  {
    match direction
    case Left => p.(x := BackAsWritten(p.x, p.width))
    case Up => p.(y := BackAsWritten(p.y, p.height))
    case Right => p.(x := Forth(p.x, p.width, canvasWidth as real))
    case Down => p.(y := Forth(p.y, p.height, canvasHeight as real))
  }

  /** player.move with LEFT and UP tested like RIGHT and DOWN: it changes only the
      coordinate of its direction, by half a side, clamped at half a side from the
      edge it moves towards. */
  function Moved(p: Box, direction: Direction, canvasWidth: nat, canvasHeight: nat): (q: Box)
    ensures q.width == p.width && q.height == p.height
    ensures direction in {Left, Right} ==> q.y == p.y
    ensures direction in {Up, Down} ==> q.x == p.x
    ensures direction == Left ==> q.x == Max(p.x - p.width / 2.0, p.width / 2.0)
    ensures direction == Up ==> q.y == Max(p.y - p.height / 2.0, p.height / 2.0)
    ensures direction == Right ==> q.x == Min(p.x + p.width / 2.0, canvasWidth as real - p.width / 2.0)
    ensures direction == Down ==> q.y == Min(p.y + p.height / 2.0, canvasHeight as real - p.height / 2.0)
  {
    match direction
    case Left => p.(x := Back(p.x, p.width))
    case Up => p.(y := Back(p.y, p.height))
    case Right => p.(x := Forth(p.x, p.width, canvasWidth as real))
    case Down => p.(y := Forth(p.y, p.height, canvasHeight as real))
  }

  /** Every move keeps a square that is on the canvas on the canvas. */
  lemma MoveKeepsInBounds(p: Box, direction: Direction, canvasWidth: nat, canvasHeight: nat)
    requires p.width > 0.0 && p.height > 0.0 && InBounds(p, canvasWidth, canvasHeight)
    ensures InBounds(Moved(p, direction, canvasWidth, canvasHeight), canvasWidth, canvasHeight)
  {
  }

  /** The square after a sequence of key presses, applied in order. */
  function MovedAll(p: Box, directions: seq<Direction>, canvasWidth: nat, canvasHeight: nat): (q: Box)
    ensures q.width == p.width && q.height == p.height
    decreases |directions|
  {
    if directions == [] then p
    else MovedAll(Moved(p, directions[0], canvasWidth, canvasHeight), directions[1..], canvasWidth, canvasHeight)
  }

  /** A player that starts on the canvas stays on it whatever keys are pressed. */
  lemma {:induction false} PlayerStaysOnCanvas(p: Box, directions: seq<Direction>, canvasWidth: nat, canvasHeight: nat)
    requires p.width > 0.0 && p.height > 0.0 && InBounds(p, canvasWidth, canvasHeight)
    ensures InBounds(MovedAll(p, directions, canvasWidth, canvasHeight), canvasWidth, canvasHeight)
    decreases |directions|
  {
    if directions != [] {
      MoveKeepsInBounds(p, directions[0], canvasWidth, canvasHeight);
      PlayerStaysOnCanvas(Moved(p, directions[0], canvasWidth, canvasHeight), directions[1..], canvasWidth, canvasHeight);
    }
  }

  /** The player createPlayer builds is on any canvas at least PLAYER_SIZE wide and
      high. */
  lemma NewPlayerOnCanvas(canvasWidth: nat, canvasHeight: nat)
    requires canvasWidth as real >= PLAYER_SIZE && canvasHeight as real >= PLAYER_SIZE
    ensures InBounds(Box(canvasWidth as real / 2.0, canvasHeight as real / 2.0, PLAYER_SIZE, PLAYER_SIZE),
                     canvasWidth, canvasHeight)
  {
  }

  /** As written, LEFT does not keep the square on the canvas: with side 80 a player at
      x = 43 (reached from the start column 683 of a 1366-pixel canvas by sixteen LEFT
      moves) is moved to x = 3, with 37 pixels of its square left of the canvas. */
  lemma LeftAsWrittenLeavesCanvas()
    ensures var p := Box(43.0, 384.0, PLAYER_SIZE, PLAYER_SIZE);
            InBounds(p, 1366, 768) &&
            MovedAsWritten(p, Left, 1366, 768).x == 3.0 &&
            !InBounds(MovedAsWritten(p, Left, 1366, 768), 1366, 768) &&
            Moved(p, Left, 1366, 768).x == PLAYER_SIZE / 2.0
  {
  }

  /** Half a side from the edge is a fixed point of LEFT and of RIGHT, in both forms. */
  lemma EdgesAreFixedPoints(e: real, limit: real)
    requires e > 0.0
    ensures Back(e / 2.0, e) == e / 2.0 && BackAsWritten(e / 2.0, e) == e / 2.0
    ensures Forth(limit - e / 2.0, e, limit) == limit - e / 2.0
  {
  }

  /** `n` consecutive steps towards 0. */
  function BackN(c: real, e: real, n: nat, asWritten: bool): real
  {
    if n == 0 then c
    else if asWritten then BackAsWritten(BackN(c, e, n - 1, asWritten), e)
    else Back(BackN(c, e, n - 1, asWritten), e)
  }

  lemma {:induction false} BackNFixed(e: real, n: nat, asWritten: bool)
    requires e > 0.0
    ensures BackN(e / 2.0, e, n, asWritten) == e / 2.0
  {
    if n > 0 {
      BackNFixed(e, n - 1, asWritten);
    }
  }

  /** n moves of the front step, applied first (the recursion of BackN applies the
      last step outermost). */
  lemma {:induction false} BackNFirst(c: real, e: real, n: nat, asWritten: bool)
    requires n > 0
    ensures BackN(c, e, n, asWritten) ==
            BackN(if asWritten then BackAsWritten(c, e) else Back(c, e), e, n - 1, asWritten)
  {
    if n > 1 {
      BackNFirst(c, e, n - 1, asWritten);
    }
  }

  /** Repeated LEFT (or UP) settles on half a side and stays there: once the n-1 half
      steps after the first cover the distance to that point, n steps end on it. Holds
      of the code as written and of the corrected test alike. */
  lemma {:induction false} RepeatedBackSettles(c: real, e: real, n: nat, asWritten: bool)
    requires e > 0.0 && n > 0
    requires Repeat(n - 1, e / 2.0) >= c - e / 2.0
    ensures BackN(c, e, n, asWritten) == e / 2.0
    decreases n
  {
    BackNFirst(c, e, n, asWritten);
    var c' := if asWritten then BackAsWritten(c, e) else Back(c, e);
    if c' == e / 2.0 {
      BackNFixed(e, n - 1, asWritten);
    } else {
      assert c' == c - e / 2.0;
      assert n > 1;
      RepeatedBackSettles(c', e, n - 1, asWritten);
    }
  }

  /** The player (playerComponent); move updates its centre in place. */
  class Player {
    var x: real
    var y: real
    var width: real
    var height: real

    function Bounds(): Box
      reads this
    {
      Box(x, y, width, height)
    }

    /** A player of side PLAYER_SIZE in the middle of the canvas. */
    constructor (canvasWidth: nat, canvasHeight: nat)
      ensures Bounds() == Box(canvasWidth as real / 2.0, canvasHeight as real / 2.0, PLAYER_SIZE, PLAYER_SIZE)
    {
      width := PLAYER_SIZE;
      height := PLAYER_SIZE;
      x := canvasWidth as real / 2.0;
      y := canvasHeight as real / 2.0;
    }

    method Move(direction: Direction, canvasWidth: nat, canvasHeight: nat)
      modifies this
      ensures Bounds() == Moved(old(Bounds()), direction, canvasWidth, canvasHeight)
    {
      match direction
      case Left =>
        if x - width > 0.0 {
          x := x - width / 2.0;
        } else {
          x := width / 2.0;
        }
      case Up =>
        if y - height > 0.0 {
          y := y - height / 2.0;
        } else {
          y := height / 2.0;
        }
      case Right =>
        if x + width < canvasWidth as real {
          x := x + width / 2.0;
        } else {
          x := canvasWidth as real - width / 2.0;
        }
      case Down =>
        if y + height < canvasHeight as real {
          y := y + height / 2.0;
        } else {
          y := canvasHeight as real - height / 2.0;
        }
    }
  }
}
