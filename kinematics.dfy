/** Asteroid trajectories, spawn points, the off-screen test and the collision test of
    the arcade game: the pure part of the simulation. */
module Kinematics {

  /** Number of asteroids the spawner keeps alive. */
  const ASTEROIDS_NO: nat := 5

  /** The eight path tags. The first letter names where on the x axis the asteroid
      starts (N: left of the canvas, P: on its right edge, C: a free column), the
      second the same for the y axis; the tag fixes the velocity for the asteroid's life. */
  datatype Path = CN | CP | NC | PC | PN | NP | PP | NN

  /** The three letters a tag is made of, one per axis. */
  datatype Side = Neg | Pos | Free

  function XSide(path: Path): Side
  {
    match path
    case NN | NP | NC => Neg
    case PN | PP | PC => Pos
    case CN | CP => Free
  }

  function YSide(path: Path): Side
  {
    match path
    case NN | PN | CN => Neg
    case NP | PP | CP => Pos
    case NC | PC => Free
  }

  /** A displacement per tick. */
  datatype Vec = Vec(dx: real, dy: real)

  /** The displacement asteroid newPos applies for each tag. Stated by side: an axis
      that starts on the negative side moves forward at full speed, one that starts on
      the positive side moves back at full speed, and a free axis drifts at half the
      speed in the sense of the other axis. */
  function Velocity(path: Path, speed: real): (v: Vec)
    ensures XSide(path) == Neg ==> v.dx == speed
    ensures XSide(path) == Pos ==> v.dx == -speed
    ensures XSide(path) == Free ==> v.dx == v.dy / 2.0
    ensures YSide(path) == Neg ==> v.dy == speed
    ensures YSide(path) == Pos ==> v.dy == -speed
    ensures YSide(path) == Free ==> v.dy == v.dx / 2.0
  {
    match path
    case NN => Vec(speed, speed)
    case PN => Vec(-speed, speed)
    case CN => Vec(0.5 * speed, speed)
    case NP => Vec(speed, -speed)
    case PP => Vec(-speed, -speed)
    case CP => Vec(-0.5 * speed, -speed)
    case NC => Vec(speed, 0.5 * speed)
    case PC => Vec(-speed, -0.5 * speed)
  }

  /** No two tags share a letter pair, so the letters determine the tag. */
  lemma SidesDetermineTag(p: Path, q: Path)
    requires XSide(p) == XSide(q) && YSide(p) == YSide(q)
    ensures p == q
  {
  }

  /** An axis-aligned box given by its centre and its extents. */
  datatype Box = Box(x: real, y: real, width: real, height: real)

  /** The state of one asteroid: centre, square size, tag and scalar speed. */
  datatype Rock = Rock(x: real, y: real, width: real, height: real, path: Path, speed: real)
  {
    function Bounds(): Box { Box(x, y, width, height) }
  }

  /** One tick of asteroid newPos: only the centre moves, by the tag's velocity. */
  function Step(r: Rock): (s: Rock)
    ensures s.x == r.x + Velocity(r.path, r.speed).dx
    ensures s.y == r.y + Velocity(r.path, r.speed).dy
    ensures s.width == r.width && s.height == r.height
    ensures s.path == r.path && s.speed == r.speed
  {
    var v := Velocity(r.path, r.speed);
    r.(x := r.x + v.dx, y := r.y + v.dy)
  }

  /** `n` ticks of newPos. */
  function StepN(r: Rock, n: nat): Rock
  {
    if n == 0 then r else Step(StepN(r, n - 1))
  }

  /** `n` copies of `a` added up: the distance covered in n ticks at velocity `a`. */
  function Repeat(n: nat, a: real): real
  {
    if n == 0 then 0.0 else Repeat(n - 1, a) + a
  }

  lemma {:induction false} RepeatAtLeast(n: nat, a: real)
    requires a >= 1.0
    ensures Repeat(n, a) >= n as real
  {
    if n > 0 {
      RepeatAtLeast(n - 1, a);
    }
  }

  lemma {:induction false} RepeatNegate(n: nat, a: real)
    ensures Repeat(n, -a) == -Repeat(n, a)
  {
    if n > 0 {
      RepeatNegate(n - 1, a);
    }
  }

  /** After n ticks the centre has moved n times the velocity, the rest is as it was. */
  lemma {:induction false} StepNPosition(r: Rock, n: nat)
    ensures StepN(r, n).x == r.x + Repeat(n, Velocity(r.path, r.speed).dx)
    ensures StepN(r, n).y == r.y + Repeat(n, Velocity(r.path, r.speed).dy)
    ensures StepN(r, n).width == r.width && StepN(r, n).height == r.height
    ensures StepN(r, n).path == r.path && StepN(r, n).speed == r.speed
  {
    if n > 0 {
      StepNPosition(r, n - 1);
    }
  }

  /** isAsteroidGone: the centre is more than twice the size left of or above the
      canvas, or more than one pixel right of or below it. An asteroid whose centre is
      on the canvas is never gone. */
  predicate Gone(r: Rock, canvasWidth: nat, canvasHeight: nat)
    ensures r.width >= 0.0 && r.height >= 0.0 &&
            0.0 <= r.x <= canvasWidth as real && 0.0 <= r.y <= canvasHeight as real ==>
              !Gone(r, canvasWidth, canvasHeight)
  {
    r.x < -1.0 * r.width * 2.0 ||
    r.x > canvasWidth as real + 1.0 ||
    r.y < -1.0 * r.height * 2.0 ||
    r.y > canvasHeight as real + 1.0
  }

  /** The off-screen test restated as an interval per axis: the margins on the
      left/top scale with the size; those on the right/bottom are one pixel. */
  lemma GoneMargins(r: Rock, canvasWidth: nat, canvasHeight: nat)
    ensures !Gone(r, canvasWidth, canvasHeight) <==>
              -2.0 * r.width <= r.x <= canvasWidth as real + 1.0 &&
              -2.0 * r.height <= r.y <= canvasHeight as real + 1.0
  {
  }

  /** A moving asteroid leaves: with speed at least 1 (the spawner draws it in [1,4)),
      every asteroid is gone after a number of ticks bounded by its distance to the
      canvas, whatever its tag. */
  lemma {:induction false} EventuallyGone(r: Rock, canvasWidth: nat, canvasHeight: nat, n: nat)
    requires r.speed >= 1.0 && r.width >= 0.0 && r.height >= 0.0
    requires n as real > Abs(r.x) + Abs(r.y) + canvasWidth as real + canvasHeight as real
                         + 2.0 * r.width + 2.0 * r.height + 2.0
    ensures Gone(StepN(r, n), canvasWidth, canvasHeight)
  {
    StepNPosition(r, n);
    var q, v := StepN(r, n), Velocity(r.path, r.speed);
    RepeatAtLeast(n, r.speed);
    RepeatNegate(n, r.speed);
    match XSide(r.path)
    case Neg =>
      assert q.x > canvasWidth as real + 1.0;
    case Pos =>
      assert q.x < -2.0 * r.width;
    case Free =>
      if YSide(r.path) == Neg {
        assert q.y > canvasHeight as real + 1.0;
      } else {
        assert q.y < -2.0 * r.height;
      }
  }

  function Abs(a: real): (r: real)
    ensures r >= 0.0 && (r == a || r == -a)
  {
    if a < 0.0 then -a else a
  }

  /** checkCollision, with `a` the asteroid and `b` the player: the left edge of each
      box lies strictly left of the right edge of the other, and likewise vertically.
      Equivalently, on both axes the centres are closer than the mean of the extents. */
  predicate Collides(a: Box, b: Box)
    ensures Collides(a, b) <==>
              Abs(a.x - b.x) < (a.width + b.width) / 2.0 &&
              Abs(a.y - b.y) < (a.height + b.height) / 2.0
  {
    a.x - a.width / 2.0 < b.x + b.width - b.width / 2.0 &&
    a.x + a.width - a.width / 2.0 > b.x - b.width / 2.0 &&
    a.y - a.height / 2.0 < b.y + b.height - b.height / 2.0 &&
    a.y + a.height - a.height / 2.0 > b.y - b.height / 2.0
  }

  /** The test does not depend on which box is the asteroid. */
  lemma CollidesSymmetric(a: Box, b: Box)
    ensures Collides(a, b) == Collides(b, a)
  {
  }

  /** Boxes with the same centre and positive extents always collide. */
  lemma SameCentreCollides(a: Box, b: Box)
    requires a.x == b.x && a.y == b.y
    requires a.width > 0.0 && a.height > 0.0 && b.width > 0.0 && b.height > 0.0
    ensures Collides(a, b)
  {
  }

  /** Boxes separated on some axis by at least the mean of their extents never collide;
      in particular boxes that only touch do not. */
  lemma SeparatedNeverCollides(a: Box, b: Box)
    requires Abs(a.x - b.x) >= (a.width + b.width) / 2.0 ||
             Abs(a.y - b.y) >= (a.height + b.height) / 2.0
    ensures !Collides(a, b)
  {
  }

  /** Math.floor(Math.random() * span), with `rnd` the value Math.random() returned. */
  function FloorDraw(rnd: real, span: int): (k: int)
    requires 0.0 <= rnd < 1.0
    ensures span > 0 ==> 0 <= k < span
    ensures span <= 0 ==> span <= k <= 0
  {
    var p := rnd * span as real;
    ScaledDraw(rnd, span as real);
    var k := p.Floor;
    assert k as real <= p < k as real + 1.0;
    assert span > 0 ==> k as real < span as real;
    k
  }

  /** A draw in [0,1) scaled by `m` lies between 0 and `m`, including 0, excluding m
      unless m is 0. */
  lemma ScaledDraw(rnd: real, m: real)
    requires 0.0 <= rnd < 1.0
    ensures m > 0.0 ==> 0.0 <= rnd * m < m
    ensures m <= 0.0 ==> m <= rnd * m <= 0.0
  {
    var rest := m - rnd * m;
    assert rest == (1.0 - rnd) * m;
    if m > 0.0 {
      assert rest > 0.0;
    } else {
      assert rest <= 0.0;
    }
  }

  /** The record createStartPosition returns. */
  datatype StartPosition = StartPosition(x: real, y: real, path: Path)

  /** createStartPosition: selector `idx`, asteroid size `dimension`; `rnd` is the
      Math.random() value the edge cases (5 to 8) draw for their free coordinate.
      Where the tag says an axis starts on the negative side, the spawn lies 1.5 sizes
      before the canvas; on the positive side it lies exactly on the far edge; on a
      free axis it lies in [0, canvas - size) when the canvas is larger than the
      asteroid, and in [canvas - size, 0] otherwise. */
  function CreateStartPosition(idx: int, dimension: int, canvasWidth: nat, canvasHeight: nat, rnd: real): (p: StartPosition)
    requires 0.0 <= rnd < 1.0
    ensures XSide(p.path) == Neg ==> p.x == -1.5 * dimension as real
    ensures XSide(p.path) == Pos ==> p.x == canvasWidth as real
    ensures YSide(p.path) == Neg ==> p.y == -1.5 * dimension as real
    ensures YSide(p.path) == Pos ==> p.y == canvasHeight as real
    ensures XSide(p.path) == Free && canvasWidth > dimension ==> 0.0 <= p.x < (canvasWidth - dimension) as real
    ensures YSide(p.path) == Free && canvasHeight > dimension ==> 0.0 <= p.y < (canvasHeight - dimension) as real
    ensures XSide(p.path) == Free && canvasWidth <= dimension ==> (canvasWidth - dimension) as real <= p.x <= 0.0
    ensures YSide(p.path) == Free && canvasHeight <= dimension ==> (canvasHeight - dimension) as real <= p.y <= 0.0
  {
    var d := dimension as real;
    var w := canvasWidth as real;
    var h := canvasHeight as real;
    match idx
    case 1 => StartPosition(-1.5 * d, -1.5 * d, NN)
    case 2 => StartPosition(w, h, PP)
    case 3 => StartPosition(-1.5 * d, h, NP)
    case 4 => StartPosition(w, -1.5 * d, PN)
    case 5 => StartPosition(-1.5 * d, FloorDraw(rnd, canvasHeight - dimension) as real, NC)
    case 6 => StartPosition(w, FloorDraw(rnd, canvasHeight - dimension) as real, PC)
    case 7 => StartPosition(FloorDraw(rnd, canvasWidth - dimension) as real, -1.5 * d, CN)
    case 8 => StartPosition(FloorDraw(rnd, canvasWidth - dimension) as real, h, CP)
    case _ => StartPosition(-1.5 * d, -1.5 * d, NN)
  }

  /** The selector table: corners 1 to 4 get NN, PP, NP, PN, edges 5 to 8 get NC, PC,
      CN, CP, and any other selector is handled as selector 1. */
  lemma SelectorTable(idx: int, dimension: int, canvasWidth: nat, canvasHeight: nat, rnd: real)
    requires 0.0 <= rnd < 1.0
    ensures var p := CreateStartPosition(idx, dimension, canvasWidth, canvasHeight, rnd);
            p.path == (match idx
                       case 1 => NN case 2 => PP case 3 => NP case 4 => PN
                       case 5 => NC case 6 => PC case 7 => CN case 8 => CP
                       case _ => NN)
    ensures !(1 <= idx <= 8) ==>
              CreateStartPosition(idx, dimension, canvasWidth, canvasHeight, rnd) ==
              CreateStartPosition(1, dimension, canvasWidth, canvasHeight, rnd)
  {
  }

  /** The tag createStartPosition assigns moves the asteroid inward on every axis on
      which it starts outside or on the edge of the canvas. */
  lemma {:induction false} SpawnMovesInward(idx: int, dimension: int, canvasWidth: nat, canvasHeight: nat, rnd: real, speed: real)
    requires 0.0 <= rnd < 1.0 && dimension > 0 && speed > 0.0
    requires canvasWidth > dimension && canvasHeight > dimension
    ensures var p := CreateStartPosition(idx, dimension, canvasWidth, canvasHeight, rnd);
            var v := Velocity(p.path, speed);
            (p.x < 0.0 ==> v.dx > 0.0) && (p.x == canvasWidth as real ==> v.dx < 0.0) &&
            (p.y < 0.0 ==> v.dy > 0.0) && (p.y == canvasHeight as real ==> v.dy < 0.0)
  {
  }

  /** Every spawn is outside the canvas or on its right or bottom edge on some axis. */
  lemma SpawnOnOrOutsideEdge(idx: int, dimension: int, canvasWidth: nat, canvasHeight: nat, rnd: real)
    requires 0.0 <= rnd < 1.0 && dimension > 0
    ensures var p := CreateStartPosition(idx, dimension, canvasWidth, canvasHeight, rnd);
            p.x < 0.0 || p.y < 0.0 || p.x == canvasWidth as real || p.y == canvasHeight as real
  {
  }

  /** A freshly placed asteroid of non-negative size is never already gone, whatever
      the selector, the draw and the canvas size. */
  lemma SpawnNotGone(idx: int, dimension: int, canvasWidth: nat, canvasHeight: nat, rnd: real, path: Path, speed: real)
    requires 0.0 <= rnd < 1.0 && dimension >= 0
    ensures var p := CreateStartPosition(idx, dimension, canvasWidth, canvasHeight, rnd);
            !Gone(Rock(p.x, p.y, dimension as real, dimension as real, path, speed), canvasWidth, canvasHeight)
  {
  }

  /** The Math.random() values one asteroidComponent consumes: its size, its selector,
      the free coordinate of an edge spawn, and its speed. */
  datatype RockDraw = RockDraw(size: real, selector: real, free: real, speed: real)
  {
    predicate Valid()
    {
      0.0 <= size < 1.0 && 0.0 <= selector < 1.0 && 0.0 <= free < 1.0 && 0.0 <= speed < 1.0
    }
  }

  /** The size drawn by asteroidComponent: floor(rnd * 30) + 20. */
  function Dimension(draw: RockDraw): (d: int)
    requires draw.Valid()
    ensures 20 <= d < 50
  {
    FloorDraw(draw.size, 30) + 20
  }

  /** The selector drawn by asteroidComponent: floor(rnd * 8) + 1. */
  function Selector(draw: RockDraw): (idx: int)
    requires draw.Valid()
    ensures 1 <= idx <= 8
  {
    FloorDraw(draw.selector, 8) + 1
  }

  /** The asteroid asteroidComponent builds from its draws: square, of size in [20,50),
      of speed in [1,4), placed by createStartPosition, and not already gone. */
  function NewRock(draw: RockDraw, canvasWidth: nat, canvasHeight: nat): (r: Rock)
    requires draw.Valid()
    ensures 20.0 <= r.width < 50.0 && r.height == r.width
    ensures 1.0 <= r.speed < 4.0
    ensures !Gone(r, canvasWidth, canvasHeight)
  {
    var d := Dimension(draw);
    var p := CreateStartPosition(Selector(draw), d, canvasWidth, canvasHeight, draw.free);
    var speed := draw.speed * 3.0 + 1.0;
    SpawnNotGone(Selector(draw), d, canvasWidth, canvasHeight, draw.free, p.path, speed);
    Rock(p.x, p.y, d as real, d as real, p.path, speed)
  }

  /** Scenario: on an 800x600 canvas selector 2 places a size-30 asteroid on the
      bottom-right corner with tag PP, and one tick at speed 2 takes it to (798, 598). */
  lemma BottomRightScenario()
    ensures CreateStartPosition(2, 30, 800, 600, 0.0) == StartPosition(800.0, 600.0, PP)
    ensures Step(Rock(800.0, 600.0, 30.0, 30.0, PP, 2.0)).Bounds() == Box(798.0, 598.0, 30.0, 30.0)
  {
  }

  /** Scenario: with size 50 the left margin is -100, so x = -200 is gone and x = -90
      is not. */
  lemma GoneScenario()
    ensures Gone(Rock(-200.0, 300.0, 50.0, 50.0, NN, 1.0), 800, 600)
    ensures !Gone(Rock(-90.0, 300.0, 50.0, 50.0, NN, 1.0), 800, 600)
  {
  }
}
