/** The scrolling star field behind the game: one star per canvas row, drifting right
    and wrapping back to the left edge. */
module Stars {
  import Kinematics

  /** Magnitude of a star's horizontal speed. */
  const STAR_SPEED: real := 0.5

  /** The state of one star; only x and speedX ever change. */
  datatype StarState = StarState(x: real, y: real, width: real, height: real, speedX: real)

  /** The Math.random() values one star consumes: its column (drawn by createStars)
      and its size (drawn by starComponent). */
  datatype StarDraw = StarDraw(position: real, size: real)
  {
    predicate Valid()
    {
      0.0 <= position < 1.0 && 0.0 <= size < 1.0
    }
  }

  /** The star createStars builds for canvas row `row`: a random column on the canvas,
      a square size in [0.5,1.5), moving right at STAR_SPEED. */
  function NewStar(draw: StarDraw, row: nat, canvasWidth: nat): (s: StarState)
    requires draw.Valid()
    ensures canvasWidth > 0 ==> 0.0 <= s.x < canvasWidth as real
    ensures s.y == row as real
    ensures 0.5 <= s.width < 1.5 && s.height == s.width
    ensures s.speedX == STAR_SPEED
  {
    var size := draw.size + 0.5;
    Kinematics.ScaledDraw(draw.position, canvasWidth as real);
    StarState(draw.position * canvasWidth as real, row as real, size, size, STAR_SPEED)
  }

  /** One tick of star newPos. A star left of its own width is given the rightward
      speed; otherwise a star touching the right edge restarts at 0 with the leftward
      speed; the star then moves by its speed. */
  function StarStep(s: StarState, canvasWidth: nat): (t: StarState)
    ensures t.y == s.y && t.width == s.width && t.height == s.height
  {
    if s.x - s.width < 0.0 then
      s.(x := s.x + STAR_SPEED, speedX := STAR_SPEED)
    else if s.x + s.width >= canvasWidth as real then
      s.(x := 0.0 - STAR_SPEED, speedX := -STAR_SPEED)
    else
      s.(x := s.x + s.speedX)
  }

  /** What holds of every star between ticks: its size is the drawn one, it lies in the
      band [-STAR_SPEED, canvas width), and it has the leftward speed only right after
      a wrap, while still left of its own width. */
  predicate StarInvariant(s: StarState, canvasWidth: nat)
  {
    0.5 <= s.width < 1.5 &&
    -STAR_SPEED <= s.x < canvasWidth as real &&
    (s.speedX == STAR_SPEED || (s.speedX == -STAR_SPEED && s.x < s.width))
  }

  lemma NewStarInvariant(draw: StarDraw, row: nat, canvasWidth: nat)
    requires draw.Valid() && canvasWidth > 0
    ensures StarInvariant(NewStar(draw, row, canvasWidth), canvasWidth)
  {
  }

  /** newPos keeps the invariant on any canvas at least two pixels wide. */
  lemma StarStepKeepsInvariant(s: StarState, canvasWidth: nat)
    requires canvasWidth >= 2 && StarInvariant(s, canvasWidth)
    ensures StarInvariant(StarStep(s, canvasWidth), canvasWidth)
  {
  }

  /** Under the invariant a star either advances right by STAR_SPEED or, exactly when
      it is past its own width and touches the right edge, wraps back to -STAR_SPEED. */
  lemma StarAdvancesOrWraps(s: StarState, canvasWidth: nat)
    requires StarInvariant(s, canvasWidth)
    ensures var t := StarStep(s, canvasWidth);
            var wraps := s.x - s.width >= 0.0 && s.x + s.width >= canvasWidth as real;
            (wraps ==> t.x == -STAR_SPEED && t.speedX == -STAR_SPEED) &&
            (!wraps ==> t.x == s.x + STAR_SPEED && t.speedX == STAR_SPEED)
  {
  }

  /** A wrapped star is back on its rightward course one tick later, at column 0. */
  lemma WrapRecovers(s: StarState, canvasWidth: nat)
    requires StarInvariant(s, canvasWidth)
    requires s.x - s.width >= 0.0 && s.x + s.width >= canvasWidth as real
    ensures StarStep(StarStep(s, canvasWidth), canvasWidth).x == 0.0
    ensures StarStep(StarStep(s, canvasWidth), canvasWidth).speedX == STAR_SPEED
  {
  }

  /** A star of the field (starComponent); newPos updates it in place. */
  class Star {
    var x: real
    var y: real
    var width: real
    var height: real
    var speedX: real

    function State(): StarState
      reads this
    {
      StarState(x, y, width, height, speedX)
    }

    constructor (draw: StarDraw, row: nat, canvasWidth: nat)
      requires draw.Valid()
      ensures State() == NewStar(draw, row, canvasWidth)
    {
      var rnd := draw.size + 0.5;
      width := rnd;
      height := rnd;
      speedX := STAR_SPEED;
      x := draw.position * canvasWidth as real;
      y := row as real;
    }

    method NewPos(canvasWidth: nat)
      modifies this
      ensures State() == StarStep(old(State()), canvasWidth)
    {
      if x - width < 0.0 {
        speedX := STAR_SPEED;
      } else if x + width >= canvasWidth as real {
        speedX := -STAR_SPEED;
        x := 0.0;
      }
      x := x + speedX;
    }
  }
}
