/** The asteroid entity (asteroidComponent): its fields, updated in place by newPos,
    and its two tests. */
module Asteroids {
  import opened Kinematics
  import opened Players

  class Asteroid {
    var x: real
    var y: real
    var width: real
    var height: real
    var path: Path
    var speed: real

    function State(): Rock
      reads this
    {
      Rock(x, y, width, height, path, speed)
    }

    /** asteroidComponent: draws its size, places itself with createStartPosition and
        draws its speed. */
    constructor (draw: RockDraw, canvasWidth: nat, canvasHeight: nat)
      requires draw.Valid()
      ensures State() == NewRock(draw, canvasWidth, canvasHeight)
    {
      var dimension := FloorDraw(draw.size, 30) + 20;
      width := dimension as real;
      height := dimension as real;
      var start := CreateStartPosition(FloorDraw(draw.selector, 8) + 1, dimension,
                                       canvasWidth, canvasHeight, draw.free);
      x := start.x;
      y := start.y;
      path := start.path;
      speed := draw.speed * 3.0 + 1.0;
    }

    /** checkCollision against the player. */
    predicate CheckCollision(player: Player)
      reads this, player
    {
      Collides(State().Bounds(), player.Bounds())
    }

    /** isAsteroidGone. */
    predicate IsAsteroidGone(canvasWidth: nat, canvasHeight: nat)
      reads this
    {
      Gone(State(), canvasWidth, canvasHeight)
    }

    /** newPos: moves the centre by the displacement of the asteroid's tag. */
    method NewPos()
      modifies this
      ensures State() == Step(old(State()))
    {
      if path == NN {
        x := x + speed;
        y := y + speed;
      } else if path == PN {
        x := x - speed;
        y := y + speed;
      } else if path == CN {
        x := x + 0.5 * speed;
        y := y + speed;
      } else if path == NP {
        x := x + speed;
        y := y - speed;
      } else if path == PP {
        x := x - speed;
        y := y - speed;
      } else if path == CP {
        x := x - 0.5 * speed;
        y := y - speed;
      } else if path == NC {
        x := x + speed;
        y := y + 0.5 * speed;
      } else if path == PC {
        x := x - speed;
        y := y - 0.5 * speed;
      }
    }
  }
}
