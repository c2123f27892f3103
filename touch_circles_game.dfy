/**
 The game controller. Its fields are those of the browser object (the round
 state and the fields of `this.circle`), and each method updates them in
 place; each method is specified by the function of `GameState` it
 implements, applied to the state before the call.
 */
module TouchCircles {
  import opened Geometry
  import opened GameState

  class TouchCirclesGame {
    const width: real
    const height: real
    const radius: real

    var gameRunning: bool
    var score: nat
    var timeLeft: int

    var x: real
    var y: real
    var dx: real
    var dy: real
    var color: string

    /** The fields as a `Game` value. */
    ghost function Snapshot(): Game
      reads this
    {
      Game(gameRunning, score, timeLeft, Circle(x, y, dx, dy, radius, color))
    }

    ghost predicate Valid()
      reads this
    {
      && 2.0 * radius <= width
      && 2.0 * radius <= height
      && RoundInvariant(Snapshot())
    }

    constructor (width: real, height: real)
      requires 2.0 * Radius <= width && 2.0 * Radius <= height
      ensures Valid()
      ensures this.width == width && this.height == height
      ensures Snapshot() == Initial()
    {
      this.width := width;
      this.height := height;
      radius := Radius;
      gameRunning := false;
      score := 0;
      timeLeft := RoundSeconds;
      x, y := StartX, StartY;
      dx, dy := StartDx, StartDy;
      color := StartColor;
    }

    method StartGame()
      requires Valid()
      modifies this
      ensures Valid()
      ensures Snapshot() == Start(old(Snapshot()))
      ensures old(gameRunning) ==> unchanged(this)
      ensures gameRunning && (!old(gameRunning) ==> score == 0 && timeLeft == RoundSeconds)
      ensures x == old(x) && y == old(y) && dx == old(dx) && dy == old(dy) && color == old(color)
    {
      if gameRunning {
        return;
      }
      gameRunning := true;
      score := 0;
      timeLeft := RoundSeconds;
    }

    /** The callback of the one-second interval that `StartGame` sets up and `EndGame` clears. */
    method TickCountdown()
      requires Valid()
      requires gameRunning
      modifies this
      ensures Valid()
      ensures Snapshot() == Countdown(old(Snapshot()))
      ensures timeLeft == old(timeLeft) - 1
      ensures gameRunning <==> timeLeft > 0
      ensures score == old(score)
      ensures x == old(x) && y == old(y) && dx == old(dx) && dy == old(dy) && color == old(color)
    {
      timeLeft := timeLeft - 1;
      if timeLeft <= 0 {
        EndGame();
      }
    }

    /** One animation tick: move, bounce off the walls, keep the circle on the canvas. */
    method UpdateCircle()
      requires Valid()
      modifies this
      ensures Valid()
      ensures Snapshot() == Animate(old(Snapshot()), width, height)
      ensures radius <= x <= width - radius && radius <= y <= height - radius
      ensures old(x + dx) - radius <= 0.0 ==> x == radius
      ensures old(x + dx) + radius >= width ==> x == width - radius
      ensures old(y + dy) - radius <= 0.0 ==> y == radius
      ensures old(y + dy) + radius >= height ==> y == height - radius
      ensures !Touches(old(x + dx), radius, width) ==> x == old(x + dx)
      ensures !Touches(old(y + dy), radius, height) ==> y == old(y + dy)
      ensures dx == if Touches(old(x + dx), radius, width) then -old(dx) else old(dx)
      ensures dy == if Touches(old(y + dy), radius, height) then -old(dy) else old(dy)
      ensures gameRunning == old(gameRunning) && score == old(score) && timeLeft == old(timeLeft)
      ensures color == old(color)
    {
      x := x + dx;
      y := y + dy;

      if x - radius <= 0.0 || x + radius >= width {
        dx := -dx;
      }
      if y - radius <= 0.0 || y + radius >= height {
        dy := -dy;
      }

      x := Clamp(radius, width - radius, x);
      y := Clamp(radius, height - radius, y);
    }

    /** A click at canvas-local `(clickX, clickY)`; `roll` is the value `Math.random()` returns. */
    method HandleClick(clickX: real, clickY: real, roll: real)
      requires Valid()
      requires 0.0 <= roll < 1.0
      modifies this
      ensures Valid()
      ensures Snapshot() == Click(old(Snapshot()), clickX, clickY, roll)
      ensures !old(IsHit(Snapshot(), clickX, clickY)) ==> unchanged(this)
      ensures old(IsHit(Snapshot(), clickX, clickY)) ==>
        && score == (if old(gameRunning) then old(score) + 1 else old(score))
        && dx == old(dx) * SpeedUp && dy == old(dy) * SpeedUp
        && color in Palette
      ensures gameRunning == old(gameRunning) && timeLeft == old(timeLeft)
      ensures x == old(x) && y == old(y)
    {
      if WithinRadius(clickX, clickY, x, y, radius) {
        if gameRunning {
          score := score + 1;
        }
        color := RandomColor(roll);
        dx := dx * SpeedUp;
        dy := dy * SpeedUp;
      }
    }

    /** Ends the round; it has no guard, so it may be called when no round runs. */
    method EndGame()
      requires 2.0 * radius <= width && 2.0 * radius <= height
      requires RoundInvariant(Snapshot().(running := false))
      modifies this
      ensures Valid()
      ensures Snapshot() == End(old(Snapshot()))
      ensures !gameRunning
      ensures score == old(score) && timeLeft == old(timeLeft)
      ensures x == old(x) && y == old(y) && dx == old(dx) && dy == old(dy) && color == old(color)
    {
      gameRunning := false;
    }

    method ResetGame()
      requires Valid()
      modifies this
      ensures Valid()
      ensures Snapshot() == Reset(old(Snapshot()))
      ensures !gameRunning && score == 0 && timeLeft == RoundSeconds
      ensures x == StartX && y == StartY && dx == StartDx && dy == StartDy && color == StartColor
    {
      EndGame();
      x := StartX;
      y := StartY;
      dx := StartDx;
      dy := StartDy;
      color := StartColor;
      score := 0;
      timeLeft := RoundSeconds;
    }
  }
}
