/**
 The state of one game session as a value: the moving circle and the round
 (running flag, score, seconds left), with one function per event the game
 reacts to. The class in `TouchCircles` updates its fields in place and is
 specified by these functions.
 */
module GameState {
  import opened Geometry

  /** The five colours `getRandomColor` picks from. */
  const Palette: seq<string> := ["#FF6B6B", "#4ECDC4", "#45B7D1", "#96CEB4", "#FFEAA7"]

  const RoundSeconds: int := 30
  const SpeedUp: real := 1.1

  const StartX: real := 100.0
  const StartY: real := 100.0
  const StartDx: real := 3.0
  const StartDy: real := 3.0
  const Radius: real := 40.0
  const StartColor: string := "#FF6B6B"

  datatype Circle = Circle(x: real, y: real, dx: real, dy: real, radius: real, color: string)

  datatype Game = Game(running: bool, score: nat, timeLeft: int, circle: Circle)

  /** The circle as the game creates it and as a reset restores it. */
  function StartCircle(): Circle
  {
    Circle(StartX, StartY, StartDx, StartDy, Radius, StartColor)
  }

  /** The state right after construction: no round running, full time, score 0. */
  function Initial(): Game
  {
    Game(false, 0, RoundSeconds, StartCircle())
  }

  /**
   What every reachable state satisfies: the time left lies in
   `[0, RoundSeconds]` and is positive while a round runs, the radius is the
   constant one and the colour is a palette entry.
   */
  predicate RoundInvariant(g: Game)
  {
    && 0 <= g.timeLeft <= RoundSeconds
    && (g.running ==> g.timeLeft > 0)
    && g.circle.radius == Radius
    && g.circle.color in Palette
  }

  /** The whole circle lies within the `width` by `height` canvas. */
  predicate Inside(c: Circle, width: real, height: real)
  {
    c.radius <= c.x <= width - c.radius && c.radius <= c.y <= height - c.radius
  }

  /**
   `colors[Math.floor(roll * colors.length)]`, where `roll` stands for the
   value of `Math.random()`.
   */
  function RandomColor(roll: real): (c: string)
    requires 0.0 <= roll < 1.0
    ensures c in Palette
  {
    var i := (roll * |Palette| as real).Floor;
    Palette[i]
  }

  /** Each palette entry is the colour of a fifth of the rolls, starting at `i / 5`. */
  lemma RandomColorReaches(i: nat, roll: real)
    requires i < |Palette|
    requires i as real / |Palette| as real <= roll < (i + 1) as real / |Palette| as real
    ensures RandomColor(roll) == Palette[i]
  {
    var scaled := roll * |Palette| as real;
    assert i as real <= scaled < (i + 1) as real;
  }

  /** One animation tick: the circle bounces and is clamped along each axis. */
  function Animate(g: Game, width: real, height: real): (r: Game)
    ensures 2.0 * g.circle.radius <= width && 2.0 * g.circle.radius <= height ==> Inside(r.circle, width, height)
    ensures var c := g.circle;
      && (c.x + c.dx - c.radius <= 0.0 ==> r.circle.x == c.radius)
      && (2.0 * c.radius <= width && c.x + c.dx + c.radius >= width ==> r.circle.x == width - c.radius)
      && (c.y + c.dy - c.radius <= 0.0 ==> r.circle.y == c.radius)
      && (2.0 * c.radius <= height && c.y + c.dy + c.radius >= height ==> r.circle.y == height - c.radius)
    ensures var c := g.circle;
      && (Touches(c.x + c.dx, c.radius, width) ==> r.circle.dx == -c.dx)
      && (Touches(c.y + c.dy, c.radius, height) ==> r.circle.dy == -c.dy)
    ensures var c := g.circle;
      && (!Touches(c.x + c.dx, c.radius, width) ==> r.circle.x == c.x + c.dx && r.circle.dx == c.dx)
      && (!Touches(c.y + c.dy, c.radius, height) ==> r.circle.y == c.y + c.dy && r.circle.dy == c.dy)
    ensures r.running == g.running && r.score == g.score && r.timeLeft == g.timeLeft
    ensures r.circle.radius == g.circle.radius && r.circle.color == g.circle.color
  {
    var c := g.circle;
    var ax := AxisStep(c.x, c.dx, c.radius, width);
    var ay := AxisStep(c.y, c.dy, c.radius, height);
    g.(circle := c.(x := ax.pos, dx := ax.vel, y := ay.pos, dy := ay.vel))
  }

  /** The start button: ignored while a round runs, otherwise a fresh round. */
  function Start(g: Game): (r: Game)
    ensures r.running && r.circle == g.circle
    ensures g.running ==> r == g
    ensures !g.running ==> r.score == 0 && r.timeLeft == RoundSeconds
    ensures RoundInvariant(g) ==> RoundInvariant(r)
  {
    if g.running then g else g.(running := true, score := 0, timeLeft := RoundSeconds)
  }

  /** The end of a round: only the running flag changes. */
  function End(g: Game): (r: Game)
    ensures !r.running
    ensures r.score == g.score && r.timeLeft == g.timeLeft && r.circle == g.circle
    ensures 0 <= g.timeLeft <= RoundSeconds && g.circle.radius == Radius && g.circle.color in Palette
      ==> RoundInvariant(r)
  {
    g.(running := false)
  }

  /** The one-second countdown callback, which only fires while a round runs. */
  function Countdown(g: Game): (r: Game)
    requires g.running
    ensures r.timeLeft == g.timeLeft - 1
    ensures r.running <==> r.timeLeft > 0
    ensures r.score == g.score && r.circle == g.circle
    ensures RoundInvariant(g) ==> RoundInvariant(r)
  {
    var g' := g.(timeLeft := g.timeLeft - 1);
    if g'.timeLeft <= 0 then End(g') else g'
  }

  /** The click is on or inside the circle. */
  predicate IsHit(g: Game, px: real, py: real)
  {
    WithinRadius(px, py, g.circle.x, g.circle.y, g.circle.radius)
  }

  /**
   A click at canvas-local `(px, py)`: on a hit the score counts only while a
   round runs, while the new colour and the speed-up apply in any case; a
   miss changes nothing.
   */
  function Click(g: Game, px: real, py: real, roll: real): (r: Game)
    requires 0.0 <= roll < 1.0
    ensures !IsHit(g, px, py) ==> r == g
    ensures IsHit(g, px, py) ==>
      && r.score == (if g.running then g.score + 1 else g.score)
      && r.circle.dx == g.circle.dx * SpeedUp && r.circle.dy == g.circle.dy * SpeedUp
      && r.circle.color in Palette
    ensures r.running == g.running && r.timeLeft == g.timeLeft
    ensures r.circle.x == g.circle.x && r.circle.y == g.circle.y && r.circle.radius == g.circle.radius
    ensures RoundInvariant(g) ==> RoundInvariant(r)
  {
    if !IsHit(g, px, py) then g
    else
      var c := g.circle;
      g.(score := if g.running then g.score + 1 else g.score,
         circle := c.(color := RandomColor(roll), dx := c.dx * SpeedUp, dy := c.dy * SpeedUp))
  }

  /** The reset button: end the round, then restore the circle, score and time. */
  function Reset(g: Game): (r: Game)
    ensures r == Initial()
    ensures RoundInvariant(r)
  {
    End(g).(circle := StartCircle(), score := 0, timeLeft := RoundSeconds)
  }
}
