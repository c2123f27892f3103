/**
 Whole sessions: the events the browser delivers to the game (animation
 ticks, countdown ticks, clicks and the two buttons), dispatched one after
 another, and the facts that hold across many of them.
 */
module Sessions {
  import opened Geometry
  import opened GameState

  datatype Event =
    | AnimationTick
    | CountdownTick
    | ClickAt(px: real, py: real, roll: real)
    | StartPressed
    | ResetPressed

  /** A click carries a `Math.random()` value, which lies in `[0, 1)`. */
  predicate Deliverable(e: Event)
  {
    e.ClickAt? ==> 0.0 <= e.roll < 1.0
  }

  predicate AllDeliverable(es: seq<Event>)
  {
    forall i :: 0 <= i < |es| ==> Deliverable(es[i])
  }

  /**
   The countdown interval exists only between the start of a round and its
   end, so a countdown tick reaches the game only while a round runs.
   */
  function DeliverCountdown(g: Game): (r: Game)
    ensures !g.running ==> r == g
    ensures g.running ==> r.timeLeft == g.timeLeft - 1 && (r.running <==> r.timeLeft > 0)
    ensures r.score == g.score && r.circle == g.circle
    ensures RoundInvariant(g) ==> RoundInvariant(r)
  {
    if g.running then Countdown(g) else g
  }

  function Dispatch(g: Game, e: Event, width: real, height: real): Game
    requires Deliverable(e)
  {
    match e
    case AnimationTick => Animate(g, width, height)
    case CountdownTick => DeliverCountdown(g)
    case ClickAt(px, py, roll) => Click(g, px, py, roll)
    case StartPressed => Start(g)
    case ResetPressed => Reset(g)
  }

  function Run(g: Game, es: seq<Event>, width: real, height: real): Game
    requires AllDeliverable(es)
    decreases |es|
  {
    if es == [] then g else Run(Dispatch(g, es[0], width, height), es[1..], width, height)
  }

  /** Every event keeps the round invariant. */
  lemma DispatchKeepsInvariant(g: Game, e: Event, width: real, height: real)
    requires Deliverable(e)
    requires RoundInvariant(g)
    ensures RoundInvariant(Dispatch(g, e, width, height))
  {
  }

  /** The round invariant holds after any sequence of events. */
  lemma {:induction false} RunKeepsInvariant(g: Game, es: seq<Event>, width: real, height: real)
    requires AllDeliverable(es)
    requires RoundInvariant(g)
    ensures RoundInvariant(Run(g, es, width, height))
    decreases |es|
  {
    if es != [] {
      DispatchKeepsInvariant(g, es[0], width, height);
      RunKeepsInvariant(Dispatch(g, es[0], width, height), es[1..], width, height);
    }
  }

  /** A canvas on which the start position of the circle is inside. */
  predicate StartFits(width: real, height: real)
  {
    StartX + Radius <= width && StartY + Radius <= height
  }

  /**
   On a canvas where the start position fits, the circle stays wholly on the
   canvas across any sequence of events.
   */
  lemma {:induction false} RunKeepsCircleInside(g: Game, es: seq<Event>, width: real, height: real)
    requires AllDeliverable(es)
    requires StartFits(width, height)
    requires RoundInvariant(g) && Inside(g.circle, width, height)
    ensures Inside(Run(g, es, width, height).circle, width, height)
    decreases |es|
  {
    if es != [] {
      var g' := Dispatch(g, es[0], width, height);
      DispatchKeepsInvariant(g, es[0], width, height);
      assert Inside(g'.circle, width, height);
      RunKeepsCircleInside(g', es[1..], width, height);
    }
  }

  /** Even on the smallest canvas the game accepts, every animation tick leaves the circle inside. */
  lemma AnimationTickLandsInside(g: Game, width: real, height: real)
    requires RoundInvariant(g)
    requires 2.0 * Radius <= width && 2.0 * Radius <= height
    ensures Inside(Dispatch(g, AnimationTick, width, height).circle, width, height)
  {
  }

  /** A second press of the start button changes nothing. */
  lemma StartIsIdempotent(g: Game)
    ensures Start(Start(g)) == Start(g)
  {
  }

  /** Ending a round twice is the same as ending it once. */
  lemma EndIsIdempotent(g: Game)
    ensures End(End(g)) == End(g)
  {
  }

  /** A click at the centre is always a hit, whatever the radius. */
  lemma CentreIsHit(g: Game)
    ensures IsHit(g, g.circle.x, g.circle.y)
  {
  }

  predicate NoButtons(es: seq<Event>)
  {
    forall i :: 0 <= i < |es| ==> !es[i].StartPressed? && !es[i].ResetPressed?
  }

  /**
   Outside a round the score is frozen: until a button is pressed, no click,
   tick or countdown changes it, and no round starts.
   */
  lemma {:induction false} ScoreFrozenOutsideRound(g: Game, es: seq<Event>, width: real, height: real)
    requires AllDeliverable(es) && NoButtons(es)
    requires !g.running
    ensures Run(g, es, width, height).score == g.score
    ensures !Run(g, es, width, height).running
    ensures Run(g, es, width, height).timeLeft == g.timeLeft
    decreases |es|
  {
    if es != [] {
      assert !es[0].StartPressed? && !es[0].ResetPressed?;
      var g' := Dispatch(g, es[0], width, height);
      assert g'.score == g.score && !g'.running && g'.timeLeft == g.timeLeft;
      ScoreFrozenOutsideRound(g', es[1..], width, height);
    }
  }

  /** `n` consecutive countdown ticks. */
  function Countdowns(g: Game, n: nat): Game
    decreases n
  {
    if n == 0 then g else Countdowns(DeliverCountdown(g), n - 1)
  }

  /**
   While a round runs, each tick takes exactly one second off; the round is
   still running after `n` ticks iff `n` is less than the time that was left.
   Score and circle are untouched.
   */
  lemma {:induction false} CountdownTimeline(g: Game, n: nat)
    requires RoundInvariant(g) && g.running
    requires n <= g.timeLeft
    ensures Countdowns(g, n).timeLeft == g.timeLeft - n
    ensures Countdowns(g, n).running <==> n < g.timeLeft
    ensures Countdowns(g, n).score == g.score && Countdowns(g, n).circle == g.circle
    decreases n
  {
    if n > 0 {
      var g' := DeliverCountdown(g);
      assert g'.timeLeft == g.timeLeft - 1;
      if n > 1 {
        CountdownTimeline(g', n - 1);
      }
    }
  }

  /** Once the round has ended, further countdown ticks change nothing. */
  lemma {:induction false} CountdownsAfterEndAreInert(g: Game, n: nat)
    requires !g.running
    ensures Countdowns(g, n) == g
    decreases n
  {
    if n > 0 {
      CountdownsAfterEndAreInert(g, n - 1);
    }
  }

  /**
   A round started from rest lasts exactly `RoundSeconds` ticks: it still
   runs after 29, has ended with no time left after 30, and stays ended with
   the same state however many more ticks arrive.
   */
  lemma RoundLastsThirtyTicks(g: Game, extra: nat)
    requires RoundInvariant(g) && !g.running
    ensures Countdowns(Start(g), RoundSeconds - 1).running
    ensures var over := Countdowns(Start(g), RoundSeconds);
      !over.running && over.timeLeft == 0 && over.score == 0
    ensures Countdowns(Start(g), RoundSeconds + extra) == Countdowns(Start(g), RoundSeconds)
  {
    var s := Start(g);
    CountdownTimeline(s, RoundSeconds - 1);
    CountdownTimeline(s, RoundSeconds);
    CountdownsSplit(s, RoundSeconds, extra);
    CountdownsAfterEndAreInert(Countdowns(s, RoundSeconds), extra);
  }

  /** Ticking `m` then `n` times is ticking `m + n` times. */
  lemma {:induction false} CountdownsSplit(g: Game, m: nat, n: nat)
    ensures Countdowns(g, m + n) == Countdowns(Countdowns(g, m), n)
    decreases m
  {
    if m > 0 {
      CountdownsSplit(DeliverCountdown(g), m - 1, n);
    }
  }

  function Pow(b: real, n: nat): real
    decreases n
  {
    if n == 0 then 1.0 else b * Pow(b, n - 1)
  }

  /** Clicks each aimed at the circle's centre at the moment it arrives, one per roll. */
  function CentreClicks(g: Game, rolls: seq<real>): Game
    requires forall i :: 0 <= i < |rolls| ==> 0.0 <= rolls[i] < 1.0
    decreases |rolls|
  {
    if rolls == [] then g
    else CentreClicks(Click(g, g.circle.x, g.circle.y, rolls[0]), rolls[1..])
  }

  /**
   The speed-up compounds: after `k` hits each velocity component is
   `1.1^k` times what it was, the score has grown by `k` exactly when a
   round runs, and position, time and the running flag are unchanged.
   */
  lemma {:induction false} HitsCompound(g: Game, rolls: seq<real>)
    requires forall i :: 0 <= i < |rolls| ==> 0.0 <= rolls[i] < 1.0
    ensures var r := CentreClicks(g, rolls);
      && r.circle.dx == g.circle.dx * Pow(SpeedUp, |rolls|)
      && r.circle.dy == g.circle.dy * Pow(SpeedUp, |rolls|)
      && r.score == g.score + (if g.running then |rolls| else 0)
      && r.circle.x == g.circle.x && r.circle.y == g.circle.y
      && r.running == g.running && r.timeLeft == g.timeLeft
    decreases |rolls|
  {
    if rolls != [] {
      CentreIsHit(g);
      var g' := Click(g, g.circle.x, g.circle.y, rolls[0]);
      HitsCompound(g', rolls[1..]);
      var p := Pow(SpeedUp, |rolls| - 1);
      assert g'.circle.dx * p == g.circle.dx * (SpeedUp * p);
      assert g'.circle.dy * p == g.circle.dy * (SpeedUp * p);
    }
  }

  /** The two scenarios of the bounce rule: a free move, and an overshoot past the left wall. */
  lemma BounceScenarios()
    ensures AxisStep(400.0, 4.0, 30.0, 800.0) == Axis(404.0, 4.0)
    ensures AxisStep(25.0, -4.0, 30.0, 800.0) == Axis(30.0, 4.0)
  {
  }
}
