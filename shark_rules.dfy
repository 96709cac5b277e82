/** The per-tick rule of a shark: the scared/unscared countdown, the choice of
    heading, the repulsion from nearby sharks and the clamped step. */
module SharkRules {
  import opened Geometry
  import opened Constants

  /** The scared flag and the number of escape moves left. */
  datatype Fear = Fear(scared: bool, frames: int)

  /** What a shark is, as the other parts of the tick see it. */
  datatype SharkState = SharkState(id: nat, x: real, y: real, speed: real, fear: Fear)

  /** The countdown never goes negative, and a pending escape move means scared. */
  predicate FearInv(f: Fear)
  {
    f.frames >= 0 && (f.frames > 0 ==> f.scared)
  }

  /** What holds of every shark at every tick: inside the world, a sound
      countdown, a speed that is the base or the scared one, and the scared
      speed whenever it is scared.  A shark that calms down keeps the scared
      speed: nothing ever sets it back. */
  predicate SharkInv(s: SharkState, width: real, height: real)
  {
    InBounds(s.x, s.y, width, height) && FearInv(s.fear) &&
    (s.speed == SharkSpeed || s.speed == ScaredSharkSpeed) &&
    (s.fear.scared ==> s.speed == ScaredSharkSpeed)
  }

  /** A shark in this state flees on its next move. */
  predicate Escaping(f: Fear)
  {
    f.scared && f.frames > 0
  }

  /** The countdown part of one move: an escaping shark spends one frame; a
      scared shark with no frames left calms down; a calm shark stays calm. */
  function Countdown(f: Fear): (r: Fear)
    ensures FearInv(f) ==> FearInv(r)
    ensures Escaping(f) ==> r.scared && r.frames == f.frames - 1
    ensures !Escaping(f) ==> !r.scared && r.frames == f.frames
  {
    if f.scared then
      if f.frames > 0 then Fear(true, f.frames - 1) else Fear(false, f.frames)
    else f
  }

  /** `n` successive moves' worth of countdown. */
  function CountdownN(f: Fear, n: nat): Fear
    decreases n
  {
    if n == 0 then f else CountdownN(Countdown(f), n - 1)
  }

  /** The fear a fright trigger installs. */
  const Frightened: Fear := Fear(true, ScaredDuration)

  /** The fright trigger: scared, a full countdown and the scared speed; the
      position and identity stay. */
  function ScareAway(s: SharkState): (r: SharkState)
    ensures r.id == s.id && r.x == s.x && r.y == s.y
    ensures r.fear == Frightened && r.speed == ScaredSharkSpeed
    ensures FearInv(r.fear) && Escaping(r.fear)
    ensures forall width: real, height: real :: InBounds(s.x, s.y, width, height) ==> SharkInv(r, width, height)
  {
    s.(speed := ScaredSharkSpeed, fear := Frightened)
  }

  /** A scared shark with k frames left stays scared, one frame fewer per move,
      for k moves. */
  lemma {:induction false} CountdownWhileScared(f: Fear, n: nat)
    requires f.scared && n <= f.frames
    ensures CountdownN(f, n) == Fear(true, f.frames - n)
    decreases n
  {
    if n > 0 {
      CountdownWhileScared(Countdown(f), n - 1);
    }
  }

  /** After a fright the shark flees on exactly ScaredDuration moves, is still
      scared with no frames left after them, and calms down on the next move. */
  lemma FrightLastsScaredDuration()
    ensures forall n :: 0 <= n < ScaredDuration ==> Escaping(CountdownN(Frightened, n))
    ensures CountdownN(Frightened, ScaredDuration) == Fear(true, 0)
    ensures CountdownN(Frightened, ScaredDuration + 1) == Fear(false, 0)
  {
    forall n | 0 <= n < ScaredDuration
      ensures Escaping(CountdownN(Frightened, n))
    {
      CountdownWhileScared(Frightened, n);
    }
    CountdownWhileScared(Frightened, ScaredDuration);
    CountdownNStep(Frightened, ScaredDuration);
  }

  /** One more move after n moves. */
  lemma {:induction false} CountdownNStep(f: Fear, n: nat)
    ensures CountdownN(f, n + 1) == Countdown(CountdownN(f, n))
    decreases n
  {
    if n > 0 {
      CountdownNStep(Countdown(f), n - 1);
    }
  }

  /** The heading of a fleeing shark: perpendicular to the line from the person. */
  function EscapeAngle(x: real, y: real, px: real, py: real, g: Trig): real
  {
    Atan2(g, y - py, x - px) + g.pi / 2.0
  }

  /** The heading straight at the person. */
  function PursuitAngle(x: real, y: real, px: real, py: real, g: Trig): real
  {
    Atan2(g, py - y, px - x)
  }

  /** The heading chosen before repulsion. */
  function BaseHeading(s: SharkState, px: real, py: real, g: Trig): real
  {
    if Escaping(s.fear) then EscapeAngle(s.x, s.y, px, py, g) else PursuitAngle(s.x, s.y, px, py, g)
  }

  /** `other` pushes `me` away: a different id, strictly closer than MinSharkDistance. */
  predicate Repels(me: SharkState, other: SharkState)
  {
    other.id != me.id && SqDist(me.x, me.y, other.x, other.y) < Sq(MinSharkDistance)
  }

  /** The bearing from `other` to `me`. */
  function AwayAngle(me: SharkState, other: SharkState, g: Trig): real
  {
    Atan2(g, me.y - other.y, me.x - other.x)
  }

  /** One repulsion step. */
  function Blend(angle: real, away: real): real
  {
    0.7 * angle + 0.3 * away
  }

  /** The repulsion loop: a fold over the sharks in list order. */
  function Repel(angle: real, me: SharkState, sharks: seq<SharkState>, g: Trig): real
  {
    if sharks == [] then angle
    else
      var a := Repel(angle, me, sharks[..|sharks| - 1], g);
      var other := sharks[|sharks| - 1];
      if Repels(me, other) then Blend(a, AwayAngle(me, other, g)) else a
  }

  /** The sharks that repel `me`, in list order. */
  function Neighbours(me: SharkState, sharks: seq<SharkState>): (r: seq<SharkState>)
    ensures forall o :: o in r ==> o in sharks && Repels(me, o)
    ensures forall o :: o in sharks && Repels(me, o) ==> o in r
  {
    if sharks == [] then []
    else
      var last := sharks[|sharks| - 1];
      assert sharks == sharks[..|sharks| - 1] + [last];
      Neighbours(me, sharks[..|sharks| - 1]) + (if Repels(me, last) then [last] else [])
  }

  /** Blending a heading with a list of away-bearings, first to last. */
  function BlendAll(angle: real, aways: seq<real>): real
  {
    if aways == [] then angle else Blend(BlendAll(angle, aways[..|aways| - 1]), aways[|aways| - 1])
  }

  /** The away-bearings from a list of sharks. */
  function AwayAngles(me: SharkState, sharks: seq<SharkState>, g: Trig): (r: seq<real>)
    ensures |r| == |sharks|
    ensures forall i :: 0 <= i < |sharks| ==> r[i] == AwayAngle(me, sharks[i], g)
  {
    seq(|sharks|, i requires 0 <= i < |sharks| => AwayAngle(me, sharks[i], g))
  }

  /** Repulsion is the heading blended, in list order, with the bearing away
      from each repelling shark and from no other. */
  lemma {:induction false} RepelBlendsNeighbours(angle: real, me: SharkState, sharks: seq<SharkState>, g: Trig)
    ensures Repel(angle, me, sharks, g) == BlendAll(angle, AwayAngles(me, Neighbours(me, sharks), g))
  {
    if sharks != [] {
      var init, last := sharks[..|sharks| - 1], sharks[|sharks| - 1];
      RepelBlendsNeighbours(angle, me, init, g);
      var ns := Neighbours(me, init);
      if Repels(me, last) {
        var aw := AwayAngles(me, ns + [last], g);
        assert aw[..|aw| - 1] == AwayAngles(me, ns, g);
      } else {
        assert Neighbours(me, sharks) == ns;
      }
    }
  }

  /** With no shark in range the heading is left as it was. */
  lemma RepelWithoutNeighbours(angle: real, me: SharkState, sharks: seq<SharkState>, g: Trig)
    requires forall o :: o in sharks ==> !Repels(me, o)
    ensures Repel(angle, me, sharks, g) == angle
  {
    RepelBlendsNeighbours(angle, me, sharks, g);
  }

  /** The heading a shark moves along this tick, `world` being the sharks as
      they stand when it moves. */
  function Heading(s: SharkState, px: real, py: real, world: seq<SharkState>, g: Trig): real
  {
    Repel(BaseHeading(s, px, py, g), s, world, g)
  }

  /** Shark.move: count down, pick a heading, take one step at the current
      speed and clamp into [1, width - 1] x [1, height - 1]. */
  function StepShark(s: SharkState, px: real, py: real, world: seq<SharkState>,
                     width: real, height: real, g: Trig): (r: SharkState)
    ensures r.id == s.id && r.speed == s.speed
    ensures r.fear == Countdown(s.fear)
    ensures 2.0 <= width ==> 1.0 <= r.x <= width - 1.0
    ensures 2.0 <= height ==> 1.0 <= r.y <= height - 1.0
    ensures SharkInv(s, width, height) ==> SharkInv(r, width, height)
  {
    var angle := Heading(s, px, py, world, g);
    s.(x := ClampedStep(s.x, s.speed, Cos(g, angle), 1.0, width - 1.0),
       y := ClampedStep(s.y, s.speed, Sin(g, angle), 1.0, height - 1.0),
       fear := Countdown(s.fear))
  }
}
