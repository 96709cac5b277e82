/** The per-tick rule of the person: a speed chosen from the nearest shark, a
    clamped step toward the ship, and the one-way arrival flag. */
module PersonRules {
  import opened Geometry
  import opened Constants

  datatype PersonState = PersonState(x: real, y: real, baseSpeed: real, speed: real, reached: bool)

  /** The squared distance from (x, y) to the nearest of `positions`: the
      program's min() over the Euclidean distances, squared. */
  function MinSqDist(x: real, y: real, positions: seq<(real, real)>): (r: real)
    requires |positions| > 0
    ensures forall i :: 0 <= i < |positions| ==> r <= SqDist(x, y, positions[i].0, positions[i].1)
    ensures exists i :: 0 <= i < |positions| && r == SqDist(x, y, positions[i].0, positions[i].1)
  {
    var d := SqDist(x, y, positions[0].0, positions[0].1);
    if |positions| == 1 then d
    else
      var rest := MinSqDist(x, y, positions[1..]);
      assert forall i :: 1 <= i < |positions| ==> positions[1..][i - 1] == positions[i];
      Min(d, rest)
  }

  /** Some shark is strictly within SpeedBoostDistance of (x, y). */
  predicate SharkNearby(x: real, y: real, positions: seq<(real, real)>)
  {
    exists i :: 0 <= i < |positions| && SqDist(x, y, positions[i].0, positions[i].1) < Sq(SpeedBoostDistance)
  }

  /** The speed of this move: boosted exactly when the nearest shark is
      strictly within SpeedBoostDistance. */
  function SpeedFor(p: PersonState, positions: seq<(real, real)>): (r: real)
    requires |positions| > 0
    ensures SharkNearby(p.x, p.y, positions) ==> r == BoostedPersonSpeed
    ensures !SharkNearby(p.x, p.y, positions) ==> r == p.baseSpeed
  {
    if MinSqDist(p.x, p.y, positions) < Sq(SpeedBoostDistance) then BoostedPersonSpeed else p.baseSpeed
  }

  /** The bearing from the person to the ship. */
  function ShipBearing(p: PersonState, shipX: real, shipY: real, g: Trig): real
  {
    Atan2(g, shipY - p.y, shipX - p.x)
  }

  /** Person.move.  Once the ship is reached nothing changes; otherwise the
      person steps toward the ship, is clamped into the world, and has reached
      the ship when the new position is strictly within ArrivalDistance of it. */
  function PersonStep(p: PersonState, positions: seq<(real, real)>, shipX: real, shipY: real,
                      width: real, height: real, g: Trig): (r: PersonState)
    requires p.reached || |positions| > 0
    ensures p.reached ==> r == p
    ensures r.baseSpeed == p.baseSpeed
    ensures !p.reached ==> r.speed == if SharkNearby(p.x, p.y, positions) then BoostedPersonSpeed else p.baseSpeed
    ensures !p.reached ==> (r.reached <==> SqDist(r.x, r.y, shipX, shipY) < Sq(ArrivalDistance))
    ensures !p.reached && 2.0 <= width ==> 1.0 <= r.x <= width - 1.0
    ensures !p.reached && 2.0 <= height ==> 1.0 <= r.y <= height - 1.0
  {
    if p.reached then p
    else
      var speed := SpeedFor(p, positions);
      var angle := ShipBearing(p, shipX, shipY, g);
      var x := ClampedStep(p.x, speed, Cos(g, angle), 1.0, width - 1.0);
      var y := ClampedStep(p.y, speed, Sin(g, angle), 1.0, height - 1.0);
      p.(x := x, y := y, speed := speed, reached := SqDist(x, y, shipX, shipY) < Sq(ArrivalDistance))
  }

  /** Ocean.place_person_far_from_ship: the person starts 80% of the larger
      dimension from the ship along two independently drawn angles, clamped
      into the world, at base speed and not yet arrived. */
  function PersonPlacement(shipX: real, shipY: real, width: real, height: real,
                           angleX: real, angleY: real, g: Trig): (r: PersonState)
    ensures 2.0 <= width ==> 1.0 <= r.x <= width - 1.0
    ensures 2.0 <= height ==> 1.0 <= r.y <= height - 1.0
    ensures r.baseSpeed == PersonSpeed && r.speed == PersonSpeed && !r.reached
  {
    var maxDistance := Max(width, height) * 0.8;
    PersonState(ClampedStep(shipX, maxDistance, Cos(g, angleX), 1.0, width - 1.0),
                ClampedStep(shipY, maxDistance, Sin(g, angleY), 1.0, height - 1.0),
                PersonSpeed, PersonSpeed, false)
  }
}
