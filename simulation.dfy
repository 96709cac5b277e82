/** The simulation's objects as the program keeps them: sharks, the person and
    the ocean are updated in place, and each method is proved to have the
    effect the rules in SharkRules, PersonRules and OceanRules describe. */
module Simulation {
  import opened Geometry
  import opened Constants
  import opened Messages
  import opened SharkRules
  import opened PersonRules
  import opened Waves
  import opened OceanRules

  /** The sharks of a list as values, in list order. */
  function Snapshot(sharks: seq<Shark>): (r: seq<SharkState>)
    reads sharks
    ensures |r| == |sharks|
    ensures forall i :: 0 <= i < |sharks| ==> r[i] == sharks[i].State()
  {
    seq(|sharks|, i requires 0 <= i < |sharks| reads sharks => sharks[i].State())
  }

  class Shark {
    const id: nat
    var x: real
    var y: real
    var speed: real
    var scared: bool
    var scaredFrames: int
    /** The random heading drawn at creation; nothing reads it. */
    const direction: real

    function State(): SharkState
      reads this
    {
      SharkState(id, x, y, speed, Fear(scared, scaredFrames))
    }

    /** A calm shark at base speed. */
    constructor (x: real, y: real, id: nat, direction: real)
      ensures State() == SharkState(id, x, y, SharkSpeed, Fear(false, 0))
      ensures this.direction == direction
    {
      this.x := x;
      this.y := y;
      this.id := id;
      speed := SharkSpeed;
      scared := false;
      scaredFrames := 0;
      this.direction := direction;
    }

    /** One move: the countdown, the heading, repulsion from the sharks of
        `ocean` as they stand now, one step and the clamp. */
    method Move(personX: real, personY: real, ocean: Ocean, g: Trig)
      modifies this
      ensures State() == StepShark(old(State()), personX, personY, old(Snapshot(ocean.sharks)),
                                   ocean.width, ocean.height, g)
    {
      ghost var me := State();
      ghost var world := Snapshot(ocean.sharks);
      var angle: real;
      if scared {
        if scaredFrames > 0 {
          angle := EscapeAngle(x, y, personX, personY, g);
          scaredFrames := scaredFrames - 1;
        } else {
          scared := false;
          angle := PursuitAngle(x, y, personX, personY, g);
        }
      } else {
        angle := PursuitAngle(x, y, personX, personY, g);
      }

      // Repulsion from other sharks, in list order
      var others := ocean.sharks;
      assert forall j :: 0 <= j < |others| ==>
        others[j].id == world[j].id && others[j].x == world[j].x && others[j].y == world[j].y;
      for i := 0 to |others|
        invariant angle == Repel(BaseHeading(me, personX, personY, g), me, world[..i], g)
      {
        var other := others[i];
        if other.id != id {
          if SqDist(x, y, other.x, other.y) < Sq(MinSharkDistance) {
            angle := Blend(angle, Atan2(g, y - other.y, x - other.x));
          }
        }
        assert world[..i + 1][..i] == world[..i];
      }
      assert world[..|others|] == world;

      x := ClampedStep(x, speed, Cos(g, angle), 1.0, ocean.width - 1.0);
      y := ClampedStep(y, speed, Sin(g, angle), 1.0, ocean.height - 1.0);
    }

    /** The fright trigger's effect on the shark. */
    method ScareAway()
      modifies this
      ensures State() == SharkRules.ScareAway(old(State()))
    {
      scared := true;
      scaredFrames := ScaredDuration;
      speed := ScaredSharkSpeed;
    }
  }

  class Person {
    var x: real
    var y: real
    const baseSpeed: real
    var speed: real
    var reachedShip: bool

    function State(): PersonState
      reads this
    {
      PersonState(x, y, baseSpeed, speed, reachedShip)
    }

    /** A person at base speed who has not reached the ship. */
    constructor (x: real, y: real)
      ensures State() == PersonState(x, y, PersonSpeed, PersonSpeed, false)
    {
      this.x := x;
      this.y := y;
      baseSpeed := PersonSpeed;
      speed := PersonSpeed;
      reachedShip := false;
    }

    /** One move toward the ship.  `raised` is min()'s ValueError on an empty
        list of shark positions, thrown before anything changes. */
    method Move(sharkPositions: seq<(real, real)>, shipX: real, shipY: real, ocean: Ocean, g: Trig)
      returns (raised: bool)
      modifies this, ocean`logs
      ensures raised <==> !old(reachedShip) && |sharkPositions| == 0
      ensures raised ==> State() == old(State()) && ocean.logs == old(ocean.logs)
      ensures !raised ==> State() == PersonStep(old(State()), sharkPositions, shipX, shipY,
                                                ocean.width, ocean.height, g)
      ensures !raised ==> ocean.logs == old(ocean.logs) +
                            (if reachedShip && !old(reachedShip) then [ReachedShipMessage] else [])
    {
      if reachedShip {
        return false;
      }
      if |sharkPositions| == 0 {
        return true;
      }
      ghost var p := State();
      var closest := MinSqDist(x, y, sharkPositions);
      var newSpeed := if closest < Sq(SpeedBoostDistance) then BoostedPersonSpeed else baseSpeed;
      assert newSpeed == SpeedFor(p, sharkPositions);
      var angle := Atan2(g, shipY - y, shipX - x);
      var newX := ClampedStep(x, newSpeed, Cos(g, angle), 1.0, ocean.width - 1.0);
      var newY := ClampedStep(y, newSpeed, Sin(g, angle), 1.0, ocean.height - 1.0);
      speed, x, y := newSpeed, newX, newY;
      if SqDist(x, y, shipX, shipY) < Sq(ArrivalDistance) {
        reachedShip := true;
        ocean.LogEvent(ReachedShipMessage);
      }
      raised := false;
    }
  }

  class Ocean {
    const width: real
    const height: real
    const sharks: seq<Shark>
    const shipX: real
    const shipY: real
    const person: Person
    var soundWaves: seq<Wave>
    var logs: seq<string>

    /** The parts fixed for the run. */
    function Setting(): Sea
    {
      Sea(width, height, shipX, shipY)
    }

    /** The current state as a value. */
    function Current(): World
      reads this, sharks, person
    {
      World(Snapshot(sharks), person.State(), soundWaves, logs)
    }

    ghost predicate Valid()
      reads this, sharks, person
    {
      DistinctSharks() && WorldInv(Setting(), Current())
    }

    /** Ocean.__init__ with its random draws as parameters: the shark
        positions and headings, the ship inside the margin of 1, and the two
        angles that place the person far from the ship. */
    constructor (width: real, height: real, numSharks: nat,
                 sharkXs: seq<real>, sharkYs: seq<real>, directions: seq<real>,
                 shipX: real, shipY: real, angleX: real, angleY: real, g: Trig)
      requires 2.0 <= width && 2.0 <= height
      requires |sharkXs| == numSharks && |sharkYs| == numSharks && |directions| == numSharks
      requires forall i :: 0 <= i < numSharks ==> InBounds(sharkXs[i], sharkYs[i], width, height)
      requires InBounds(shipX, shipY, width, height)
      ensures Valid()
      ensures Setting() == Sea(width, height, shipX, shipY)
      ensures Current() == InitialWorld(Setting(), sharkXs, sharkYs, angleX, angleY, g)
    {
      this.width := width;
      this.height := height;
      var ss: seq<Shark> := [];
      for i := 0 to numSharks
        invariant |ss| == i
        invariant forall j :: 0 <= j < i ==> fresh(ss[j])
        invariant forall j :: 0 <= j < i ==>
                    ss[j].State() == SharkState(j, sharkXs[j], sharkYs[j], SharkSpeed, Fear(false, 0))
        invariant forall j, k :: 0 <= j < k < i ==> ss[j] != ss[k]
      {
        var s := new Shark(sharkXs[i], sharkYs[i], i, directions[i]);
        ss := ss + [s];
      }
      sharks := ss;
      this.shipX := shipX;
      this.shipY := shipY;
      var start := PersonPlacement(shipX, shipY, width, height, angleX, angleY, g);
      person := new Person(start.x, start.y);
      soundWaves := [];
      logs := [];
      new;
      assert Snapshot(sharks) == InitialSharks(sharkXs, sharkYs);
    }

    method LogEvent(event: string)
      modifies this`logs
      ensures logs == old(logs) + [event]
    {
      logs := logs + [event];
    }

    /** No shark appears twice in the list. */
    predicate DistinctSharks()
    {
      forall i, j :: 0 <= i < j < |sharks| ==> sharks[i] != sharks[j]
    }

    /** The shark loop of move_all: each shark moves in list order, seeing
        the sharks before it already moved. */
    method MoveEachShark(px: real, py: real, g: Trig)
      requires DistinctSharks()
      modifies sharks
      ensures Snapshot(sharks) == MoveSharks(old(Snapshot(sharks)), px, py, Setting(), g)
    {
      ghost var start := Snapshot(sharks);
      for i := 0 to |sharks|
        invariant Snapshot(sharks) == MovePrefix(start, i, px, py, Setting(), g)
      {
        MoveNthShark(i, px, py, g, start);
      }
    }

    /** One iteration of the shark loop. */
    method MoveNthShark(i: nat, px: real, py: real, g: Trig, ghost start: seq<SharkState>)
      requires DistinctSharks() && i < |sharks| == |start|
      requires Snapshot(sharks) == MovePrefix(start, i, px, py, Setting(), g)
      modifies sharks[i]
      ensures Snapshot(sharks) == MovePrefix(start, i + 1, px, py, Setting(), g)
    {
      ghost var prev := Snapshot(sharks);
      sharks[i].Move(px, py, this, g);
      MovePrefixNext(start, i, px, py, Setting(), g, prev, sharks[i].State());
      assert forall j :: 0 <= j < |sharks| && j != i ==> sharks[j].State() == prev[j];
      assert Snapshot(sharks) == prev[i := sharks[i].State()];
    }

    /** The fright loop of move_all: every calm shark strictly within
        SoundTriggerDistance of the person, who stands at (px, py), is scared
        away, and each such trigger adds a wave at the person and a log entry. */
    method FrightenSharks(px: real, py: real)
      requires DistinctSharks()
      modifies sharks, this`soundWaves, this`logs
      ensures Snapshot(sharks) == Frighten(old(Snapshot(sharks)), px, py)
      ensures soundWaves == old(soundWaves) + NewWaves(|Triggered(old(Snapshot(sharks)), px, py)|, px, py)
      ensures logs == old(logs) + SharkLogs(Triggered(old(Snapshot(sharks)), px, py))
    {
      ghost var start := Snapshot(sharks);
      for i := 0 to |sharks|
        invariant (Snapshot(sharks), soundWaves, logs) == FrightLoop(start, i, px, py, old(soundWaves), old(logs))
      {
        FrightenShark(i, px, py);
      }
      FrightLoopIsFrighten(start, |start|, px, py, old(soundWaves), old(logs));
      assert start[..|start|] == start && start[|start|..] == [];
    }

    /** One iteration of the fright loop: the trigger test of shark i against
        the person at (px, py), and its three effects. */
    method FrightenShark(i: nat, px: real, py: real)
      requires DistinctSharks() && i < |sharks|
      modifies sharks[i], this`soundWaves, this`logs
      ensures var s := old(Snapshot(sharks))[i];
              var fired := Triggers(s, px, py);
              Snapshot(sharks) == old(Snapshot(sharks))[i := FrightOne(s, px, py)] &&
              soundWaves == old(soundWaves) + (if fired then [Wave(WaveStartRadius, (px, py))] else []) &&
              logs == old(logs) + (if fired then [SharkCloseMessage(s.id)] else [])
    {
      var shark := sharks[i];
      ghost var prev := Snapshot(sharks);
      if SqDist(px, py, shark.x, shark.y) < Sq(SoundTriggerDistance) && !shark.scared {
        // the deterrent tone is played here; sound output is outside the model
        shark.ScareAway();
        soundWaves := soundWaves + [Wave(WaveStartRadius, (px, py))];
        LogEvent(SharkCloseMessage(shark.id));
      }
      assert forall j :: 0 <= j < |sharks| && j != i ==> sharks[j].State() == prev[j];
    }

    /** The wave loop of move_all: every wave grows by WaveGrowth, then the
        waves wider than OceanWidth are dropped. */
    method SpreadWaves()
      modifies this`soundWaves
      ensures soundWaves == Prune(Grow(old(soundWaves)))
    {
      ghost var start := soundWaves;
      for i := 0 to |soundWaves|
        invariant |soundWaves| == |start|
        invariant forall j :: 0 <= j < i ==> soundWaves[j] == start[j].(radius := start[j].radius + WaveGrowth)
        invariant forall j :: i <= j < |start| ==> soundWaves[j] == start[j]
      {
        soundWaves := soundWaves[i := soundWaves[i].(radius := soundWaves[i].radius + WaveGrowth)];
      }
      assert soundWaves == Grow(start);
      soundWaves := Prune(soundWaves);
    }

    /** Ocean.move_all: one tick of the simulation.  It keeps the world
        invariant, and the new state and the outcome are those of Tick. */
    method MoveAll(g: Trig) returns (r: Outcome)
      requires Valid()
      modifies this, sharks, person
      ensures Valid()
      ensures (r, Current()) == Tick(Setting(), old(Current()), g)
    {
      TickPreservesInv(Setting(), Current(), g);
      if person.reachedShip {
        return Returned(false);
      }
      r := Advance(g);
    }

    /** move_all for a person still in the water: the sharks' stages, then
        the person's move, then the waves. */
    method Advance(g: Trig) returns (r: Outcome)
      requires DistinctSharks() && !person.reachedShip
      modifies this, sharks, person
      ensures (r, Current()) == Tick(Setting(), old(Current()), g)
    {
      ghost var w0 := Current();
      var px, py := person.x, person.y;
      var positions := SharkPhase(px, py, g);
      assert person.State() == w0.person;
      var raised := PersonPhase(positions, g);
      ghost var moved := MoveSharks(w0.sharks, px, py, Setting(), g);
      if raised {
        assert moved == [] && Current() == w0;
        return ValueError;
      }
      TickAdvances(Setting(), w0, g, moved, person.State());
      return Returned(true);
    }

    /** The rest of move_all once the sharks have acted: the person moves
        (or min() raises, when there are no sharks), then every wave grows and
        the ones beyond OceanWidth are dropped. */
    method PersonPhase(positions: seq<(real, real)>, g: Trig) returns (raised: bool)
      requires !person.reachedShip
      modifies person, this`soundWaves, this`logs
      ensures raised <==> |positions| == 0
      ensures raised ==> Current() == old(Current())
      ensures !raised ==>
                var p := PersonStep(old(person.State()), positions, shipX, shipY, width, height, g);
                Current() == World(old(Snapshot(sharks)), p, Prune(Grow(old(soundWaves))),
                                   old(logs) + (if p.reached then [ReachedShipMessage] else []))
    {
      ghost var frightened := Snapshot(sharks);
      raised := person.Move(positions, shipX, shipY, this, g);
      assert Snapshot(sharks) == frightened;
      if raised {
        return;
      }
      SpreadWaves();
    }

    /** The shark loop and the fright loop of move_all, for a person at
        (px, py); the result is where the sharks stand between the two. */
    method SharkPhase(px: real, py: real, g: Trig) returns (positions: seq<(real, real)>)
      requires DistinctSharks()
      modifies sharks, this`soundWaves, this`logs
      ensures var moved := MoveSharks(old(Snapshot(sharks)), px, py, Setting(), g);
              var ts := Triggered(moved, px, py);
              positions == Positions(moved) &&
              Snapshot(sharks) == Frighten(moved, px, py) &&
              soundWaves == old(soundWaves) + NewWaves(|ts|, px, py) &&
              logs == old(logs) + SharkLogs(ts)
    {
      MoveEachShark(px, py, g);
      positions := Positions(Snapshot(sharks));
      FrightenSharks(px, py);
    }
  }
}
