/** One tick of the whole simulation (Ocean.move_all) as a function of the
    world's state, and what it keeps true over any number of ticks. */
module OceanRules {
  import opened Geometry
  import opened Constants
  import opened Messages
  import opened SharkRules
  import opened PersonRules
  import opened Waves

  /** The part of the ocean fixed for the run: its size and the ship. */
  datatype Sea = Sea(width: real, height: real, shipX: real, shipY: real)

  /** Everything a tick changes. */
  datatype World = World(sharks: seq<SharkState>, person: PersonState, waves: seq<Wave>, log: seq<string>)

  /** What move_all does for its caller: return a boolean, or raise the
      ValueError of min() over no sharks. */
  datatype Outcome = Returned(proceed: bool) | ValueError

  /** The shark loop of move_all after its first n iterations: the sharks move
      one after another, and each sees the sharks before it already moved. */
  function MovePrefix(world: seq<SharkState>, n: nat, px: real, py: real, sea: Sea, g: Trig): (r: seq<SharkState>)
    requires n <= |world|
    ensures |r| == |world|
    decreases n
  {
    if n == 0 then world
    else
      var prev := MovePrefix(world, n - 1, px, py, sea, g);
      prev[n - 1 := StepShark(prev[n - 1], px, py, prev, sea.width, sea.height, g)]
  }

  /** The shark loop keeps every shark's id and invariant, and has not yet
      touched the sharks it has not reached. */
  lemma {:induction false} MovePrefixKeeps(world: seq<SharkState>, n: nat, px: real, py: real, sea: Sea, g: Trig)
    requires n <= |world|
    ensures forall i :: 0 <= i < |world| ==> MovePrefix(world, n, px, py, sea, g)[i].id == world[i].id
    ensures forall i :: n <= i < |world| ==> MovePrefix(world, n, px, py, sea, g)[i] == world[i]
    ensures (forall i :: 0 <= i < |world| ==> SharkInv(world[i], sea.width, sea.height)) ==>
              forall i :: 0 <= i < |world| ==> SharkInv(MovePrefix(world, n, px, py, sea, g)[i], sea.width, sea.height)
    decreases n
  {
    if n > 0 {
      MovePrefixKeeps(world, n - 1, px, py, sea, g);
    }
  }

  /** One more iteration of the shark loop moves shark n against the sharks as
      the first n iterations left them. */
  lemma MovePrefixNext(world: seq<SharkState>, n: nat, px: real, py: real, sea: Sea, g: Trig,
                       prev: seq<SharkState>, next: SharkState)
    requires n < |world| && prev == MovePrefix(world, n, px, py, sea, g)
    requires next == StepShark(prev[n], px, py, prev, sea.width, sea.height, g)
    ensures MovePrefix(world, n + 1, px, py, sea, g) == prev[n := next]
  {
  }

  /** Later iterations of the shark loop leave the sharks already moved alone. */
  lemma {:induction false} MovePrefixStable(world: seq<SharkState>, m: nat, n: nat, i: nat,
                                            px: real, py: real, sea: Sea, g: Trig)
    requires i < n <= m <= |world|
    ensures MovePrefix(world, m, px, py, sea, g)[i] == MovePrefix(world, n, px, py, sea, g)[i]
    decreases m - n
  {
    if n < m {
      MovePrefixStable(world, m - 1, n, i, px, py, sea, g);
    }
  }

  /** The shark loop in closed form: shark k moves from its own starting
      state, seeing the sharks before it as already moved this tick and the
      sharks after it as they started. */
  lemma MoveSharksSees(world: seq<SharkState>, k: nat, px: real, py: real, sea: Sea, g: Trig)
    requires k < |world|
    ensures var moved := MoveSharks(world, px, py, sea, g);
            moved[k] == StepShark(world[k], px, py, moved[..k] + world[k..], sea.width, sea.height, g)
  {
    var moved := MoveSharks(world, px, py, sea, g);
    var prev := MovePrefix(world, k, px, py, sea, g);
    MovePrefixKeeps(world, k, px, py, sea, g);
    forall j | 0 <= j < k
      ensures prev[j] == moved[j]
    {
      MovePrefixStable(world, |world|, k, j, px, py, sea, g);
    }
    assert prev == moved[..k] + world[k..];
    MovePrefixStable(world, |world|, k + 1, k, px, py, sea, g);
  }

  /** The whole shark loop. */
  function MoveSharks(world: seq<SharkState>, px: real, py: real, sea: Sea, g: Trig): seq<SharkState>
  {
    MovePrefix(world, |world|, px, py, sea, g)
  }

  /** The fright trigger's condition: the person, still at the position it had
      before this tick, is strictly within SoundTriggerDistance of a calm shark. */
  predicate Triggers(s: SharkState, px: real, py: real)
  {
    SqDist(px, py, s.x, s.y) < Sq(SoundTriggerDistance) && !s.fear.scared
  }

  function FrightOne(s: SharkState, px: real, py: real): SharkState
  {
    if Triggers(s, px, py) then ScareAway(s) else s
  }

  /** The sharks after the fright loop. */
  function Frighten(ss: seq<SharkState>, px: real, py: real): (r: seq<SharkState>)
    ensures |r| == |ss|
    ensures forall i :: 0 <= i < |ss| ==> r[i] == FrightOne(ss[i], px, py)
  {
    seq(|ss|, i requires 0 <= i < |ss| => FrightOne(ss[i], px, py))
  }

  /** What the fright loop does to each shark: it ends scared exactly when it
      was scared or the person was strictly within SoundTriggerDistance; a
      triggering shark gets the full countdown and the scared speed at the
      same place; any other shark is left exactly as it was. */
  lemma FrightenEffect(ss: seq<SharkState>, px: real, py: real)
    ensures |Frighten(ss, px, py)| == |ss|
    ensures forall i :: 0 <= i < |ss| ==>
              (Frighten(ss, px, py)[i].fear.scared <==>
                 ss[i].fear.scared || SqDist(px, py, ss[i].x, ss[i].y) < Sq(SoundTriggerDistance))
    ensures forall i :: 0 <= i < |ss| && Triggers(ss[i], px, py) ==>
              var r := Frighten(ss, px, py)[i];
              r.fear == Frightened && r.speed == ScaredSharkSpeed &&
              r.id == ss[i].id && r.x == ss[i].x && r.y == ss[i].y
    ensures forall i :: 0 <= i < |ss| && !Triggers(ss[i], px, py) ==> Frighten(ss, px, py)[i] == ss[i]
  {
  }

  /** The sharks the fright loop scares, in list order. */
  function Triggered(ss: seq<SharkState>, px: real, py: real): (r: seq<SharkState>)
    ensures |r| <= |ss|
  {
    if ss == [] then []
    else
      var last := ss[|ss| - 1];
      Triggered(ss[..|ss| - 1], px, py) + (if Triggers(last, px, py) then [last] else [])
  }

  /** One more iteration of the fright loop adds at most the shark it looks at. */
  lemma TriggeredNext(ss: seq<SharkState>, i: nat, px: real, py: real)
    requires i < |ss|
    ensures Triggered(ss[..i + 1], px, py) ==
              Triggered(ss[..i], px, py) + (if Triggers(ss[i], px, py) then [ss[i]] else [])
  {
    assert ss[..i + 1][..i] == ss[..i];
  }

  /** The fright loop scares exactly the sharks that meet the trigger
      condition, so a shark that is already scared is never scared again. */
  lemma {:induction false} TriggeredExactly(ss: seq<SharkState>, px: real, py: real)
    ensures forall s :: s in Triggered(ss, px, py) ==> s in ss && Triggers(s, px, py)
    ensures forall s :: s in ss && Triggers(s, px, py) ==> s in Triggered(ss, px, py)
  {
    if ss != [] {
      var init, last := ss[..|ss| - 1], ss[|ss| - 1];
      TriggeredExactly(init, px, py);
      assert ss == init + [last];
    }
  }

  /** The waves the fright loop adds: one per trigger, centred on the person. */
  function NewWaves(n: nat, px: real, py: real): (r: seq<Wave>)
    ensures |r| == n
    ensures forall i :: 0 <= i < n ==> r[i] == Wave(WaveStartRadius, (px, py))
  {
    if n == 0 then [] else NewWaves(n - 1, px, py) + [Wave(WaveStartRadius, (px, py))]
  }

  /** The log entries the fright loop adds: one per trigger. */
  function SharkLogs(ts: seq<SharkState>): (r: seq<string>)
    ensures |r| == |ts|
    ensures forall i :: 0 <= i < |ts| ==> r[i] == SharkCloseMessage(ts[i].id)
  {
    if ts == [] then [] else SharkLogs(ts[..|ts| - 1]) + [SharkCloseMessage(ts[|ts| - 1].id)]
  }

  /** A trigger appends one wave and one log entry; no trigger, neither. */
  lemma TriggerAppends(waves: seq<Wave>, log: seq<string>, ts: seq<SharkState>, t: SharkState,
                       fired: bool, px: real, py: real)
    ensures waves + NewWaves(|ts|, px, py) + (if fired then [Wave(WaveStartRadius, (px, py))] else []) ==
            waves + NewWaves(|ts + (if fired then [t] else [])|, px, py)
    ensures log + SharkLogs(ts) + (if fired then [SharkCloseMessage(t.id)] else []) ==
            log + SharkLogs(ts + (if fired then [t] else []))
  {
    if fired {
      assert (ts + [t])[..|ts|] == ts;
    } else {
      assert ts + [] == ts;
    }
  }

  /** The fright loop after its first n iterations, as it runs: shark by
      shark, a triggered shark is scared away and a wave and a log entry are
      appended to `waves` and `log`. */
  function FrightLoop(ss: seq<SharkState>, n: nat, px: real, py: real, waves: seq<Wave>, log: seq<string>)
    : (r: (seq<SharkState>, seq<Wave>, seq<string>))
    requires n <= |ss|
    ensures |r.0| == |ss|
    decreases n
  {
    if n == 0 then (ss, waves, log)
    else
      var prev := FrightLoop(ss, n - 1, px, py, waves, log);
      var s := prev.0[n - 1];
      var fired := Triggers(s, px, py);
      (prev.0[n - 1 := FrightOne(s, px, py)],
       prev.1 + (if fired then [Wave(WaveStartRadius, (px, py))] else []),
       prev.2 + (if fired then [SharkCloseMessage(s.id)] else []))
  }

  /** Run shark by shark, the fright loop frightens every shark that meets the
      trigger condition, and appends one wave and one log entry per trigger,
      in list order. */
  lemma {:induction false} FrightLoopIsFrighten(ss: seq<SharkState>, n: nat, px: real, py: real,
                                                waves: seq<Wave>, log: seq<string>)
    requires n <= |ss|
    ensures FrightLoop(ss, n, px, py, waves, log) ==
              (Frighten(ss[..n], px, py) + ss[n..],
               waves + NewWaves(|Triggered(ss[..n], px, py)|, px, py),
               log + SharkLogs(Triggered(ss[..n], px, py)))
    decreases n
  {
    if n == 0 {
      assert ss[..0] == [] && ss[0..] == ss;
      assert Frighten([], px, py) + ss == ss;
      assert Triggered([], px, py) == [];
      assert waves + NewWaves(0, px, py) == waves && log + SharkLogs([]) == log;
    } else {
      var i := n - 1;
      FrightLoopIsFrighten(ss, i, px, py, waves, log);
      var prev := FrightLoop(ss, i, px, py, waves, log);
      assert prev.0[i] == ss[i];
      assert prev.0[i := FrightOne(ss[i], px, py)] == Frighten(ss[..n], px, py) + ss[n..];
      TriggeredNext(ss, i, px, py);
      TriggerAppends(waves, log, Triggered(ss[..i], px, py), ss[i], Triggers(ss[i], px, py), px, py);
    }
  }

  /** shark_positions: where the sharks stand after moving. */
  function Positions(ss: seq<SharkState>): (r: seq<(real, real)>)
    ensures |r| == |ss|
  {
    seq(|ss|, i requires 0 <= i < |ss| => (ss[i].x, ss[i].y))
  }

  /** Ocean.move_all.  Once the person has reached the ship nothing changes and
      the result is False.  Otherwise: the sharks move in list order; the
      fright triggers fire against the person's position from before the tick;
      the person moves seeing the sharks' new positions; every wave grows and
      the ones beyond OceanWidth are dropped; the result is True, also on the
      tick of arrival.  With no sharks at all min() raises before the person
      moves, and nothing has changed by then. */
  function Tick(sea: Sea, wld: World, g: Trig): (r: (Outcome, World))
    ensures wld.person.reached ==> r == (Returned(false), wld)
    ensures !wld.person.reached && |wld.sharks| > 0 ==> r.0 == Returned(true)
    ensures !wld.person.reached && |wld.sharks| == 0 ==> r == (ValueError, wld)
    ensures |r.1.sharks| == |wld.sharks|
    ensures wld.log <= r.1.log
  {
    if wld.person.reached then (Returned(false), wld)
    else
      var px, py := wld.person.x, wld.person.y;
      var moved := MoveSharks(wld.sharks, px, py, sea, g);
      var ts := Triggered(moved, px, py);
      var sharks := Frighten(moved, px, py);
      var waves := wld.waves + NewWaves(|ts|, px, py);
      var log := wld.log + SharkLogs(ts);
      if |moved| == 0 then
        assert waves == wld.waves && log == wld.log && sharks == wld.sharks;
        (ValueError, World(sharks, wld.person, waves, log))
      else
        var person := PersonStep(wld.person, Positions(moved), sea.shipX, sea.shipY, sea.width, sea.height, g);
        var log' := log + (if person.reached then [ReachedShipMessage] else []);
        assert wld.log <= log <= log';
        (Returned(true), World(sharks, person, Prune(Grow(waves)), log'))
  }

  /** A tick of a world whose person is still swimming, among at least one
      shark, spelled out stage by stage. */
  lemma TickAdvances(sea: Sea, wld: World, g: Trig, moved: seq<SharkState>, person: PersonState)
    requires !wld.person.reached && |wld.sharks| > 0
    requires moved == MoveSharks(wld.sharks, wld.person.x, wld.person.y, sea, g)
    requires person == PersonStep(wld.person, Positions(moved), sea.shipX, sea.shipY, sea.width, sea.height, g)
    ensures var ts := Triggered(moved, wld.person.x, wld.person.y);
            Tick(sea, wld, g) ==
              (Returned(true),
               World(Frighten(moved, wld.person.x, wld.person.y), person,
                     Prune(Grow(wld.waves + NewWaves(|ts|, wld.person.x, wld.person.y))),
                     wld.log + SharkLogs(ts) + (if person.reached then [ReachedShipMessage] else [])))
  {
  }

  /** A run of the simulation: each world is the tick of the one before. */
  ghost predicate IsRun(sea: Sea, g: Trig, trace: seq<World>)
  {
    forall i :: 0 <= i < |trace| - 1 ==> trace[i + 1] == Tick(sea, trace[i], g).1
  }

  /** What holds of the world at every tick: every shark keeps its index as id
      and SharkInv; the person is inside the world at base speed or boosted
      speed; every wave is within OceanWidth; and the arrival entry is in the
      log exactly once if the person has reached the ship, and never before. */
  predicate WorldInv(sea: Sea, wld: World)
  {
    (forall i :: 0 <= i < |wld.sharks| ==> wld.sharks[i].id == i && SharkInv(wld.sharks[i], sea.width, sea.height)) &&
    InBounds(wld.person.x, wld.person.y, sea.width, sea.height) &&
    wld.person.baseSpeed == PersonSpeed &&
    (wld.person.speed == PersonSpeed || wld.person.speed == BoostedPersonSpeed) &&
    (forall i :: 0 <= i < |wld.waves| ==> wld.waves[i].radius <= OceanWidth) &&
    multiset(wld.log)[ReachedShipMessage] == (if wld.person.reached then 1 else 0)
  }

  /** No shark entry is the arrival entry. */
  lemma SharkLogsAreNotArrival(ts: seq<SharkState>)
    ensures multiset(SharkLogs(ts))[ReachedShipMessage] == 0
  {
    forall i | 0 <= i < |ts|
      ensures SharkLogs(ts)[i] != ReachedShipMessage
    {
      assert SharkLogs(ts)[i][0] == 'S';
      assert ReachedShipMessage[0] == 'T';
    }
  }

  /** The fright loop keeps every shark's invariant. */
  lemma FrightenKeepsInv(ss: seq<SharkState>, px: real, py: real, sea: Sea)
    requires forall i :: 0 <= i < |ss| ==> SharkInv(ss[i], sea.width, sea.height)
    ensures forall i :: 0 <= i < |ss| ==> SharkInv(Frighten(ss, px, py)[i], sea.width, sea.height)
    ensures forall i :: 0 <= i < |ss| ==> Frighten(ss, px, py)[i].id == ss[i].id
  {
  }

  /** A tick keeps the world invariant. */
  lemma TickPreservesInv(sea: Sea, wld: World, g: Trig)
    requires WorldInv(sea, wld)
    ensures WorldInv(sea, Tick(sea, wld, g).1)
  {
    if !wld.person.reached && |wld.sharks| > 0 {
      var px, py := wld.person.x, wld.person.y;
      var moved := MoveSharks(wld.sharks, px, py, sea, g);
      MovePrefixKeeps(wld.sharks, |wld.sharks|, px, py, sea, g);
      FrightenKeepsInv(moved, px, py, sea);
      var ts := Triggered(moved, px, py);
      SharkLogsAreNotArrival(ts);
      var person := PersonStep(wld.person, Positions(moved), sea.shipX, sea.shipY, sea.width, sea.height, g);
      var log := wld.log + SharkLogs(ts);
      assert multiset(log)[ReachedShipMessage] == 0;
      var waves := Prune(Grow(wld.waves + NewWaves(|ts|, px, py)));
      assert forall i :: 0 <= i < |waves| ==> waves[i] in waves;
    }
  }

  /** Every world of a run that starts in the invariant is in the invariant. */
  lemma {:induction false} RunPreservesInv(sea: Sea, g: Trig, trace: seq<World>, k: nat)
    requires IsRun(sea, g, trace) && |trace| > 0 && WorldInv(sea, trace[0])
    requires k < |trace|
    ensures WorldInv(sea, trace[k])
  {
    if k > 0 {
      RunPreservesInv(sea, g, trace, k - 1);
      TickPreservesInv(sea, trace[k - 1], g);
    }
  }

  /** Once the person has reached the ship, every later world of the run is
      the same: not the person, the sharks, the waves or the log change. */
  lemma {:induction false} ArrivalIsFinal(sea: Sea, g: Trig, trace: seq<World>, i: nat, j: nat)
    requires IsRun(sea, g, trace) && i <= j < |trace|
    requires trace[i].person.reached
    ensures trace[j] == trace[i]
    decreases j
  {
    if i < j {
      ArrivalIsFinal(sea, g, trace, i, j - 1);
    }
  }

  /** Along a run the log is only ever appended to, and the sharks are
      never added or removed. */
  lemma {:induction false} RunAppendsOnly(sea: Sea, g: Trig, trace: seq<World>, i: nat, j: nat)
    requires IsRun(sea, g, trace) && i <= j < |trace|
    ensures trace[i].log <= trace[j].log
    ensures |trace[j].sharks| == |trace[i].sharks|
    decreases j
  {
    if i < j {
      RunAppendsOnly(sea, g, trace, i, j - 1);
    }
  }

  /** The sharks as Ocean.__init__ creates them: ids 0, 1, ... in order, base
      speed, calm. */
  function InitialSharks(xs: seq<real>, ys: seq<real>): (r: seq<SharkState>)
    requires |xs| == |ys|
    ensures |r| == |xs|
    ensures forall i :: 0 <= i < |xs| ==> r[i] == SharkState(i, xs[i], ys[i], SharkSpeed, Fear(false, 0))
  {
    seq(|xs|, i requires 0 <= i < |xs| => SharkState(i, xs[i], ys[i], SharkSpeed, Fear(false, 0)))
  }

  /** The world as Ocean.__init__ leaves it, from the random draws: shark
      positions, the ship (inside the margin of 1) and the person's two angles. */
  function InitialWorld(sea: Sea, xs: seq<real>, ys: seq<real>, angleX: real, angleY: real, g: Trig): (r: World)
    requires |xs| == |ys|
    ensures r.waves == [] && r.log == [] && !r.person.reached
    ensures (2.0 <= sea.width && 2.0 <= sea.height &&
             forall i :: 0 <= i < |xs| ==> InBounds(xs[i], ys[i], sea.width, sea.height)) ==> WorldInv(sea, r)
  {
    World(InitialSharks(xs, ys), PersonPlacement(sea.shipX, sea.shipY, sea.width, sea.height, angleX, angleY, g), [], [])
  }

  /** In a run from any initial placement, at every tick every shark and the
      person are inside [1, width - 1] x [1, height - 1]. */
  lemma StaysInBounds(sea: Sea, xs: seq<real>, ys: seq<real>, angleX: real, angleY: real, g: Trig,
                      trace: seq<World>, k: nat)
    requires |xs| == |ys| && 2.0 <= sea.width && 2.0 <= sea.height
    requires forall i :: 0 <= i < |xs| ==> InBounds(xs[i], ys[i], sea.width, sea.height)
    requires IsRun(sea, g, trace) && k < |trace| && trace[0] == InitialWorld(sea, xs, ys, angleX, angleY, g)
    ensures InBounds(trace[k].person.x, trace[k].person.y, sea.width, sea.height)
    ensures forall i :: 0 <= i < |trace[k].sharks| ==>
              InBounds(trace[k].sharks[i].x, trace[k].sharks[i].y, sea.width, sea.height)
  {
    RunPreservesInv(sea, g, trace, k);
  }
}
