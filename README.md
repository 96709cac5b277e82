# Shark deterrence simulation, modelled in Dafny

The program simulates a person swimming toward a ship in a 10 x 10 ocean
while five sharks chase them. The ocean keeps the sharks, the person, a
list of sound waves and an event log. Each animation frame calls
`Ocean.move_all`, which does one tick:

- it stops at once, returning False, if the person has reached the ship;
- otherwise the sharks move one after another;
- each calm shark strictly within 0.5 of the person is then frightened: a
  deterrent tone plays, the shark is scared away for 200 moves at 1.5 times
  the base shark speed, a wave is added at the person's position and a line is logged;
- then the person moves toward the ship, faster when a shark is strictly
  within 1.0, and arrives when strictly within 0.1 of the ship;
- finally every wave grows by 1 and waves wider than the ocean are dropped.

A shark's move works in three stages:

- It picks a heading. A shark with escape moves left runs perpendicular to
  the line from the person. Any other shark heads straight at the person.
- Sharks strictly closer than 0.5 bend that heading away from themselves,
  in list order.
- It takes one step and is clamped into [1, width - 1] x [1, height - 1].

The model has two layers.

- Value layer: the modules `Geometry`, `Constants`, `Messages`,
  `SharkRules`, `PersonRules`, `Waves` and `OceanRules` state each rule as a
  function on values. `OceanRules.Tick` is one whole `move_all`, and
  `OceanRules.IsRun` is a sequence of ticks. The properties of the program
  are proved about these functions.
- Object layer: the module `Simulation` has the program's three classes,
  `Shark`, `Person` and `Ocean`. Their fields are updated in place, with the
  same loops as the program. Each method is proved to leave exactly the
  state the matching rule function computes. For example,
  `Ocean.MoveAll` returns `(r, Current()) == Tick(Setting(), old(Current()), g)`
  and keeps the world invariant.

The program's trigonometry (`arctan2`, `cos`, `sin`, `pi`) is a parameter
`g: Trig` about which nothing is known, so every property holds for any
headings. Its distances are Euclidean, and a Euclidean distance is below a
threshold exactly when its square is below the square of the threshold.
The model therefore compares squared distances. Its random draws are
parameters of the constructors.

The model follows the code as written in these places, some of which a
reader might not expect:

- A shark whose fright ends (`scared` set back to false) keeps the scared
  speed. Nothing sets `speed` back to the base speed, so a shark frightened
  once moves at 1.5 times the base speed forever. `SharkRules.SharkInv`
  records exactly this.
- Sharks move sequentially, not from a common snapshot. Each shark's
  repulsion loop reads the positions of the sharks before it in the list as
  already moved this tick, and the shark's own position as before its move.
  `OceanRules.MovePrefix` states this.
- The fright trigger tests the person's position from before the person's
  move. The new wave is centred there too. The person's move sees the
  sharks' new positions.
- The tick on which the person arrives still returns True. Only later ticks
  return False, and those change nothing at all, the waves included.
- The countdown: after a fright a shark flees on exactly 200 moves. On the
  201st move it calms down and heads for the person.
- Pruning compares with the module constant OCEAN_WIDTH, not with the
  ocean's own width.
- With no sharks, `min()` over an empty list raises ValueError inside
  `Person.move`. The shark and fright loops have already run by then, and
  they changed nothing. This is the `ValueError` outcome of `Tick`.

## Model

| member | source | states |
|---|---|---|
| Geometry.Clip | shark-deterrence-algorithm/main.py:79-80 | numpy's clip: within [lo, hi] whenever lo <= hi; the value itself inside the interval, lo below it, hi above it; hi when lo > hi |
| SharkRules.Countdown | shark-deterrence-algorithm/main.py:48-56 | a shark with escape moves left spends exactly one and stays scared; otherwise it ends calm with the count unchanged; the countdown invariant (never negative, positive only while scared) is preserved |
| SharkRules.ScareAway | shark-deterrence-algorithm/main.py:86-89 | the fright trigger: scared, the full SCARED_DURATION countdown, 1.5 x SHARK_SPEED; id and position unchanged; a shark inside the world then satisfies the shark invariant |
| SharkRules.CountdownWhileScared | shark-deterrence-algorithm/main.py:48-51 | a scared shark with k moves left stays scared and loses exactly one per move for n <= k moves |
| SharkRules.FrightLastsScaredDuration | shark-deterrence-algorithm/main.py:48-56 | after scare_away the shark flees on each of the next 200 moves, then is scared with 0 left, and the 201st move calms it |
| SharkRules.Neighbours | shark-deterrence-algorithm/main.py:59-62 | the sharks that repel are exactly the others (different id) strictly closer than MIN_SHARK_DISTANCE |
| SharkRules.RepelBlendsNeighbours | shark-deterrence-algorithm/main.py:59-64 | the repulsion loop equals blending the heading, in list order, with the bearing away from each repelling shark by 0.7 * angle + 0.3 * away, and from no other shark |
| SharkRules.RepelWithoutNeighbours | shark-deterrence-algorithm/main.py:59-64 | with no shark in range the heading is unchanged |
| SharkRules.StepShark | shark-deterrence-algorithm/main.py:47-80 | Shark.move as a function: id and speed unchanged (no speed reset), the countdown advanced, the new position inside [1, width - 1] x [1, height - 1] for any heading, and the shark invariant kept |
| PersonRules.MinSqDist | shark-deterrence-algorithm/main.py:104-105 | the squared distance to the nearest shark: no larger than any shark's, and attained by one of them |
| PersonRules.SpeedFor | shark-deterrence-algorithm/main.py:107-111 | the speed is PERSON_SPEED_BOOST * 1.5 exactly when some shark is strictly within SPEED_BOOST_DISTANCE, the base speed otherwise |
| PersonRules.PersonStep | shark-deterrence-algorithm/main.py:99-123 | Person.move as a function: nothing changes once arrived; otherwise the boosted-or-base speed, a clamped position inside the world, and arrival exactly when the new position is strictly within 0.1 of the ship |
| PersonRules.PersonPlacement | shark-deterrence-algorithm/main.py:143-148 | the person starts inside [1, width - 1] x [1, height - 1] for any angles, at base speed, not yet arrived |
| Waves.Prune | shark-deterrence-algorithm/main.py:181 | the kept waves are exactly the waves with radius <= OCEAN_WIDTH |
| Waves.PruneAppend | shark-deterrence-algorithm/main.py:181 | pruning filters wave by wave, so the survivors keep their relative order |
| Waves.PruneKeepsSmall | shark-deterrence-algorithm/main.py:181 | when every radius is within OCEAN_WIDTH, pruning keeps the list unchanged |
| OceanRules.MovePrefixStable | shark-deterrence-algorithm/main.py:159-160 | once the shark loop has moved a shark, its later iterations leave that shark alone |
| OceanRules.MoveSharksSees | shark-deterrence-algorithm/main.py:159-160 | the shark loop in closed form: shark k moves from its own starting state and sees the sharks before it as already moved this tick and the sharks after it as they started |
| OceanRules.MovePrefixKeeps | shark-deterrence-algorithm/main.py:159-160 | the sequential shark loop keeps every shark's id and invariant, and leaves the sharks it has not reached untouched |
| OceanRules.FrightenEffect | shark-deterrence-algorithm/main.py:166-171 | after the fright loop a shark is scared exactly when it was scared or the person was strictly within SOUND_TRIGGER_DISTANCE; a triggering shark has the full SCARED_DURATION countdown and the scared speed at the same place and id; every other shark is unchanged |
| OceanRules.TriggeredExactly | shark-deterrence-algorithm/main.py:166-171 | the fright loop scares exactly the calm sharks strictly within SOUND_TRIGGER_DISTANCE of the person; an already scared shark never triggers |
| OceanRules.FrightLoopIsFrighten | shark-deterrence-algorithm/main.py:166-173 | running the fright loop shark by shark frightens each triggering shark and appends, per trigger and in list order, one wave of radius 0.05 at the person and one log line naming the shark |
| OceanRules.SharkLogsAreNotArrival | shark-deterrence-algorithm/main.py:173 | no shark log line is the arrival line |
| OceanRules.Tick | shark-deterrence-algorithm/main.py:154-183 | move_all as a function: False and no change at all once arrived; ValueError and no change with no sharks; True otherwise, also on the arrival tick; the shark count is kept and the log is only appended to |
| OceanRules.TickPreservesInv | shark-deterrence-algorithm/main.py:154-183 | a tick keeps the world invariant: sharks with their index as id and the shark invariant; the person inside the world at base or boosted speed; every wave within OCEAN_WIDTH; the arrival line logged once exactly when arrived |
| OceanRules.RunPreservesInv | shark-deterrence-algorithm/main.py:154-183 | every world of a run that starts in the invariant is in the invariant |
| OceanRules.ArrivalIsFinal | shark-deterrence-algorithm/main.py:155-156 | once the person has reached the ship, every later world of the run is identical |
| OceanRules.RunAppendsOnly | shark-deterrence-algorithm/main.py:150-151 | along a run the log only grows by appending, and the number of sharks never changes |
| OceanRules.InitialWorld | shark-deterrence-algorithm/main.py:126-148 | the initial world has no waves, an empty log and a person not yet arrived, and satisfies the world invariant whenever the shark draws are inside the world |
| OceanRules.StaysInBounds | shark-deterrence-algorithm/main.py:129-147 | in every world of a run from the initial placement, the person and every shark are inside [1, width - 1] x [1, height - 1] |
| Simulation.Shark.constructor | shark-deterrence-algorithm/main.py:38-45 | a new shark is at the given position with the given id, base speed, calm, and the given heading |
| Simulation.Shark.Move | shark-deterrence-algorithm/main.py:47-80 | the in-place move, with its repulsion loop over the ocean's sharks, leaves exactly the state StepShark gives for the sharks as they stood before it |
| Simulation.Shark.ScareAway | shark-deterrence-algorithm/main.py:86-89 | the in-place fright leaves exactly the state SharkRules.ScareAway gives |
| Simulation.Person.constructor | shark-deterrence-algorithm/main.py:92-97 | a new person is at the given position at base speed and not arrived |
| Simulation.Person.Move | shark-deterrence-algorithm/main.py:99-123 | raises exactly when not yet arrived and there are no sharks, then changes nothing; otherwise leaves the state PersonStep gives, and appends the arrival line to the ocean's log exactly when this move arrives |
| Simulation.Ocean.constructor | shark-deterrence-algorithm/main.py:126-148 | the new ocean holds the initial world of its draws, with distinct shark objects, and satisfies the world invariant |
| Simulation.Ocean.LogEvent | shark-deterrence-algorithm/main.py:150-151 | appends exactly the event to the log |
| Simulation.Ocean.MoveAll | shark-deterrence-algorithm/main.py:154-183 | the in-place tick returns what Tick returns, leaves the world Tick gives, and keeps the world invariant |
| Simulation.Ocean.Advance | shark-deterrence-algorithm/main.py:158-183 | a tick of a person still in the water is Tick's |
| Simulation.Ocean.SharkPhase | shark-deterrence-algorithm/main.py:158-173 | the shark loop then the fright loop: the positions are those after the sequential moves, and sharks, waves and log are as frightened from them |
| Simulation.Ocean.MoveEachShark | shark-deterrence-algorithm/main.py:159-160 | the loop of in-place shark moves gives the sequential MoveSharks of the sharks it started from |
| Simulation.Ocean.MoveNthShark | shark-deterrence-algorithm/main.py:160 | one more shark moved advances the shark loop by one iteration |
| Simulation.Ocean.FrightenSharks | shark-deterrence-algorithm/main.py:166-173 | the in-place fright loop frightens exactly the triggering sharks and appends one wave and one log line per trigger |
| Simulation.Ocean.FrightenShark | shark-deterrence-algorithm/main.py:167-173 | one shark's trigger test and its three effects, no other shark touched |
| Simulation.Ocean.PersonPhase | shark-deterrence-algorithm/main.py:176-181 | the person's move (or its ValueError, with nothing changed), then the wave growth and pruning; the sharks are untouched |
| Simulation.Ocean.SpreadWaves | shark-deterrence-algorithm/main.py:178-181 | the in-place growth loop and the filter leave Prune(Grow(waves)) |

Some members that model source lines directly have no row of their own.
They are definitions, and the lemma and method rows above state their
properties:

- `SharkRules.EscapeAngle` is `get_escape_angle` (main.py:82-84).
- `SharkRules.PursuitAngle` and `SharkRules.BaseHeading` are the heading choice (main.py:48-56).
- `SharkRules.Repel` is the repulsion loop (main.py:59-64).
- `OceanRules.MovePrefix` and `OceanRules.MoveSharks` are the sequential shark loop (main.py:159-160).
- `OceanRules.Positions` is the list of shark positions (main.py:163).
- `OceanRules.Triggers`, `FrightOne`, `Frighten`, `Triggered`, `NewWaves`, `SharkLogs` and `FrightLoop` are the fright loop (main.py:166-173).
- `Waves.Grow` is the growth loop (main.py:179-180).
- `OceanRules.InitialSharks` is the list of new sharks (main.py:129-130).
- `PersonRules.ShipBearing` is the bearing to the ship (main.py:114).
- `Messages.SharkCloseMessage` and `Messages.ReachedShipMessage` are the two log entries (main.py:173, 123).

The remaining unlisted members, such as `Simulation.Snapshot` and `SharkRules.AwayAngles`, are helpers for the proofs.

## Left out

- Rendering and the animation driver (main.py:185-266) are user interface and are not modelled. This includes the driver's own extra 0.2 added to each wave radius at line 240, which happens outside `move_all`.
- Sound synthesis and playback (main.py:26-35, 169-170) are audio output. In the model the trigger's tone does nothing.
- Random draws (shark positions and headings, the ship, the person's two angles) are parameters of the constructors. The ship's draw at main.py:139-140 is the requirement that the ship lies inside [1, width - 1] x [1, height - 1].
- Trigonometry and square roots are not computed. `arctan2`, `cos`, `sin` and `pi` are an arbitrary `Trig` value, and distances are compared squared. The model therefore says nothing about trajectories, for example whether a fleeing shark actually gets farther away.
- Floating-point rounding is not modelled: coordinates, speeds and radii are exact reals.
- The boundary "reflection" at main.py:74-77 only changes two local variables that are never read again. It has no effect and is not modelled.
- The console print in `log_event` (main.py:152) is output only. `LogEvent` keeps the append.
- The shark's random `direction` (main.py:45) is stored by the constructor but never read by the program.
- Simulation.Ocean.constructor: requires width and height of at least 2, so that the clamp interval [1, width - 1] is not empty. The program does not check this; it is always called with 10 x 10.
- Waves are values: the program's wave dictionaries are mutated in place, but nothing else holds them, so aliasing is not modelled.
- OceanRules.IsRun: a tick that raises ValueError (no sharks) counts as a step that changes nothing, after which the run goes on. In the program the exception propagates out of `move_all` and the animation's `update` callback, and the run does not continue as a plain sequence of ticks. The model does not capture that ending. Its properties of runs hold for every sequence of ticks, which includes the ones the program can produce.
