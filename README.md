# Agent steal simulation, verified model

This project models the simulation core of a small Java agent game. Agents wander a
toroidal 1000 × 900 plane. Each tick every agent moves and leaves a fading trail. The
tick then scans the pairs of the agent list in index order, and each pair it reaches that
is closer than 20 units "talks": the one facing the other better steals 10 health from
it. A steal also boosts the thief's speed by a factor of 1.05 for 30 seconds. A kill
makes the thief 2% faster permanently. The dead agent is removed, and a fresh agent
respawns at its position 5 seconds later.

The dead agent leaves the list in the middle of the scan, but the scan's inner index
still advances. The agent that shifts into the vacated slot is therefore not compared
with the current first agent in that row. Two live agents closer than 20 units can go a
whole tick without talking (`AgentSim.SkippedPair`).

Modules:

- `Seqs` (seqs.dfy): the list operations the game uses. `Keep` is the list after
  `removeIf`. `Remove` is `remove(Object)`. `SubSeq` means "obtained by deleting
  elements, order kept". Also lemmas about these.
- `Plane` (plane.dfy): points and Java's truncating `%` on doubles. Also the wrap-around
  step of a move, with the proof of when it stays on the plane and a counterexample where
  it does not.
- `Boosts` (boost.dfy): the `Boost` record, its expiry, and the product of boost factors.
- `Trails` (trail.dfy): the `Trail` record with its expiry and opacity.
- `AgentSim` (sim.dfy):
  - `Agent` is a class. Its fields `pos`, `hp`, `speed` and `boosts` are updated in place,
    and it keeps a reference `main` to its simulation.
  - `Simulation` is the Java `Main`. It is a class whose fields are the agent list, the
    trail map and the queue of pending respawns.
  - A killing steal calls `Simulation.HandleEvent` synchronously, as the Java code does.
    That call removes the victim from the list in the middle of the interaction scan.

Conventions:

- The clock is an explicit `now: int` argument, in milliseconds.
- Health is an `int`. It starts at 100 and only ever changes by 10 or is capped at 100.
- Speeds, boost factors and positions are exact `real`s, an idealisation of Java's doubles.
- Java object identity is Dafny reference identity.

The tick (`Simulation.Update`) is proved against value-level specifications:

- `AfterMove` gives the state of one agent after its move.
- `Filed` gives the trail map after each agent has filed its trail.
- `ScanTalks` gives the talks of the pairwise scan, from the states after the moves. It
  follows the shrinking list: a talk that kills its listener removes it at once.
- `Replay` gives the states after a log of talks, each one a steal (`TalkOn`, `StealOn`).
- `Killed` gives the agent one talk kills, if any, and `RespawnsAt` the respawns a list of
  deaths schedules.
- `Respawned` says that the agents that have left the list are exactly a ghost list of
  deaths, each listed once, and that the queue is the old queue followed by their
  respawns, in that order.
- `Interacted` relates the agent list and states before and after the pairwise scan.

The pairwise scan, like the Java code, re-reads the list length on every comparison and
re-fetches `agents[i]` on every inner iteration. Dafny checks that every index stays in
bounds, even when a steal has shrunk the list in the middle of the scan.

On equal facing scores the talker is `b`, because the code compares with a strict `>`
(`AgentSim.Roles`, `AgentSim.ListenerOf`).

## Model

| member | source | states |
|---|---|---|
| Boosts.Boost.Expired | src/main/java/com/example/Boost.java:10 | a boost is expired strictly after its end instant; its window is proved by `ActiveWindow` and `ExpiredMonotone` |
| Boosts.NewBoost | src/main/java/com/example/Boost.java:6-9 | the factor is the one given and `end` is the creation time plus the duration; a boost with a non-negative duration is not expired when made |
| Boosts.ActiveWindow | src/main/java/com/example/Boost.java:8-10 | a new boost is active at every instant up to and including creation time plus duration, and expired at every later instant |
| Boosts.ExpiredMonotone | src/main/java/com/example/Boost.java:10 | once expired, a boost stays expired at every later time |
| Boosts.Active | src/main/java/com/example/Agent.java:25 | the remaining boosts are exactly the ones not expired at `now`: every non-expired boost keeps all its copies, every expired one has none left, and the order is kept |
| Boosts.Product | src/main/java/com/example/Agent.java:26 | the left fold of the factors from 1.0; its values are stated by `ProductBase`, `ProductAtLeastOne` and `ProductPositive` |
| Boosts.ProductBase | src/main/java/com/example/Agent.java:26 | with no boosts the factor is exactly 1.0; a single boost contributes its own factor |
| Boosts.ProductAtLeastOne | src/main/java/com/example/Agent.java:26 | when every factor is at least 1 (like the 1.05 of a steal), the product is at least 1 |
| Boosts.ProductPositive | src/main/java/com/example/Agent.java:26 | positive factors give a positive product |
| Trails.Trail.Expired | src/main/java/com/example/Trail.java:12 | a trail is expired strictly after an age of 2000 ms; the boundary is proved by `ExpiryBoundary` |
| Trails.Trail.Alpha | src/main/java/com/example/Trail.java:13 | opacity falls linearly with age over 2000 ms; its range and its decrease are proved by `AlphaInUnitRange` and `AlphaStrictlyDecreasing` |
| Trails.NewTrail | src/main/java/com/example/Trail.java:6-15 | a new trail returns exactly the position and colour it was built with, is not expired and has opacity 1 |
| Trails.ExpiryBoundary | src/main/java/com/example/Trail.java:12-13 | a trail of age exactly 2000 ms is not expired and one of age 2001 ms is; opacity is 1 at age 0 and 0 at age 2000 |
| Trails.AlphaStrictlyDecreasing | src/main/java/com/example/Trail.java:13 | opacity strictly decreases as time advances |
| Trails.AlphaInUnitRange | src/main/java/com/example/Trail.java:12-13 | a non-expired trail of non-negative age has opacity in [0, 1] |
| Trails.Unexpired | src/main/java/com/example/Main.java:31 | a pruned trail list holds exactly the non-expired trails of the original, each with all its copies, in their order |
| Plane.JavaRem | src/main/java/com/example/Agent.java:29-30 | Java's `%` on doubles, the remainder of a truncating division; its sign is stated by `RemOfNonNegative` and `RemOfNegative` |
| Plane.Wrap | src/main/java/com/example/Agent.java:29-30 | one coordinate of `(p + d + size) % size`; its range is stated by `WrapInRange` and `WrapSeamless` |
| Plane.Step | src/main/java/com/example/Agent.java:27-30 | the displacement is direction times speed times the boost factor, each coordinate wrapped; `StepInPlane` and `WrapLeavesPlane` state when the result is on the plane |
| Plane.RemOfNonNegative | src/main/java/com/example/Agent.java:29-30 | for a non-negative dividend Java's `%` is the true modulo, in [0, m) |
| Plane.RemOfNegative | src/main/java/com/example/Agent.java:29-30 | Java's `%` of a negative dividend lies in (-m, 0]: it is not a true modulo |
| Plane.WrapInRange | src/main/java/com/example/Agent.java:29-30 | when `p + d + size` is not negative, the wrapped coordinate lies in [0, size) |
| Plane.WrapSeamless | src/main/java/com/example/Agent.java:29-30 | inside the plane the step is plain addition; across an edge it wraps by exactly one plane size |
| Plane.StepInPlane | src/main/java/com/example/Agent.java:27-30 | a move whose displacement is at least minus the plane size on each axis keeps an agent on the plane |
| Plane.WrapLeavesPlane | src/main/java/com/example/Agent.java:29-30 | a displacement of -1001 from x = 0 lands at x = -1, off the plane: the guard can fail |
| Seqs.Keep | src/main/java/com/example/Agent.java:25 | the kept list holds every copy of each element satisfying the test and none of the others, in their original order |
| Seqs.CountIsMultiplicity | src/main/java/com/example/Agent.java:25 | the copy count used by `Keep`, `Active` and `Unexpired` is the multiplicity in the multiset of the list |
| Seqs.KeepMultiset | src/main/java/com/example/Agent.java:25 | as multisets, the kept list is the original restricted to the elements satisfying the test |
| Seqs.Remove | src/main/java/com/example/Main.java:86 | removing a present element shortens the list by one and keeps the others in order; on a list without duplicates the element is gone afterwards |
| AgentSim.AfterMove | src/main/java/com/example/Agent.java:24-30 | one agent's state after its move: the expired boosts dropped, then a `Step` by the product of the remaining factors; `Agent.Update` is proved to produce it |
| AgentSim.AfterMoves | src/main/java/com/example/Main.java:29 | every agent of the list, in order, in its state after one move |
| AgentSim.Filed | src/main/java/com/example/Agent.java:31 | the trail map after the agents of the list, in order, each filed one trail; `FiledAt` states what each list ends up holding |
| AgentSim.TrailsOf | src/main/java/com/example/Agent.java:31 | an agent's trail list, empty when it has none (`computeIfAbsent`); `FiledAt` and `FiledElsewhere` use it |
| AgentSim.FiledAt | src/main/java/com/example/Agent.java:31 | after a move phase over distinct agents, each agent's trail list is its old list (empty if absent) plus exactly one trail at its new position; every other list is unchanged |
| AgentSim.FiledElsewhere | src/main/java/com/example/Agent.java:31 | an agent that did not move keeps its trail list |
| AgentSim.Min | src/main/java/com/example/Agent.java:42 | the result is one of the arguments and no larger than either |
| AgentSim.StealPair | src/main/java/com/example/Agent.java:40-50 | `steal` on the states of a thief and a victim; `Agent.Steal` is proved to produce it, and `StealOn` places it in a list |
| AgentSim.StealOn | src/main/java/com/example/Agent.java:40-50 | a steal on a list of states changes the thief and the victim only, as `StealPair` gives; a self-steal changes nothing |
| AgentSim.TalkOn | src/main/java/com/example/Main.java:48-52 | a talk moves nobody and turns nobody |
| AgentSim.TalkIsSteal | src/main/java/com/example/Main.java:48-52 | a talk is the steal by the agent with the strictly greater facing score, else by the second agent |
| AgentSim.ListenerOf | src/main/java/com/example/Main.java:49-50 | the listener is one of the two, and it is the second agent if and only if the first faces it strictly better |
| AgentSim.Survivors | src/main/java/com/example/Agent.java:43-48 | after a talk the list either is unchanged or has lost one agent, its entries stay in range, and it stays free of duplicates |
| AgentSim.Killed | src/main/java/com/example/Agent.java:43-48 | the agent a talk kills, if any: the listener, when the steal takes its last health; every entry is a valid position |
| AgentSim.RespawnedStart | src/main/java/com/example/Main.java:35-36 | before the scan nobody has died and nothing new is queued |
| AgentSim.RespawnedStep | src/main/java/com/example/Main.java:48-52 | a talk between two live agents keeps the queue in step with the deaths: the agent it kills, if any, joins the deaths and gets one respawn |
| AgentSim.RespawnedKill | src/main/java/com/example/Main.java:85-91 | a kill of a live agent removes it from the list, adds it to the deaths once, and queues one respawn at its position due 5000 ms later |
| AgentSim.ScanTalks | src/main/java/com/example/Main.java:35-46 | the talks of the pairwise scan over a list that shrinks when a talk kills; `ScanClose`, `ScanQuiet` and `TwoAgents` state its meaning |
| AgentSim.ScanClose | src/main/java/com/example/Main.java:38-42 | every talk of the scan is between two different agents closer than 20 |
| AgentSim.ScanQuiet | src/main/java/com/example/Main.java:38-42 | when no two different agents are closer than 20 there is no talk |
| AgentSim.ScanStepTalk | src/main/java/com/example/Main.java:40-42 | a close pair talks, and the scan goes on from the next pair with the survivors |
| AgentSim.ScanStepFar | src/main/java/com/example/Main.java:40-41 | a pair 20 or more apart does not talk |
| AgentSim.SkippedPair | src/main/java/com/example/Main.java:36-43 | with three agents where agent 0 kills agent 1, the scan has the single talk (0, 1): agents 0 and 2 are alive and close but never talk, because agent 2 shifts into the slot already passed |
| AgentSim.TwoAgents | src/main/java/com/example/Main.java:35-52 | two healthy agents closer than 20 talk exactly once, and the one facing the other strictly better (else the second) takes 10 health from the other |
| AgentSim.Replay | src/main/java/com/example/Main.java:48-52 | the states after the talks of a log, in order; `ReplayKeeps` states what talks never change |
| AgentSim.ReplayStep | src/main/java/com/example/Main.java:48-52 | one more entry in the log is one more talk on the states |
| AgentSim.ReplayKeeps | src/main/java/com/example/Agent.java:40-50 | talks never move, turn or slow down an agent, and health stays at most 100 |
| AgentSim.TalkStepOf | src/main/java/com/example/Agent.java:40-50 | a steal between two live agents removes the victim from the list exactly when it kills it, moves nobody and slows nobody down |
| AgentSim.Roles | src/main/java/com/example/Main.java:49-50 | `a` talks if and only if its facing score is strictly greater; on equal scores `b` talks; the listener is the other agent, and talker and listener differ |
| AgentSim.Stole | src/main/java/com/example/Agent.java:40-50 | nothing changes when the victim is dead or is the thief; otherwise the thief's health becomes min(100, hp + 10), the victim loses exactly 10, one boost (1.05, 30000 ms) is appended, and exactly when the victim dies the speed is multiplied by 1.02 and the death is handled |
| AgentSim.Agent.FacingScore | src/main/java/com/example/Agent.java:34-38 | how squarely this agent faces the other: the `Facing` parameter applied to this agent's position and heading and the other's position; `Roles` and `ListenerOf` compare two of these |
| AgentSim.Agent.constructor | src/main/java/com/example/Agent.java:12-22 | a new agent has health 100, speed 2, no boosts, and the given position, heading and direction |
| AgentSim.Agent.Update | src/main/java/com/example/Agent.java:24-32 | the new state is `AfterMove` of the old one; one trail at the new position is appended to this agent's list and no other list changes; health stays at most 100 and speed at least 2 |
| AgentSim.Agent.Steal | src/main/java/com/example/Agent.java:40-50 | `Stole` holds, and the pair of states is `StealPair` of the old pair |
| AgentSim.Simulation.constructor | src/main/java/com/example/Main.java:19-24 | ten agents at the given spawn points, each with full health, start speed and no boosts; no trails, nothing pending |
| AgentSim.Simulation.HandleEvent | src/main/java/com/example/Main.java:85-92 | the dead agent leaves the list (the others keep their order) and loses its trail history; the other histories are unchanged; exactly one respawn at its position is queued, due 5000 ms later |
| AgentSim.Simulation.SpawnDue | src/main/java/com/example/Main.java:88-91 | a respawn runs if and only if the oldest pending one is due; it appends a fresh agent with full health at the recorded position and leaves the rest of the list unchanged |
| AgentSim.Simulation.Talk | src/main/java/com/example/Main.java:48-52 | exactly one steal, by the talker of `Roles` on the listener; nobody moves or slows down, and an agent leaves the list exactly when this steal killed it; the queue gains exactly the respawn of the agent `Killed` names, at its position, due 5000 ms later |
| AgentSim.Simulation.StealAt | src/main/java/com/example/Main.java:51 | the steal of a talk, seen on the starting list: its states become `StealOn` of the old ones and the list loses the victim exactly when it dies, with one respawn at its position queued |
| AgentSim.Simulation.MoveAll | src/main/java/com/example/Main.java:29 | every agent's state becomes its state after one move, in list order, and the trail map becomes the map with each agent's new trail filed |
| AgentSim.Simulation.MoveOne | src/main/java/com/example/Main.java:29 | the move of agent `i` advances the move phase by one agent and changes no other agent |
| AgentSim.Simulation.MovedAll | src/main/java/com/example/Main.java:29 | when every agent has moved, the states are the moved states and the trail map is `Filed` |
| AgentSim.Simulation.Meet | src/main/java/com/example/Main.java:38-43 | one comparison of the scan keeps the agents, the log and the scan in step with `ScanTalks`, and keeps `i` in bounds |
| AgentSim.Simulation.MeetRow | src/main/java/com/example/Main.java:37-44 | the inner loop for agent `i` moves the scan on to the next first agent and never grows the list |
| AgentSim.Simulation.HandleInteractions | src/main/java/com/example/Main.java:35-46 | every index stays in bounds; the talk log is exactly `ScanTalks` of the states before the scan and the states after are `Replay` of that log; every talk is between two different agents closer than 20; the survivors keep their order, an agent leaves exactly when its health has run out; other trail histories are unchanged; the agents removed are exactly the ghost list `dead` of positions, each once, and the queue gains one respawn for each, in the order of that list, at its position and due 5000 ms later |
| AgentSim.Simulation.PruneTrails | src/main/java/com/example/Main.java:31 | every trail history keeps exactly its non-expired trails in order, so no expired trail remains |
| AgentSim.Simulation.Update | src/main/java/com/example/Main.java:28-33 | the moved states are `AfterMoves` of the old ones; the talks are `ScanTalks` of the moved states and the final states `Replay` of them; the agents that leave are exactly those whose health ran out and exactly the ghost list `dead`, each once, and the queue gains one respawn for each, in the order of that list, at its position and due 5000 ms later; the agent count never grows within a tick; the trail map is exactly the filed map restricted to the survivors, each history pruned of its expired trails |

## Left out

- The Swing window: `paintComponent`, `main`, `repaint`, and the health and speed
  colours. These are presentation. The trail colour is an opaque `Color` supplied by a
  `Palette` function.
- The scheduled executor. The 16 ms fixed-rate driver is left out: `Simulation.Update` is
  one tick. The 5-second delayed respawn task is an entry in the `pending` queue, run by
  `Simulation.SpawnDue` between ticks. The executor is single-threaded, so a respawn never
  overlaps a tick.
- The thread safety of `CopyOnWriteArrayList` and `ConcurrentHashMap`. They are a `seq`
  and a `map`.
- `facingScore` and `Point2D.distance`. These are trigonometry and a square root on
  doubles, so they are function parameters (`Facing`, `Distance`). The strict `< 20` test
  is modelled.
- Random spawn positions, headings and direction vectors. These are parameters: the
  `Spawn` values of the constructor, and the `heading` and `vel` of `SpawnDue`.
- `System.currentTimeMillis()`. It is the `now` argument.
- Floating-point rounding. Doubles and floats are exact reals.
- The range of `long` timestamps. Times are unbounded integers, so overflow is not
  modelled.
- The respawn position. Java reads the dead agent's position when the respawn task runs.
  The model records it when the death is handled. A dead agent is out of the list and no
  longer moves, so the two positions are the same.
- AgentDead.java is the `AgentDead` datatype. Point2D.java is the `Point` datatype apart
  from its methods `distance`, `add` and `mul`: `distance` is the `Distance` parameter,
  and `Step` writes the addition and scaling out on coordinates.
- The ghost talk log of `HandleInteractions` and `Update` names each agent by its
  position in the list at the start of the scan, not by the agent itself.
- AgentSim.Simulation.HandleInteractions: the respawns are queued in the order of the
  ghost list `dead`. The scan builds that list one kill at a time, in the order the talks
  happen. No lemma ties the list, as a value, to the talk log `ScanTalks` returns.
- AgentSim.Simulation.Update: the same holds for its ghost list `dead`.
