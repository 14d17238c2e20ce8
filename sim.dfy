/** The agents and the simulation tick (Agent.java and Main.java).

    An Agent keeps a reference to its Simulation, as the Java agent keeps `main`: moving
    files a trail in the simulation's trail map, and a killing steal calls
    `HandleEvent` synchronously, which removes the victim from the agent list. Java object
    identity is Dafny reference identity. */
module AgentSim {
  import opened Seqs
  import opened Plane
  import opened Boosts
  import opened Trails

  const START_HP: int := 100
  const MAX_HP: int := 100
  const STEAL_HP: int := 10
  const START_SPEED: real := 2.0
  const KILL_SPEED_FACTOR: real := 1.02
  const STEAL_BOOST_FACTOR: real := 1.05
  const STEAL_BOOST_MS: int := 30000
  const TALK_RADIUS: real := 20.0
  const RESPAWN_DELAY_MS: int := 5000
  const NUM_AGENTS: nat := 10

  /** Point2D.distance (Math.hypot), supplied from outside. */
  type Distance = (Point, Point) -> real
  /** Agent.facingScore for an agent at a position with a heading, towards another
      position (atan2 and friends), supplied from outside. */
  type Facing = (Point, real, Point) -> real
  /** Agent.speedColor (an HSB conversion), supplied from outside. */
  type Palette = real -> Color

  /** The death event raised by a killing steal. */
  datatype AgentDead = AgentDead(killer: Agent, dead: Agent)
  /** A scheduled respawn at `pos`, due at millisecond `due`. */
  datatype Respawn = Respawn(pos: Point, due: int)
  /** The random parts of a new agent: spawn position, heading and (cos, sin) of it. */
  datatype Spawn = Spawn(pos: Point, heading: real, vel: Point)

  /** The state of an agent that a move or a steal reads or writes. */
  datatype Snapshot = Snapshot(pos: Point, vel: Point, heading: real, boosts: seq<Boost>, hp: int, speed: real)

  /** Agent.update on that state: expired boosts are dropped, then the agent steps by
      `vel * speed * (product of the boost factors)`, wrapping at the edges. */
  function AfterMove(s: Snapshot, now: int): Snapshot
  {
    var bs := Active(s.boosts, now);
    Snapshot(Step(s.pos, s.vel, s.speed, Product(bs)), s.vel, s.heading, bs, s.hp, s.speed)
  }

  /** The states of a whole agent list after each has moved once. */
  function AfterMoves(ss: seq<Snapshot>, now: int): (r: seq<Snapshot>)
    ensures |r| == |ss| && forall k :: 0 <= k < |ss| ==> r[k] == AfterMove(ss[k], now)
  {
    seq(|ss|, k requires 0 <= k < |ss| => AfterMove(ss[k], now))
  }

  /** The trail map after the agents `ags`, in order, have each filed a trail for their
      new state in `ss` (the one at its position, coloured by its speed). */
  function Filed(m: map<Agent, seq<Trail>>, ags: seq<Agent>, ss: seq<Snapshot>, palette: Palette, now: int): map<Agent, seq<Trail>>
    requires |ags| == |ss|
  {
    if ags == [] then m
    else
      var n := |ags| - 1;
      var prev := Filed(m, ags[..n], ss[..n], palette, now);
      prev[ags[n] := TrailsOf(prev, ags[n]) + [NewTrail(ss[n].pos, palette(ss[n].speed), now)]]
  }

  /** Filing one more trail changes the list of the next agent only. */
  lemma FiledStep(m: map<Agent, seq<Trail>>, ags: seq<Agent>, ss: seq<Snapshot>, i: nat, palette: Palette, now: int)
    requires i < |ags| == |ss|
    ensures var prev := Filed(m, ags[..i], ss[..i], palette, now);
            Filed(m, ags[..i + 1], ss[..i + 1], palette, now)
              == prev[ags[i] := TrailsOf(prev, ags[i]) + [NewTrail(ss[i].pos, palette(ss[i].speed), now)]]
  {
    assert ags[..i + 1][..i] == ags[..i];
    assert ss[..i + 1][..i] == ss[..i];
  }

  /** An agent that has not filed keeps its original trail list. */
  lemma {:induction false} FiledElsewhere(m: map<Agent, seq<Trail>>, ags: seq<Agent>, ss: seq<Snapshot>,
                                          palette: Palette, now: int, x: Agent)
    requires |ags| == |ss| && x !in ags
    ensures TrailsOf(Filed(m, ags, ss, palette, now), x) == TrailsOf(m, x)
  {
    if ags != [] {
      FiledElsewhere(m, ags[..|ags| - 1], ss[..|ss| - 1], palette, now, x);
    }
  }

  /** With distinct agents, each ends up with its original list plus exactly the one trail
      it filed, and every other list is untouched. */
  lemma {:induction false} FiledAt(m: map<Agent, seq<Trail>>, ags: seq<Agent>, ss: seq<Snapshot>, palette: Palette, now: int)
    requires |ags| == |ss| && Distinct(ags)
    ensures var r := Filed(m, ags, ss, palette, now);
            forall k :: 0 <= k < |ags| ==>
              ags[k] in r && r[ags[k]] == TrailsOf(m, ags[k]) + [NewTrail(ss[k].pos, palette(ss[k].speed), now)]
    ensures forall x :: x !in ags ==> TrailsOf(Filed(m, ags, ss, palette, now), x) == TrailsOf(m, x)
  {
    if ags != [] {
      var n := |ags| - 1;
      DistinctInit(ags);
      FiledAt(m, ags[..n], ss[..n], palette, now);
      forall x | x !in ags
        ensures TrailsOf(Filed(m, ags, ss, palette, now), x) == TrailsOf(m, x)
      {
        FiledElsewhere(m, ags, ss, palette, now, x);
      }
      FiledElsewhere(m, ags[..n], ss[..n], palette, now, ags[n]);
      FiledLast(m, ags, ss, palette, now);
    }
  }

  /** The step of `FiledAt`: the last agent files on top of the others' lists. */
  lemma FiledLast(m: map<Agent, seq<Trail>>, ags: seq<Agent>, ss: seq<Snapshot>, palette: Palette, now: int)
    requires |ags| == |ss| && ags != []
    requires var n := |ags| - 1;
             && ags[n] !in ags[..n]
             && TrailsOf(Filed(m, ags[..n], ss[..n], palette, now), ags[n]) == TrailsOf(m, ags[n])
             && forall k :: 0 <= k < n ==>
                  var prev := Filed(m, ags[..n], ss[..n], palette, now);
                  ags[..n][k] in prev && prev[ags[..n][k]] == TrailsOf(m, ags[..n][k]) + [NewTrail(ss[..n][k].pos, palette(ss[..n][k].speed), now)]
    ensures var r := Filed(m, ags, ss, palette, now);
            forall k :: 0 <= k < |ags| ==>
              ags[k] in r && r[ags[k]] == TrailsOf(m, ags[k]) + [NewTrail(ss[k].pos, palette(ss[k].speed), now)]
  {
    var n := |ags| - 1;
    var front, states := ags[..n], ss[..n];
    var prev := Filed(m, front, states, palette, now);
    var r := Filed(m, ags, ss, palette, now);
    assert r == prev[ags[n] := TrailsOf(prev, ags[n]) + [NewTrail(ss[n].pos, palette(ss[n].speed), now)]];
    forall k | 0 <= k < |ags|
      ensures ags[k] in r && r[ags[k]] == TrailsOf(m, ags[k]) + [NewTrail(ss[k].pos, palette(ss[k].speed), now)]
    {
      if k < n {
        assert front[k] == ags[k] && states[k] == ss[k] && ags[k] != ags[n];
      }
    }
  }

  /** Agent.steal on the states of two different agents, thief first: nothing happens to a
      dead victim; otherwise the victim loses STEAL_HP, the thief gains it up to MAX_HP and
      one boost, and a kill also speeds the thief up. */
  function StealPair(thief: Snapshot, victim: Snapshot, now: int): (Snapshot, Snapshot)
  {
    if victim.hp <= 0 then (thief, victim)
    else
      var v := victim.(hp := victim.hp - STEAL_HP);
      (thief.(hp := Min(MAX_HP, thief.hp + STEAL_HP),
              boosts := thief.boosts + [NewBoost(STEAL_BOOST_FACTOR, STEAL_BOOST_MS, now)],
              speed := if v.hp <= 0 then thief.speed * KILL_SPEED_FACTOR else thief.speed),
       v)
  }

  /** Agent.steal on the states of an agent list: the agent at `t` steals from the one
      at `l`; an agent stealing from itself changes nothing. */
  function StealOn(ss: seq<Snapshot>, t: nat, l: nat, now: int): (r: seq<Snapshot>)
    ensures |r| == |ss|
    ensures forall k :: 0 <= k < |ss| && k != t && k != l ==> r[k] == ss[k]
    ensures t < |ss| && l < |ss| && t != l ==> (r[t], r[l]) == StealPair(ss[t], ss[l], now)
  {
    if t >= |ss| || l >= |ss| || t == l then ss
    else
      var r := StealPair(ss[t], ss[l], now);
      ss[l := r.1][t := r.0]
  }

  /** talk on the states of an agent list, for the agents at `p` (the first of the pair)
      and `q`: the one at `p` steals when it faces the other strictly better, otherwise
      the one at `q` does. */
  function TalkOn(ss: seq<Snapshot>, p: nat, q: nat, now: int, facing: Facing): (r: seq<Snapshot>)
    ensures |r| == |ss| && forall k :: 0 <= k < |ss| ==> r[k].pos == ss[k].pos && r[k].heading == ss[k].heading
  {
    if p >= |ss| || q >= |ss| then ss
    else if facing(ss[p].pos, ss[p].heading, ss[q].pos) > facing(ss[q].pos, ss[q].heading, ss[p].pos) then
      StealOn(ss, p, q, now)
    else
      StealOn(ss, q, p, now)
  }

  /** A talk is the steal by the agent with the strictly greater facing score, else by `q`. */
  lemma TalkIsSteal(ss: seq<Snapshot>, p: nat, q: nat, t: nat, l: nat, now: int, facing: Facing)
    requires p < |ss| && q < |ss|
    requires (t, l) == if facing(ss[p].pos, ss[p].heading, ss[q].pos) > facing(ss[q].pos, ss[q].heading, ss[p].pos) then (p, q) else (q, p)
    ensures TalkOn(ss, p, q, now, facing) == StealOn(ss, t, l, now)
  {
  }

  /** The agent at `l` of a talk between the agents at `p` and `q`: the one that does
      not face the other strictly better. */
  function ListenerOf(ss: seq<Snapshot>, p: nat, q: nat, facing: Facing): (l: nat)
    requires p < |ss| && q < |ss|
    ensures l == p || l == q
    ensures l == q <==> p == q || facing(ss[p].pos, ss[p].heading, ss[q].pos) > facing(ss[q].pos, ss[q].heading, ss[p].pos)
  {
    if facing(ss[p].pos, ss[p].heading, ss[q].pos) > facing(ss[q].pos, ss[q].heading, ss[p].pos) then q else p
  }

  /** The positions still in the list after a talk between the agents at `p` and `q`:
      the listener leaves exactly when the steal takes its last health. */
  function Survivors(ss: seq<Snapshot>, live: seq<nat>, p: nat, q: nat, facing: Facing): (r: seq<nat>)
    requires p < |ss| && q < |ss|
    ensures r == live || |r| == |live| - 1
    ensures (forall k :: 0 <= k < |live| ==> live[k] < |ss|) ==> forall k :: 0 <= k < |r| ==> r[k] < |ss|
    ensures Distinct(live) ==> Distinct(r)
  {
    var l := ListenerOf(ss, p, q, facing);
    if p != q && 0 < ss[l].hp <= STEAL_HP then Remove(live, l) else live
  }

  /** The agent that a talk between the agents at `p` and `q` kills, as a list of at most
      one position: the listener, when the steal takes its last health. */
  function Killed(ss: seq<Snapshot>, p: nat, q: nat, facing: Facing): (r: seq<nat>)
    ensures forall k :: 0 <= k < |r| ==> r[k] < |ss|
  {
    if p < |ss| && q < |ss| && p != q && 0 < ss[ListenerOf(ss, p, q, facing)].hp <= STEAL_HP then
      [ListenerOf(ss, p, q, facing)]
    else
      []
  }

  /** One respawn per dead agent, in the order of the deaths, at its position in `ss` and
      due RESPAWN_DELAY_MS after `now`. */
  function RespawnsAt(ss: seq<Snapshot>, dead: seq<nat>, now: int): (r: seq<Respawn>)
    requires forall k :: 0 <= k < |dead| ==> dead[k] < |ss|
  {
    seq(|dead|, k requires 0 <= k < |dead| => Respawn(ss[dead[k]].pos, now + RESPAWN_DELAY_MS))
  }

  /** The respawns scheduled since the scan started from the list `was` in states `ss0`
      with the queue `p0`: `dead` holds each agent that has left the list exactly once, and
      the queue `pd` is `p0` followed by one respawn per agent of `dead`, in that order, at
      its position, due RESPAWN_DELAY_MS after `now`. */
  ghost predicate Respawned(was: seq<Agent>, ss0: seq<Snapshot>, p0: seq<Respawn>, pd: seq<Respawn>,
                            list: seq<Agent>, dead: seq<nat>, now: int)
  {
    && |ss0| == |was|
    && Distinct(dead)
    && (forall k :: 0 <= k < |dead| ==> dead[k] < |was|)
    && (forall k :: 0 <= k < |was| ==> (k in dead <==> was[k] !in list))
    && pd == p0 + RespawnsAt(ss0, dead, now)
  }

  /** At the start of the scan nobody has died and nothing is scheduled. */
  lemma RespawnedStart(was: seq<Agent>, ss0: seq<Snapshot>, p0: seq<Respawn>, now: int)
    requires |ss0| == |was|
    ensures Respawned(was, ss0, p0, p0, was, [], now)
  {
    assert p0 + RespawnsAt(ss0, [], now) == p0;
  }

  /** A talk between two live agents of the list keeps the respawn queue in step with the
      deaths: a kill adds its listener to the deaths and one respawn at its position. */
  lemma RespawnedStep(was: seq<Agent>, ss0: seq<Snapshot>, p0: seq<Respawn>, s1: seq<Snapshot>,
                      l1: seq<Agent>, pd1: seq<Respawn>, l2: seq<Agent>, pd2: seq<Respawn>,
                      dead: seq<nat>, p: nat, q: nat, now: int, facing: Facing)
    requires Respawned(was, ss0, p0, pd1, l1, dead, now)
    requires Interacted(was, ss0, s1, l1) && Distinct(was) && Distinct(l1)
    requires p < |was| && q < |was| && p != q && was[p] in l1 && was[q] in l1
    requires var l := ListenerOf(s1, p, q, facing);
             l2 == if 0 < s1[l].hp <= STEAL_HP then Remove(l1, was[l]) else l1
    requires pd2 == pd1 + RespawnsAt(s1, Killed(s1, p, q, facing), now)
    ensures Respawned(was, ss0, p0, pd2, l2, dead + Killed(s1, p, q, facing), now)
  {
    var kill := Killed(s1, p, q, facing);
    if kill == [] {
      assert dead + kill == dead && RespawnsAt(s1, kill, now) == [];
    } else {
      var l := ListenerOf(s1, p, q, facing);
      assert kill == [l] && l2 == Remove(l1, was[l]) && was[l] in l1;
      assert RespawnsAt(s1, kill, now) == [Respawn(ss0[l].pos, now + RESPAWN_DELAY_MS)];
      RespawnedKill(was, ss0, p0, pd1, l1, dead, l, now);
    }
  }

  /** A kill of the live agent at `l` adds it to the deaths and one respawn at its position. */
  lemma RespawnedKill(was: seq<Agent>, ss0: seq<Snapshot>, p0: seq<Respawn>, pd1: seq<Respawn>,
                      l1: seq<Agent>, dead: seq<nat>, l: nat, now: int)
    requires Respawned(was, ss0, p0, pd1, l1, dead, now)
    requires Distinct(was) && Distinct(l1) && l < |was| && was[l] in l1
    ensures Respawned(was, ss0, p0, pd1 + [Respawn(ss0[l].pos, now + RESPAWN_DELAY_MS)],
                      Remove(l1, was[l]), dead + [l], now)
  {
    assert l !in dead;
    DistinctAppend(dead, l);
    assert RespawnsAt(ss0, dead + [l], now) == RespawnsAt(ss0, dead, now) + [Respawn(ss0[l].pos, now + RESPAWN_DELAY_MS)];
    forall k | 0 <= k < |was|
      ensures k in dead + [l] <==> was[k] !in Remove(l1, was[l])
    {
      RemovedAt(was, l1, l, k);
    }
  }

  /** Removing the agent at `l` from a list without duplicates takes out exactly that agent. */
  lemma RemovedAt(was: seq<Agent>, l1: seq<Agent>, l: nat, k: nat)
    requires Distinct(was) && Distinct(l1) && l < |was| && k < |was|
    ensures k == l ==> was[k] !in Remove(l1, was[l])
    ensures k != l ==> (was[k] in Remove(l1, was[l]) <==> was[k] in l1)
  {
    if k != l {
      DistinctAt(was, k, l);
      if was[k] in l1 {
        RemoveKeeps(l1, was[l], was[k]);
      }
    }
  }

  /** handleInteractions on values: the talks that the rest of the scan performs, from
      pair (i, j) of the current list on. The agents are the states `ss` of the starting
      list; `live` holds the positions in it of the agents still in the current list, in
      list order. A pair closer than TALK_RADIUS talks; a talk that leaves the listener
      with no health removes it from the list at once, and the scan goes on with the
      shrunken list. */
  function ScanTalks(ss: seq<Snapshot>, live: seq<nat>, i: nat, j: nat, now: int, distance: Distance, facing: Facing): seq<(nat, nat)>
    requires forall k :: 0 <= k < |live| ==> live[k] < |ss|
    decreases |live| - i, |live| - j, 1
  {
    if i >= |live| then []
    else if j >= |live| then ScanTalks(ss, live, i + 1, i + 2, now, distance, facing)
    else if distance(ss[live[i]].pos, ss[live[j]].pos) < TALK_RADIUS then
      [(live[i], live[j])] + TalkThen(ss, live, i, j, now, distance, facing)
    else
      ScanTalks(ss, live, i, j + 1, now, distance, facing)
  }

  /** The rest of the scan once the agents at `i` and `j` of the list have talked: it
      goes on from pair (i, j + 1) with the states after the talk and the survivors. */
  function TalkThen(ss: seq<Snapshot>, live: seq<nat>, i: nat, j: nat, now: int, distance: Distance, facing: Facing): seq<(nat, nat)>
    requires (forall k :: 0 <= k < |live| ==> live[k] < |ss|) && i < |live| && j < |live|
    decreases |live| - i, |live| - j, 0
  {
    var p, q := live[i], live[j];
    ScanTalks(TalkOn(ss, p, q, now, facing), Survivors(ss, live, p, q, facing), i, j + 1, now, distance, facing)
  }

  /** Every talk of the scan is between two different agents of the list whose positions
      are closer than TALK_RADIUS. */
  lemma {:induction false} ScanClose(ss: seq<Snapshot>, live: seq<nat>, i: nat, j: nat, now: int, distance: Distance, facing: Facing)
    requires (forall k :: 0 <= k < |live| ==> live[k] < |ss|) && Distinct(live) && i < j
    ensures Close(ScanTalks(ss, live, i, j, now, distance, facing), ss, distance)
    decreases |live| - i, |live| - j, 1
  {
    if i >= |live| {
    } else if j >= |live| {
      ScanClose(ss, live, i + 1, i + 2, now, distance, facing);
    } else if distance(ss[live[i]].pos, ss[live[j]].pos) < TALK_RADIUS {
      ScanCloseTalk(ss, live, i, j, now, distance, facing);
    } else {
      ScanClose(ss, live, i, j + 1, now, distance, facing);
    }
  }

  /** ScanClose for a pair that talks. */
  lemma {:induction false} ScanCloseTalk(ss: seq<Snapshot>, live: seq<nat>, i: nat, j: nat, now: int, distance: Distance, facing: Facing)
    requires (forall k :: 0 <= k < |live| ==> live[k] < |ss|) && Distinct(live) && i < j < |live|
    requires distance(ss[live[i]].pos, ss[live[j]].pos) < TALK_RADIUS
    ensures Close(ScanTalks(ss, live, i, j, now, distance, facing), ss, distance)
    decreases |live| - i, |live| - j, 0
  {
    var p, q := live[i], live[j];
    ScanClose(TalkOn(ss, p, q, now, facing), Survivors(ss, live, p, q, facing), i, j + 1, now, distance, facing);
    CloseTalk(ss, live, i, j, now, distance, facing);
  }

  /** A close pair in front of a close rest of the scan. */
  lemma CloseTalk(ss: seq<Snapshot>, live: seq<nat>, i: nat, j: nat, now: int, distance: Distance, facing: Facing)
    requires (forall k :: 0 <= k < |live| ==> live[k] < |ss|) && Distinct(live) && i < j < |live|
    requires distance(ss[live[i]].pos, ss[live[j]].pos) < TALK_RADIUS
    requires var ss' := TalkOn(ss, live[i], live[j], now, facing);
             Close(ScanTalks(ss', Survivors(ss, live, live[i], live[j], facing), i, j + 1, now, distance, facing), ss', distance)
    ensures Close(ScanTalks(ss, live, i, j, now, distance, facing), ss, distance)
  {
    var p, q := live[i], live[j];
    var ss' := TalkOn(ss, p, q, now, facing);
    var rest := ScanTalks(ss', Survivors(ss, live, p, q, facing), i, j + 1, now, distance, facing);
    DistinctAt(live, i, j);
    CloseCons(p, q, rest, ss', ss, distance);
    ScanStepTalk(ss, live, i, j, now, distance, facing);
  }

  /** A close pair of the scan talks, and the scan goes on with the survivors. */
  lemma ScanStepTalk(ss: seq<Snapshot>, live: seq<nat>, i: nat, j: nat, now: int, distance: Distance, facing: Facing)
    requires (forall k :: 0 <= k < |live| ==> live[k] < |ss|) && i < j < |live|
    requires distance(ss[live[i]].pos, ss[live[j]].pos) < TALK_RADIUS
    ensures ScanTalks(ss, live, i, j, now, distance, facing)
              == [(live[i], live[j])] + ScanTalks(TalkOn(ss, live[i], live[j], now, facing),
                                                  Survivors(ss, live, live[i], live[j], facing), i, j + 1, now, distance, facing)
  {
  }

  /** A close talk in front of talks that were close for states at the same positions. */
  lemma CloseCons(p: nat, q: nat, rest: seq<(nat, nat)>, ss': seq<Snapshot>, ss: seq<Snapshot>, distance: Distance)
    requires Close(rest, ss', distance)
    requires |ss'| == |ss| && forall k :: 0 <= k < |ss| ==> ss'[k].pos == ss[k].pos
    requires p < |ss| && q < |ss| && p != q && distance(ss[p].pos, ss[q].pos) < TALK_RADIUS
    ensures Close([(p, q)] + rest, ss, distance)
  {
    assert forall k :: 1 <= k < |rest| + 1 ==> ([(p, q)] + rest)[k] == rest[k - 1];
  }

  /** A pair that is too far apart does not talk, and the scan moves on. */
  lemma ScanStepFar(ss: seq<Snapshot>, live: seq<nat>, i: nat, j: nat, now: int, distance: Distance, facing: Facing)
    requires (forall k :: 0 <= k < |live| ==> live[k] < |ss|) && i < j < |live|
    requires distance(ss[live[i]].pos, ss[live[j]].pos) >= TALK_RADIUS
    ensures ScanTalks(ss, live, i, j, now, distance, facing) == ScanTalks(ss, live, i, j + 1, now, distance, facing)
  {
  }

  /** Past the end of the list the scan moves on to the next first agent, and past the
      last first agent it is over. */
  lemma ScanStepNext(ss: seq<Snapshot>, live: seq<nat>, i: nat, j: nat, now: int, distance: Distance, facing: Facing)
    requires (forall k :: 0 <= k < |live| ==> live[k] < |ss|) && |live| <= j
    ensures i < |live| ==> ScanTalks(ss, live, i, j, now, distance, facing) == ScanTalks(ss, live, i + 1, i + 2, now, distance, facing)
    ensures |live| <= i ==> ScanTalks(ss, live, i, j, now, distance, facing) == []
  {
  }

  /** The interaction scan at pair (i, j) of the current list, on values. It started from
      the list `was` in states `ss0`, the trail map `m0` and the pending respawns `p0`.
      Now the agents of `was` are in states `ss`, the list is `list`, the trail map `m`
      and the pending respawns `pd`; `live` holds the positions in `was` of the current
      list, `talks` is the log so far, and the log so far followed by what the value-level
      scan still does from here is `scan`. */
  ghost predicate ScanState(was: seq<Agent>, ss0: seq<Snapshot>, m0: map<Agent, seq<Trail>>, p0: seq<Respawn>,
                            ss: seq<Snapshot>, list: seq<Agent>, m: map<Agent, seq<Trail>>, pd: seq<Respawn>,
                            live: seq<nat>, talks: seq<(nat, nat)>, dead: seq<nat>, scan: seq<(nat, nat)>, i: nat, j: nat,
                            now: int, distance: Distance, facing: Facing)
  {
    && Distinct(was)
    && Picks(was, live, list)
    && Interacted(was, ss0, ss, list)
    && TrailsKept(m0, m, list)
    && Grown(p0, pd, |was| - |list|)
    && Respawned(was, ss0, p0, pd, list, dead, now)
    && ss == Replay(ss0, talks, now, facing)
    && talks + ScanTalks(ss, live, i, j, now, distance, facing) == scan
  }

  /** A talk between the agents at `i` and `j` of the current list, which are close,
      moves the scan on to pair (i, j + 1). */
  lemma ScanTalk(was: seq<Agent>, ss0: seq<Snapshot>, m0: map<Agent, seq<Trail>>, p0: seq<Respawn>,
                 s1: seq<Snapshot>, l1: seq<Agent>, m1: map<Agent, seq<Trail>>, pd1: seq<Respawn>,
                 s2: seq<Snapshot>, l2: seq<Agent>, m2: map<Agent, seq<Trail>>, pd2: seq<Respawn>,
                 live: seq<nat>, talks: seq<(nat, nat)>, dead: seq<nat>, scan: seq<(nat, nat)>, i: nat, j: nat,
                 now: int, distance: Distance, facing: Facing)
    requires ScanState(was, ss0, m0, p0, s1, l1, m1, pd1, live, talks, dead, scan, i, j, now, distance, facing)
    requires i < j < |l1| && live[i] != live[j]
    requires distance(s1[live[i]].pos, s1[live[j]].pos) < TALK_RADIUS
    requires s2 == TalkOn(s1, live[i], live[j], now, facing)
    requires var l := ListenerOf(s1, live[i], live[j], facing);
             l2 == if 0 < s1[l].hp <= STEAL_HP then Remove(l1, was[l]) else l1
    requires TalkStep(was, s1, s2, l1, l2) && TrailsKept(m1, m2, l2) && Grown(pd1, pd2, |l1| - |l2|)
    requires Distinct(l1) && pd2 == pd1 + RespawnsAt(s1, Killed(s1, live[i], live[j], facing), now)
    ensures ScanState(was, ss0, m0, p0, s2, l2, m2, pd2, Survivors(s1, live, live[i], live[j], facing),
                      talks + [(live[i], live[j])], dead + Killed(s1, live[i], live[j], facing), scan, i, j + 1, now, distance, facing)
  {
    var p, q := live[i], live[j];
    ScanPicksStep(was, s1, live, l1, l2, p, q, facing);
    InteractedStep(was, ss0, s1, s2, l1, l2);
    TrailsKeptTrans(m0, m1, m2, l1, l2);
    GrownTrans(p0, pd1, pd2, |was| - |l1|, |l1| - |l2|);
    assert was[p] == l1[i] && was[q] == l1[j];
    RespawnedStep(was, ss0, p0, s1, l1, pd1, l2, pd2, dead, p, q, now, facing);
    ScanLogStep(ss0, s1, s2, live, talks, scan, i, j, now, distance, facing);
  }

  /** The list positions follow a talk: the listener's position leaves with the listener. */
  lemma ScanPicksStep(was: seq<Agent>, ss: seq<Snapshot>, live: seq<nat>, l1: seq<Agent>, l2: seq<Agent>,
                      p: nat, q: nat, facing: Facing)
    requires Distinct(was) && Picks(was, live, l1) && |ss| == |was|
    requires p < |was| && q < |was| && p != q
    requires var l := ListenerOf(ss, p, q, facing);
             l2 == if 0 < ss[l].hp <= STEAL_HP then Remove(l1, was[l]) else l1
    ensures Picks(was, Survivors(ss, live, p, q, facing), l2)
  {
    var l := ListenerOf(ss, p, q, facing);
    if 0 < ss[l].hp <= STEAL_HP {
      PicksRemove(was, live, l1, l);
    }
  }

  /** The log follows a talk: one more entry, replayed on the states, and the rest of
      the scan unchanged. */
  lemma ScanLogStep(ss0: seq<Snapshot>, s1: seq<Snapshot>, s2: seq<Snapshot>, live: seq<nat>,
                    talks: seq<(nat, nat)>, scan: seq<(nat, nat)>, i: nat, j: nat,
                    now: int, distance: Distance, facing: Facing)
    requires (forall k :: 0 <= k < |live| ==> live[k] < |s1|) && i < j < |live|
    requires distance(s1[live[i]].pos, s1[live[j]].pos) < TALK_RADIUS
    requires s1 == Replay(ss0, talks, now, facing) && talks + ScanTalks(s1, live, i, j, now, distance, facing) == scan
    requires s2 == TalkOn(s1, live[i], live[j], now, facing)
    ensures s2 == Replay(ss0, talks + [(live[i], live[j])], now, facing)
    ensures (talks + [(live[i], live[j])]) + ScanTalks(s2, Survivors(s1, live, live[i], live[j], facing), i, j + 1, now, distance, facing) == scan
  {
    var p, q := live[i], live[j];
    ReplayStep(ss0, talks, p, q, now, facing);
    ScanStepTalk(s1, live, i, j, now, distance, facing);
    AppendOne(talks, (p, q), ScanTalks(s2, Survivors(s1, live, p, q, facing), i, j + 1, now, distance, facing));
  }

  /** Two agents too far apart do not talk: the scan moves on to pair (i, j + 1). */
  lemma ScanFar(was: seq<Agent>, ss0: seq<Snapshot>, m0: map<Agent, seq<Trail>>, p0: seq<Respawn>,
                ss: seq<Snapshot>, list: seq<Agent>, m: map<Agent, seq<Trail>>, pd: seq<Respawn>,
                live: seq<nat>, talks: seq<(nat, nat)>, dead: seq<nat>, scan: seq<(nat, nat)>, i: nat, j: nat,
                now: int, distance: Distance, facing: Facing)
    requires ScanState(was, ss0, m0, p0, ss, list, m, pd, live, talks, dead, scan, i, j, now, distance, facing)
    requires i < j < |list| && distance(ss[live[i]].pos, ss[live[j]].pos) >= TALK_RADIUS
    ensures ScanState(was, ss0, m0, p0, ss, list, m, pd, live, talks, dead, scan, i, j + 1, now, distance, facing)
  {
    ScanStepFar(ss, live, i, j, now, distance, facing);
  }

  /** Past the end of the list, the scan moves on to the next first agent. */
  lemma ScanNext(was: seq<Agent>, ss0: seq<Snapshot>, m0: map<Agent, seq<Trail>>, p0: seq<Respawn>,
                 ss: seq<Snapshot>, list: seq<Agent>, m: map<Agent, seq<Trail>>, pd: seq<Respawn>,
                 live: seq<nat>, talks: seq<(nat, nat)>, dead: seq<nat>, scan: seq<(nat, nat)>, i: nat, j: nat,
                 now: int, distance: Distance, facing: Facing)
    requires ScanState(was, ss0, m0, p0, ss, list, m, pd, live, talks, dead, scan, i, j, now, distance, facing)
    requires i < |list| <= j
    ensures ScanState(was, ss0, m0, p0, ss, list, m, pd, live, talks, dead, scan, i + 1, i + 2, now, distance, facing)
  {
    ScanStepNext(ss, live, i, j, now, distance, facing);
  }

  /** Past the last first agent, the scan is over: the log is the whole scan. */
  lemma ScanDone(was: seq<Agent>, ss0: seq<Snapshot>, m0: map<Agent, seq<Trail>>, p0: seq<Respawn>,
                 ss: seq<Snapshot>, list: seq<Agent>, m: map<Agent, seq<Trail>>, pd: seq<Respawn>,
                 live: seq<nat>, talks: seq<(nat, nat)>, dead: seq<nat>, scan: seq<(nat, nat)>, i: nat,
                 now: int, distance: Distance, facing: Facing)
    requires ScanState(was, ss0, m0, p0, ss, list, m, pd, live, talks, dead, scan, i, i + 1, now, distance, facing)
    requires |list| <= i
    ensures talks == scan && ss == Replay(ss0, talks, now, facing)
    ensures Interacted(was, ss0, ss, list) && TrailsKept(m0, m, list) && Grown(p0, pd, |was| - |list|)
    ensures Respawned(was, ss0, p0, pd, list, dead, now)
  {
    ScanStepNext(ss, live, i, i + 1, now, distance, facing);
  }

  /** A scan in which no two different agents are closer than TALK_RADIUS has no talk. */
  lemma {:induction false} ScanQuiet(ss: seq<Snapshot>, live: seq<nat>, i: nat, j: nat, now: int, distance: Distance, facing: Facing)
    requires forall k :: 0 <= k < |live| ==> live[k] < |ss|
    requires forall p, q :: 0 <= p < |ss| && 0 <= q < |ss| && p != q ==> distance(ss[p].pos, ss[q].pos) >= TALK_RADIUS
    requires Distinct(live) && i < j
    ensures ScanTalks(ss, live, i, j, now, distance, facing) == []
    decreases |live| - i, |live| - j
  {
    if i < |live| {
      if j >= |live| {
        ScanQuiet(ss, live, i + 1, i + 2, now, distance, facing);
      } else {
        DistinctAt(live, i, j);
        ScanQuiet(ss, live, i, j + 1, now, distance, facing);
      }
    }
  }

  /** Two agents closer than TALK_RADIUS: the scan has exactly one talk, and the agent
      facing the other strictly better (else the second) takes 10 health from the other. */
  lemma TwoAgents(ss: seq<Snapshot>, now: int, distance: Distance, facing: Facing)
    requires |ss| == 2 && distance(ss[0].pos, ss[1].pos) < TALK_RADIUS
    requires ss[0].hp > STEAL_HP && ss[1].hp > STEAL_HP
    ensures var talks := ScanTalks(ss, Range(2), 0, 1, now, distance, facing);
            var l := ListenerOf(ss, 0, 1, facing);
            var t := 1 - l;
            && talks == [(0, 1)]
            && Replay(ss, talks, now, facing)[t].hp == Min(MAX_HP, ss[t].hp + STEAL_HP)
            && Replay(ss, talks, now, facing)[l].hp == ss[l].hp - STEAL_HP
  {
    var live := Range(2);
    assert live == [0, 1];
    var ss' := TalkOn(ss, 0, 1, now, facing);
    assert ScanTalks(ss', live, 0, 2, now, distance, facing) == ScanTalks(ss', live, 1, 3, now, distance, facing) == [];
    assert ScanTalks(ss, live, 0, 1, now, distance, facing) == [(0, 1)];
    ReplayStep(ss, [], 0, 1, now, facing);
  }

  /** The scan skips a pair after a kill. Agents 1 and 2 are both closer than TALK_RADIUS
      to agent 0, and agent 0 kills agent 1. Agent 1 leaves the list, agent 2 shifts into
      its slot, and the inner index moves past that slot. So agents 0 and 2 never talk,
      although both are alive and close. */
  lemma SkippedPair(ss: seq<Snapshot>, now: int, distance: Distance, facing: Facing)
    requires |ss| == 3
    requires distance(ss[0].pos, ss[1].pos) < TALK_RADIUS && distance(ss[0].pos, ss[2].pos) < TALK_RADIUS
    requires facing(ss[0].pos, ss[0].heading, ss[1].pos) > facing(ss[1].pos, ss[1].heading, ss[0].pos)
    requires ss[0].hp > 0 && ss[1].hp == STEAL_HP && ss[2].hp > 0
    ensures var talks := ScanTalks(ss, Range(3), 0, 1, now, distance, facing);
            var after := Replay(ss, talks, now, facing);
            && talks == [(0, 1)]
            && (0, 2) !in talks
            && after[0].hp > 0 && after[1].hp <= 0 && after[2].hp > 0
  {
    var live := Range(3);
    assert live == [0, 1, 2];
    var ss' := TalkOn(ss, 0, 1, now, facing);
    assert ss' == StealOn(ss, 0, 1, now);
    var rest := Survivors(ss, live, 0, 1, facing);
    assert rest == [0, 2];
    assert ScanTalks(ss', rest, 0, 2, now, distance, facing) == ScanTalks(ss', rest, 1, 2, now, distance, facing) == [];
    assert ScanTalks(ss, live, 0, 1, now, distance, facing) == [(0, 1)];
    ReplayStep(ss, [], 0, 1, now, facing);
  }

  /** The states after the talks of the log `talks`, in order. */
  function Replay(ss: seq<Snapshot>, talks: seq<(nat, nat)>, now: int, facing: Facing): (r: seq<Snapshot>)
    ensures |r| == |ss|
  {
    if talks == [] then ss
    else
      var n := |talks| - 1;
      TalkOn(Replay(ss, talks[..n], now, facing), talks[n].0, talks[n].1, now, facing)
  }

  /** One more talk in the log is one more talk on the states. */
  lemma ReplayStep(ss: seq<Snapshot>, talks: seq<(nat, nat)>, p: nat, q: nat, now: int, facing: Facing)
    ensures Replay(ss, talks + [(p, q)], now, facing) == TalkOn(Replay(ss, talks, now, facing), p, q, now, facing)
  {
    assert (talks + [(p, q)])[..|talks|] == talks;
  }

  /** Talks never move an agent, never turn it, and never slow it down; with health at most
      MAX_HP before, health stays at most MAX_HP. */
  lemma {:induction false} ReplayKeeps(ss: seq<Snapshot>, talks: seq<(nat, nat)>, now: int, facing: Facing)
    requires forall k :: 0 <= k < |ss| ==> ss[k].speed >= 0.0 && ss[k].hp <= MAX_HP
    ensures var r := Replay(ss, talks, now, facing);
            && |r| == |ss|
            && forall k :: 0 <= k < |ss| ==>
                 && r[k].pos == ss[k].pos && r[k].vel == ss[k].vel && r[k].heading == ss[k].heading
                 && r[k].speed >= ss[k].speed && r[k].hp <= MAX_HP
    decreases |talks|
  {
    if talks != [] {
      var n := |talks| - 1;
      ReplayKeeps(ss, talks[..n], now, facing);
    }
  }

  /** The states of the agents `ags`, in order. */
  ghost function States(ags: seq<Agent>): (r: seq<Snapshot>)
    reads ags
    ensures |r| == |ags| && forall k :: 0 <= k < |ags| ==> r[k] == ags[k].State()
  {
    seq(|ags|, k requires 0 <= k < |ags| reads ags => ags[k].State())
  }

  /** Agents whose states are `ss`, one by one, have `ss` as their states. */
  lemma StatesAre(ags: seq<Agent>, ss: seq<Snapshot>)
    requires |ss| == |ags| && forall k :: 0 <= k < |ags| ==> ags[k].State() == ss[k]
    ensures States(ags) == ss
  {
  }

  /** The interaction scan so far, seen from the list `was` it started with, whose
      agents were in states `before` and are now in states `after`; `live` is the
      current list. The survivors keep their order, nobody has moved or slowed down,
      and an agent has left the list exactly when its health has run out. */
  ghost predicate Interacted(was: seq<Agent>, before: seq<Snapshot>, after: seq<Snapshot>, live: seq<Agent>)
  {
    && |before| == |was| && |after| == |was|
    && SubSeq(live, was)
    && forall k {:trigger after[k]} :: 0 <= k < |was| ==>
         && after[k].pos == before[k].pos && after[k].speed >= before[k].speed
         && (was[k] in live <==> after[k].hp > 0)
  }

  /** One talk, seen from the same list: nobody moves or slows down, an agent leaves
      the list exactly when the talk has killed it, and agents that had already left are
      not touched. */
  ghost predicate TalkStep(was: seq<Agent>, before: seq<Snapshot>, after: seq<Snapshot>, live: seq<Agent>, live': seq<Agent>)
  {
    && |before| == |was| && |after| == |was|
    && SubSeq(live', live)
    && forall k {:trigger after[k]} :: 0 <= k < |was| ==>
         && after[k].pos == before[k].pos && after[k].speed >= before[k].speed
         && (was[k] in live' <==> was[k] in live && after[k].hp > 0)
         && (was[k] !in live ==> after[k] == before[k])
  }

  /** A steal between two live agents of `was` is a talk step: the list loses the
      victim exactly when the steal kills it. */
  lemma TalkStepOf(was: seq<Agent>, ss: seq<Snapshot>, live: seq<Agent>, live': seq<Agent>, t: nat, l: nat, now: int)
    requires Distinct(was) && Distinct(live) && |ss| == |was| && t < |was| && l < |was| && t != l
    requires was[t] in live && was[l] in live && ss[t].speed >= 0.0
    requires forall k :: 0 <= k < |was| && was[k] in live ==> ss[k].hp > 0
    requires live' == if ss[l].hp - STEAL_HP <= 0 then Remove(live, was[l]) else live
    ensures TalkStep(was, ss, StealOn(ss, t, l, now), live, live')
  {
    if ss[l].hp - STEAL_HP > 0 {
      SubSeqRefl(live);
    } else {
      forall k | 0 <= k < |was| && was[k] in live && k != l
        ensures was[k] in live'
      {
        DistinctAt(was, k, l);
        RemoveKeeps(live, was[l], was[k]);
      }
    }
  }

  /** At the start of the scan every agent of the list is alive. */
  lemma InteractedStart(was: seq<Agent>, ss: seq<Snapshot>)
    requires |ss| == |was| && forall k :: 0 <= k < |was| ==> ss[k].hp > 0
    ensures Interacted(was, ss, ss, was)
  {
    SubSeqRefl(was);
  }

  /** A talk extends the scan. */
  lemma InteractedStep(was: seq<Agent>, s0: seq<Snapshot>, s1: seq<Snapshot>, s2: seq<Snapshot>,
                       l1: seq<Agent>, l2: seq<Agent>)
    requires Interacted(was, s0, s1, l1) && TalkStep(was, s1, s2, l1, l2)
    ensures Interacted(was, s0, s2, l2)
  {
    SubSeqTrans(l2, l1, was);
    SubSeqIncluded(l2, l1);
  }

  /** The trail map `m1` keeps the histories of `m0` unchanged, dropping only those of
      agents no longer in `live`. */
  ghost predicate TrailsKept(m0: map<Agent, seq<Trail>>, m1: map<Agent, seq<Trail>>, live: seq<Agent>)
  {
    && (forall x :: x in m1 ==> x in m0 && m1[x] == m0[x])
    && (forall x :: x in m0 && x in live ==> x in m1)
  }

  lemma TrailsKeptTrans(m0: map<Agent, seq<Trail>>, m1: map<Agent, seq<Trail>>, m2: map<Agent, seq<Trail>>,
                        l1: seq<Agent>, l2: seq<Agent>)
    requires TrailsKept(m0, m1, l1) && TrailsKept(m1, m2, l2) && SubSeq(l2, l1)
    ensures TrailsKept(m0, m2, l2)
  {
    SubSeqIncluded(l2, l1);
  }

  /** Pruning the histories that a scan kept is pruning the survivors' histories. */
  lemma PrunedSurvivors(filed: map<Agent, seq<Trail>>, scanned: map<Agent, seq<Trail>>, pruned: map<Agent, seq<Trail>>,
                        live: seq<Agent>, now: int)
    requires TrailsKept(filed, scanned, live) && forall x :: x in scanned ==> x in live
    requires pruned.Keys == scanned.Keys && forall x :: x in pruned ==> pruned[x] == Unexpired(scanned[x], now)
    ensures pruned == map x | x in filed && x in live :: Unexpired(filed[x], now)
  {
  }

  /** No trail history holds an expired trail. */
  ghost predicate NoneExpired(m: map<Agent, seq<Trail>>, now: int)
  {
    forall x, t :: x in m && t in m[x] ==> !t.Expired(now)
  }

  /** `p1` is `p0` with exactly `n` respawns scheduled after it. */
  predicate Grown(p0: seq<Respawn>, p1: seq<Respawn>, n: int)
  {
    p0 <= p1 && |p1| - |p0| == n
  }

  lemma GrownTrans(p0: seq<Respawn>, p1: seq<Respawn>, p2: seq<Respawn>, n1: int, n2: int)
    requires Grown(p0, p1, n1) && Grown(p1, p2, n2)
    ensures Grown(p0, p2, n1 + n2)
  {
  }

  /** Every recorded talk `(p, q)` is between two different agents of the starting list
      whose positions `ss` were closer than TALK_RADIUS. */
  predicate Close(talks: seq<(nat, nat)>, ss: seq<Snapshot>, distance: Distance)
  {
    forall k :: 0 <= k < |talks| ==>
      && talks[k].0 < |ss| && talks[k].1 < |ss| && talks[k].0 != talks[k].1
      && distance(ss[talks[k].0].pos, ss[talks[k].1].pos) < TALK_RADIUS
  }

  /** Math.min on the health values. */
  function Min(a: int, b: int): (r: int)
    ensures r <= a && r <= b && (r == a || r == b)
  {
    if a <= b then a else b
  }

  /** The trail list of `a`, empty when it has none yet (computeIfAbsent). */
  function TrailsOf(trails: map<Agent, seq<Trail>>, a: Agent): seq<Trail>
  {
    if a in trails then trails[a] else []
  }

  class Agent {
    const main: Simulation
    var pos: Point
    const vel: Point
    var speed: real
    const heading: real
    var hp: int
    var boosts: seq<Boost>

    /** What every agent keeps: health capped at 100, speed never below its start value,
        and only steal boosts in the list. */
    ghost predicate Inv()
      reads this
    {
      && hp <= MAX_HP
      && speed >= START_SPEED
      && forall i :: 0 <= i < |boosts| ==> boosts[i].factor == STEAL_BOOST_FACTOR
    }

    /** What Agent.update reads and writes. */
    ghost function State(): Snapshot
      reads this
    {
      Snapshot(pos, vel, heading, boosts, hp, speed)
    }

    constructor (main: Simulation, p: Point, heading: real, vel: Point)
      ensures this.main == main && pos == p && this.heading == heading && this.vel == vel
      ensures hp == START_HP && speed == START_SPEED && boosts == []
      ensures Inv()
    {
      this.main := main;
      pos := p;
      this.heading := heading;
      this.vel := vel;
      speed := START_SPEED;
      hp := START_HP;
      boosts := [];
    }

    /** facingScore: how squarely this agent faces `other`, given by the `Facing` oracle
        on this agent's position and heading and the other's position. */
    function FacingScore(other: Agent, facing: Facing): real
      reads this, other
    {
      facing(pos, heading, other.pos)
    }

    /** One move: drop the expired boosts, step by `vel * speed * product of factors`
        with wrap-around, and append one trail at the new position to this agent's list. */
    method Update(now: int, palette: Palette)
      modifies this`pos, this`boosts, main`trails
      ensures main.trails == old(main.trails)[this := TrailsOf(old(main.trails), this) + [NewTrail(pos, palette(speed), now)]]
      ensures old(Inv()) ==> Inv() && Product(boosts) >= 1.0
      ensures State() == AfterMove(old(State()), now)
    {
      boosts := Active(boosts, now);
      var boostFactor := Product(boosts);
      pos := Step(pos, vel, speed, boostFactor);
      var list := TrailsOf(main.trails, this);
      main.trails := main.trails[this := list + [NewTrail(pos, palette(speed), now)]];
      if old(Inv()) {
        assert forall i :: 0 <= i < |boosts| ==> boosts[i] in old(boosts);
        ProductAtLeastOne(boosts);
      }
    }

    /** Take health from `victim`; a kill speeds this agent up and hands the death to
        the simulation at once. */
    method Steal(victim: Agent, now: int)
      modifies this`hp, this`speed, this`boosts, victim`hp, main
      ensures Stole(this, victim, now)
      ensures this != victim ==> (State(), victim.State()) == StealPair(old(State()), old(victim.State()), now)
      ensures old(main.Valid()) && this in old(main.agents) && victim in old(main.agents) ==> main.Valid()
    {
      if victim.hp <= 0 || this == victim {
        return;
      }
      hp := Min(MAX_HP, hp + STEAL_HP);
      victim.hp := victim.hp - STEAL_HP;
      boosts := boosts + [NewBoost(STEAL_BOOST_FACTOR, STEAL_BOOST_MS, now)];
      if victim.hp <= 0 {
        speed := speed * KILL_SPEED_FACTOR;
        var dead := AgentDead(this, victim);
        main.HandleEvent(dead, now);
      }
    }
  }

  /** The effect of a steal by `thief` on `victim` at time `now`. Nothing changes when the victim
      is already dead or is the thief. Otherwise the thief gains 10 health up to 100, the
      victim loses exactly 10, the thief gets one more boost (1.05 for 30 s), and exactly
      when the victim's health ends at or below 0 the thief's speed is multiplied by 1.02
      and the victim is handed to the simulation's death handling. */
  twostate predicate Stole(thief: Agent, victim: Agent, now: int)
    reads thief, victim, thief.main
  {
    var sim := thief.main;
    if old(victim.hp) <= 0 || thief == victim then
      && thief.hp == old(thief.hp)
      && thief.speed == old(thief.speed)
      && thief.boosts == old(thief.boosts)
      && victim.hp == old(victim.hp)
      && sim.agents == old(sim.agents)
      && sim.trails == old(sim.trails)
      && sim.pending == old(sim.pending)
    else
      && thief.hp == Min(MAX_HP, old(thief.hp) + STEAL_HP)
      && victim.hp == old(victim.hp) - STEAL_HP
      && thief.boosts == old(thief.boosts) + [NewBoost(STEAL_BOOST_FACTOR, STEAL_BOOST_MS, now)]
      && thief.speed == (if victim.hp <= 0 then old(thief.speed) * KILL_SPEED_FACTOR else old(thief.speed))
      && if victim.hp <= 0 then
           && sim.agents == Remove(old(sim.agents), victim)
           && sim.trails == old(sim.trails) - {victim}
           && sim.pending == old(sim.pending) + [Respawn(victim.pos, now + RESPAWN_DELAY_MS)]
         else
           && sim.agents == old(sim.agents)
           && sim.trails == old(sim.trails)
           && sim.pending == old(sim.pending)
  }

  /** Which of two agents talks (steals) and which listens: `a` talks only with a strictly
      greater facing score, so on equal scores `b` talks. */
  function Roles(a: Agent, b: Agent, facing: Facing): (r: (Agent, Agent))
    reads a, b
    ensures r.0 == a || r.0 == b
    ensures r.1 == (if r.0 == a then b else a)
    ensures a != b ==> (r.0 == a <==> a.FacingScore(b, facing) > b.FacingScore(a, facing))
    ensures a != b && a.FacingScore(b, facing) == b.FacingScore(a, facing) ==> r == (b, a)
    ensures a != b ==> r.0 != r.1
  {
    var talker := if a.FacingScore(b, facing) > b.FacingScore(a, facing) then a else b;
    (talker, if talker == a then b else a)
  }

  class Simulation {
    /** The live agents, in list order. */
    var agents: seq<Agent>
    /** Each agent's trail history. */
    var trails: map<Agent, seq<Trail>>
    /** Respawns scheduled by deaths and not yet run, oldest first. */
    var pending: seq<Respawn>

    /** The live agents are distinct, belong to this simulation, keep the agent
        invariant and are alive; only live agents have trail histories. */
    ghost predicate Valid()
      reads this, agents
    {
      && Distinct(agents)
      && (forall i :: 0 <= i < |agents| ==> agents[i].main == this && agents[i].Inv() && agents[i].hp > 0)
      && (forall a :: a in trails ==> a in agents)
    }

    /** Main(): NUM_AGENTS agents at the given spawn positions, no trails, nothing pending. */
    constructor (spawns: seq<Spawn>)
      requires |spawns| == NUM_AGENTS
      ensures Valid()
      ensures |agents| == NUM_AGENTS && trails == map[] && pending == []
      ensures forall i :: 0 <= i < |agents| ==>
                && agents[i].pos == spawns[i].pos && agents[i].heading == spawns[i].heading
                && agents[i].vel == spawns[i].vel && agents[i].hp == START_HP
                && agents[i].speed == START_SPEED && agents[i].boosts == []
    {
      agents := [];
      trails := map[];
      pending := [];
      new;
      var i := 0;
      while i < |spawns|
        invariant 0 <= i <= |spawns| && |agents| == i
        invariant trails == map[] && pending == []
        invariant Valid()
        invariant forall k :: 0 <= k < i ==>
                    && agents[k].pos == spawns[k].pos && agents[k].heading == spawns[k].heading
                    && agents[k].vel == spawns[k].vel && agents[k].hp == START_HP
                    && agents[k].speed == START_SPEED && agents[k].boosts == []
      {
        var a := new Agent(this, spawns[i].pos, spawns[i].heading, spawns[i].vel);
        DistinctAppend(agents, a);
        agents := agents + [a];
        i := i + 1;
      }
    }

    /** The death handling: drop the dead agent from the list and its trail history, and
        schedule one respawn at its last position after RESPAWN_DELAY_MS. */
    method HandleEvent(event: AgentDead, now: int)
      modifies this
      ensures agents == Remove(old(agents), event.dead)
      ensures trails == old(trails) - {event.dead}
      ensures pending == old(pending) + [Respawn(event.dead.pos, now + RESPAWN_DELAY_MS)]
      ensures Distinct(old(agents)) ==> event.dead !in agents
      ensures SubSeq(agents, old(agents))
      ensures event.dead !in trails && forall a :: a in trails ==> trails[a] == old(trails)[a]
      ensures (forall a :: a in old(trails) ==> a in old(agents)) ==> forall a :: a in trails ==> a in agents
    {
      forall a | a in trails && a != event.dead && a in agents
        ensures a in Remove(agents, event.dead)
      {
        RemoveKeeps(agents, event.dead, a);
      }
      agents := Remove(agents, event.dead);
      trails := trails - {event.dead};
      pending := pending + [Respawn(event.dead.pos, now + RESPAWN_DELAY_MS)];
    }

    /** The scheduled respawn task: if the oldest pending respawn is due, a fresh agent
        with full health, start speed and no boosts joins the end of the list at the
        recorded position. */
    method SpawnDue(now: int, heading: real, vel: Point) returns (spawned: bool)
      requires Valid()
      modifies this
      ensures Valid()
      ensures spawned <==> old(pending) != [] && old(pending)[0].due <= now
      ensures trails == old(trails)
      ensures !spawned ==> agents == old(agents) && pending == old(pending)
      ensures spawned ==> pending == old(pending)[1..]
      ensures spawned ==> |agents| == |old(agents)| + 1 && agents[..|old(agents)|] == old(agents)
      ensures spawned ==>
                var a := agents[|agents| - 1];
                && fresh(a) && a.pos == old(pending)[0].pos && a.heading == heading && a.vel == vel
                && a.hp == START_HP && a.speed == START_SPEED && a.boosts == []
    {
      if pending != [] && pending[0].due <= now {
        var a := new Agent(this, pending[0].pos, heading, vel);
        DistinctAppend(agents, a);
        agents := agents + [a];
        pending := pending[1..];
        spawned := true;
      } else {
        spawned := false;
      }
    }

    /** talk(a, b): exactly one steal, by the talker on the listener. */
    method Talk(a: Agent, b: Agent, now: int, facing: Facing, ghost was: seq<Agent>, ghost p: nat, ghost q: nat)
      requires Valid() && a in agents && b in agents && a != b
      requires Distinct(was) && p < |was| && q < |was| && was[p] == a && was[q] == b
      modifies this, a`hp, a`speed, a`boosts, b`hp, b`speed, b`boosts
      ensures Valid()
      ensures var r := old(Roles(a, b, facing)); Stole(r.0, r.1, now)
      ensures States(was) == TalkOn(old(States(was)), p, q, now, facing)
      ensures TalkStep(was, old(States(was)), States(was), old(agents), agents)
      ensures TrailsKept(old(trails), trails, agents)
      ensures Grown(old(pending), pending, |old(agents)| - |agents|)
      ensures var ss := old(States(was)); var l := ListenerOf(ss, p, q, facing);
              agents == if 0 < ss[l].hp <= STEAL_HP then Remove(old(agents), was[l]) else old(agents)
      ensures pending == old(pending) + RespawnsAt(old(States(was)), Killed(old(States(was)), p, q, facing), now)
    {
      var talker := if a.FacingScore(b, facing) > b.FacingScore(a, facing) then a else b;
      var listener := if talker == a then b else a;
      assert (talker, listener) == Roles(a, b, facing);
      ghost var tp := if talker == a then p else q;
      ghost var lp := if talker == a then q else p;
      TalkIsSteal(States(was), p, q, tp, lp, now, facing);
      StealAt(talker, listener, now, was, tp, lp);
    }

    /** talker.steal(listener) inside a talk, seen on the states of the list `was`: only
        the two agents at `t` and `l` change, as `StealOn` says. */
    method StealAt(talker: Agent, listener: Agent, now: int, ghost was: seq<Agent>, ghost t: nat, ghost l: nat)
      requires Valid() && talker in agents && listener in agents && talker != listener
      requires Distinct(was) && t < |was| && l < |was| && was[t] == talker && was[l] == listener
      modifies this, talker`hp, talker`speed, talker`boosts, listener`hp
      ensures Valid()
      ensures Stole(talker, listener, now)
      ensures States(was) == StealOn(old(States(was)), t, l, now)
      ensures TalkStep(was, old(States(was)), States(was), old(agents), agents)
      ensures TrailsKept(old(trails), trails, agents)
      ensures Grown(old(pending), pending, |old(agents)| - |agents|)
      ensures var ss := old(States(was));
              pending == old(pending) + RespawnsAt(ss, if 0 < ss[l].hp <= STEAL_HP then [l] else [], now)
    {
      assert listener.hp > 0;
      ghost var ss := States(was);
      assert forall k :: 0 <= k < |was| && was[k] in agents ==> ss[k].hp > 0;
      DistinctOthers(was, t); DistinctOthers(was, l);
      talker.Steal(listener, now);
      if listener.hp <= 0 {
        assert agents == Remove<Agent>(old(agents), listener) && listener !in agents;
        assert RespawnsAt(ss, [l], now) == [Respawn(listener.pos, now + RESPAWN_DELAY_MS)];
      } else {
        assert agents == old(agents) && trails == old(trails);
        SubSeqRefl(agents);
      }
      ghost var r := StealOn(ss, t, l, now);
      forall k | 0 <= k < |was|
        ensures was[k].State() == r[k]
      {
        if k != t && k != l {
          assert was[k] != talker && was[k] != listener && ss[k] == r[k];
        }
      }
      StatesAre(was, r);
      TalkStepOf(was, ss, old(agents), agents, t, l, now);
    }

    /** The move phase of a tick: every live agent makes its move, in list order,
        and files one trail at its new position; the list itself is not changed. */
    method MoveAll(now: int, palette: Palette)
      requires Valid()
      modifies this`trails, agents
      ensures Valid()
      ensures States(agents) == AfterMoves(old(States(agents)), now)
      ensures trails == Filed(old(trails), agents, States(agents), palette, now)
    {
      ghost var before := States(agents);
      ghost var after := AfterMoves(before, now);
      var i := 0;
      assert agents[..0] == [] && after[..0] == [];
      while i < |agents|
        invariant i <= |agents|
        invariant Moving(old(trails), before, after, i, now, palette)
      {
        MoveOne(agents[i], i, old(trails), before, after, now, palette);
        i := i + 1;
      }
      MovedAll(old(trails), before, after, i, now, palette);
    }

    /** The move phase after `i` agents: the first `i` agents have moved, the others not
        yet, and the first `i` have filed their trails. */
    ghost predicate Moving(m: map<Agent, seq<Trail>>, before: seq<Snapshot>, after: seq<Snapshot>, i: nat,
                           now: int, palette: Palette)
      reads this, agents
    {
      && Valid() && i <= |agents|
      && |before| == |agents| && after == AfterMoves(before, now)
      && (forall k :: 0 <= k < |agents| ==> agents[k].State() == if k < i then after[k] else before[k])
      && trails == Filed(m, agents[..i], after[..i], palette, now)
    }

    /** Once every agent has moved, the states are the moved ones and every agent has filed. */
    lemma MovedAll(m: map<Agent, seq<Trail>>, before: seq<Snapshot>, after: seq<Snapshot>, i: nat,
                   now: int, palette: Palette)
      requires Moving(m, before, after, i, now, palette) && i == |agents|
      ensures Valid() && States(agents) == after && trails == Filed(m, agents, States(agents), palette, now)
    {
      Whole(after, i); Whole(agents, i);
      StatesAre(agents, after);
    }

    /** The move of agent `i` in the move phase, the agents before it having moved
        already: it moves, no other agent changes, and it files its trail. */
    method MoveOne(a: Agent, i: nat, ghost m: map<Agent, seq<Trail>>, ghost before: seq<Snapshot>,
                   ghost after: seq<Snapshot>, now: int, palette: Palette)
      requires i < |agents| && agents[i] == a
      requires Moving(m, before, after, i, now, palette)
      modifies this`trails, a`pos, a`boosts
      ensures Moving(m, before, after, i + 1, now, palette)
    {
      a.Update(now, palette);
      assert a.State() == after[i];
      DistinctOthers(agents, i);
      forall k | 0 <= k < |agents|
        ensures agents[k].main == this && agents[k].Inv() && agents[k].hp > 0
      {
        if k != i {
          assert agents[k] != a && old(agents[k].Inv());
        }
      }
      FiledStep(m, agents, after, i, palette, now);
    }

    /** The interaction scan at pair (i, j) of the current list, having started from the
        list `was`: see `ScanState`. */
    ghost predicate Scanning(was: seq<Agent>, ss0: seq<Snapshot>, m0: map<Agent, seq<Trail>>, p0: seq<Respawn>,
                             live: seq<nat>, talks: seq<(nat, nat)>, dead: seq<nat>, scan: seq<(nat, nat)>, i: nat, j: nat,
                             now: int, distance: Distance, facing: Facing)
      reads this, agents, was
    {
      && Valid()
      && ScanState(was, ss0, m0, p0, States(was), agents, trails, pending, live, talks, dead, scan, i, j, now, distance, facing)
    }

    /** At the start of the scan nothing has happened yet. */
    lemma ScanStart(was: seq<Agent>, ss0: seq<Snapshot>, m0: map<Agent, seq<Trail>>, p0: seq<Respawn>,
                    now: int, distance: Distance, facing: Facing)
      requires Valid() && was == agents && ss0 == States(agents) && m0 == trails && p0 == pending
      ensures Scanning(was, ss0, m0, p0, Range(|was|), [], [], ScanTalks(ss0, Range(|was|), 0, 1, now, distance, facing),
                       0, 1, now, distance, facing)
    {
      InteractedStart(was, ss0);
      RespawnedStart(was, ss0, p0, now);
      assert p0[..|p0|] == p0;
      assert [] + ScanTalks(ss0, Range(|was|), 0, 1, now, distance, facing) == ScanTalks(ss0, Range(|was|), 0, 1, now, distance, facing);
    }

    /** handleInteractions: the pairwise scan. Both loop bounds re-read the current list
        length, and a killing steal shrinks the list in the middle of the scan. The
        ghost result records each talk as a pair of positions in the starting list; it is
        the log of the value-level scan `ScanTalks`, and the agents' new states are the
        replay of that log. */
    method HandleInteractions(now: int, distance: Distance, facing: Facing)
      returns (ghost talks: seq<(nat, nat)>, ghost before: seq<Snapshot>, ghost after: seq<Snapshot>,
               ghost dead: seq<nat>)
      requires Valid()
      modifies this, agents
      ensures Valid()
      ensures before == old(States(agents)) && after == States(old(agents))
      ensures talks == ScanTalks(before, Range(|before|), 0, 1, now, distance, facing)
      ensures after == Replay(before, talks, now, facing)
      ensures Close(talks, before, distance)
      ensures Interacted(old(agents), before, after, agents)
      ensures TrailsKept(old(trails), trails, agents)
      ensures Grown(old(pending), pending, |old(agents)| - |agents|)
      ensures Respawned(old(agents), before, old(pending), pending, agents, dead, now)
    {
      ghost var was := agents;
      ghost var ss0 := States(agents);
      ghost var live := Range(|was|);
      ghost var scan := ScanTalks(ss0, live, 0, 1, now, distance, facing);
      before := ss0;
      talks, dead := [], [];
      ScanStart(was, ss0, trails, pending, now, distance, facing);
      var i := 0;
      while i < |agents|
        invariant Scanning(was, ss0, old(trails), old(pending), live, talks, dead, scan, i, i + 1, now, distance, facing)
        decreases |agents| - i
      {
        live, talks, dead := MeetRow(i, now, distance, facing, was, ss0, old(trails), old(pending), live, talks, dead, scan);
        i := i + 1;
      }
      after := States(was);
      ScanDone(was, ss0, old(trails), old(pending), after, agents, trails, pending, live, talks, dead, scan, i, now, distance, facing);
      assert talks == ScanTalks(before, Range(|before|), 0, 1, now, distance, facing);
      RangeDistinct(|was|);
      ScanClose(ss0, Range(|was|), 0, 1, now, distance, facing);
    }

    /** One row of the scan: agent `i` of the current list meets every agent after it,
        while the list shrinks under it. */
    method MeetRow(i: nat, now: int, distance: Distance, facing: Facing,
                   ghost was: seq<Agent>, ghost ss0: seq<Snapshot>, ghost m0: map<Agent, seq<Trail>>, ghost p0: seq<Respawn>,
                   ghost live: seq<nat>, ghost talks: seq<(nat, nat)>, ghost dead: seq<nat>, ghost scan: seq<(nat, nat)>)
      returns (ghost live': seq<nat>, ghost talks': seq<(nat, nat)>, ghost dead': seq<nat>)
      requires i < |agents|
      requires Scanning(was, ss0, m0, p0, live, talks, dead, scan, i, i + 1, now, distance, facing)
      modifies this, was
      ensures |agents| <= old(|agents|)
      ensures Scanning(was, ss0, m0, p0, live', talks', dead', scan, i + 1, i + 2, now, distance, facing)
    {
      hide *;
      live', talks', dead' := live, talks, dead;
      var j := i + 1;
      while j < |agents|
        invariant i < j && i < |agents| <= old(|agents|)
        invariant Scanning(was, ss0, m0, p0, live', talks', dead', scan, i, j, now, distance, facing)
        decreases |agents| + 1 - j
      {
        live', talks', dead' := Meet(i, j, now, distance, facing, was, ss0, m0, p0, live', talks', dead', scan);
        j := j + 1;
      }
      NextRow(was, ss0, m0, p0, live', talks', dead', scan, i, j, now, distance, facing);
    }

    /** Past the end of row `i`, the scan goes on with row `i + 1`. */
    lemma NextRow(was: seq<Agent>, ss0: seq<Snapshot>, m0: map<Agent, seq<Trail>>, p0: seq<Respawn>,
                  live: seq<nat>, talks: seq<(nat, nat)>, dead: seq<nat>, scan: seq<(nat, nat)>, i: nat, j: nat,
                  now: int, distance: Distance, facing: Facing)
      requires Scanning(was, ss0, m0, p0, live, talks, dead, scan, i, j, now, distance, facing)
      requires i < |agents| <= j
      ensures Scanning(was, ss0, m0, p0, live, talks, dead, scan, i + 1, i + 2, now, distance, facing)
    {
      ScanNext(was, ss0, m0, p0, States(was), agents, trails, pending, live, talks, dead, scan, i, j, now, distance, facing);
    }

    /** One inner step of the scan: agents `i` and `j` of the current list talk if they
        are closer than TALK_RADIUS, and the scan moves on to pair (i, j + 1). */
    method Meet(i: nat, j: nat, now: int, distance: Distance, facing: Facing,
                ghost was: seq<Agent>, ghost ss0: seq<Snapshot>, ghost m0: map<Agent, seq<Trail>>, ghost p0: seq<Respawn>,
                ghost live: seq<nat>, ghost talks: seq<(nat, nat)>, ghost dead: seq<nat>, ghost scan: seq<(nat, nat)>)
      returns (ghost live': seq<nat>, ghost talks': seq<(nat, nat)>, ghost dead': seq<nat>)
      requires i < j < |agents|
      requires Scanning(was, ss0, m0, p0, live, talks, dead, scan, i, j, now, distance, facing)
      modifies this, was
      ensures i < |agents| <= old(|agents|)
      ensures Scanning(was, ss0, m0, p0, live', talks', dead', scan, i, j + 1, now, distance, facing)
    {
      var a := agents[i];
      var b := agents[j];
      ghost var s1, l1, m1, pd1 := States(was), agents, trails, pending;
      ghost var p, q := live[i], live[j];
      DistinctAt(agents, i, j);
      assert was[p] == a && was[q] == b && a != b;
      if distance(a.pos, b.pos) < TALK_RADIUS {
        Talk(a, b, now, facing, was, p, q);
        live', talks', dead' := Survivors(s1, live, p, q, facing), talks + [(p, q)], dead + Killed(s1, p, q, facing);
        ScanTalk(was, ss0, m0, p0, s1, l1, m1, pd1, States(was), agents, trails, pending, live, talks, dead, scan, i, j, now, distance, facing);
      } else {
        live', talks', dead' := live, talks, dead;
        ScanFar(was, ss0, m0, p0, s1, l1, m1, pd1, live, talks, dead, scan, i, j, now, distance, facing);
      }
    }

    /** The pruning phase of a tick: every trail history loses its expired trails. */
    method PruneTrails(now: int, ghost was: seq<Agent>)
      requires Valid()
      modifies this`trails
      ensures Valid() && unchanged(this`agents, this`pending) && States(was) == old(States(was))
      ensures trails.Keys == old(trails).Keys
      ensures forall a :: a in trails ==> trails[a] == Unexpired(old(trails)[a], now)
      ensures NoneExpired(trails, now)
    {
      trails := map a | a in trails :: Unexpired(trails[a], now);
    }

    /** One tick: move every agent, run the interaction scan, prune expired trails.
        Against the states right after the moves, the tick behaves as the scan does:
        the agents that leave are exactly the dead ones, each with one respawn
        scheduled; nobody moves again or slows down; and after the tick no trail is
        expired. The agent count never grows within a tick (respawns run separately). */
    method Update(now: int, distance: Distance, facing: Facing, palette: Palette)
      returns (ghost talks: seq<(nat, nat)>, ghost moved: seq<Snapshot>, ghost filed: map<Agent, seq<Trail>>,
               ghost after: seq<Snapshot>, ghost dead: seq<nat>)
      requires Valid()
      modifies this, agents
      ensures Valid()
      ensures moved == AfterMoves(old(States(agents)), now) && after == States(old(agents))
      ensures filed == Filed(old(trails), old(agents), moved, palette, now)
      ensures talks == ScanTalks(moved, Range(|moved|), 0, 1, now, distance, facing)
      ensures Interacted(old(agents), moved, after, agents)
      ensures after == Replay(moved, talks, now, facing)
      ensures Close(talks, moved, distance)
      ensures |agents| <= |old(agents)|
      ensures Grown(old(pending), pending, |old(agents)| - |agents|)
      ensures Respawned(old(agents), moved, old(pending), pending, agents, dead, now)
      ensures trails == map x | x in filed && x in agents :: Unexpired(filed[x], now)
      ensures NoneExpired(trails, now)
    {
      ghost var was, p0, m0, ss0 := agents, pending, trails, States(agents);
      MoveAll(now, palette);
      assert agents == was && pending == p0;
      filed := trails;
      ghost var ss1 := States(was);
      assert ss1 == AfterMoves(ss0, now) && filed == Filed(m0, was, ss1, palette, now);
      talks, moved, after, dead := HandleInteractions(now, distance, facing);
      ghost var list, p1, scanned := agents, pending, trails;
      assert moved == ss1 && after == States(was);
      assert Grown(p0, p1, |was| - |list|) && Interacted(was, ss1, after, list);
      PruneTrails(now, was);
      assert agents == list && pending == p1 && after == States(was);
      SubSeqIncluded(list, was);
      PrunedSurvivors(filed, scanned, trails, list, now);
      assert Interacted(was, moved, after, agents) && Grown(p0, pending, |was| - |agents|);
    }
  }
}
