/** One monster of the room as a value: hits, respawn, wandering, chasing and the attack cooldown, and what holds over
    every history of hits and rounds. */
module Monsters {
  import opened Geometry

  datatype Pos = Pos(x: int, y: int, z: int)

  datatype Mon = Mon(code: int, startX: int, startY: int, pos: Pos, moving: bool, attacking: bool, target: int,
                     tick: int, hp: int, spawned: bool)

  /** Half the side of the room's map: 5 * 500 - 100, centred at the origin. */
  const HALF := 2400
  const FULL_HP := 100
  const COOLDOWN := 4
  const NOBODY := -1

  function NewMonster(code: int, startX: int, startY: int): Mon
  {
    Mon(code, startX, startY, Pos(startX, startY, 100), true, false, NOBODY, -1, FULL_HP, true)
  }

  predicate InRect(x: int, y: int) { -HALF < x < HALF && -HALF < y < HALF }

  function Clamp(x: int): int { if -HALF > x then -HALF else if HALF < x then HALF else x }

  predicate InClosedMap(x: int, y: int) { -HALF <= x <= HALF && -HALF <= y <= HALF }

  // ----- operations -----

  function TakeHit(m: Mon, fd: int, damage: int): Mon
  {
    var hp := m.hp - damage;
    m.(moving := false, hp := hp, spawned := m.spawned && hp > 0, target := if hp > 0 then fd else m.target)
  }

  function Respawn(m: Mon): Mon
  {
    if m.spawned then m
    else m.(pos := Pos(m.startX, m.startY, 100), hp := FULL_HP, target := NOBODY, spawned := true)
  }

  function SetTick(m: Mon): Mon
  {
    if !m.attacking then m
    else m.(tick := (m.tick + 1) % COOLDOWN, attacking := (m.tick + 1) % COOLDOWN != 0)
  }

  predicate IsMoving(m: Mon) { m.moving && !m.attacking }

  /** The branch of MoveMosters that follows a player. */
  predicate Chases(m: Mon, players: map<int, Pos>)
  {
    m.target > -1 && m.target in players && InRect(players[m.target].x, players[m.target].y)
  }

  /** What a round adds to the packets: an attack, a move, or nothing. */
  datatype Report = Attacked(code: int) | Moved(code: int, pos: Pos, target: int) | Quiet

  function Act(m: Mon, players: map<int, Pos>, aim: Aim): (Mon, Report)
  {
    var m := SetTick(m);
    if !(m.spawned && IsMoving(m)) then (m.(moving := true), Quiet)
    else if Chases(m, players) then
      if InRange(aim) then
        var m' := m.(attacking := true);
        (m', if InRect(m.pos.x, m.pos.y) then Attacked(m.code) else Moved(m.code, m.pos, m.target))
      else
        var m' := m.(pos := Pos(Advance(m.pos.x, aim.c), Advance(m.pos.y, aim.s), m.pos.z));
        (m', Moved(m.code, m'.pos, m.target))
    else
      var m' := m.(pos := Pos(Clamp(Advance(m.pos.x, aim.c)), Clamp(Advance(m.pos.y, aim.s)), m.pos.z));
      (m', Moved(m.code, m'.pos, NOBODY))
  }

  /** SpanMoster then MoveMosters, for one monster. */
  function Round(m: Mon, players: map<int, Pos>, aim: Aim): (Mon, Report)
  {
    Act(Respawn(m), players, aim)
  }

  /** aim points at the player chased, or in any direction when the monster wanders. */
  ghost predicate AimFits(m: Mon, players: map<int, Pos>, aim: Aim)
  {
    if Chases(m, players) then IsAim(aim, players[m.target].x - m.pos.x, players[m.target].y - m.pos.y)
    else IsDirection(aim)
  }

  /** This round takes the monster from not attacking to attacking. */
  predicate Starts(m: Mon, players: map<int, Pos>, aim: Aim)
  {
    var m := SetTick(Respawn(m));
    IsMoving(m) && Chases(m, players) && InRange(aim)
  }

  // ----- histories -----

  datatype Event = Hit(fd: int, damage: int) | Tick(players: map<int, Pos>, aim: Aim)

  ghost predicate Possible(m: Mon, e: Event)
  {
    match e
    case Hit(fd, damage) => 0 <= fd < 0x8000_0000 && damage > 0
    case Tick(players, aim) => AimFits(Respawn(m), players, aim)
  }

  function Step(m: Mon, e: Event): Mon
  {
    match e
    case Hit(fd, damage) => TakeHit(m, fd, damage)
    case Tick(players, aim) => Round(m, players, aim).0
  }

  ghost predicate IsHistory(m: Mon, es: seq<Event>)
    decreases |es|
  {
    es == [] || (Possible(m, es[0]) && IsHistory(Step(m, es[0]), es[1..]))
  }

  function After(m: Mon, es: seq<Event>): Mon
    decreases |es|
  {
    if es == [] then m else After(Step(m, es[0]), es[1..])
  }

  // ----- containment -----

  ghost predicate Contained(m: Mon)
  {
    InClosedMap(m.pos.x, m.pos.y) && InClosedMap(m.startX, m.startY)
  }

  lemma StepKeepsContained(m: Mon, e: Event)
    requires Contained(m) && Possible(m, e)
    ensures Contained(Step(m, e))
  {
    hide Advance, IsAim;
    if e.Tick? {
      var r := SetTick(Respawn(m));
      if Chases(r, e.players) && !InRange(e.aim) {
        ChaseStepStays(r.pos, e.players[r.target], e.aim);
      }
    }
  }

  lemma ChaseStepStays(p: Pos, t: Pos, a: Aim)
    requires InClosedMap(p.x, p.y) && InRect(t.x, t.y) && IsAim(a, t.x - p.x, t.y - p.y) && !InRange(a)
    ensures InClosedMap(Advance(p.x, a.c), Advance(p.y, a.s))
  {
    OutOfRange(a);
    ChaseStaysInside(p.x, t.x, a.c, a.d, HALF);
    ChaseStaysInside(p.y, t.y, a.s, a.d, HALF);
  }

  /** No history leads a monster off the map, although only wandering is clamped. */
  lemma {:induction false} NeverLeavesMap(m: Mon, es: seq<Event>)
    requires Contained(m) && IsHistory(m, es)
    ensures Contained(After(m, es))
    decreases |es|
  {
    hide Contained, Possible, Step;
    if es != [] {
      StepKeepsContained(m, es[0]);
      NeverLeavesMap(Step(m, es[0]), es[1..]);
    }
  }

  /** What a packet can say about m: its place is in the map at height 100 and its target is a socket or nobody. */
  ghost predicate Tellable(m: Mon)
  {
    Contained(m) && m.pos.z == 100 && NOBODY <= m.target < 0x8000_0000
  }

  lemma StepKeepsTellable(m: Mon, e: Event)
    requires Tellable(m) && Possible(m, e)
    ensures Tellable(Step(m, e)) && Tellable(Respawn(m))
  {
    StepKeepsContained(m, e);
    hide Advance, IsAim, InRange, Contained;
    assert Contained(Respawn(m)) by { RespawnsInside(m); }
  }

  lemma RespawnsInside(m: Mon)
    requires Contained(m)
    ensures Contained(Respawn(m))
  {
  }

  lemma {:induction false} AlwaysTellable(m: Mon, es: seq<Event>)
    requires Tellable(m) && IsHistory(m, es)
    ensures Tellable(After(m, es))
    decreases |es|
  {
    hide Tellable, Possible, Step;
    if es != [] {
      StepKeepsTellable(m, es[0]);
      AlwaysTellable(Step(m, es[0]), es[1..]);
    }
  }

  // ----- hits and respawn -----

  /** A monster that has just been spawned, as far as hits are concerned. */
  predicate JustSpawned(m: Mon) { m.spawned && m.hp == FULL_HP && m.target == NOBODY }

  function Damage(es: seq<Event>): int
  {
    if es == [] then 0 else Damage(es[..|es| - 1]) + (if es[|es| - 1].Hit? then es[|es| - 1].damage else 0)
  }

  function LastHitter(es: seq<Event>): int
  {
    if es == [] then NOBODY
    else if es[|es| - 1].Hit? then es[|es| - 1].fd
    else LastHitter(es[..|es| - 1])
  }

  /** The last player whose hit left the monster alive. */
  function LastSurvived(es: seq<Event>): int
  {
    if es == [] then NOBODY
    else
      var last := es[|es| - 1];
      if last.Hit? && Damage(es) < FULL_HP then last.fd else LastSurvived(es[..|es| - 1])
  }

  /** Every hit of es counts against the life that began in state m: no round of es found the monster dead. */
  predicate OneLife(m: Mon, es: seq<Event>)
  {
    forall k :: 0 <= k < |es| && es[k].Tick? ==> After(m, es[..k]).spawned
  }

  lemma {:induction false} AfterSnoc(m: Mon, es: seq<Event>, e: Event)
    ensures After(m, es + [e]) == Step(After(m, es), e)
    ensures IsHistory(m, es + [e]) <==> IsHistory(m, es) && Possible(After(m, es), e)
    decreases |es|
  {
    hide Step, Possible;
    if es == [] {
      assert es + [e] == [e];
      assert After(m, [e]) == After(Step(m, e), []);
    } else {
      assert (es + [e])[1..] == es[1..] + [e];
      AfterSnoc(Step(m, es[0]), es[1..], e);
    }
  }

  /** Within one life: hp counts the damage, a monster is spawned exactly while hp is positive, and a living one follows
      the last player who hit it; a blow that kills turns it to nobody new. */
  lemma {:induction false} LifeOf(m: Mon, es: seq<Event>)
    requires JustSpawned(m) && IsHistory(m, es) && OneLife(m, es)
    ensures var n := After(m, es);
            && n.hp == FULL_HP - Damage(es) && (n.spawned <==> n.hp > 0) && n.target == LastSurvived(es)
            && (n.spawned ==> n.target == LastHitter(es) && 0 < n.hp <= FULL_HP)
    decreases |es|
  {
    if es != [] {
      var front, e := es[..|es| - 1], es[|es| - 1];
      assert es == front + [e];
      AfterSnoc(m, front, e);
      assert forall k :: 0 <= k < |front| ==> es[..k] == front[..k];
      assert OneLife(m, front);
      LifeOf(m, front);
      assert e.Tick? ==> After(m, es[..|es| - 1]).spawned;
    }
  }

  /** Where the current life began: after the round that respawned the monster last, or at the start. */
  lemma {:induction false} CurrentLife(m: Mon, es: seq<Event>) returns (k: nat)
    requires JustSpawned(m) && IsHistory(m, es)
    ensures k <= |es| && JustSpawned(After(m, es[..k]))
    ensures IsHistory(After(m, es[..k]), es[k..]) && OneLife(After(m, es[..k]), es[k..])
    ensures After(After(m, es[..k]), es[k..]) == After(m, es)
    decreases |es|
  {
    hide Possible;
    if es == [] {
      k := 0;
    } else {
      var front, e := es[..|es| - 1], es[|es| - 1];
      assert es == front + [e];
      AfterSnoc(m, front, e);
      if e.Tick? && !After(m, front).spawned {
        k := |es|;
        assert es[..k] == es && es[k..] == [];
      } else {
        k := CurrentLife(m, front);
        assert es[..k] == front[..k] && es[k..] == front[k..] + [e];
        var n := After(m, front[..k]);
        AfterSnoc(n, front[k..], e);
        ExtendLife(n, front[k..], e);
      }
    }
  }

  lemma ExtendLife(n: Mon, es: seq<Event>, e: Event)
    requires OneLife(n, es) && (e.Tick? ==> After(n, es).spawned)
    ensures OneLife(n, es + [e])
  {
    forall k | 0 <= k < |es + [e]| && (es + [e])[k].Tick? ensures After(n, (es + [e])[..k]).spawned {
      if k < |es| { assert (es + [e])[..k] == es[..k]; } else { assert (es + [e])[..k] == es; }
    }
  }

  /** Over every history of positive hits: spawned exactly when hp is positive, and since some point k, where the
      current life began, hp is 100 minus the damage since and the target of a living monster its last hitter, or
      nobody. */
  lemma HitsSinceSpawn(code: int, x: int, y: int, es: seq<Event>)
    requires IsHistory(NewMonster(code, x, y), es)
    ensures var m := After(NewMonster(code, x, y), es);
            && (m.spawned <==> m.hp > 0)
            && (exists k :: 0 <= k <= |es| && JustSpawned(After(NewMonster(code, x, y), es[..k]))
                            && OneLife(After(NewMonster(code, x, y), es[..k]), es[k..])
                            && m.hp == FULL_HP - Damage(es[k..])
                            && (m.spawned ==> m.target == LastHitter(es[k..]) && 0 < m.hp <= FULL_HP))
  {
    var k := CurrentLife(NewMonster(code, x, y), es);
    LifeOf(After(NewMonster(code, x, y), es[..k]), es[k..]);
  }

  // ----- death -----

  /** A dead monster stands still: the hit that killed it stopped it, and every round finds its monster alive. */
  predicate DeadStands(m: Mon) { !m.spawned ==> !m.moving }

  lemma {:induction false} DeadAlwaysStands(m: Mon, es: seq<Event>)
    requires DeadStands(m)
    ensures DeadStands(After(m, es)) && After(m, es).startX == m.startX && After(m, es).startY == m.startY
    decreases |es|
  {
    hide InRange, Advance, InRect, Clamp;
    if es != [] { DeadAlwaysStands(Step(m, es[0]), es[1..]); }
  }

  /** Over every history that leaves the monster dead: the next round finds it again where it first spawned, alive with
      full hp and no target. It stays there for that round, starts nothing and is not announced; a cooldown goes on. */
  lemma DeadComesHome(code: int, x: int, y: int, es: seq<Event>, players: map<int, Pos>, aim: Aim)
    requires !After(NewMonster(code, x, y), es).spawned
    ensures var dead := After(NewMonster(code, x, y), es);
            var (m, report) := Round(dead, players, aim);
            && m.pos == Pos(x, y, 100) && JustSpawned(m) && report.Quiet? && !Starts(dead, players, aim)
            && m.moving && (m.attacking <==> dead.attacking && (dead.tick + 1) % COOLDOWN != 0)
  {
    hide InRange, Advance, InRect, Clamp, After;
    DeadAlwaysStands(NewMonster(code, x, y), es);
  }

  /** A monster still alive is never moved by a respawn. */
  lemma LivingIsNotRespawned(m: Mon)
    requires m.spawned
    ensures Respawn(m) == m
  {
  }

  // ----- attack rate -----

  function Rounds(es: seq<Event>): nat
  {
    if es == [] then 0 else (if es[0].Tick? then 1 else 0) + Rounds(es[1..])
  }

  function AttacksStarted(m: Mon, es: seq<Event>): nat
    decreases |es|
  {
    if es == [] then 0
    else (if es[0].Tick? && Starts(m, es[0].players, es[0].aim) then 1 else 0) + AttacksStarted(Step(m, es[0]), es[1..])
  }

  /** What n rounds and a attacks so far say about the cooldown of a monster. */
  predicate Paced(m: Mon, n: nat, a: nat)
  {
    && -1 <= m.tick < COOLDOWN
    && (!m.attacking ==> m.tick == -1 || m.tick == 0)
    && (m.tick == -1 <==> (a == 0 || (a == 1 && m.attacking)))
    && (a == 0 ==> !m.attacking && (m.target > -1 && m.moving ==> n >= 1))
    && (a == 1 && m.attacking ==> n >= 2)
    && (m.attacking && m.tick >= 0 ==> a >= 2 && n >= 4 * a - 5 + m.tick)
    && (!m.attacking && a >= 1 ==> n >= 4 * a - 1)
  }

  /** The most attacks that n rounds allow. */
  function MostAttacks(n: nat): nat { if n < 2 then 0 else 1 + (n + 1) / 4 }

  lemma {:induction false} PaceIsKept(m: Mon, es: seq<Event>, n: nat, a: nat)
    requires Paced(m, n, a)
    ensures Paced(After(m, es), n + Rounds(es), a + AttacksStarted(m, es))
    decreases |es|
  {
    hide InRange, Advance, InRect, Clamp;
    if es != [] {
      var n' := n + (if es[0].Tick? then 1 else 0);
      var a' := a + (if es[0].Tick? && Starts(m, es[0].players, es[0].aim) then 1 else 0);
      PaceStep(m, es[0], n, a);
      PaceIsKept(Step(m, es[0]), es[1..], n', a');
    }
  }

  lemma PaceStep(m: Mon, e: Event, n: nat, a: nat)
    requires Paced(m, n, a)
    ensures Paced(Step(m, e), n + (if e.Tick? then 1 else 0),
                  a + (if e.Tick? && Starts(m, e.players, e.aim) then 1 else 0))
  {
    hide InRange, Advance, InRect, Clamp;
  }

  /** The attack rate: the first cooldown lasts one round and every later one four, and the hit that provokes the first
      attack costs a round. */
  lemma AttackRate(code: int, x: int, y: int, es: seq<Event>)
    ensures AttacksStarted(NewMonster(code, x, y), es) <= MostAttacks(Rounds(es))
  {
    PaceIsKept(NewMonster(code, x, y), es, 0, 0);
  }

  /** A player hits the monster once and stays on top of it for n rounds. */
  function Duel(n: nat): seq<Event>
  {
    [Hit(1, 1)] + Rally(n)
  }

  function Rally(n: nat): seq<Event>
  {
    if n == 0 then [] else Rally(n - 1) + [Tick(map[1 := Pos(0, 0, 0)], Aim(1.0, 0.0, 0.0))]
  }

  lemma {:induction false} StartedSnoc(m: Mon, es: seq<Event>, e: Event)
    ensures AttacksStarted(m, es + [e]) ==
            AttacksStarted(m, es) + (if e.Tick? && Starts(After(m, es), e.players, e.aim) then 1 else 0)
    ensures Rounds(es + [e]) == Rounds(es) + (if e.Tick? then 1 else 0)
    decreases |es|
  {
    hide Step, Starts;
    if es == [] {
      assert es + [e] == [e];
      assert AttacksStarted(Step(m, e), []) == 0;
    } else {
      assert (es + [e])[1..] == es[1..] + [e];
      StartedSnoc(Step(m, es[0]), es[1..], e);
    }
  }

  const DUEL_ROUND := Tick(map[1 := Pos(0, 0, 0)], Aim(1.0, 0.0, 0.0))

  /** Where the duel has come after n rounds. */
  predicate Dueling(r: Mon, n: nat)
  {
    && r.spawned && r.pos == Pos(0, 0, 100) && r.target == 1
    && (r.moving <==> n >= 1) && (r.attacking <==> n >= 2)
    && r.tick == if n <= 2 then -1 else (n - 3) % 4
  }

  predicate AttackDue(n: nat) { n == 2 || (n >= 3 && (n - 3) % 4 == 0) }

  /** The bound is reached for every number of rounds. */
  lemma {:induction false} AttackRateIsTight(n: nat)
    ensures var m := NewMonster(-1, 0, 0);
            && IsHistory(m, Duel(n)) && Rounds(Duel(n)) == n
            && AttacksStarted(m, Duel(n)) == MostAttacks(n) && Dueling(After(m, Duel(n)), n)
  {
    hide Step, Starts, After, AttacksStarted, IsHistory, Possible, Dueling, MostAttacks, Rounds;
    var m := NewMonster(-1, 0, 0);
    if n == 0 {
      DuelOpens();
    } else {
      AttackRateIsTight(n - 1);
      assert Duel(n) == Duel(n - 1) + [DUEL_ROUND];
      AfterSnoc(m, Duel(n - 1), DUEL_ROUND);
      StartedSnoc(m, Duel(n - 1), DUEL_ROUND);
      DuelRound(After(m, Duel(n - 1)), n);
      MoreAttacks(n);
    }
  }

  lemma DuelOpens()
    ensures var m := NewMonster(-1, 0, 0);
            && IsHistory(m, Duel(0)) && Rounds(Duel(0)) == 0
            && AttacksStarted(m, Duel(0)) == MostAttacks(0) && Dueling(After(m, Duel(0)), 0)
  {
    var m := NewMonster(-1, 0, 0);
    AfterSnoc(m, [], Hit(1, 1));
    assert Duel(0) == [] + [Hit(1, 1)];
    StartedSnoc(m, [], Hit(1, 1));
  }

  lemma MoreAttacks(n: nat)
    ensures n >= 1 ==> MostAttacks(n) == MostAttacks(n - 1) + (if AttackDue(n) then 1 else 0)
  {
  }

  lemma DuelRound(r: Mon, n: nat)
    requires n >= 1 && Dueling(r, n - 1)
    ensures Possible(r, DUEL_ROUND) && Dueling(Step(r, DUEL_ROUND), n)
    ensures Starts(r, DUEL_ROUND.players, DUEL_ROUND.aim) <==> AttackDue(n)
  {
    hide Advance, Clamp, IsAim, InRange;
    OnTheSpot(DUEL_ROUND.aim) by { assert IsDirection(Aim(1.0, 0.0, 0.0)); }
    TickOfDuel(r, n);
    var t := SetTick(r);
    assert Chases(t, DUEL_ROUND.players);
    var after := Round(r, DUEL_ROUND.players, DUEL_ROUND.aim).0;
    assert after == t.(moving := true, attacking := IsMoving(t) || t.attacking);
  }

  lemma TickOfDuel(r: Mon, n: nat)
    requires n >= 1 && Dueling(r, n - 1)
    ensures var t := SetTick(r);
            && t == r.(tick := t.tick, attacking := t.attacking)
            && t.tick == (if n <= 2 then -1 else (n - 3) % 4)
            && (t.attacking <==> n >= 3 && (n - 3) % 4 != 0)
  {
  }

  // ----- what a round does -----

  /** A monster that may act and has nobody to follow takes one step of 150 in its direction, up to truncation, and is
      clamped into the map; it stays at its height. */
  lemma WandersOneStep(m: Mon, players: map<int, Pos>, aim: Aim)
    requires m.spawned && IsMoving(SetTick(m)) && !Chases(m, players)
    ensures var p := Round(m, players, aim).0.pos;
            && p.z == m.pos.z && InClosedMap(p.x, p.y)
            && (-HALF < p.x < HALF ==> -1.0 < p.x as real - (m.pos.x as real + STEP as real * aim.c) < 1.0)
            && (-HALF < p.y < HALF ==> -1.0 < p.y as real - (m.pos.y as real + STEP as real * aim.s) < 1.0)
            && (p.x == HALF ==> m.pos.x as real + STEP as real * aim.c > HALF as real - 1.0)
            && (p.y == HALF ==> m.pos.y as real + STEP as real * aim.s > HALF as real - 1.0)
            && (p.x == -HALF ==> m.pos.x as real + STEP as real * aim.c < 1.0 - HALF as real)
            && (p.y == -HALF ==> m.pos.y as real + STEP as real * aim.s < 1.0 - HALF as real)
  {
    TruncIsClose(m.pos.x as real + STEP as real * aim.c);
    TruncIsClose(m.pos.y as real + STEP as real * aim.s);
    hide Trunc, InRange;
  }

  /** What a round says of a monster is so: it reports nothing exactly when it lets the monster rest, and a move tells
      where the monster is now and whom it follows, if anybody. */
  lemma ReportIsTrue(m: Mon, players: map<int, Pos>, aim: Aim)
    ensures var (n, report) := Round(m, players, aim);
            var alive := Respawn(m);
            && (report.Quiet? <==> !IsMoving(SetTick(alive)))
            && (report.Quiet? ==> n.pos == alive.pos && n.moving)
            && (report.Attacked? ==> report.code == m.code)
            && (report.Moved? ==>
                  report == Moved(m.code, n.pos, if Chases(alive, players) then alive.target else NOBODY))
  {
    hide InRange, Advance, InRect, Clamp;
  }

  // ----- what is announced -----

  /** A round reports an attack exactly when the monster starts one while strictly inside the map; on the border it
      attacks all the same, but the round reports a move that goes nowhere. */
  lemma AttackIsAnnouncedInside(m: Mon, players: map<int, Pos>, aim: Aim)
    ensures var (n, report) := Round(m, players, aim);
            var p := Respawn(m).pos;
            && (report.Attacked? <==> Starts(m, players, aim) && InRect(p.x, p.y))
            && (Starts(m, players, aim) ==> n.attacking && n.pos == p && !report.Quiet?)
            && (Starts(m, players, aim) && !InRect(p.x, p.y) ==> report == Moved(m.code, p, n.target))
  {
    hide InRange, Advance, InRect, Clamp;
  }

  /** n rounds of wandering east. */
  function Walk(n: nat): seq<Event>
  {
    if n == 0 then [] else Walk(n - 1) + [Tick(map[], EAST)]
  }

  const EAST := Aim(1.0, 0.0, 0.0)
  const WEST := Aim(-1.0, 0.0, 1.0)

  lemma {:induction false} WalkGoesEast(n: nat)
    ensures var m := NewMonster(-1, 1400, 0);
            IsHistory(m, Walk(n)) && After(m, Walk(n)) == m.(pos := Pos(Clamp(1400 + 150 * n), 0, 100))
  {
    hide After, IsHistory;
    var m := NewMonster(-1, 1400, 0);
    if n == 0 {
      Nothing(m);
    } else {
      WalkGoesEast(n - 1);
      AfterSnoc(m, Walk(n - 1), Tick(map[], EAST));
      var x := Clamp(1400 + 150 * (n - 1));
      assert Advance(x, 1.0) == x + 150 && Advance(0, 0.0) == 0;
    }
  }

  lemma Nothing(m: Mon)
    ensures IsHistory(m, []) && After(m, []) == m
  {
  }

  const AT_BORDER := map[1 := Pos(2399, 0, 0)]

  /** On the border and hit by player 1, who stands next to it. */
  function Cornered(moving: bool): Mon
  {
    NewMonster(-1, 1400, 0).(pos := Pos(2400, 0, 100), moving := moving, target := 1, hp := 99)
  }

  lemma CorneredRounds()
    ensures TakeHit(NewMonster(-1, 1400, 0).(pos := Pos(2400, 0, 100)), 1, 1) == Cornered(false)
    ensures forall b :: AimFits(Respawn(Cornered(b)), AT_BORDER, WEST)
    ensures Round(Cornered(false), AT_BORDER, WEST).0 == Cornered(true)
    ensures Starts(Cornered(true), AT_BORDER, WEST) && Round(Cornered(true), AT_BORDER, WEST).1.Moved?
  {
    hide IsAim, InRange, Advance;
    ComesCloseAtBorder();
  }

  /** A monster spawned where the constructor may put it can come to attack from the border, unannounced. */
  lemma BorderAttackIsSilent()
    ensures exists es, players, aim ::
      var m := After(NewMonster(-1, 1400, 0), es);
      && IsHistory(NewMonster(-1, 1400, 0), es) && AimFits(Respawn(m), players, aim)
      && Starts(m, players, aim) && Round(m, players, aim).1.Moved?
  {
    hide After, IsHistory, Cornered, AimFits, Starts, Round, TakeHit, Respawn;
    var m := NewMonster(-1, 1400, 0);
    var es := Walk(7) + [Hit(1, 1)];
    WalkGoesEast(7);
    CorneredRounds();
    AfterSnoc(m, Walk(7), Hit(1, 1));
    AfterSnoc(m, es, Tick(AT_BORDER, WEST));
    assert After(m, es + [Tick(AT_BORDER, WEST)]) == Cornered(true);
  }

  lemma ComesCloseAtBorder()
    ensures IsAim(WEST, -1, 0) && InRange(WEST)
  {
  }

  // ----- the chase ends in an attack -----

  /** Rounds in which the monster follows a player who does not move. */
  ghost predicate Pursuit(m: Mon, players: map<int, Pos>, aims: seq<Aim>)
    decreases |aims|
  {
    aims == [] ||
    (AimFits(m, players, aims[0]) && !Starts(m, players, aims[0])
     && Pursuit(Round(m, players, aims[0]).0, players, aims[1..]))
  }

  lemma {:induction false} PursuitIsChase(m: Mon, players: map<int, Pos>, aims: seq<Aim>)
    requires m.spawned && m.moving && !m.attacking && Chases(m, players) && Pursuit(m, players, aims)
    ensures IsChase(m.pos.x, m.pos.y, players[m.target].x, players[m.target].y, aims)
    decreases |aims|
  {
    hide IsAim, InRange, Advance;
    if aims != [] {
      PursuitIsChase(Round(m, players, aims[0]).0, players, aims[1..]);
    }
  }

  /** Left alone, a monster that follows a standing player in the map starts an attack within 46 rounds. */
  lemma PursuitEndsInAttack(m: Mon, players: map<int, Pos>, aims: seq<Aim>)
    requires m.spawned && m.moving && !m.attacking && Chases(m, players) && Contained(m) && Pursuit(m, players, aims)
    ensures |aims| <= 45
  {
    PursuitIsChase(m, players, aims);
    ChaseEnds(m.pos.x, m.pos.y, players[m.target].x, players[m.target].y, aims);
  }
}
