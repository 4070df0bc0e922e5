/** The compare-exchange guards of RoomTask and of Dispatch: one atomic flag, any number of threads, one step per
    access. */
module Guards {

  type Tid = nat

  /** Snapshot: Dispatch has read the flag once. Ready: about to compare-exchange, expecting expected. Inside: in the
      body. */
  datatype Pc = Outside | Snapshot(expected: bool) | Ready(expected: bool) | Inside

  datatype Guard = Guard(flag: bool, pcs: seq<Pc>)

  datatype Action =
    | Load(t: Tid)       // RoomTask reads the flag and goes on only if it is false
    | Snap(t: Tid)       // Dispatch reads the flag into its local variable
    | Recheck(t: Tid)    // Dispatch reads the flag again and goes on only if it is false
    | Cas(t: Tid)        // compare_exchange_strong(expected, true)
    | Leave(t: Tid)      // exchange(false)

  predicate Enabled(s: Guard, a: Action)
  {
    a.t < |s.pcs| &&
    match a
    case Load(t) => s.pcs[t].Outside?
    case Snap(t) => s.pcs[t].Outside?
    case Recheck(t) => s.pcs[t].Snapshot?
    case Cas(t) => s.pcs[t].Ready?
    case Leave(t) => s.pcs[t].Inside?
  }

  function Next(s: Guard, a: Action): Guard
    requires Enabled(s, a)
  {
    match a
    case Load(t) => s.(pcs := s.pcs[t := if s.flag then Outside else Ready(false)])
    case Snap(t) => s.(pcs := s.pcs[t := Snapshot(s.flag)])
    case Recheck(t) => s.(pcs := s.pcs[t := if s.flag then Outside else Ready(s.pcs[t].expected)])
    case Cas(t) =>
      if s.flag == s.pcs[t].expected then Guard(true, s.pcs[t := Inside]) else s.(pcs := s.pcs[t := Outside])
    case Leave(t) => Guard(false, s.pcs[t := Outside])
  }

  function Start(n: nat): Guard { Guard(false, seq(n, _ => Outside)) }

  predicate CanRun(s: Guard, run: seq<Action>)
    decreases |run|
  {
    run == [] || (Enabled(s, run[0]) && CanRun(Next(s, run[0]), run[1..]))
  }

  function After(s: Guard, run: seq<Action>): Guard
    requires CanRun(s, run)
    decreases |run|
  {
    if run == [] then s else After(Next(s, run[0]), run[1..])
  }

  /** At most one thread is in the body. */
  predicate Exclusive(s: Guard)
  {
    forall t, u :: 0 <= t < u < |s.pcs| && s.pcs[t].Inside? ==> !s.pcs[u].Inside?
  }

  /** The flag says whether a thread is in the body. */
  predicate Faithful(s: Guard)
  {
    s.flag <==> exists t :: 0 <= t < |s.pcs| && s.pcs[t].Inside?
  }

  /** Thread t is let in by a compare-exchange that found the flag set, as it expected. */
  predicate Slips(s: Guard, a: Action)
  {
    a.Cas? && a.t < |s.pcs| && s.pcs[a.t] == Ready(true) && s.flag
  }

  lemma StepIsExclusive(s: Guard, a: Action)
    requires Exclusive(s) && Faithful(s) && Enabled(s, a)
    ensures Exclusive(Next(s, a)) <==> !Slips(s, a)
    ensures !Slips(s, a) ==> Faithful(Next(s, a))
  {
    var s' := Next(s, a);
    if Slips(s, a) {
      var u :| 0 <= u < |s.pcs| && s.pcs[u].Inside?;
      assert s'.pcs[u].Inside? && s'.pcs[a.t].Inside?;
    } else if s.flag {
      var u :| 0 <= u < |s.pcs| && s.pcs[u].Inside?;
      if !a.Leave? {
        assert s'.pcs[u].Inside?;
      } else {
        assert a.t == u;
      }
    } else if a.Cas? && s.pcs[a.t] == Ready(false) {
      assert s'.pcs[a.t].Inside?;
    }
  }

  /** Every state of the run is exclusive. */
  predicate AlwaysExclusive(s: Guard, run: seq<Action>)
    requires CanRun(s, run)
    decreases |run|
  {
    Exclusive(s) && (run == [] || AlwaysExclusive(Next(s, run[0]), run[1..]))
  }

  predicate NobodySlips(s: Guard, run: seq<Action>)
    requires CanRun(s, run)
    decreases |run|
  {
    run == [] || (!Slips(s, run[0]) && NobodySlips(Next(s, run[0]), run[1..]))
  }

  /** The exact condition: a run keeps the body exclusive if and only if no compare-exchange that expects true finds
      true. */
  lemma {:induction false} ExclusiveExactlyWhenNobodySlips(s: Guard, run: seq<Action>)
    requires Exclusive(s) && Faithful(s) && CanRun(s, run)
    ensures AlwaysExclusive(s, run) <==> NobodySlips(s, run)
    decreases |run|
  {
    hide Exclusive, Faithful, Next, Enabled, Slips;
    if run != [] {
      StepIsExclusive(s, run[0]);
      if !Slips(s, run[0]) {
        ExclusiveExactlyWhenNobodySlips(Next(s, run[0]), run[1..]);
      }
    }
  }

  lemma StartIsExclusive(n: nat)
    ensures Exclusive(Start(n)) && Faithful(Start(n))
  {
  }

  /** Every compare-exchange of the run expects false. */
  predicate ExpectsFalse(s: Guard, run: seq<Action>)
    requires CanRun(s, run)
    decreases |run|
  {
    run == [] || ((run[0].Cas? ==> s.pcs[run[0].t] == Ready(false)) && ExpectsFalse(Next(s, run[0]), run[1..]))
  }

  lemma {:induction false} ExpectingFalseNobodySlips(s: Guard, run: seq<Action>)
    requires CanRun(s, run) && ExpectsFalse(s, run)
    ensures NobodySlips(s, run)
    decreases |run|
  {
    if run != [] { ExpectingFalseNobodySlips(Next(s, run[0]), run[1..]); }
  }

  /** Dispatch: exclusive over every run in which the snapshots compared with were all false. */
  lemma DispatchIsExclusiveWhenExpectingFalse(n: nat, run: seq<Action>)
    requires CanRun(Start(n), run) && ExpectsFalse(Start(n), run)
    ensures AlwaysExclusive(Start(n), run)
  {
    StartIsExclusive(n);
    ExpectingFalseNobodySlips(Start(n), run);
    ExclusiveExactlyWhenNobodySlips(Start(n), run);
  }

  predicate NoSnapshots(s: Guard)
  {
    forall t :: 0 <= t < |s.pcs| ==> !s.pcs[t].Snapshot? && s.pcs[t] != Ready(true)
  }

  lemma {:induction false} RoomTaskExpectsFalse(s: Guard, run: seq<Action>)
    requires NoSnapshots(s) && CanRun(s, run) && (forall a :: a in run ==> !a.Snap?)
    ensures ExpectsFalse(s, run)
    decreases |run|
  {
    if run != [] {
      assert run[0] in run && (forall a :: a in run[1..] ==> a in run);
      RoomTaskExpectsFalse(Next(s, run[0]), run[1..]);
    }
  }

  /** RoomTask: whatever the interleaving of any number of threads, at most one runs a round. */
  lemma RoomTaskIsExclusive(n: nat, run: seq<Action>)
    requires CanRun(Start(n), run) && (forall a :: a in run ==> !a.Snap?)
    ensures AlwaysExclusive(Start(n), run)
  {
    RoomTaskExpectsFalse(Start(n), run);
    DispatchIsExclusiveWhenExpectingFalse(n, run);
  }

  /** A thread that finds no round going on and is the first to compare-exchange then gets in, whatever loads and leaves
      happen in between. */
  lemma FirstToExchangeEnters(s: Guard, t: Tid, others: seq<Action>)
    requires Enabled(s, Load(t)) && !s.flag && CanRun(s, [Load(t)] + others)
    requires forall a :: a in others ==> a.t != t && !a.Cas?
    ensures var waiting := After(s, [Load(t)] + others);
            && Enabled(waiting, Cas(t)) && Next(waiting, Cas(t)).pcs[t] == Inside && Next(waiting, Cas(t)).flag
  {
    assert ([Load(t)] + others)[1..] == others;
    StaysReady(Next(s, Load(t)), t, others);
  }

  lemma {:induction false} StaysReady(s: Guard, t: Tid, others: seq<Action>)
    requires t < |s.pcs| && s.pcs[t] == Ready(false) && !s.flag && CanRun(s, others)
    requires forall a :: a in others ==> a.t != t && !a.Cas?
    ensures t < |After(s, others).pcs| && After(s, others).pcs[t] == Ready(false) && !After(s, others).flag
    decreases |others|
  {
    if others != [] {
      assert others[0] in others && (forall a :: a in others[1..] ==> a in others);
      StaysReady(Next(s, others[0]), t, others[1..]);
    }
  }

  /** Whoever finds the body taken, at the load of RoomTask or at the second one of Dispatch, leaves it alone; a
      snapshot only remembers what it found. */
  lemma BusyIsLeftAlone(s: Guard, a: Action)
    requires Enabled(s, a) && s.flag && !a.Cas? && !a.Leave?
    ensures Next(s, a).flag && Next(s, a).pcs[a.t] == if a.Snap? then Snapshot(true) else Outside
    ensures forall u :: 0 <= u < |s.pcs| && u != a.t ==> Next(s, a).pcs[u] == s.pcs[u]
  {
  }

  /** Every attempt is over after its compare-exchange: in, if the flag was as expected, and out otherwise. */
  lemma AttemptEnds(s: Guard, t: Tid)
    requires Enabled(s, Cas(t))
    ensures var s' := Next(s, Cas(t));
            && s'.pcs[t] == (if s.pcs[t] == Ready(s.flag) then Inside else Outside)
            && (s'.flag <==> s.flag || s'.pcs[t] == Inside)
            && (forall u :: 0 <= u < |s.pcs| && u != t ==> s'.pcs[u] == s.pcs[u])
  {
  }

  /** Nobody waits for a room that is free: from every state RoomTask can reach with nobody inside, two steps of any
      idle thread put it inside. */
  lemma FreeRoomIsEntered(n: nat, run: seq<Action>, t: Tid)
    requires CanRun(Start(n), run) && (forall a :: a in run ==> !a.Snap?)
    requires t < |After(Start(n), run).pcs| && After(Start(n), run).pcs[t] == Outside
    requires forall u :: 0 <= u < |After(Start(n), run).pcs| ==> !After(Start(n), run).pcs[u].Inside?
    ensures var s := After(Start(n), run);
            && Enabled(s, Load(t)) && Enabled(Next(s, Load(t)), Cas(t))
            && Next(Next(s, Load(t)), Cas(t)).pcs[t] == Inside
  {
    StartIsExclusive(n);
    RoomTaskExpectsFalse(Start(n), run);
    FaithfulAtEnd(Start(n), run);
  }

  lemma {:induction false} FaithfulAtEnd(s: Guard, run: seq<Action>)
    requires Exclusive(s) && Faithful(s) && CanRun(s, run) && ExpectsFalse(s, run)
    ensures Faithful(After(s, run))
    decreases |run|
  {
    hide Exclusive, Faithful, Next, Enabled;
    if run != [] {
      StepIsExclusive(s, run[0]);
      FaithfulAtEnd(Next(s, run[0]), run[1..]);
    }
  }

  ghost predicate Reachable(n: nat, s: Guard)
  {
    exists run :: CanRun(Start(n), run) && After(Start(n), run) == s
  }

  lemma {:induction false} RunThenStep(s: Guard, run: seq<Action>, a: Action)
    requires CanRun(s, run) && Enabled(After(s, run), a)
    ensures CanRun(s, run + [a]) && After(s, run + [a]) == Next(After(s, run), a)
    decreases |run|
  {
    if run == [] {
      assert [] + [a] == [a];
    } else {
      assert (run + [a])[1..] == run[1..] + [a];
      RunThenStep(Next(s, run[0]), run[1..], a);
    }
  }

  lemma StartIsReachable(n: nat)
    ensures Reachable(n, Start(n))
  {
    assert CanRun(Start(n), []) && After(Start(n), []) == Start(n);
  }

  lemma StepOn(n: nat, s: Guard, a: Action)
    requires Reachable(n, s) && Enabled(s, a)
    ensures Reachable(n, Next(s, a))
  {
    var run :| CanRun(Start(n), run) && After(Start(n), run) == s;
    RunThenStep(Start(n), run, a);
  }

  /** Thread 1 reads true while thread 0 is inside, and rechecks after it has left. */
  lemma StaleSnapshot()
    ensures Reachable(2, Guard(false, [Outside, Ready(true)]))
  {
    StartIsReachable(2);
    hide Reachable;
    assert Start(2) == Guard(false, [Outside, Outside]);
    StepOn(2, Guard(false, [Outside, Outside]), Snap(0));
    StepOn(2, Guard(false, [Snapshot(false), Outside]), Recheck(0));
    StepOn(2, Guard(false, [Ready(false), Outside]), Cas(0));
    StepOn(2, Guard(true, [Inside, Outside]), Snap(1));
    StepOn(2, Guard(true, [Inside, Snapshot(true)]), Leave(0));
    StepOn(2, Guard(false, [Outside, Snapshot(true)]), Recheck(1));
  }

  /** Dispatch as written is not exclusive: the stale expectation matches once thread 0 is inside again. */
  lemma DispatchCanAdmitTwo()
    ensures exists s :: Reachable(2, s) && !Exclusive(s)
  {
    StaleSnapshot();
    hide Reachable;
    StepOn(2, Guard(false, [Outside, Ready(true)]), Snap(0));
    StepOn(2, Guard(false, [Snapshot(false), Ready(true)]), Recheck(0));
    StepOn(2, Guard(false, [Ready(false), Ready(true)]), Cas(0));
    StepOn(2, Guard(true, [Inside, Ready(true)]), Cas(1));
    var s := Guard(true, [Inside, Inside]);
    assert s == Next(Guard(true, [Inside, Ready(true)]), Cas(1));
    assert s.pcs[0].Inside? && s.pcs[1].Inside?;
    assert Reachable(2, s) && !Exclusive(s);
  }
}
