/** The job queue of a room: the class as one thread uses it, and a step system in which any number of threads push and
    execute, one step per access to shared state. */
module JobQueues {
  import opened Wrappers

  type Job = int

  // ----- the class -----

  class JobQueue {
    var q: seq<Job>
    var qSize: int
    /** The jobs that have been run, in order. */
    var executed: seq<Job>

    constructor ()
      ensures q == [] && qSize == 0 && executed == []
    {
      q, qSize, executed := [], 0, [];
    }

    method Push(job: Job)
      modifies this
      ensures q == old(q) + [job] && qSize == old(qSize) + 1 && executed == old(executed)
    {
      qSize := qSize + 1;
      q := q + [job];
    }

    method Execute()
      modifies this
      ensures q == [] && executed == old(executed) + old(q) && qSize == old(qSize) - |old(q)|
    {
      var jobCount := |q|;
      var jobs: seq<Job> := [];
      for i := 0 to jobCount
        invariant jobs == old(q)[..i] && q == old(q)[i..] && executed == old(executed) && qSize == old(qSize)
      {
        jobs := jobs + [q[0]];
        q := q[1..];
      }
      assert jobs == old(q);
      while jobs != []
        invariant executed + jobs == old(executed) + old(q) && q == [] && qSize == old(qSize)
        decreases |jobs|
      {
        executed := executed + [jobs[0]];
        jobs := jobs[1..];
      }
      qSize := qSize - jobCount;
    }
  }

  // ----- many threads -----

  type Tid = nat

  /** The local variables of Execute. jobs holds places in the order of insertion; batch says which batch was taken. */
  datatype Worker = Worker(batch: nat, jobs: seq<nat>, jobCount: nat)

  /** pushing: a job counted but not yet inserted. worker: inside Execute after the locked part. */
  datatype Thread = Thread(pushing: Option<Job>, worker: Option<Worker>)

  /** inserted: every job in order of insertion; the queue and the batches name jobs by their place in it.
      batches: what each locked part of Execute took, in order. executed: places run so far, in order. */
  datatype Room = Room(inserted: seq<Job>, q: seq<nat>, qSize: int, threads: seq<Thread>, batches: seq<seq<nat>>,
                       executed: seq<nat>)

  datatype Action =
    | Count(t: Tid, job: Job)    // fetch_add in Push
    | Insert(t: Tid)             // the locked part of Push
    | Take(t: Tid)               // the locked part of Execute
    | RunOne(t: Tid)             // one turn of the loop of Execute
    | Finish(t: Tid)             // fetch_sub in Execute

  predicate Enabled(s: Room, a: Action)
  {
    a.t < |s.threads| &&
    match a
    case Count(t, job) => s.threads[t].pushing.None?
    case Insert(t) => s.threads[t].pushing.Some?
    case Take(t) => s.threads[t].worker.None?
    case RunOne(t) => s.threads[t].worker.Some? && s.threads[t].worker.value.jobs != []
    case Finish(t) => s.threads[t].worker.Some? && s.threads[t].worker.value.jobs == []
  }

  function Next(s: Room, a: Action): Room
    requires Enabled(s, a)
  {
    match a
    case Count(t, job) =>
      s.(qSize := s.qSize + 1, threads := s.threads[t := s.threads[t].(pushing := Some(job))])
    case Insert(t) =>
      s.(inserted := s.inserted + [s.threads[t].pushing.value], q := s.q + [|s.inserted|],
         threads := s.threads[t := s.threads[t].(pushing := None)])
    case Take(t) =>
      s.(q := [], batches := s.batches + [s.q],
         threads := s.threads[t := s.threads[t].(worker := Some(Worker(|s.batches|, s.q, |s.q|)))])
    case RunOne(t) =>
      var w := s.threads[t].worker.value;
      s.(executed := s.executed + [w.jobs[0]],
         threads := s.threads[t := s.threads[t].(worker := Some(w.(jobs := w.jobs[1..])))])
    case Finish(t) =>
      s.(qSize := s.qSize - s.threads[t].worker.value.jobCount,
         threads := s.threads[t := s.threads[t].(worker := None)])
  }

  function Start(n: nat): Room
  {
    Room([], [], 0, seq(n, _ => Thread(None, None)), [], [])
  }

  predicate CanRun(s: Room, run: seq<Action>)
    decreases |run|
  {
    run == [] || (Enabled(s, run[0]) && CanRun(Next(s, run[0]), run[1..]))
  }

  function After(s: Room, run: seq<Action>): Room
    requires CanRun(s, run)
    decreases |run|
  {
    if run == [] then s else After(Next(s, run[0]), run[1..])
  }

  // ----- what is counted -----

  /** 0, 1, ..., n - 1. */
  function Places(n: nat): seq<nat> { seq(n, i => i) }

  function Concat(ss: seq<seq<nat>>): seq<nat>
  {
    if ss == [] then [] else Concat(ss[..|ss| - 1]) + ss[|ss| - 1]
  }

  function Load(th: Thread): nat
  {
    (if th.pushing.Some? then 1 else 0) + (if th.worker.Some? then th.worker.value.jobCount else 0)
  }

  function TotalLoad(ths: seq<Thread>): nat
  {
    if ths == [] then 0 else Load(ths[0]) + TotalLoad(ths[1..])
  }

  function HeldBy(th: Thread): seq<nat> { if th.worker.Some? then th.worker.value.jobs else [] }

  /** The jobs in the private batches of all threads. */
  function Held(ths: seq<Thread>): multiset<nat>
  {
    if ths == [] then multiset{} else multiset(HeldBy(ths[0])) + Held(ths[1..])
  }

  lemma {:induction false} TotalLoadUpdate(ths: seq<Thread>, t: Tid, th: Thread)
    requires t < |ths|
    ensures TotalLoad(ths[t := th]) + Load(ths[t]) == TotalLoad(ths) + Load(th)
  {
    if t > 0 {
      assert ths[t := th][1..] == ths[1..][t - 1 := th];
      TotalLoadUpdate(ths[1..], t - 1, th);
    } else {
      assert ths[t := th][1..] == ths[1..];
    }
  }

  lemma {:induction false} HeldUpdate(ths: seq<Thread>, t: Tid, th: Thread)
    requires t < |ths|
    ensures Held(ths[t := th]) + multiset(HeldBy(ths[t])) == Held(ths) + multiset(HeldBy(th))
  {
    if t > 0 {
      assert ths[t := th][1..] == ths[1..][t - 1 := th];
      HeldUpdate(ths[1..], t - 1, th);
      var first, before, after := multiset(HeldBy(ths[0])), multiset(HeldBy(ths[t])), multiset(HeldBy(th));
      var rest, rest' := Held(ths[1..]), Held(ths[1..][t - 1 := th]);
      assert first + rest' + before == first + (rest' + before) == first + (rest + after) == first + rest + after;
    } else {
      assert ths[t := th][1..] == ths[1..];
    }
  }

  // ----- the invariant -----

  /** The batches in taking order, then the queue, spell the order of insertion. */
  predicate InOrder(s: Room)
  {
    Concat(s.batches) + s.q == Places(|s.inserted|)
  }

  /** A worker has the rest of its batch left. */
  predicate WorkersOk(s: Room)
  {
    forall t :: 0 <= t < |s.threads| && s.threads[t].worker.Some? ==>
      var w := s.threads[t].worker.value;
      && w.batch < |s.batches| && w.jobCount == |s.batches[w.batch]|
      && |w.jobs| <= w.jobCount && w.jobs == s.batches[w.batch][w.jobCount - |w.jobs|..]
  }

  predicate Conserved(s: Room)
  {
    multiset(s.q) + Held(s.threads) + multiset(s.executed) == multiset(Places(|s.inserted|))
  }

  predicate Counted(s: Room)
  {
    s.qSize == |s.q| + TotalLoad(s.threads)
  }

  predicate Inv(s: Room) { InOrder(s) && WorkersOk(s) && Conserved(s) && Counted(s) }

  lemma PlacesSnoc(n: nat)
    ensures Places(n + 1) == Places(n) + [n]
  {
  }

  lemma ConcatSnoc(ss: seq<seq<nat>>, x: seq<nat>)
    ensures Concat(ss + [x]) == Concat(ss) + x
  {
    assert (ss + [x])[..|ss|] == ss;
  }

  lemma NextKeepsOrder(s: Room, a: Action)
    requires InOrder(s) && Enabled(s, a)
    ensures InOrder(Next(s, a))
  {
    hide Places, Concat;
    match a
    case Insert(t) =>
      PlacesSnoc(|s.inserted|);
      assert Concat(s.batches) + (s.q + [|s.inserted|]) == Concat(s.batches) + s.q + [|s.inserted|];
    case Take(t) =>
      ConcatSnoc(s.batches, s.q);
      assert Concat(s.batches) + s.q + [] == Concat(s.batches) + s.q;
    case _ =>
  }

  lemma NextKeepsWorkers(s: Room, a: Action)
    requires WorkersOk(s) && Enabled(s, a)
    ensures WorkersOk(Next(s, a))
  {
    if a.RunOne? {
      var w := s.threads[a.t].worker.value;
      var b := s.batches[w.batch];
      assert b[w.jobCount - |w.jobs|..][1..] == b[w.jobCount - |w.jobs| + 1..];
    }
  }

  lemma NextKeepsCount(s: Room, a: Action)
    requires Counted(s) && Enabled(s, a)
    ensures Counted(Next(s, a))
  {
    TotalLoadUpdate(s.threads, a.t, Next(s, a).threads[a.t]);
  }

  lemma Cancel(x: multiset<nat>, y: multiset<nat>, z: multiset<nat>)
    requires x + z == y + z
    ensures x == y
  {
    assert x == x + z - z;
    assert y == y + z - z;
  }

  lemma NextConserves(s: Room, a: Action)
    requires Conserved(s) && Enabled(s, a)
    ensures Conserved(Next(s, a))
  {
    hide Held, Places;
    var held, held' := Held(s.threads), Held(Next(s, a).threads);
    HeldUpdate(s.threads, a.t, Next(s, a).threads[a.t]);
    match a
    case Insert(t) =>
      Cancel(held', held, multiset(HeldBy(s.threads[t])));
      PlacesSnoc(|s.inserted|);
      var place: nat := |s.inserted|;
      assert multiset(s.q + [place]) + held + multiset(s.executed)
          == multiset(s.q) + held + multiset(s.executed) + multiset([place]);
    case Take(t) =>
      assert held' == held + multiset(s.q);
      assert multiset([]) + held' + multiset(s.executed) == multiset(s.q) + held + multiset(s.executed);
    case RunOne(t) => RunOneConserves(s, t, held, held');
    case _ =>
      Cancel(held', held, multiset(HeldBy(s.threads[a.t])));
  }

  lemma RunOneConserves(s: Room, t: Tid, held: multiset<nat>, held': multiset<nat>)
    requires Enabled(s, RunOne(t))
    requires held' + multiset(s.threads[t].worker.value.jobs) == held + multiset(s.threads[t].worker.value.jobs[1..])
    ensures multiset(s.q) + held' + multiset(s.executed + [s.threads[t].worker.value.jobs[0]])
         == multiset(s.q) + held + multiset(s.executed)
  {
    var jobs := s.threads[t].worker.value.jobs;
    assert jobs == [jobs[0]] + jobs[1..];
    assert (held' + multiset{jobs[0]}) + multiset(jobs[1..]) == held + multiset(jobs[1..]);
    Cancel(held' + multiset{jobs[0]}, held, multiset(jobs[1..]));
  }

  lemma StepKeepsInv(s: Room, a: Action)
    requires Inv(s) && Enabled(s, a)
    ensures Inv(Next(s, a))
  {
    hide InOrder, WorkersOk, Conserved, Counted, Next, Enabled;
    NextKeepsOrder(s, a);
    NextKeepsWorkers(s, a);
    NextKeepsCount(s, a);
    NextConserves(s, a);
  }

  lemma {:induction false} RunKeepsInv(s: Room, run: seq<Action>)
    requires Inv(s) && CanRun(s, run)
    ensures Inv(After(s, run))
    decreases |run|
  {
    hide InOrder, WorkersOk, Conserved, Counted, Next, Enabled;
    if run != [] {
      StepKeepsInv(s, run[0]);
      RunKeepsInv(Next(s, run[0]), run[1..]);
    }
  }

  lemma {:induction false} StartHasInv(n: nat)
    ensures Inv(Start(n))
  {
    IdleThreads(Start(n).threads);
  }

  lemma {:induction false} IdleThreads(ths: seq<Thread>)
    requires forall t :: 0 <= t < |ths| ==> ths[t] == Thread(None, None)
    ensures TotalLoad(ths) == 0 && Held(ths) == multiset{}
  {
    if ths != [] { IdleThreads(ths[1..]); }
  }

  // ----- the promises -----

  lemma {:induction false} PlacesOccurOnce(n: nat, i: nat)
    ensures multiset(Places(n))[i] == if i < n then 1 else 0
  {
    if n != 0 {
      PlacesOccurOnce(n - 1, i);
      PlacesSnoc(n - 1);
    }
  }

  /** No job is lost or run twice: at every moment of every run each inserted job is once in the queue, once in one
      thread's batch, or has been executed exactly once. */
  lemma EveryJobIsSomewhereOnce(n: nat, run: seq<Action>, i: nat)
    requires CanRun(Start(n), run)
    ensures var s := After(Start(n), run);
            multiset(s.q)[i] + Held(s.threads)[i] + multiset(s.executed)[i] == if i < |s.inserted| then 1 else 0
  {
    StartHasInv(n);
    RunKeepsInv(Start(n), run);
    var s := After(Start(n), run);
    PlacesOccurOnce(|s.inserted|, i);
    assert (multiset(s.q) + Held(s.threads) + multiset(s.executed))[i] == multiset(Places(|s.inserted|))[i];
  }

  /** The batches are consecutive pieces of the insertion order, and a thread in Execute works off its own piece in
      order. */
  lemma BatchesKeepOrder(n: nat, run: seq<Action>, t: Tid)
    requires CanRun(Start(n), run) && t < |After(Start(n), run).threads|
    ensures var s := After(Start(n), run);
            && Concat(s.batches) + s.q == Places(|s.inserted|)
            && (s.threads[t].worker.Some? ==>
                  var w := s.threads[t].worker.value;
                  && w.batch < |s.batches| && |w.jobs| <= |s.batches[w.batch]|
                  && w.jobs == s.batches[w.batch][|s.batches[w.batch]| - |w.jobs|..])
  {
    StartHasInv(n);
    RunKeepsInv(Start(n), run);
  }

  /** The counter is the queue plus what is under way: never negative, never below the length of the queue. */
  lemma CounterIsExact(n: nat, run: seq<Action>)
    requires CanRun(Start(n), run)
    ensures var s := After(Start(n), run);
            s.qSize == |s.q| + TotalLoad(s.threads) && s.qSize >= |s.q|
  {
    StartHasInv(n);
    RunKeepsInv(Start(n), run);
  }

  // ----- when jobs run in order -----

  /** What has been executed are the first jobs inserted, in that order. */
  predicate Fifo(s: Room)
  {
    |s.executed| <= |s.inserted| && s.executed == Places(|s.inserted|)[..|s.executed|]
  }

  /** Thread u still has jobs of a batch taken before the one thread t works on. */
  predicate IsBehind(s: Room, u: Tid, t: Tid)
  {
    && u < |s.threads| && t < |s.threads| && s.threads[u].worker.Some? && s.threads[t].worker.Some?
    && s.threads[u].worker.value.jobs != [] && s.threads[u].worker.value.batch < s.threads[t].worker.value.batch
  }

  /** A thread is about to run a job while another has jobs of an earlier batch left. */
  predicate Overtakes(s: Room, a: Action)
  {
    a.RunOne? && exists u :: 0 <= u < |s.threads| && IsBehind(s, u, a.t)
  }

  /** The place of the first job of batch b. */
  function BatchStart(batches: seq<seq<nat>>, b: nat): nat
    requires b <= |batches|
  {
    |Concat(batches[..b])|
  }

  /** A job of batch b is at its place in the concatenation of all batches. */
  lemma {:induction false} BatchAt(batches: seq<seq<nat>>, b: nat, x: nat)
    requires b < |batches| && x < |batches[b]|
    ensures BatchStart(batches, b) + x < |Concat(batches)|
    ensures Concat(batches)[BatchStart(batches, b) + x] == batches[b][x]
    decreases |batches|
  {
    var n := |batches| - 1;
    if b < n {
      BatchAt(batches[..n], b, x);
      assert batches[..n][..b] == batches[..b];
    }
  }

  lemma {:induction false} StartsGrow(batches: seq<seq<nat>>, b: nat, c: nat)
    requires b < c <= |batches|
    ensures BatchStart(batches, b) + |batches[b]| <= BatchStart(batches, c)
    decreases c
  {
    assert batches[..c][..c - 1] == batches[..c - 1];
    if b < c - 1 {
      StartsGrow(batches, b, c - 1);
    }
  }

  /** Job x of batch b is the one inserted at BatchStart + x. */
  lemma JobPlace(s: Room, b: nat, x: nat)
    requires InOrder(s) && b < |s.batches| && x < |s.batches[b]|
    ensures s.batches[b][x] == BatchStart(s.batches, b) + x < |Concat(s.batches)| <= |s.inserted|
  {
    hide Concat;
    BatchAt(s.batches, b, x);
    var all := Concat(s.batches) + s.q;
    assert all[BatchStart(s.batches, b) + x] == Concat(s.batches)[BatchStart(s.batches, b) + x];
  }

  lemma QueuePlace(s: Room, i: nat)
    requires InOrder(s) && i in s.q
    ensures |Concat(s.batches)| <= i
  {
    hide Concat;
    var x :| 0 <= x < |s.q| && s.q[x] == i;
    assert (Concat(s.batches) + s.q)[|Concat(s.batches)| + x] == i;
  }

  /** The jobs a worker has left are consecutive places. */
  lemma JobsLeft(s: Room, t: Tid, x: nat)
    requires InOrder(s) && WorkersOk(s) && t < |s.threads| && x < |HeldBy(s.threads[t])|
    ensures var w := s.threads[t].worker.value;
            && w.batch < |s.batches| && |w.jobs| <= |s.batches[w.batch]|
            && w.jobs[x] == BatchStart(s.batches, w.batch) + (|s.batches[w.batch]| - |w.jobs|) + x < |Concat(s.batches)|
  {
    hide InOrder, BatchStart, Concat;
    var w := s.threads[t].worker.value;
    JobPlace(s, w.batch, w.jobCount - |w.jobs| + x);
  }

  lemma {:induction false} HeldHas(ths: seq<Thread>, t: Tid, i: nat)
    requires t < |ths|
    ensures multiset(HeldBy(ths[t]))[i] <= Held(ths)[i]
  {
    if t != 0 { HeldHas(ths[1..], t - 1, i); }
  }

  lemma {:induction false} HeldTwice(ths: seq<Thread>, t: Tid, u: Tid, i: nat)
    requires t < u < |ths|
    ensures multiset(HeldBy(ths[t]))[i] + multiset(HeldBy(ths[u]))[i] <= Held(ths)[i]
  {
    if t == 0 {
      HeldHas(ths[1..], u - 1, i);
    } else {
      HeldTwice(ths[1..], t - 1, u - 1, i);
    }
  }

  lemma {:induction false} HeldBySomeone(ths: seq<Thread>, i: nat) returns (t: Tid)
    requires Held(ths)[i] > 0
    ensures t < |ths| && i in HeldBy(ths[t])
  {
    if i in HeldBy(ths[0]) {
      t := 0;
    } else {
      t := HeldBySomeone(ths[1..], i);
      t := t + 1;
    }
  }

  /** Two threads never hold the same job. */
  lemma HeldApart(s: Room, t: Tid, u: Tid, i: nat)
    requires Conserved(s) && t < |s.threads| && u < |s.threads| && i in HeldBy(s.threads[t])
    requires i in HeldBy(s.threads[u])
    ensures t == u
  {
    hide Places, Held, HeldBy;
    PlacesOccurOnce(|s.inserted|, i);
    assert (multiset(s.q) + Held(s.threads) + multiset(s.executed))[i] <= 1;
    if t < u { HeldTwice(s.threads, t, u, i); } else if u < t { HeldTwice(s.threads, u, t, i); }
  }

  /** While execution is in order, the executed places are those below their number. */
  lemma HeldAreLater(s: Room, t: Tid, i: nat)
    requires Conserved(s) && Fifo(s) && t < |s.threads| && i in HeldBy(s.threads[t])
    ensures |s.executed| <= i
  {
    hide Held, HeldBy;
    PlacesOccurOnce(|s.inserted|, i);
    HeldHas(s.threads, t, i);
    assert (multiset(s.q) + Held(s.threads) + multiset(s.executed))[i] <= 1;
  }

  /** The next place in order is held by somebody if any later place is. */
  lemma NextIsHeld(s: Room, j: nat) returns (u: Tid)
    requires InOrder(s) && Conserved(s) && Fifo(s) && |s.executed| < j < |Concat(s.batches)|
    ensures u < |s.threads| && |s.executed| in HeldBy(s.threads[u])
  {
    hide Held, HeldBy, Concat;
    var k := |s.executed|;
    PlacesOccurOnce(|s.inserted|, k);
    assert (multiset(s.q) + Held(s.threads) + multiset(s.executed))[k] == multiset(Places(|s.inserted|))[k];
    if k in s.q { QueuePlace(s, k); }
    assert k !in s.executed;
    u := HeldBySomeone(s.threads, k);
  }

  /** Not overtaking means running the next place in order. */
  lemma RunsNextOrOvertakes(s: Room, t: Tid)
    requires Inv(s) && Fifo(s) && Enabled(s, RunOne(t))
    ensures s.threads[t].worker.value.jobs[0] == |s.executed| || Overtakes(s, RunOne(t))
  {
    hide InOrder, Conserved, Counted, Fifo, Concat, BatchStart;
    var w := s.threads[t].worker.value;
    var j, k := w.jobs[0], |s.executed|;
    JobsLeft(s, t, 0);
    HeldAreLater(s, t, j);
    if j != k {
      var u := NextIsHeld(s, j);
      var v := s.threads[u].worker.value;
      var x :| 0 <= x < |v.jobs| && v.jobs[x] == k;
      JobsLeft(s, u, x);
      if v.batch == w.batch {
        JobsLeft(s, u, x + j - k) by { assert |v.jobs| - |w.jobs| == x + j - k; }
        HeldApart(s, t, u, j);
        assert false;
      } else if w.batch < v.batch {
        StartsGrow(s.batches, w.batch, v.batch);
        assert false;
      }
      assert IsBehind(s, u, t);
    }
  }

  lemma OvertakingIsOutOfOrder(s: Room, t: Tid)
    requires Inv(s) && Fifo(s) && Enabled(s, RunOne(t)) && Overtakes(s, RunOne(t))
    ensures s.threads[t].worker.value.jobs[0] != |s.executed|
  {
    hide InOrder, Conserved, Counted, Fifo, Concat, BatchStart;
    var u :| 0 <= u < |s.threads| && IsBehind(s, u, t);
    var w, v := s.threads[t].worker.value, s.threads[u].worker.value;
    JobsLeft(s, t, 0);
    JobsLeft(s, u, 0);
    StartsGrow(s.batches, v.batch, w.batch);
    HeldAreLater(s, u, v.jobs[0]);
  }

  /** One step keeps execution in order exactly when it does not overtake. */
  lemma StepIsFifo(s: Room, a: Action)
    requires Inv(s) && Fifo(s) && Enabled(s, a)
    ensures Fifo(Next(s, a)) <==> !Overtakes(s, a)
  {
    hide Inv, Overtakes;
    if a.RunOne? {
      RunsNextOrOvertakes(s, a.t);
      if Overtakes(s, a) { OvertakingIsOutOfOrder(s, a.t); }
      RunOneInOrder(s, a.t);
    } else {
      assert !Overtakes(s, a) by { NotARun(s, a); }
    }
  }

  lemma NotARun(s: Room, a: Action)
    requires !a.RunOne?
    ensures !Overtakes(s, a)
  {
  }

  lemma RunOneInOrder(s: Room, t: Tid)
    requires Inv(s) && Fifo(s) && Enabled(s, RunOne(t))
    ensures Fifo(Next(s, RunOne(t))) <==> s.threads[t].worker.value.jobs[0] == |s.executed|
  {
    hide Conserved, Counted, Concat, InOrder;
    var j, k := s.threads[t].worker.value.jobs[0], |s.executed|;
    JobsLeft(s, t, 0);
    JobPlace(s, s.threads[t].worker.value.batch, 0);
    assert (s.executed + [j])[k] == j;
  }

  /** Every state of the run has executed in order. */
  predicate AlwaysFifo(s: Room, run: seq<Action>)
    requires CanRun(s, run)
    decreases |run|
  {
    Fifo(s) && (run == [] || AlwaysFifo(Next(s, run[0]), run[1..]))
  }

  predicate NobodyOvertakes(s: Room, run: seq<Action>)
    requires CanRun(s, run)
    decreases |run|
  {
    run == [] || (!Overtakes(s, run[0]) && NobodyOvertakes(Next(s, run[0]), run[1..]))
  }

  lemma {:induction false} FifoFrom(s: Room, run: seq<Action>)
    requires Inv(s) && Fifo(s) && CanRun(s, run)
    ensures AlwaysFifo(s, run) <==> NobodyOvertakes(s, run)
    decreases |run|
  {
    hide Inv, Fifo, Overtakes, Next, Enabled;
    if run != [] {
      StepIsFifo(s, run[0]);
      if !Overtakes(s, run[0]) {
        StepKeepsInv(s, run[0]);
        FifoFrom(Next(s, run[0]), run[1..]);
      } else {
        NotFifoNow(Next(s, run[0]), run[1..]);
      }
    }
  }

  lemma NotFifoNow(s: Room, run: seq<Action>)
    requires CanRun(s, run) && !Fifo(s)
    ensures !AlwaysFifo(s, run)
  {
  }

  /** The exact condition, for any number of threads: jobs run in the order in which they were inserted, in every state
      of a run, if and only if no thread runs a job while another has jobs of an earlier batch left. */
  lemma FifoExactlyWhenNobodyOvertakes(n: nat, run: seq<Action>)
    requires CanRun(Start(n), run)
    ensures AlwaysFifo(Start(n), run) <==> NobodyOvertakes(Start(n), run)
  {
    StartHasInv(n);
    FifoFrom(Start(n), run);
  }

  /** Only thread e is inside Execute. */
  predicate OnlyWorker(s: Room, e: Tid)
  {
    forall t :: 0 <= t < |s.threads| && t != e ==> s.threads[t].worker.None?
  }

  lemma {:induction false} OneWorkerNeverOvertakes(s: Room, run: seq<Action>, e: Tid)
    requires OnlyWorker(s, e) && CanRun(s, run)
    requires forall a :: a in run && a.Take? ==> a.t == e
    ensures NobodyOvertakes(s, run)
    decreases |run|
  {
    if run != [] {
      assert run[0] in run && (forall a :: a in run[1..] ==> a in run);
      OneWorkerNeverOvertakes(Next(s, run[0]), run[1..], e);
    }
  }

  /** In particular with any number of pushers and one executing thread. */
  lemma OneExecutorIsFifo(n: nat, run: seq<Action>, e: Tid)
    requires CanRun(Start(n), run) && (forall a :: a in run && a.Take? ==> a.t == e)
    ensures AlwaysFifo(Start(n), run)
  {
    OneWorkerNeverOvertakes(Start(n), run, e);
    FifoExactlyWhenNobodyOvertakes(n, run);
  }

  // ----- which jobs -----

  /** The job thread t counted last. */
  function LastCounted(run: seq<Action>, t: Tid): Option<Job>
  {
    if run == [] then None
    else
      var last := run[|run| - 1];
      if last.Count? && last.t == t then Some(last.job) else LastCounted(run[..|run| - 1], t)
  }

  /** The jobs handed over in run, one for each insertion: the job its thread counted last before. */
  function HandedOver(run: seq<Action>): seq<Job>
  {
    if run == [] then []
    else
      var front, last := run[..|run| - 1], run[|run| - 1];
      var job := if last.Insert? then LastCounted(front, last.t) else None;
      HandedOver(front) + (if job.Some? then [job.value] else [])
  }

  /** The jobs of all pushes begun in run. */
  function AllCounted(run: seq<Action>): multiset<Job>
  {
    if run == [] then multiset{}
    else
      var last := run[|run| - 1];
      AllCounted(run[..|run| - 1]) + (if last.Count? then multiset{last.job} else multiset{})
  }

  /** The jobs at the given places. */
  function JobsAt(inserted: seq<Job>, places: seq<nat>): (jobs: seq<Job>)
    ensures |jobs| == |places|
    ensures forall i :: 0 <= i < |places| && places[i] < |inserted| ==> jobs[i] == inserted[places[i]]
  {
    seq(|places|, i requires 0 <= i < |places| => if places[i] < |inserted| then inserted[places[i]] else 0)
  }

  /** The jobs that have been run, in order. */
  function Ran(s: Room): seq<Job> { JobsAt(s.inserted, s.executed) }

  /** The places in the private batches of all threads, thread by thread. */
  function HeldPlaces(ths: seq<Thread>): seq<nat>
  {
    if ths == [] then [] else HeldBy(ths[0]) + HeldPlaces(ths[1..])
  }

  function PushOf(th: Thread): multiset<Job>
  {
    if th.pushing.Some? then multiset{th.pushing.value} else multiset{}
  }

  /** The jobs counted but not yet inserted. */
  function BeingPushed(ths: seq<Thread>): multiset<Job>
  {
    if ths == [] then multiset{} else PushOf(ths[0]) + BeingPushed(ths[1..])
  }

  lemma AddFirst(first: multiset<Job>, x: multiset<Job>, b: multiset<Job>, y: multiset<Job>, a: multiset<Job>)
    requires x + b == y + a
    ensures first + x + b == first + y + a
  {
    assert first + x + b == first + (x + b);
    assert first + y + a == first + (y + a);
  }

  lemma {:induction false} BeingPushedUpdate(ths: seq<Thread>, t: Tid, th: Thread)
    requires t < |ths|
    ensures BeingPushed(ths[t := th]) + PushOf(ths[t]) == BeingPushed(ths) + PushOf(th)
  {
    hide PushOf;
    if t > 0 {
      assert ths[t := th][1..] == ths[1..][t - 1 := th];
      BeingPushedUpdate(ths[1..], t - 1, th);
      AddFirst(PushOf(ths[0]), BeingPushed(ths[1..][t - 1 := th]), PushOf(ths[t]), BeingPushed(ths[1..]), PushOf(th));
    } else {
      assert ths[t := th][1..] == ths[1..];
      SwapFirst(PushOf(th), BeingPushed(ths[1..]), PushOf(ths[0]));
    }
  }

  lemma SwapFirst(x: multiset<Job>, rest: multiset<Job>, y: multiset<Job>)
    ensures x + rest + y == y + rest + x
  {
  }

  /** What the threads are pushing is what they counted last, what is inserted was handed over, and nothing else was
      counted. */
  predicate Handed(s: Room, run: seq<Action>)
  {
    && s.inserted == HandedOver(run)
    && (forall t :: 0 <= t < |s.threads| && s.threads[t].pushing.Some? ==> LastCounted(run, t) == s.threads[t].pushing)
    && multiset(s.inserted) + BeingPushed(s.threads) == AllCounted(run)
  }

  lemma StepHands(s: Room, run: seq<Action>, a: Action)
    requires Handed(s, run) && Enabled(s, a)
    ensures Handed(Next(s, a), run + [a])
  {
    hide BeingPushed, LastCounted, HandedOver, AllCounted, Next, Enabled;
    StepCounts(s, a);
    LastOf(run, a);
    KeepsCounting(s, run, a);
  }

  lemma LastOf(run: seq<Action>, a: Action)
    ensures AllCounted(run + [a]) == AllCounted(run) + (if a.Count? then multiset{a.job} else multiset{})
    ensures HandedOver(run + [a]) ==
            HandedOver(run) + (if a.Insert? && LastCounted(run, a.t).Some? then [LastCounted(run, a.t).value] else [])
    ensures forall t :: LastCounted(run + [a], t) == if a.Count? && a.t == t then Some(a.job) else LastCounted(run, t)
  {
    assert (run + [a])[..|run|] == run;
  }

  lemma KeepsCounting(s: Room, run: seq<Action>, a: Action)
    requires Enabled(s, a) && s.inserted == HandedOver(run)
    requires forall t :: 0 <= t < |s.threads| && s.threads[t].pushing.Some? ==>
               LastCounted(run, t) == s.threads[t].pushing
    ensures var s' := Next(s, a);
            && s'.inserted == HandedOver(run + [a])
            && (forall t :: 0 <= t < |s'.threads| && s'.threads[t].pushing.Some? ==>
                  LastCounted(run + [a], t) == s'.threads[t].pushing)
  {
    hide LastCounted, HandedOver;
    LastOf(run, a);
  }

  lemma StepCounts(s: Room, a: Action)
    requires Enabled(s, a)
    ensures multiset(Next(s, a).inserted) + BeingPushed(Next(s, a).threads) ==
            multiset(s.inserted) + BeingPushed(s.threads) + (if a.Count? then multiset{a.job} else multiset{})
  {
    hide BeingPushed;
    BeingPushedUpdate(s.threads, a.t, Next(s, a).threads[a.t]);
    var before, after := BeingPushed(s.threads), BeingPushed(Next(s, a).threads);
    match a
    case Count(t, job) => assert after == before + multiset{job};
    case Insert(t) =>
      var job := s.threads[t].pushing.value;
      assert multiset(s.inserted + [job]) == multiset(s.inserted) + multiset{job};
      assert multiset(s.inserted + [job]) + after == multiset(s.inserted) + (after + multiset{job});
    case _ => CancelJobs(after, before, PushOf(s.threads[a.t]));
  }

  lemma CancelJobs(x: multiset<Job>, y: multiset<Job>, z: multiset<Job>)
    requires x + z == y + z
    ensures x == y
  {
    assert x == x + z - z;
    assert y == y + z - z;
  }

  lemma {:induction false} RunHands(n: nat, run: seq<Action>)
    requires CanRun(Start(n), run)
    ensures Handed(After(Start(n), run), run)
    decreases |run|
  {
    hide Handed, Next, Enabled;
    if run == [] {
      NothingHanded(n);
    } else {
      var front, a := run[..|run| - 1], run[|run| - 1];
      assert run == front + [a];
      RunSnoc(Start(n), front, a);
      RunHands(n, front);
      StepHands(After(Start(n), front), front, a);
    }
  }

  lemma NothingHanded(n: nat)
    ensures Handed(Start(n), [])
  {
    NobodyPushes(Start(n).threads);
  }

  lemma {:induction false} NobodyPushes(ths: seq<Thread>)
    requires forall t :: 0 <= t < |ths| ==> ths[t].pushing.None?
    ensures BeingPushed(ths) == multiset{}
  {
    if ths != [] { NobodyPushes(ths[1..]); }
  }

  lemma {:induction false} RunSnoc(s: Room, run: seq<Action>, a: Action)
    ensures CanRun(s, run + [a]) <==> CanRun(s, run) && Enabled(After(s, run), a)
    ensures CanRun(s, run + [a]) ==> After(s, run + [a]) == Next(After(s, run), a)
    decreases |run|
  {
    hide Enabled, Next;
    if run == [] {
      assert run + [a] == [a];
      assert CanRun(s, [a]) <==> Enabled(s, a);
    } else if Enabled(s, run[0]) {
      assert (run + [a])[1..] == run[1..] + [a];
      RunSnoc(Next(s, run[0]), run[1..], a);
    }
  }

  /** Every place is a place of the job that was pushed there. */
  lemma InsertedIsHandedOver(n: nat, run: seq<Action>)
    requires CanRun(Start(n), run)
    ensures After(Start(n), run).inserted == HandedOver(run)
  {
    RunHands(n, run);
  }

  lemma {:induction false} HeldPlacesAreHeld(ths: seq<Thread>)
    ensures multiset(HeldPlaces(ths)) == Held(ths)
  {
    if ths != [] { HeldPlacesAreHeld(ths[1..]); }
  }

  /** Places in another order hold the same jobs. */
  lemma {:induction false} SamePlacesSameJobs(inserted: seq<Job>, xs: seq<nat>, ys: seq<nat>)
    requires multiset(xs) == multiset(ys)
    ensures multiset(JobsAt(inserted, xs)) == multiset(JobsAt(inserted, ys))
    decreases |xs|
  {
    if xs == [] {
      assert |multiset(ys)| == 0;
    } else {
      hide JobsAt;
      var x, rest := xs[0], xs[1..];
      assert xs == [x] + rest && x in multiset(ys);
      var i :| 0 <= i < |ys| && ys[i] == x;
      var left, right := ys[..i], ys[i + 1..];
      assert ys == left + ([x] + right);
      RemoveOne(x, rest, left, right);
      SamePlacesSameJobs(inserted, rest, left + right);
      JobsAtConcat(inserted, [x], rest);
      JobsAtConcat(inserted, left, [x] + right);
      JobsAtConcat(inserted, [x], right);
      JobsAtConcat(inserted, left, right);
    }
  }

  lemma RemoveOne(x: nat, rest: seq<nat>, left: seq<nat>, right: seq<nat>)
    requires multiset([x] + rest) == multiset(left + ([x] + right))
    ensures multiset(rest) == multiset(left + right)
  {
    var one := multiset([x]);
    assert multiset([x] + rest) == multiset(rest) + one;
    assert multiset(left + ([x] + right)) == multiset(left + right) + one;
    Cancel(multiset(rest), multiset(left + right), one);
  }

  lemma JobsAtConcat(inserted: seq<Job>, xs: seq<nat>, ys: seq<nat>)
    ensures JobsAt(inserted, xs + ys) == JobsAt(inserted, xs) + JobsAt(inserted, ys)
  {
  }

  /** Jobs are conserved: at every moment of every run the jobs queued, in private batches, executed, and counted but
      not yet inserted are together exactly the jobs that were pushed. */
  lemma JobsAreConserved(n: nat, run: seq<Action>)
    requires CanRun(Start(n), run)
    ensures var s := After(Start(n), run);
            multiset(JobsAt(s.inserted, s.q)) + multiset(JobsAt(s.inserted, HeldPlaces(s.threads))) + multiset(Ran(s))
            + BeingPushed(s.threads) == AllCounted(run)
  {
    hide InOrder, WorkersOk, Counted, CanRun, After;
    StartHasInv(n);
    RunKeepsInv(Start(n), run);
    RunHands(n, run);
    AllJobsInserted(After(Start(n), run));
  }

  lemma AllJobsInserted(s: Room)
    requires Conserved(s)
    ensures multiset(JobsAt(s.inserted, s.q)) + multiset(JobsAt(s.inserted, HeldPlaces(s.threads))) + multiset(Ran(s))
            == multiset(s.inserted)
  {
    hide JobsAt, Held, HeldPlaces, Places;
    var held := HeldPlaces(s.threads);
    HeldPlacesAreHeld(s.threads);
    var all, places := s.q + held + s.executed, Places(|s.inserted|);
    assert multiset(all) == multiset(places);
    SamePlacesSameJobs(s.inserted, all, places);
    JobsInPlace(s.inserted);
    JobsAtConcat(s.inserted, s.q + held, s.executed);
    JobsAtConcat(s.inserted, s.q, held);
  }

  lemma JobsInPlace(inserted: seq<Job>)
    ensures JobsAt(inserted, Places(|inserted|)) == inserted
  {
  }

  /** While nobody overtakes, the jobs run are the first ones handed over, in that order. */
  lemma JobsRunAsHandedOver(n: nat, run: seq<Action>)
    requires CanRun(Start(n), run) && NobodyOvertakes(Start(n), run)
    ensures var ran := Ran(After(Start(n), run));
            |ran| <= |HandedOver(run)| && ran == HandedOver(run)[..|ran|]
  {
    hide CanRun, After, NobodyOvertakes;
    FifoExactlyWhenNobodyOvertakes(n, run);
    AlwaysFifoAtEnd(Start(n), run);
    InsertedIsHandedOver(n, run);
  }

  lemma {:induction false} AlwaysFifoAtEnd(s: Room, run: seq<Action>)
    requires CanRun(s, run) && AlwaysFifo(s, run)
    ensures Fifo(After(s, run))
    decreases |run|
  {
    hide Fifo, Next, Enabled;
    if run != [] { AlwaysFifoAtEnd(Next(s, run[0]), run[1..]); }
  }

  /** In particular with one executing thread, however many push. */
  lemma OneExecutorRunsAsHandedOver(n: nat, run: seq<Action>, e: Tid)
    requires CanRun(Start(n), run) && (forall a :: a in run && a.Take? ==> a.t == e)
    ensures var ran := Ran(After(Start(n), run));
            |ran| <= |HandedOver(run)| && ran == HandedOver(run)[..|ran|]
  {
    OneWorkerNeverOvertakes(Start(n), run, e);
    JobsRunAsHandedOver(n, run);
  }

  // ----- a thread left to itself -----

  /** n turns of the loop of Execute. */
  function Turns(t: Tid, n: nat): seq<Action>
  {
    if n == 0 then [] else [RunOne(t)] + Turns(t, n - 1)
  }

  lemma {:induction false} TurnsRunAll(s: Room, t: Tid)
    requires t < |s.threads| && s.threads[t].worker.Some?
    ensures var w := s.threads[t].worker.value;
            var run := Turns(t, |w.jobs|);
            && CanRun(s, run)
            && After(s, run) == s.(executed := s.executed + w.jobs,
                                   threads := s.threads[t := s.threads[t].(worker := Some(w.(jobs := [])))])
    decreases |s.threads[t].worker.value.jobs|
  {
    var w := s.threads[t].worker.value;
    if w.jobs == [] {
      assert s.executed + w.jobs == s.executed;
      assert s.threads[t := s.threads[t].(worker := Some(w.(jobs := [])))] == s.threads;
    } else {
      var s1 := Next(s, RunOne(t));
      TurnsRunAll(s1, t);
      Before(s, RunOne(t), Turns(t, |w.jobs| - 1));
      assert s.executed + [w.jobs[0]] + w.jobs[1..] == s.executed + w.jobs;
    }
  }

  /** The steps of Execute, done without interruption, are the method: everything queued is run in order, the queue is
      empty, the counter is lowered by what was run, and the thread is out again. */
  lemma ExecuteAlone(s: Room, t: Tid)
    requires t < |s.threads| && s.threads[t].worker.None?
    ensures var run := [Take(t)] + (Turns(t, |s.q|) + [Finish(t)]);
            && CanRun(s, run)
            && var s' := After(s, run);
            && s'.q == [] && s'.executed == s.executed + s.q && s'.qSize == s.qSize - |s.q|
            && s'.threads == s.threads && s'.inserted == s.inserted && s'.batches == s.batches + [s.q]
  {
    var s1 := Next(s, Take(t));
    TurnsRunAll(s1, t);
    RunSnoc(s1, Turns(t, |s.q|), Finish(t));
    Before(s, Take(t), Turns(t, |s.q|) + [Finish(t)]);
  }

  /** Likewise the steps of Push: the job is last and counted. */
  lemma PushAlone(s: Room, t: Tid, job: Job)
    requires t < |s.threads| && s.threads[t].pushing.None?
    ensures var run := [Count(t, job)] + [Insert(t)];
            && CanRun(s, run)
            && var s' := After(s, run);
            && s'.inserted == s.inserted + [job] && s'.q == s.q + [|s.inserted|] && s'.qSize == s.qSize + 1
            && s'.threads == s.threads && s'.executed == s.executed
  {
    var s1 := Next(s, Count(t, job));
    NothingRun(Next(s1, Insert(t)));
    Before(s1, Insert(t), []);
    assert [Insert(t)] + [] == [Insert(t)];
    Before(s, Count(t, job), [Insert(t)]);
  }

  /** With two executing threads a later job can run first. */
  lemma TwoExecutorsCanReorder()
    ensures exists run :: CanRun(Start(2), run) && After(Start(2), run).executed == [1, 0]
  {
    var s0 := Start(2);
    var s1 := Next(s0, Count(0, 7));
    var s2 := Next(s1, Insert(0));
    var s3 := Next(s2, Take(0));
    var s4 := Next(s3, Count(1, 8));
    var s5 := Next(s4, Insert(1));
    var s6 := Next(s5, Take(1));
    var s7 := Next(s6, RunOne(1));
    var s8 := Next(s7, RunOne(0));
    assert s8.executed == [1, 0];
    NothingRun(s8);
    Before(s7, RunOne(0), []);
    Before(s6, RunOne(1), [RunOne(0)]);
    Before(s5, Take(1), [RunOne(1), RunOne(0)]);
    Before(s4, Insert(1), [Take(1), RunOne(1), RunOne(0)]);
    Before(s3, Count(1, 8), [Insert(1), Take(1), RunOne(1), RunOne(0)]);
    Before(s2, Take(0), [Count(1, 8), Insert(1), Take(1), RunOne(1), RunOne(0)]);
    Before(s1, Insert(0), [Take(0), Count(1, 8), Insert(1), Take(1), RunOne(1), RunOne(0)]);
    Before(s0, Count(0, 7), [Insert(0), Take(0), Count(1, 8), Insert(1), Take(1), RunOne(1), RunOne(0)]);
  }

  lemma NothingRun(s: Room)
    ensures CanRun(s, []) && After(s, []) == s
  {
  }

  lemma Before(s: Room, a: Action, run: seq<Action>)
    requires Enabled(s, a) && CanRun(Next(s, a), run)
    ensures CanRun(s, [a] + run) && After(s, [a] + run) == After(Next(s, a), run)
  {
    assert ([a] + run)[1..] == run;
  }
}
