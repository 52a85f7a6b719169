/**
 What becomes of a task, step by step, as a caller of the pool sees it: accepted,
 shed, expired, made to wait with its timer running, or handed to a worker. The
 statements are about the states before and after a step.
 */
module PoolOutcomes {
  import opened Queue
  import opened PoolProtocol
  import opened PoolTheorems

  /** The thread is about to tell these tasks this reason, decided at this instant. */
  predicate Tells(s: State, th: Thread, tasks: seq<Task>, r: Reason, at: int, next: Pc) {
    At(s, th, Reply(tasks, false, r, at, next))
  }

  // ---- Time ----

  /** A task is out of time when what it has waited, the reserve and the least budget exceed its deadline. */
  lemma SpentIff(c: Config, t: Task, now: int)
    ensures Spent(c, t, now) <==> t.deadline < (now - t.enqueued) + c.reserve + c.minBudget
    ensures Left(c, t, now) <= 0 <==> t.deadline <= (now - t.enqueued) + c.reserve
  {
  }

  /** The fill is the percentage of the depth in use, rounded down. */
  lemma FillRounds(c: Config, n: nat)
    requires c.Valid() && n <= c.depth
    ensures Fill(c, n) * c.depth <= 100 * n < (Fill(c, n) + 1) * c.depth
  {
    if n < c.depth {
      var x := n * 100;
      assert x == x / c.depth * c.depth + x % c.depth;
    }
  }

  // ---- Submit ----

  predicate Roomy(c: Config, s: State) {
    !s.closed && |s.q| < c.depth
  }

  predicate Full(c: Config, s: State) {
    !s.closed && |s.q| >= c.depth
  }

  predicate NobodySpent(c: Config, q: seq<Task>, now: int) {
    forall t :: t in q ==> !Spent(c, t, now)
  }

  /** A task without budget is told so at once, and any other goes on. */
  lemma CheckOutcome(c: Config, s: State, t: Task)
    requires c.Valid() && Enabled(c, s, Check(t))
    ensures var s' := Next(c, s, Check(t));
      if Spent(c, t, s.now) then Tells(s', Submitter(t), [t], Deadline, s.now, Done) else At(s', Submitter(t), Collect)
  {
  }

  /** An open queue with room takes the task, at its end; a closed one refuses it as out of time. */
  lemma SubmitTaken(c: Config, s: State, t: Task, w: Thread)
    requires c.Valid() && Enabled(c, s, Submit(t, w))
    ensures var s' := Next(c, s, Submit(t, w));
      && (Roomy(c, s) ==> s'.q == s.q + [t] && s'.accepted == s.accepted + [t] && At(s', Submitter(t), Done))
      && (s.closed ==> s'.q == s.q && Tells(s', Submitter(t), [t], Deadline, s.now, Done))
  {
  }

  /** At a full queue in the drop mode the task is shed: nobody waits, and the queue is as it was. */
  lemma SubmitShed(c: Config, s: State, t: Task, w: Thread)
    requires c.Valid() && Enabled(c, s, Submit(t, w)) && Full(c, s) && !c.waits
    ensures var s' := Next(c, s, Submit(t, w));
      && s'.q == s.q && s'.armed == s.armed && s'.accepted == s.accepted
      && Tells(s', Submitter(t), [t], Limit, s.now, Done)
  {
  }

  /**
   At a full queue in the wait mode a task without budget is told so; any other
   waits, its timer armed: asleep when nothing in the queue is out of time, and
   telling what is when something is.
   */
  lemma SubmitWaits(c: Config, s: State, t: Task, w: Thread)
    requires c.Valid() && Enabled(c, s, Submit(t, w)) && Full(c, s) && c.waits
    ensures var s' := Next(c, s, Submit(t, w));
      if Spent(c, t, s.now) then s'.q == s.q && Tells(s', Submitter(t), [t], Deadline, s.now, Done)
      else t in s'.armed && WaitsOn(c, s, s', t)
  {
    WaitOn(c, s, t);
  }

  /** One more pass of the wait loop. */
  ghost predicate WaitsOn(c: Config, s: State, s': State, t: Task) {
    if NobodySpent(c, s.q, s.now)
    then s'.q == s.q && At(s', Submitter(t), Waiting) && Submitter(t) in s'.parked
    else
      && Submitter(t) in s'.pcs && s'.pcs[Submitter(t)].Reply? && s'.pcs[Submitter(t)].next == Waiting
      && Purged(c, s, s', s'.pcs[Submitter(t)])
  }

  /** Exactly the tasks out of time have left the queue, and are about to be told so. */
  ghost predicate Purged(c: Config, s: State, s': State, pc: Pc)
    requires pc.Reply?
  {
    && !pc.marked && pc.reason == Deadline && pc.at == s.now
    && (forall t :: t in pc.tasks <==> t in s.q && Spent(c, t, s.now))
    && (forall t :: t in s'.q <==> t in s.q && !Spent(c, t, s.now))
  }

  lemma WaitOn(c: Config, s: State, t: Task)
    ensures Dead(c, s.q, s.now) == [] <==> NobodySpent(c, s.q, s.now)
    ensures forall x :: x in Dead(c, s.q, s.now) <==> x in s.q && Spent(c, x, s.now)
    ensures forall x :: x in Alive(c, s.q, s.now) <==> x in s.q && !Spent(c, x, s.now)
  {
    PurgeMembers(c, s.q, s.now);
    if !NobodySpent(c, s.q, s.now) {
      var x :| x in s.q && Spent(c, x, s.now);
      assert x in Dead(c, s.q, s.now);
    }
    if Dead(c, s.q, s.now) != [] {
      assert Dead(c, s.q, s.now)[0] in Dead(c, s.q, s.now);
    }
  }

  /**
   A submitter that wakes in the wait loop: refused at a closed pool, accepted as
   soon as there is room, out of time when its timer has fired and there is none,
   and waiting on otherwise.
   */
  lemma RewaitOutcome(c: Config, s: State, t: Task, w: Thread)
    requires c.Valid() && Enabled(c, s, Rewait(t, w))
    ensures var s' := Next(c, s, Rewait(t, w));
      && (s.closed ==> s'.q == s.q && Tells(s', Submitter(t), [t], Deadline, s.now, Done))
      && (Roomy(c, s) ==> s'.q == s.q + [t] && s'.accepted == s.accepted + [t] && At(s', Submitter(t), Done))
      && (Full(c, s) && t in s.timedOut ==> s'.q == s.q && Tells(s', Submitter(t), [t], Deadline, s.now, Done))
      && (Full(c, s) && t !in s.timedOut ==> WaitsOn(c, s, s', t))
  {
    WaitOn(c, s, t);
  }

  // ---- Workers and the sweeper ----

  /** The first task of the queue that still has its budget. */
  ghost predicate FirstFresh(c: Config, q: seq<Task>, now: int, k: nat) {
    k < |q| && !Spent(c, q[k], now) && forall i :: 0 <= i < k ==> Spent(c, q[i], now)
  }

  lemma {:induction false} AliveFirst(c: Config, q: seq<Task>, now: int, k: nat)
    requires FirstFresh(c, q, now, k)
    ensures Alive(c, q, now) != [] && Alive(c, q, now)[0] == q[k]
  {
    var n := |q| - 1;
    if k == n {
      AliveNone(c, q[..n], now);
    } else {
      AliveFirst(c, q[..n], now, k);
    }
  }

  lemma {:induction false} AliveNone(c: Config, q: seq<Task>, now: int)
    requires forall i :: 0 <= i < |q| ==> Spent(c, q[i], now)
    ensures Alive(c, q, now) == []
  {
    if q != [] {
      AliveNone(c, q[..|q| - 1], now);
    }
  }

  /** A worker takes the first task with budget, and carries those without. */
  lemma PopTakes(c: Config, s: State, i: nat, k: nat)
    requires c.Valid() && Enabled(c, s, Pop(i)) && FirstFresh(c, s.q, s.now, k)
    ensures var s' := Next(c, s, Pop(i));
      && s'.popped == s.popped + [s.q[k]] && s'.parked == {}
      && s'.pcs[Worker(i)].Reply? && s'.pcs[Worker(i)].next == Hold(s.q[k])
      && (forall t :: t in s'.pcs[Worker(i)].tasks <==> t in s.q && Spent(c, t, s.now))
      && [s.q[k]] + s'.q == Alive(c, s.q, s.now)
  {
    AliveFirst(c, s.q, s.now, k);
    WaitOn(c, s, s.q[k]);
  }

  /** With no such task it leaves a closed pool, goes round after telling, or sleeps over an empty queue. */
  lemma PopIdles(c: Config, s: State, i: nat)
    requires c.Valid() && Enabled(c, s, Pop(i)) && forall t :: t in s.q ==> Spent(c, t, s.now)
    ensures var s' := Next(c, s, Pop(i));
      && s'.q == [] && s'.popped == s.popped
      && (s.closed ==> Leaving(s'.pcs[Worker(i)]))
      && (!s.closed && s.q == [] ==> At(s', Worker(i), Popping) && Worker(i) in s'.parked)
      && (!s.closed && s.q != [] ==> s'.pcs[Worker(i)].Reply? && s'.pcs[Worker(i)].next == Popping)
      && (s'.pcs[Worker(i)].Reply? ==> forall t :: t in s'.pcs[Worker(i)].tasks <==> t in s.q)
  {
    AliveNone(c, s.q, s.now);
    WaitOn(c, s, Task(0, 0, 0));
    if s.q != [] { assert s.q[0] in s.q; }
  }

  /** A task taken is told out of time, or served, by what is left of it then. */
  lemma BudgetOutcome(c: Config, s: State, i: nat)
    requires c.Valid() && Enabled(c, s, Budget(i))
    ensures var s', t := Next(c, s, Budget(i)), s.pcs[Worker(i)].task;
      At(s', Worker(i), Reply([t], true, if Spent(c, t, s.now) then Deadline else Served, s.now, Popping))
      && s'.expired == s.expired + if Spent(c, t, s.now) then 1 else 0
  {
  }

  /** A collection, by the sweeper or a submitter, takes out exactly what is out of time. */
  lemma GatherOutcome(c: Config, s: State, th: Thread)
    requires c.Valid() && Enabled(c, s, Gather(th))
    ensures var s' := Next(c, s, Gather(th));
      && s'.pcs[th].Reply? && s'.pcs[th].next == (if th.Submitter? then Enter else Sweeping)
      && Purged(c, s, s', s'.pcs[th])
  {
    WaitOn(c, s, Task(0, 0, 0));
  }

  // ---- Nobody waits in the drop mode, and nobody waits without a timer ----

  predicate InLoop(pc: Pc) {
    pc.Waiting? || (pc.Reply? && pc.next.Waiting?)
  }

  ghost predicate Waiters(c: Config, s: State) {
    && (forall t :: Submitter(t) in s.pcs && InLoop(s.pcs[Submitter(t)]) ==>
          c.waits && (t in s.armed || t in s.timedOut))
    && (forall t :: t in s.armed || t in s.timedOut ==> c.waits)
  }

  lemma WaitersMove(c: Config, s: State, s': State, th: Thread)
    requires Waiters(c, s) && th in s'.pcs && s'.pcs == s.pcs[th := s'.pcs[th]]
    requires s'.timedOut == s.timedOut && s.armed <= s'.armed
    requires forall t :: t in s'.armed ==> t in s.armed || (c.waits && th == Submitter(t))
    requires th.Submitter? && InLoop(s'.pcs[th]) ==> c.waits && (th.task in s'.armed || th.task in s'.timedOut)
    ensures Waiters(c, s')
  {
  }

  lemma WaitersSection(c: Config, s: State, a: Action)
    requires c.Valid() && Enabled(c, s, a) && Threads(c, s) && Waiters(c, s) && Section(a)
    ensures Waiters(c, Next(c, s, a))
  {
    var s' := Next(c, s, a);
    match a
    case Submit(t, _) => WaitersMove(c, s, s', Submitter(t));
    case Rewait(t, _) => WaitersMove(c, s, s', Submitter(t));
    case Gather(th) => WaitersMove(c, s, s', th);
    case Pop(i) => WaitersMove(c, s, s', Worker(i));
  }

  lemma WaitersStep(c: Config, s: State, a: Action)
    requires c.Valid() && Enabled(c, s, a) && Threads(c, s) && Waiters(c, s) && !Section(a)
    ensures Waiters(c, Next(c, s, a))
  {
    var s' := Next(c, s, a);
    match a
    case Arrive(t) => WaitersMove(c, s, s', Submitter(t));
    case Check(t) => WaitersMove(c, s, s', Submitter(t));
    case Budget(i) => WaitersMove(c, s, s', Worker(i));
    case Count(th) => WaitersMove(c, s, s', th);
    case Tell(th) => WaitersMove(c, s, s', th);
    case Proceed(th) =>
      assert GoodPc(th, s.pcs[th]);
      WaitersMove(c, s, s', th);
    case _ =>
  }

  lemma {:induction false} WaitersAfter(c: Config, s: State, run: seq<Action>)
    requires c.Valid() && Inv(c, s) && Waiters(c, s) && Runs(c, s, run)
    ensures Waiters(c, After(c, s, run))
    decreases |run|
  {
    if run != [] {
      InvNext(c, s, run[0]);
      if Section(run[0]) { WaitersSection(c, s, run[0]); } else { WaitersStep(c, s, run[0]); }
      WaitersAfter(c, Next(c, s, run[0]), run[1..]);
    }
  }

  /**
   On every run: in the drop mode no submitter ever waits, sleeps or has a timer;
   and in the wait mode one that waits has a timer that will fire or has fired.
   */
  lemma WaitingIsTimed(c: Config, now: int, run: seq<Action>, t: Task)
    requires c.Valid() && Runs(c, Init(c, now), run) && Submitter(t) in After(c, Init(c, now), run).pcs
    ensures var s := After(c, Init(c, now), run);
      && (!c.waits ==> !InLoop(s.pcs[Submitter(t)]) && Submitter(t) !in s.parked && s.armed == {} && s.timedOut == {})
      && (InLoop(s.pcs[Submitter(t)]) ==> t in s.armed || t in s.timedOut)
  {
    InvInit(c, now);
    WaitersAfter(c, Init(c, now), run);
    Reached(c, now, run);
  }
}
