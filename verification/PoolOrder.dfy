/**
 Order and honesty of the pool: tasks leave the queue in the order they were
 accepted, and every reason told was true when it was decided.
 */
module PoolOrder {
  import opened Sequences
  import opened Queue
  import opened PoolProtocol

  // ---- Order ----

  /** The popped tasks followed by the queue are the accepted ones minus the purged, in order. */
  ghost predicate Fifo(s: State) {
    && s.popped + s.q == Without(s.accepted, s.purged)
    && (forall t :: t in s.accepted ==> At(s, Submitter(t), Done))
    && (forall t :: t in s.purged ==> t in s.accepted)
    && Distinct(s.accepted)
  }

  lemma {:induction false} WithoutMembers(s: seq<Task>, gone: set<Task>)
    ensures forall t :: t in Without(s, gone) <==> t in s && t !in gone
  {
    if s != [] {
      WithoutMembers(s[..|s| - 1], gone);
      assert s == s[..|s| - 1] + [s[|s| - 1]];
    }
  }

  lemma {:induction false} WithoutDistinct(s: seq<Task>, gone: set<Task>)
    requires Distinct(s)
    ensures Distinct(Without(s, gone))
  {
    if s != [] {
      WithoutMembers(s[..|s| - 1], gone);
      WithoutDistinct(s[..|s| - 1], gone);
    }
  }

  lemma WithoutAppend(s: seq<Task>, t: Task, gone: set<Task>)
    requires t !in gone
    ensures Without(s + [t], gone) == Without(s, gone) + [t]
  {
    assert (s + [t])[..|s|] == s;
  }

  lemma DistinctParts(a: seq<Task>, b: seq<Task>)
    requires Distinct(a + b)
    ensures forall t :: t in a ==> t !in b
  {
    forall t | t in a ensures t !in b {
      var i :| 0 <= i < |a| && a[i] == t;
      forall j | 0 <= j < |b| ensures b[j] != t {
        assert (a + b)[i] == t && (a + b)[|a| + j] == b[j];
      }
    }
  }

  /** A purge takes its tasks out of the middle and disturbs no order. */
  lemma FifoPurge(c: Config, accepted: seq<Task>, popped: seq<Task>, q: seq<Task>, purged: set<Task>, now: int)
    requires Distinct(accepted) && popped + q == Without(accepted, purged)
    ensures popped + Alive(c, q, now) == Without(accepted, purged + Elems(Dead(c, q, now)))
  {
    var gone := Elems(Dead(c, q, now));
    PurgeMembers(c, q, now);
    WithoutDistinct(accepted, purged);
    DistinctParts(popped, q);
    WithoutTwice(accepted, purged, gone);
    WithoutConcat(popped, q, gone);
    WithoutNone(popped, gone);
    AliveIsWithout(c, q, now, gone);
  }

  /** The four shapes a turn has for the order of the queue, `p` being a purge at this instant. */
  ghost predicate Orderly(c: Config, s: State, th: Thread, turn: Turn) {
    var p := PurgeTurn(c, s.q, s.now);
    || (turn.q == s.q && turn.dead == [] && !turn.out.Took? && turn.out != Enqueued)
    || (turn.q == p.q && turn.dead == p.dead && !turn.out.Took? && turn.out != Enqueued)
    || (p.q != [] && turn.q == p.q[1..] && turn.dead == p.dead && turn.out == Took(p.q[0]))
    || (turn.q == s.q + OwnTask(th) && turn.dead == [] && turn.out == Enqueued && th.Submitter?)
  }

  function OwnTask(th: Thread): seq<Task> {
    if th.Submitter? then [th.task] else []
  }

  lemma FifoEnqueue(s: State, s': State, t: Task)
    requires Fifo(s) && Submitter(t) in s.pcs && s.pcs[Submitter(t)] != Done
    requires s'.q == s.q + [t] && s'.popped == s.popped && s'.accepted == s.accepted + [t] && s'.purged == s.purged
    requires s'.pcs == s.pcs[Submitter(t) := Done]
    ensures Fifo(s')
  {
    assert t !in s.accepted && t !in s.purged;
    WithoutAppend(s.accepted, t, s.purged);
    Regrouped(s.popped, s.q, [t]);
    DistinctAppend(s.accepted, t);
    AcceptedDone(s, s', t);
  }

  lemma DistinctAppend(s: seq<Task>, t: Task)
    requires Distinct(s) && t !in s
    ensures Distinct(s + [t])
  {
  }

  lemma AcceptedDone(s: State, s': State, t: Task)
    requires forall x :: x in s.accepted ==> At(s, Submitter(x), Done)
    requires s'.pcs == s.pcs[Submitter(t) := Done] && s'.accepted == s.accepted + [t]
    ensures forall x :: x in s'.accepted ==> At(s', Submitter(x), Done)
  {
  }

  lemma FifoRemove(c: Config, s: State, th: Thread, turn: Turn, s': State)
    requires Fifo(s) && Orderly(c, s, th, turn) && turn.out != Enqueued
    requires s'.q == turn.q && s'.purged == s.purged + Elems(turn.dead) && s'.accepted == s.accepted
    requires s'.popped == s.popped + if turn.out.Took? then [turn.out.task] else []
    requires forall t :: At(s, Submitter(t), Done) ==> At(s', Submitter(t), Done)
    ensures Fifo(s')
  {
    var p := PurgeTurn(c, s.q, s.now);
    if turn.q == s.q && turn.dead == [] && !turn.out.Took? {
      assert s'.purged == s.purged && s'.popped == s.popped;
    } else {
      assert s'.popped + s'.q == s.popped + p.q;
      FifoPurged(c, s, s');
    }
  }

  lemma FifoPurged(c: Config, s: State, s': State)
    requires Fifo(s) && s'.popped + s'.q == s.popped + Alive(c, s.q, s.now) && s'.accepted == s.accepted
    requires s'.purged == s.purged + Elems(Dead(c, s.q, s.now))
    requires forall t :: At(s, Submitter(t), Done) ==> At(s', Submitter(t), Done)
    ensures Fifo(s')
  {
    FifoPurge(c, s.accepted, s.popped, s.q, s.purged, s.now);
    DeadAccepted(c, s, Dead(c, s.q, s.now));
  }

  lemma DeadAccepted(c: Config, s: State, dead: seq<Task>)
    requires Fifo(s) && dead == Dead(c, s.q, s.now)
    ensures forall t :: t in dead ==> t in s.accepted
  {
    WithoutMembers(s.accepted, s.purged);
    PurgeMembers(c, s.q, s.now);
    forall t | t in dead ensures t in s.accepted {
      assert t in s.popped + s.q;
    }
  }

  lemma FifoTurn(c: Config, s: State, th: Thread, turn: Turn, w: Thread, pc: Pc, s': State)
    requires Fifo(s) && Orderly(c, s, th, turn) && th in s.pcs && s.pcs[th] != Done
    requires turn.out == Enqueued ==> pc == Done
    requires s' == AfterTurn(s, th, turn, w, pc).(armed := s'.armed, fill := s'.fill)
    ensures Fifo(s')
  {
    if turn.out == Enqueued {
      assert Elems(turn.dead) == {};
      FifoEnqueue(s, s', th.task);
    } else {
      FifoRemove(c, s, th, turn, s');
    }
  }

  lemma TurnsOrderly(c: Config, s: State, t: Task, i: nat)
    ensures Orderly(c, s, Submitter(t), SubmitTurn(c, s.q, s.closed, t, s.now))
    ensures Orderly(c, s, Submitter(t), WaitTurn(c, s.q, s.closed, t in s.timedOut, t, s.now))
    ensures Orderly(c, s, Worker(i), PopTurn(c, s.q, s.closed, s.now))
    ensures forall th :: Orderly(c, s, th, PurgeTurn(c, s.q, s.now))
  {
  }

  /** A step outside the critical sections. */
  lemma FifoStill(s: State, s': State)
    requires Fifo(s) && s'.q == s.q && s'.popped == s.popped && s'.accepted == s.accepted && s'.purged == s.purged
    requires forall t :: At(s, Submitter(t), Done) ==> At(s', Submitter(t), Done)
    ensures Fifo(s')
  {
  }

  lemma FifoNext(c: Config, s: State, a: Action)
    requires c.Valid() && Enabled(c, s, a) && Threads(c, s) && Fifo(s)
    ensures Fifo(Next(c, s, a))
  {
    if Section(a) {
      FifoSection(c, s, a);
    } else {
      FifoStill(s, Next(c, s, a));
    }
  }

  lemma FifoSection(c: Config, s: State, a: Action)
    requires c.Valid() && Enabled(c, s, a) && Threads(c, s) && Fifo(s) && Section(a)
    ensures Fifo(Next(c, s, a))
  {
    var s' := Next(c, s, a);
    match a
    case Submit(t, w) =>
      TurnsOrderly(c, s, t, 0);
      FifoTurn(c, s, Submitter(t), SubmitTurn(c, s.q, s.closed, t, s.now), w, s'.pcs[Submitter(t)], s');
    case Rewait(t, w) =>
      TurnsOrderly(c, s, t, 0);
      FifoTurn(c, s, Submitter(t), WaitTurn(c, s.q, s.closed, t in s.timedOut, t, s.now), w,
               s'.pcs[Submitter(t)], s');
    case Gather(th) =>
      TurnsOrderly(c, s, Task(0, 0, 0), 0);
      FifoTurn(c, s, th, PurgeTurn(c, s.q, s.now), th, s'.pcs[th], s');
    case Pop(i) =>
      TurnsOrderly(c, s, Task(0, 0, 0), i);
      FifoTurn(c, s, Worker(i), PopTurn(c, s.q, s.closed, s.now), Worker(i), s'.pcs[Worker(i)], s');
  }

  // ---- Honest reasons ----

  /** No time is left for the task, or too little to start. */
  predicate Over(c: Config, t: Task, at: int) {
    Spent(c, t, at) || Left(c, t, at) <= 0
  }

  /** What reasons rest on: whether and when the pool was closed, and the fill each task met. */
  datatype Facts = Facts(closed: bool, closedAt: int, fill: map<Task, int>)

  function FactsOf(s: State): Facts {
    Facts(s.closed, s.closedAt, s.fill)
  }

  /**
   Why the handler may be told a reason decided at the instant `at`: the task was
   out of time or the pool closed by then; it had its budget; or it met a full
   queue in the drop mode.
   */
  predicate Just(c: Config, f: Facts, t: Task, r: Reason, at: int) {
    match r
    case Deadline => Over(c, t, at) || (f.closed && f.closedAt <= at)
    case Served => !Spent(c, t, at)
    case Limit => !c.waits && t in f.fill && f.fill[t] == 100
  }

  /** Facts stay: a pool closes once, and a fill is noted once. */
  predicate Grows(f: Facts, f': Facts) {
    && (f.closed ==> f'.closed && f'.closedAt == f.closedAt)
    && (forall t :: t in f.fill ==> t in f'.fill && f'.fill[t] == f.fill[t])
  }

  predicate AllJust(c: Config, f: Facts, pc: Pc) {
    pc.Reply? ==> forall t :: t in pc.tasks ==> Just(c, f, t, pc.reason, pc.at)
  }

  ghost predicate Honest(c: Config, s: State) {
    && (forall a :: a in s.answers ==> Just(c, FactsOf(s), a.task, a.reason, a.at))
    && (forall th :: th in s.pcs ==> AllJust(c, FactsOf(s), s.pcs[th]))
    && (forall t :: t in s.timedOut ==> Left(c, t, s.now) <= 0)
    && (s.closed ==> s.closedAt <= s.now)
  }

  lemma JustGrows(c: Config, f: Facts, f': Facts, pc: Pc)
    requires Grows(f, f') && AllJust(c, f, pc)
    ensures AllJust(c, f', pc)
  {
  }

  /** One thread moves, with a true reason if it carries one; the facts may grow. */
  lemma HonestMove(c: Config, s: State, s': State, th: Thread)
    requires Honest(c, s) && th in s'.pcs && s'.pcs == s.pcs[th := s'.pcs[th]]
    requires Grows(FactsOf(s), FactsOf(s')) && AllJust(c, FactsOf(s'), s'.pcs[th])
    requires s'.answers == s.answers && s'.timedOut == s.timedOut && s'.now == s.now && s'.closedAt == s.closedAt
    requires s'.closed == s.closed
    ensures Honest(c, s')
  {
    forall x | x in s'.pcs ensures AllJust(c, FactsOf(s'), s'.pcs[x]) {
      if x != th { JustGrows(c, FactsOf(s), FactsOf(s'), s.pcs[x]); }
    }
  }

  /** The fill a submitter notes in its critical section. */
  function FillAfter(c: Config, s: State, t: Task): map<Task, int>
    requires c.Valid()
  {
    if s.closed then s.fill else s.fill[t := Fill(c, |s.q|)]
  }

  lemma SubmitJust(c: Config, s: State, t: Task)
    requires c.Valid() && (s.closed ==> s.closedAt <= s.now)
    ensures AllJust(c, Facts(s.closed, s.closedAt, FillAfter(c, s, t)),
                    PcAfter(Submitter(t), SubmitTurn(c, s.q, s.closed, t, s.now), s.now))
  {
    WaitJust(c, s, Facts(s.closed, s.closedAt, FillAfter(c, s, t)), t, false);
  }

  lemma WaitJust(c: Config, s: State, f: Facts, t: Task, timedOut: bool)
    requires timedOut ==> Left(c, t, s.now) <= 0
    requires f.closed == s.closed && (f.closed ==> f.closedAt <= s.now)
    ensures AllJust(c, f, PcAfter(Submitter(t), WaitTurn(c, s.q, s.closed, timedOut, t, s.now), s.now))
  {
    PurgeMembers(c, s.q, s.now);
  }

  lemma PopJust(c: Config, s: State, i: nat)
    ensures AllJust(c, FactsOf(s), PcAfter(Worker(i), PopTurn(c, s.q, s.closed, s.now), s.now))
  {
    PurgeMembers(c, s.q, s.now);
  }

  lemma HonestSubmit(c: Config, s: State, t: Task, w: Thread)
    requires c.Valid() && Enabled(c, s, Submit(t, w)) && Honest(c, s) && Timers(s)
    ensures Honest(c, Next(c, s, Submit(t, w)))
  {
    assert t !in s.fill;
    SubmitJust(c, s, t);
    HonestMove(c, s, Next(c, s, Submit(t, w)), Submitter(t));
  }

  lemma HonestRewait(c: Config, s: State, t: Task, w: Thread)
    requires c.Valid() && Enabled(c, s, Rewait(t, w)) && Honest(c, s)
    ensures Honest(c, Next(c, s, Rewait(t, w)))
  {
    WaitJust(c, s, FactsOf(s), t, t in s.timedOut);
    HonestMove(c, s, Next(c, s, Rewait(t, w)), Submitter(t));
  }

  lemma HonestGather(c: Config, s: State, th: Thread)
    requires c.Valid() && Enabled(c, s, Gather(th)) && Honest(c, s)
    ensures Honest(c, Next(c, s, Gather(th)))
  {
    PurgeMembers(c, s.q, s.now);
    HonestMove(c, s, Next(c, s, Gather(th)), th);
  }

  lemma HonestPop(c: Config, s: State, i: nat)
    requires c.Valid() && Enabled(c, s, Pop(i)) && Honest(c, s)
    ensures Honest(c, Next(c, s, Pop(i)))
  {
    PopJust(c, s, i);
    HonestMove(c, s, Next(c, s, Pop(i)), Worker(i));
  }

  lemma HonestTell(c: Config, s: State, th: Thread)
    requires c.Valid() && Enabled(c, s, Tell(th)) && Honest(c, s)
    ensures Honest(c, Next(c, s, Tell(th)))
  {
    var pc := s.pcs[th];
    assert AllJust(c, FactsOf(s), pc) && pc.tasks[0] in pc.tasks;
    assert forall t :: t in pc.tasks[1..] ==> t in pc.tasks;
  }

  lemma HonestNext(c: Config, s: State, a: Action)
    requires c.Valid() && Enabled(c, s, a) && Threads(c, s) && Timers(s) && Honest(c, s)
    ensures Honest(c, Next(c, s, a))
  {
    match a
    case Submit(t, w) => HonestSubmit(c, s, t, w);
    case Rewait(t, w) => HonestRewait(c, s, t, w);
    case Gather(th) => HonestGather(c, s, th);
    case Pop(i) => HonestPop(c, s, i);
    case Tell(th) => HonestTell(c, s, th);
    case Tick(_) =>
    case Fire(_) =>
    case CloseStop =>
    case CloseLock => HonestClose(c, s);
    case CloseReturn =>
    case _ => HonestStep(c, s, a);
  }

  lemma HonestClose(c: Config, s: State)
    requires c.Valid() && Enabled(c, s, CloseLock) && Honest(c, s)
    ensures Honest(c, Next(c, s, CloseLock))
  {
    var s' := Next(c, s, CloseLock);
    forall x | x in s'.pcs ensures AllJust(c, FactsOf(s'), s'.pcs[x]) {
      JustGrows(c, FactsOf(s), FactsOf(s'), s.pcs[x]);
    }
  }

  /** The steps of one thread outside its critical sections. */
  lemma HonestStep(c: Config, s: State, a: Action)
    requires c.Valid() && Enabled(c, s, a) && Threads(c, s) && Honest(c, s)
    requires a.Arrive? || a.Check? || a.Budget? || a.Count? || a.Proceed? || a.SweepExit?
    ensures Honest(c, Next(c, s, a))
  {
    var s' := Next(c, s, a);
    match a
    case Arrive(t) => HonestMove(c, s, s', Submitter(t));
    case Check(t) => HonestMove(c, s, s', Submitter(t));
    case Budget(i) => HonestMove(c, s, s', Worker(i));
    case Count(th) =>
      assert AllJust(c, FactsOf(s), s.pcs[th]);
      HonestMove(c, s, s', th);
    case Proceed(th) =>
      assert GoodPc(th, s.pcs[th]);
      HonestMove(c, s, s', th);
    case SweepExit => HonestMove(c, s, s', Sweeper);
  }
}
