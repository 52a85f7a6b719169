/** What holds in every state the pool can reach, by any interleaving of its threads. */
module PoolTheorems {
  import opened Sequences
  import opened Queue
  import opened PoolProtocol
  import opened PoolLedger
  import opened PoolOrder

  ghost predicate Inv(c: Config, s: State) {
    Threads(c, s) && Timers(s) && Wakeful(c, s) && Ledger(s) && Fifo(s) && Honest(c, s)
  }

  lemma InvInit(c: Config, now: int)
    requires c.Valid()
    ensures Inv(c, Init(c, now))
  {
    InitThreads(c, now);
    var s := Init(c, now);
    assert CountedAs(s, Deadline) == {} && CountedAs(s, Limit) == {};
    assert forall t :: QueueAgrees(s, t);
    assert forall th, t :: th in s.pcs ==> HandAgrees(s, th, t);
  }

  lemma InvNext(c: Config, s: State, a: Action)
    requires c.Valid() && Enabled(c, s, a) && Inv(c, s)
    ensures Inv(c, Next(c, s, a))
  {
    ThreadsNext(c, s, a);
    TimersNext(c, s, a);
    WakefulNext(c, s, a);
    LedgerNext(c, s, a);
    FifoNext(c, s, a);
    HonestNext(c, s, a);
  }

  lemma {:induction false} InvAfter(c: Config, s: State, run: seq<Action>)
    requires c.Valid() && Inv(c, s) && Runs(c, s, run)
    ensures Inv(c, After(c, s, run))
    decreases |run|
  {
    if run != [] {
      InvNext(c, s, run[0]);
      InvAfter(c, Next(c, s, run[0]), run[1..]);
    }
  }

  lemma Reached(c: Config, now: int, run: seq<Action>)
    requires c.Valid() && Runs(c, Init(c, now), run)
    ensures Inv(c, After(c, Init(c, now), run))
  {
    InvInit(c, now);
    InvAfter(c, Init(c, now), run);
  }

  // ---- No lost wake-up ----

  /**
   No lost wake-up. With a worker in the pool, a task in the queue means a worker
   that neither sleeps nor has left; while any worker sleeps there are as many
   workers awake at the door of pop as there are queued tasks; and a submitter
   sleeps only before a full open queue with its timer still to come.
   */
  lemma NoLostWakeUp(c: Config, now: int, run: seq<Action>)
    requires c.Valid() && c.workers >= 1 && Runs(c, Init(c, now), run)
    ensures var s := After(c, Init(c, now), run);
      && |s.q| <= c.depth
      && (s.q != [] ==> exists i :: 0 <= i < c.workers && Worker(i) in s.pcs && Worker(i) !in s.parked
                                    && !Leaving(s.pcs[Worker(i)]))
      && (forall i :: Worker(i) in s.parked ==> |s.q| <= |Awake(c, s)|)
      && (forall t :: Submitter(t) in s.parked ==> |s.q| == c.depth && !s.closed && t !in s.timedOut)
  {
    Reached(c, now, run);
    var s := After(c, Init(c, now), run);
    if s.q != [] {
      assert Worker(0) in s.pcs;
      if Worker(0) in s.parked {
        assert Awake(c, s) != {};
        var i :| i in Awake(c, s);
        assert Worker(i) in s.pcs && Worker(i) !in s.parked && !Leaving(s.pcs[Worker(i)]);
      } else {
        assert !Leaving(s.pcs[Worker(0)]);
      }
    }
  }

  // ---- Exactly once ----

  datatype Spot = InQueue | InHands(th: Thread) | Answered

  predicate Found(s: State, t: Task, p: Spot) {
    match p
    case InQueue => t in s.q
    case InHands(th) => th in s.pcs && Hand(th, s.pcs[th], t) > 0
    case Answered => t in Tasks(s.answers)
  }

  /** The one spot the ledger gives for a task. */
  function SpotOf(p: Place): Spot {
    match p
    case Queued => InQueue
    case With(th) => InHands(th)
    case Marked(th, _) => InHands(th)
    case Told(_) => Answered
  }

  lemma FoundWhere(c: Config, s: State, t: Task, p: Spot)
    requires Inv(c, s) && t in s.place
    ensures Found(s, t, p) <==> p == SpotOf(s.place[t])
  {
    assert QueueAgrees(s, t);
    NumIn(s.q, t);
    if p.InHands? && p.th in s.pcs {
      assert HandAgrees(s, p.th, t);
    }
  }

  /**
   Exactly once. A submitted task is in one spot and no other, once: in the
   queue, in the hands of one thread, or answered; nothing else is anywhere.
   */
  lemma ExactlyOnce(c: Config, now: int, run: seq<Action>, t: Task)
    requires c.Valid() && Runs(c, Init(c, now), run)
    ensures var s := After(c, Init(c, now), run);
      && (Submitter(t) in s.pcs <==> exists p :: Found(s, t, p))
      && (forall p, p' :: Found(s, t, p) && Found(s, t, p') ==> p == p')
      && Num(s.q, t) <= 1 && (forall th :: th in s.pcs ==> Hand(th, s.pcs[th], t) <= 1)
      && (forall i, j :: 0 <= i < j < |s.answers| ==> s.answers[i].task != s.answers[j].task)
  {
    Reached(c, now, run);
    var s := After(c, Init(c, now), run);
    assert QueueAgrees(s, t);
    forall th | th in s.pcs ensures Hand(th, s.pcs[th], t) <= 1 {
      assert HandAgrees(s, th, t);
    }
    if t in s.place {
      forall p ensures Found(s, t, p) <==> p == SpotOf(s.place[t]) {
        FoundWhere(c, s, t, p);
      }
      assert Found(s, t, SpotOf(s.place[t]));
    } else {
      NumIn(s.q, t);
      forall p ensures !Found(s, t, p) {
        if p.InHands? && p.th in s.pcs {
          assert HandAgrees(s, p.th, t);
        }
      }
    }
  }

  lemma HolderHolds(s: State, t: Task)
    requires Hands(s) && t in s.place && (s.place[t].With? || s.place[t].Marked?)
    ensures s.place[t].who in s.pcs && Hand(s.place[t].who, s.pcs[s.place[t].who], t) == 1
  {
    assert HandAgrees(s, s.place[t].who, t);
  }

  /**
   When Close has returned, the queue is empty and neither a worker nor the
   sweeper holds a task; once the submitters are through as well, every task
   submitted has its answer.
   */
  lemma CloseDrains(c: Config, now: int, run: seq<Action>)
    requires c.Valid() && c.workers >= 1 && Runs(c, Init(c, now), run)
    requires After(c, Init(c, now), run).returned
    ensures var s := After(c, Init(c, now), run);
      && s.q == []
      && (forall th, t :: th in s.pcs && !th.Submitter? ==> Hand(th, s.pcs[th], t) == 0)
      && ((forall t :: Submitter(t) in s.pcs ==> s.pcs[Submitter(t)] == Done) ==>
            forall t :: Submitter(t) in s.pcs <==> t in Tasks(s.answers))
  {
    Reached(c, now, run);
    var s := After(c, Init(c, now), run);
    assert Worker(0) in s.pcs && Leaving(s.pcs[Worker(0)]);
    if forall t :: Submitter(t) in s.pcs ==> s.pcs[Submitter(t)] == Done {
      AllDone(s);
    }
  }

  /** With nothing queued and nobody holding anything, what was submitted is answered. */
  lemma AllDone(s: State)
    requires Ledger(s) && s.q == [] && forall th :: th in s.pcs ==> s.pcs[th] == Done || s.pcs[th] == Exited
    ensures forall t :: Submitter(t) in s.pcs <==> t in Tasks(s.answers)
  {
    forall t | t in s.place ensures t in Tasks(s.answers) {
      assert QueueAgrees(s, t);
      if s.place[t].With? || s.place[t].Marked? {
        HolderHolds(s, t);
        assert false;
      }
    }
  }

  // ---- Order, reasons, counters ----

  /** Tasks reach the workers in the order they were accepted, the expired ones taken out. */
  lemma InOrder(c: Config, now: int, run: seq<Action>)
    requires c.Valid() && Runs(c, Init(c, now), run)
    ensures var s := After(c, Init(c, now), run);
      s.popped + s.q == Without(s.accepted, s.purged) && Distinct(s.accepted) && |s.q| <= c.depth
  {
    Reached(c, now, run);
  }

  /**
   A handler is told "deadline" only for a task out of time, or out of luck because
   the pool was closed by then; "limit" only for one that met a full queue in the
   drop mode; and it is run only with the budget it needs.
   */
  lemma ReasonsHold(c: Config, now: int, run: seq<Action>, a: Answer)
    requires c.Valid() && Runs(c, Init(c, now), run) && a in After(c, Init(c, now), run).answers
    ensures var s := After(c, Init(c, now), run);
      match a.reason
      case Deadline => Spent(c, a.task, a.at) || Left(c, a.task, a.at) <= 0 || (s.closed && s.closedAt <= a.at)
      case Served => !Spent(c, a.task, a.at)
      case Limit => !c.waits && a.task in s.fill && s.fill[a.task] == 100
  {
    Reached(c, now, run);
  }

  function Calls(answers: seq<Answer>, r: Reason): nat {
    if answers == [] then 0 else
      Calls(answers[..|answers| - 1], r) + if answers[|answers| - 1].reason == r then 1 else 0
  }

  ghost function ToldAs(answers: seq<Answer>, r: Reason): set<Task> {
    set a | a in answers && a.reason == r :: a.task
  }

  predicate DistinctTasks(answers: seq<Answer>) {
    forall i, j :: 0 <= i < j < |answers| ==> answers[i].task != answers[j].task
  }

  lemma LastIsNew(answers: seq<Answer>)
    requires answers != [] && DistinctTasks(answers)
    ensures var n := |answers| - 1;
      DistinctTasks(answers[..n]) && forall a :: a in answers[..n] ==> a.task != answers[n].task
  {
  }

  lemma {:induction false} CallsAreTasks(answers: seq<Answer>, r: Reason)
    requires DistinctTasks(answers)
    ensures Calls(answers, r) == |ToldAs(answers, r)|
  {
    if answers == [] {
      assert ToldAs(answers, r) == {};
    } else {
      var rest, last := answers[..|answers| - 1], answers[|answers| - 1];
      LastIsNew(answers);
      CallsAreTasks(rest, r);
      ToldStep(rest, last, r);
      assert answers == rest + [last];
    }
  }

  lemma ToldStep(rest: seq<Answer>, last: Answer, r: Reason)
    requires forall a :: a in rest ==> a.task != last.task
    ensures |ToldAs(rest + [last], r)| == |ToldAs(rest, r)| + if last.reason == r then 1 else 0
  {
    var told, before := ToldAs(rest + [last], r), ToldAs(rest, r);
    forall t ensures t in told <==> t in before || (t == last.task && last.reason == r) {
      if t in told {
        var a :| a in rest + [last] && a.reason == r && a.task == t;
      }
      if t in before {
        var a :| a in rest && a.reason == r && a.task == t;
        assert a in rest + [last];
      }
      assert last in rest + [last];
    }
    OneMore(before, told, last.task, last.reason == r);
  }

  /** No thread is between its counter and its call of the handler. */
  ghost predicate Quiet(s: State) {
    forall th :: Replying(s, th) ==> !s.pcs[th].marked
  }

  lemma ToldAsCounted(c: Config, s: State, r: Reason)
    requires Inv(c, s) && Quiet(s)
    ensures CountedAs(s, r) == ToldAs(s.answers, r)
  {
    forall t | t in CountedAs(s, r) ensures t in ToldAs(s.answers, r) {
      assert t in Tasks(s.answers);
      var a :| a in s.answers && a.task == t;
    }
  }

  /**
   With no thread between its counter and its call of the handler, Expired and
   Shed are the numbers of handler calls with those reasons.
   */
  lemma Accounting(c: Config, now: int, run: seq<Action>)
    requires c.Valid() && Runs(c, Init(c, now), run)
    requires Quiet(After(c, Init(c, now), run))
    ensures var s := After(c, Init(c, now), run);
      s.expired == Calls(s.answers, Deadline) && s.shed == Calls(s.answers, Limit)
  {
    Reached(c, now, run);
    var s := After(c, Init(c, now), run);
    ToldAsCounted(c, s, Deadline);
    ToldAsCounted(c, s, Limit);
    CallsAreTasks(s.answers, Deadline);
    CallsAreTasks(s.answers, Limit);
  }

  /** The fill noted with a task is 100 exactly when it met a full queue. */
  lemma FillSampled(c: Config, now: int, run: seq<Action>, t: Task, w: Thread)
    requires c.Valid() && Runs(c, Init(c, now), run)
    requires Enabled(c, After(c, Init(c, now), run), Submit(t, w)) && !After(c, Init(c, now), run).closed
    ensures var s := After(c, Init(c, now), run);
      var s' := Next(c, s, Submit(t, w));
      t in s'.fill && 0 <= s'.fill[t] <= 100 && (s'.fill[t] == 100 <==> |s.q| == c.depth)
  {
    Reached(c, now, run);
    FillIsFull(c, |After(c, Init(c, now), run).q|);
  }

  // ---- Why a worker is needed ----

  lemma {:induction false} RunsOn(c: Config, s: State, a: seq<Action>, b: seq<Action>)
    requires c.Valid() && Runs(c, s, a) && Runs(c, After(c, s, a), b)
    ensures Runs(c, s, a + b) && After(c, s, a + b) == After(c, After(c, s, a), b)
    decreases |a|
  {
    if a == [] {
      assert a + b == b;
    } else {
      assert (a + b)[1..] == a[1..] + b;
      RunsOn(c, Next(c, s, a[0]), a[1..], b);
    }
  }

  lemma RunOne(c: Config, s: State, a: Action)
    requires c.Valid() && Enabled(c, s, a)
    ensures Runs(c, s, [a]) && After(c, s, [a]) == Next(c, s, a)
  {
  }

  /** A run one action longer. */
  lemma Extend(c: Config, s: State, run: seq<Action>, a: Action)
    requires c.Valid() && Runs(c, s, run) && Enabled(c, After(c, s, run), a)
    ensures Runs(c, s, run + [a]) && After(c, s, run + [a]) == Next(c, After(c, s, run), a)
  {
    RunOne(c, After(c, s, run), a);
    RunsOn(c, s, run, [a]);
  }

  function AcceptRun(t: Task): seq<Action> {
    [] + [Arrive(t)] + [Check(t)] + [Gather(Submitter(t))] + [Proceed(Submitter(t))] + [Submit(t, Sweeper)]
  }

  /** The submitter alone with the sweeper, about to enter. */
  ghost predicate Alone(s: State, t: Task, now: int) {
    && s.q == [] && !s.stopped && !s.closed && s.parked == {} && s.now == now
    && s.pcs == map[Sweeper := Sweeping, Submitter(t) := Enter]
  }

  lemma ArriveOne(c: Config, now: int, t: Task)
    requires c.Valid() && c.workers == 0 && t.enqueued == now && !Spent(c, t, now)
    ensures Runs(c, Init(c, now), [] + [Arrive(t)] + [Check(t)])
    ensures var s := After(c, Init(c, now), [] + [Arrive(t)] + [Check(t)]);
      Alone(s.(pcs := map[Sweeper := Sweeping, Submitter(t) := Enter]), t, now)
      && s.pcs == map[Sweeper := Sweeping, Submitter(t) := Collect]
  {
    Extend(c, Init(c, now), [], Arrive(t));
    Extend(c, Init(c, now), [] + [Arrive(t)], Check(t));
  }

  lemma GatherOne(c: Config, now: int, t: Task)
    requires c.Valid() && c.workers == 0 && t.enqueued == now && !Spent(c, t, now)
    ensures var run := [] + [Arrive(t)] + [Check(t)] + [Gather(Submitter(t))] + [Proceed(Submitter(t))];
      Runs(c, Init(c, now), run) && Alone(After(c, Init(c, now), run), t, now)
  {
    ArriveOne(c, now, t);
    Extend(c, Init(c, now), [] + [Arrive(t)] + [Check(t)], Gather(Submitter(t)));
    Extend(c, Init(c, now), [] + [Arrive(t)] + [Check(t)] + [Gather(Submitter(t))], Proceed(Submitter(t)));
  }

  lemma AcceptOne(c: Config, now: int, t: Task)
    requires c.Valid() && c.workers == 0 && t.enqueued == now && !Spent(c, t, now)
    ensures Runs(c, Init(c, now), AcceptRun(t))
    ensures var s := After(c, Init(c, now), AcceptRun(t));
      s.q == [t] && !s.stopped && !s.closed && s.pcs == map[Sweeper := Sweeping, Submitter(t) := Done]
  {
    GatherOne(c, now, t);
    Extend(c, Init(c, now), [] + [Arrive(t)] + [Check(t)] + [Gather(Submitter(t))] + [Proceed(Submitter(t))],
           Submit(t, Sweeper));
  }

  function CloseRun(): seq<Action> {
    [] + [CloseStop] + [SweepExit] + [CloseLock] + [CloseReturn]
  }

  lemma CloseAll(c: Config, s: State, t: Task)
    requires c.Valid() && !s.stopped && !s.closed && s.pcs == map[Sweeper := Sweeping, Submitter(t) := Done]
    ensures Runs(c, s, CloseRun())
    ensures After(c, s, CloseRun()).returned && After(c, s, CloseRun()).q == s.q
  {
    Extend(c, s, [], CloseStop);
    Extend(c, s, [] + [CloseStop], SweepExit);
    Extend(c, s, [] + [CloseStop] + [SweepExit], CloseLock);
    Extend(c, s, [] + [CloseStop] + [SweepExit] + [CloseLock], CloseReturn);
  }

  /** A pool of no workers breaks both promises: Close returns over a queued task nobody will take. */
  lemma NoWorkersStrand(c: Config, now: int, t: Task)
    requires c.Valid() && c.workers == 0 && t.enqueued == now && !Spent(c, t, now)
    ensures Runs(c, Init(c, now), AcceptRun(t) + CloseRun())
    ensures var s := After(c, Init(c, now), AcceptRun(t) + CloseRun()); s.returned && s.q == [t]
  {
    AcceptOne(c, now, t);
    CloseAll(c, After(c, Init(c, now), AcceptRun(t)), t);
    RunsOn(c, Init(c, now), AcceptRun(t), CloseRun());
  }
}
