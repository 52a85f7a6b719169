/**
 Every interleaving of the pool of internal/queue/queue.go: any number of
 submitters, the workers, the sweeper, the wait timers and Close. A step is one
 critical section, one reading of the clock, one counter update or one call of
 the handler; a critical section sees a single instant.
 */
module PoolProtocol {
  import opened Queue

  datatype Thread = Submitter(task: Task) | Worker(i: nat) | Sweeper

  datatype Reason = Served | Deadline | Limit

  /**
   Where a thread is. `Reply` is replyDead, expire, shedLimit or the call of the
   handler in work: the tasks are told one by one, each counted first
   (`marked`), and `next` follows. `at` is the instant the reason was decided.
   */
  datatype Pc =
    | Start | Collect | Enter | Waiting | Done      // Submit
    | Popping | Hold(task: Task)                    // work
    | Sweeping                                      // sweep
    | Exited
    | Reply(tasks: seq<Task>, marked: bool, reason: Reason, at: int, next: Pc)

  datatype Answer = Answer(task: Task, reason: Reason, at: int)

  /** The ledger: where a submitted task is. */
  datatype Place = Queued | With(who: Thread) | Marked(who: Thread, reason: Reason) | Told(reason: Reason)

  datatype State = State(
    q: seq<Task>, closed: bool, stopped: bool, returned: bool, now: int,
    pcs: map<Thread, Pc>, parked: set<Thread>, armed: set<Task>, timedOut: set<Task>,
    shed: nat, expired: nat, fill: map<Task, int>,
    // history
    accepted: seq<Task>, popped: seq<Task>, purged: set<Task>, answers: seq<Answer>,
    place: map<Task, Place>, closedAt: int)

  datatype Action =
    | Tick(to: int)
    | Arrive(task: Task)
    | Check(task: Task)
    | Gather(who: Thread)
    | Submit(task: Task, woken: Thread)
    | Rewait(task: Task, woken: Thread)
    | Pop(i: nat)
    | Budget(i: nat)
    | Count(who: Thread)
    | Tell(who: Thread)
    | Proceed(who: Thread)
    | Fire(task: Task)
    | SweepExit
    | CloseStop
    | CloseLock
    | CloseReturn

  function Init(c: Config, now: int): State {
    State([], false, false, false, now,
          (map i | 0 <= i < c.workers :: Worker(i) := Popping) + map[Sweeper := Sweeping],
          {}, {}, {}, 0, 0, map[], [], [], {}, [], map[], now)
  }

  predicate At(s: State, th: Thread, pc: Pc) {
    th in s.pcs && s.pcs[th] == pc
  }

  predicate Replying(s: State, th: Thread) {
    th in s.pcs && s.pcs[th].Reply?
  }

  /** Signal wakes one of the parked threads when there is one: any of them. */
  predicate MayWake(s: State, woken: Thread) {
    s.parked == {} || woken in s.parked
  }

  /** The critical sections of Submit, pop and sweep. */
  predicate Section(a: Action) {
    a.Submit? || a.Rewait? || a.Gather? || a.Pop?
  }

  predicate Enabled(c: Config, s: State, a: Action) {
    match a
    case Tick(to) => s.now <= to
    case Arrive(t) => Submitter(t) !in s.pcs && t.enqueued == s.now
    case Check(t) => At(s, Submitter(t), Start)
    case Gather(th) => At(s, th, Collect) || At(s, th, Sweeping)
    case Submit(t, w) => At(s, Submitter(t), Enter) && MayWake(s, w)
    case Rewait(t, w) => At(s, Submitter(t), Waiting) && Submitter(t) !in s.parked && MayWake(s, w)
    case Pop(i) => At(s, Worker(i), Popping) && Worker(i) !in s.parked
    case Budget(i) => Worker(i) in s.pcs && s.pcs[Worker(i)].Hold?
    case Count(th) => Replying(s, th) && s.pcs[th].tasks != [] && !s.pcs[th].marked
    case Tell(th) => Replying(s, th) && s.pcs[th].tasks != [] && s.pcs[th].marked
    case Proceed(th) => Replying(s, th) && s.pcs[th].tasks == []
    case Fire(t) => t in s.armed && Left(c, t, s.now) <= 0
    case SweepExit => At(s, Sweeper, Sweeping) && s.stopped
    case CloseStop => !s.stopped
    case CloseLock => s.stopped && !s.closed
    case CloseReturn => s.closed && forall th :: th in s.pcs && !th.Submitter? ==> s.pcs[th] == Exited
  }

  function Woken(parked: set<Thread>, wake: Wake, w: Thread): set<Thread> {
    match wake
    case Nobody => parked
    case One => parked - {w}
    case All => {}
  }

  /** Where the thread goes when its critical section is over. */
  function PcAfter(th: Thread, turn: Turn, now: int): Pc {
    var home := match th { case Worker(_) => Popping case Sweeper => Sweeping case Submitter(_) => Waiting };
    match turn.out
    case Took(t) => Reply(turn.dead, false, Deadline, now, Hold(t))
    case Leave => Reply(turn.dead, false, Deadline, now, Exited)
    case Again => Reply(turn.dead, false, Deadline, now, home)
    case Park => home
    case Enqueued => Done
    case Expire => if th.Submitter? then Reply([th.task], false, Deadline, now, Done) else home
    case Shed => if th.Submitter? then Reply([th.task], false, Limit, now, Done) else home
  }

  function PlaceAfter(place: map<Task, Place>, th: Thread, turn: Turn): map<Task, Place> {
    map t | t in place ::
      if t in turn.dead || turn.out == Took(t) then With(th)
      else if turn.out == Enqueued && th == Submitter(t) then Queued
      else place[t]
  }

  function AfterTurn(s: State, th: Thread, turn: Turn, w: Thread, pc: Pc): State {
    s.(q := turn.q,
       pcs := s.pcs[th := pc],
       parked := Woken(s.parked, turn.wake, w) + if turn.out == Park then {th} else {},
       accepted := if turn.out == Enqueued && th.Submitter? then s.accepted + [th.task] else s.accepted,
       popped := if turn.out.Took? then s.popped + [turn.out.task] else s.popped,
       purged := s.purged + Elems(turn.dead),
       place := PlaceAfter(s.place, th, turn))
  }

  function Next(c: Config, s: State, a: Action): State
    requires c.Valid() && Enabled(c, s, a)
  {
    match a
    case Tick(to) => s.(now := to)
    case Arrive(t) =>
      s.(pcs := s.pcs[Submitter(t) := Start], place := s.place[t := With(Submitter(t))])
    case Check(t) =>
      s.(pcs := s.pcs[Submitter(t) :=
        if Spent(c, t, s.now) then Reply([t], false, Deadline, s.now, Done) else Collect])
    case Gather(th) =>
      var turn := PurgeTurn(c, s.q, s.now);
      AfterTurn(s, th, turn, th, Reply(turn.dead, false, Deadline, s.now, if th.Submitter? then Enter else Sweeping))
    case Submit(t, w) =>
      var turn := SubmitTurn(c, s.q, s.closed, t, s.now);
      AfterTurn(s, Submitter(t), turn, w, PcAfter(Submitter(t), turn, s.now)).(
        armed := if Arms(c, s.q, s.closed, t, s.now) then s.armed + {t} else s.armed,
        fill := if s.closed then s.fill else s.fill[t := Fill(c, |s.q|)])
    case Rewait(t, w) =>
      var turn := WaitTurn(c, s.q, s.closed, t in s.timedOut, t, s.now);
      AfterTurn(s, Submitter(t), turn, w, PcAfter(Submitter(t), turn, s.now))
    case Pop(i) =>
      var turn := PopTurn(c, s.q, s.closed, s.now);
      AfterTurn(s, Worker(i), turn, Worker(i), PcAfter(Worker(i), turn, s.now))
    case Budget(i) =>
      var t := s.pcs[Worker(i)].task;
      var late := Spent(c, t, s.now);
      var reason := if late then Deadline else Served;
      s.(pcs := s.pcs[Worker(i) := Reply([t], true, reason, s.now, Popping)],
         expired := if late then s.expired + 1 else s.expired,
         place := s.place[t := Marked(Worker(i), reason)])
    case Count(th) =>
      var pc := s.pcs[th];
      s.(pcs := s.pcs[th := pc.(marked := true)],
         expired := if pc.reason == Deadline then s.expired + 1 else s.expired,
         shed := if pc.reason == Limit then s.shed + 1 else s.shed,
         place := s.place[pc.tasks[0] := Marked(th, pc.reason)])
    case Tell(th) =>
      var pc := s.pcs[th];
      s.(pcs := s.pcs[th := pc.(tasks := pc.tasks[1..], marked := false)],
         answers := s.answers + [Answer(pc.tasks[0], pc.reason, pc.at)],
         place := s.place[pc.tasks[0] := Told(pc.reason)])
    case Proceed(th) => s.(pcs := s.pcs[th := s.pcs[th].next])
    case Fire(t) => s.(armed := s.armed - {t}, timedOut := s.timedOut + {t}, parked := {})
    case SweepExit => s.(pcs := s.pcs[Sweeper := Exited])
    case CloseStop => s.(stopped := true)
    case CloseLock => s.(closed := true, parked := {}, closedAt := s.now)
    case CloseReturn => s.(returned := true)
  }

  /** A run: the states reached by a list of actions, each enabled where it is taken. */
  predicate Runs(c: Config, s: State, run: seq<Action>)
    requires c.Valid()
    decreases |run|
  {
    run == [] || (Enabled(c, s, run[0]) && Runs(c, Next(c, s, run[0]), run[1..]))
  }

  function After(c: Config, s: State, run: seq<Action>): State
    requires c.Valid() && Runs(c, s, run)
    decreases |run|
  {
    if run == [] then s else After(c, Next(c, s, run[0]), run[1..])
  }

  // ---- Invariants ----

  predicate GoodPc(th: Thread, pc: Pc) {
    match th
    case Submitter(_) => pc.Start? || pc.Collect? || pc.Enter? || pc.Waiting? || pc.Done?
      || (pc.Reply? && (pc.next.Enter? || pc.next.Waiting? || pc.next.Done?))
    case Worker(_) => pc.Popping? || pc.Hold? || pc.Exited?
      || (pc.Reply? && (pc.next.Popping? || pc.next.Hold? || pc.next.Exited?))
    case Sweeper => pc.Sweeping? || pc.Exited? || (pc.Reply? && pc.next.Sweeping?)
  }

  ghost predicate Threads(c: Config, s: State) {
    && (forall i: nat :: Worker(i) in s.pcs <==> i < c.workers)
    && Sweeper in s.pcs
    && (forall th :: th in s.pcs ==> GoodPc(th, s.pcs[th]))
  }

  predicate Leaving(pc: Pc) {
    pc.Exited? || (pc.Reply? && pc.next.Exited?)
  }

  /** Before the wait loop of Submit. */
  predicate Early(pc: Pc) {
    pc.Start? || pc.Collect? || pc.Enter? || (pc.Reply? && pc.next.Enter?)
  }

  /** A fill is noted, and a timer armed or fired, only for a submitter that has been in its critical section. */
  ghost predicate Timers(s: State) {
    forall t :: t in s.armed || t in s.timedOut || t in s.fill ==>
      Submitter(t) in s.pcs && !Early(s.pcs[Submitter(t)])
  }

  /** Workers awake at the door of pop. */
  ghost function Awake(c: Config, s: State): set<nat> {
    set i | 0 <= i < c.workers && At(s, Worker(i), Popping) && Worker(i) !in s.parked
  }

  /**
   Wake-ups. A parked submitter has no reason to run; a worker parks only over an
   empty queue; and while some worker sleeps, every queued task has a worker of
   its own awake at the door of pop.
   */
  ghost predicate Wakeful(c: Config, s: State) {
    && |s.q| <= c.depth
    && (forall th :: th in s.parked ==> th in s.pcs && !s.closed)
    && (forall t :: Submitter(t) in s.parked ==>
          s.pcs[Submitter(t)] == Waiting && |s.q| == c.depth && t !in s.timedOut)
    && (forall i :: Worker(i) in s.parked ==> s.pcs[Worker(i)] == Popping && |s.q| <= |Awake(c, s)|)
    && Sweeper !in s.parked
    && (forall i :: Worker(i) in s.pcs && Leaving(s.pcs[Worker(i)]) ==> s.closed && s.q == [])
    && (s.returned ==> s.closed && forall th :: th in s.pcs && !th.Submitter? ==> s.pcs[th] == Exited)
  }

  // ---- Threads keep to their code ----

  lemma InitThreads(c: Config, now: int)
    requires c.Valid()
    ensures Threads(c, Init(c, now)) && Wakeful(c, Init(c, now))
  {
  }

  lemma ThreadsMove(c: Config, s: State, s': State, th: Thread)
    requires Threads(c, s) && th in s'.pcs && GoodPc(th, s'.pcs[th])
    requires s'.pcs == s.pcs[th := s'.pcs[th]] && (th in s.pcs || th.Submitter?)
    ensures Threads(c, s')
  {
  }

  lemma ThreadsNext(c: Config, s: State, a: Action)
    requires c.Valid() && Enabled(c, s, a) && Threads(c, s)
    ensures Threads(c, Next(c, s, a))
  {
    if Section(a) {
      ThreadsSection(c, s, a);
    } else {
      ThreadsStep(c, s, a);
    }
  }

  lemma ThreadsSection(c: Config, s: State, a: Action)
    requires c.Valid() && Enabled(c, s, a) && Threads(c, s) && Section(a)
    ensures Threads(c, Next(c, s, a))
  {
    var s' := Next(c, s, a);
    match a
    case Submit(t, _) => ThreadsMove(c, s, s', Submitter(t));
    case Rewait(t, _) => ThreadsMove(c, s, s', Submitter(t));
    case Gather(th) => ThreadsMove(c, s, s', th);
    case Pop(i) => ThreadsMove(c, s, s', Worker(i));
  }

  lemma ThreadsStep(c: Config, s: State, a: Action)
    requires c.Valid() && Enabled(c, s, a) && Threads(c, s) && !Section(a)
    ensures Threads(c, Next(c, s, a))
  {
    var s' := Next(c, s, a);
    match a
    case Arrive(t) => ThreadsMove(c, s, s', Submitter(t));
    case Check(t) => ThreadsMove(c, s, s', Submitter(t));
    case Budget(i) => ThreadsMove(c, s, s', Worker(i));
    case Count(th) => ThreadsMove(c, s, s', th);
    case Tell(th) => ThreadsMove(c, s, s', th);
    case Proceed(th) => ThreadsMove(c, s, s', th);
    case SweepExit => ThreadsMove(c, s, s', Sweeper);
    case _ => assert s'.pcs == s.pcs;
  }

  lemma SubsetCard(a: set<nat>, b: set<nat>)
    requires a <= b
    ensures |a| <= |b|
  {
    var d := b - a;
    assert b == a + d;
  }

  /** The thread that moves is no worker, or ends at the door of pop: nobody leaves the door. */
  lemma AwakeGrows(c: Config, s: State, s': State, th: Thread)
    requires Threads(c, s) && th in s.pcs && s'.pcs.Keys == s.pcs.Keys
    requires forall x :: x in s.pcs && x != th ==> s'.pcs[x] == s.pcs[x]
    requires s'.parked == s.parked && (s.pcs[th] != Popping || s'.pcs[th] == Popping)
    ensures |Awake(c, s)| <= |Awake(c, s')|
  {
    SubsetCard(Awake(c, s), Awake(c, s'));
  }

  /** A signal that reaches a parked worker adds it to those awake. */
  lemma AwakeSignalled(c: Config, s: State, s': State, i: nat)
    requires Threads(c, s) && Worker(i) in s.parked && At(s, Worker(i), Popping)
    requires s'.parked == s.parked - {Worker(i)}
    requires forall j: nat :: j < c.workers ==> Worker(j) in s'.pcs && s'.pcs[Worker(j)] == s.pcs[Worker(j)]
    ensures |Awake(c, s')| == |Awake(c, s)| + 1
  {
    forall j: nat ensures j in Awake(c, s') <==> j in Awake(c, s) || j == i {
      if j < c.workers { assert Worker(j) in s'.pcs; }
    }
    assert Awake(c, s') == Awake(c, s) + {i} && i !in Awake(c, s);
  }

  lemma WakefulEnqueue(c: Config, s: State, t: Task, w: Thread, s': State)
    requires c.Valid() && Threads(c, s) && Wakeful(c, s) && MayWake(s, w)
    requires Submitter(t) in s.pcs && Submitter(t) !in s.parked && |s.q| < c.depth && !s.closed
    requires s'.q == s.q + [t] && s'.pcs == s.pcs[Submitter(t) := Done] && s'.parked == s.parked - {w}
    requires s'.closed == s.closed && s'.timedOut == s.timedOut && s'.returned == s.returned
    ensures Wakeful(c, s')
  {
    if s.parked != {} {
      assert w.Worker?;
      AwakeSignalled(c, s, s', w.i);
    }
  }

  /** Anything that wakes everybody leaves only the queue bound and the exits to check. */
  lemma WakefulBroadcast(c: Config, s: State, s': State)
    requires Threads(c, s) && Wakeful(c, s)
    requires s'.parked == {} && |s'.q| <= |s.q|
    requires forall i :: Worker(i) in s'.pcs && Leaving(s'.pcs[Worker(i)]) ==>
               s'.closed && s'.q == []
    requires s'.returned ==> s'.closed && forall th :: th in s'.pcs && !th.Submitter? ==> s'.pcs[th] == Exited
    ensures Wakeful(c, s')
  {
  }

  /**
   What the four kinds of critical section have in common: Broadcast follows every
   removal, Signal follows every insertion, and a section that wakes nobody leaves
   the queue alone; a thread parks only when it has no reason to run.
   */
  ghost predicate Fair(c: Config, s: State, th: Thread, turn: Turn) {
    && (turn.wake == Nobody ==> turn.q == s.q)
    && (turn.wake == All ==> |turn.q| <= |s.q| && turn.out != Park)
    && (turn.wake == One <==> turn.out == Enqueued)
    && (turn.out == Enqueued ==> th.Submitter? && turn.q == s.q + [th.task] && |s.q| < c.depth && !s.closed)
    && (turn.out == Leave ==> s.closed && turn.q == [])
    && (turn.out == Park && th.Worker? ==> turn.q == [] && !s.closed)
    && (turn.out == Park && th.Submitter? ==> |s.q| == c.depth && !s.closed && th.task !in s.timedOut)
    && (turn.out == Park ==> !th.Sweeper?)
  }

  lemma PurgeFair(c: Config, s: State, th: Thread)
    ensures Fair(c, s, th, PurgeTurn(c, s.q, s.now))
  {
    PurgeMembers(c, s.q, s.now);
    if Dead(c, s.q, s.now) == [] {
      PurgeNothing(c, s.q, s.now);
    }
  }

  lemma TurnsFair(c: Config, s: State, t: Task, i: nat)
    requires Wakeful(c, s)
    ensures t !in s.timedOut ==> Fair(c, s, Submitter(t), SubmitTurn(c, s.q, s.closed, t, s.now))
    ensures Fair(c, s, Submitter(t), WaitTurn(c, s.q, s.closed, t in s.timedOut, t, s.now))
    ensures Fair(c, s, Worker(i), PopTurn(c, s.q, s.closed, s.now))
  {
    PurgeFair(c, s, Sweeper);
  }

  lemma TimersNext(c: Config, s: State, a: Action)
    requires c.Valid() && Enabled(c, s, a) && Threads(c, s) && Timers(s)
    ensures Timers(Next(c, s, a))
  {
    if Section(a) {
      TimersSection(c, s, a);
    } else {
      TimersStep(c, s, a);
    }
  }

  /** One thread moves on, never back before its critical section; fills and timers come only from there. */
  lemma TimersMove(s: State, s': State, th: Thread, pc: Pc)
    requires Timers(s) && th in s.pcs && s'.pcs == s.pcs[th := pc] && s'.timedOut == s.timedOut
    requires th.Submitter? ==> !Early(pc) || Early(s.pcs[th])
    requires forall t :: t in s'.armed ==> t in s.armed || (th == Submitter(t) && !Early(pc))
    requires forall t :: t in s'.fill ==> t in s.fill || (th == Submitter(t) && !Early(pc))
    ensures Timers(s')
  {
  }

  lemma TimersSection(c: Config, s: State, a: Action)
    requires c.Valid() && Enabled(c, s, a) && Threads(c, s) && Timers(s) && Section(a)
    ensures Timers(Next(c, s, a))
  {
    var s' := Next(c, s, a);
    match a
    case Submit(t, _) => TimersMove(s, s', Submitter(t), s'.pcs[Submitter(t)]);
    case Rewait(t, _) => TimersMove(s, s', Submitter(t), s'.pcs[Submitter(t)]);
    case Gather(th) => TimersMove(s, s', th, s'.pcs[th]);
    case Pop(i) => TimersMove(s, s', Worker(i), s'.pcs[Worker(i)]);
  }

  lemma TimersStep(c: Config, s: State, a: Action)
    requires c.Valid() && Enabled(c, s, a) && Threads(c, s) && Timers(s) && !Section(a)
    ensures Timers(Next(c, s, a))
  {
    var s' := Next(c, s, a);
    match a
    case Check(t) => TimersMove(s, s', Submitter(t), s'.pcs[Submitter(t)]);
    case Budget(i) => TimersMove(s, s', Worker(i), s'.pcs[Worker(i)]);
    case Count(th) => TimersMove(s, s', th, s'.pcs[th]);
    case Tell(th) => TimersMove(s, s', th, s'.pcs[th]);
    case Proceed(th) => TimersMove(s, s', th, s'.pcs[th]);
    case _ =>
  }

  /** A section that wakes nobody: the queue stays, and at most its own thread parks. */
  lemma WakefulSilent(c: Config, s: State, th: Thread, turn: Turn, pc: Pc, s': State)
    requires Threads(c, s) && Wakeful(c, s) && Fair(c, s, th, turn) && turn.wake == Nobody
    requires th in s.pcs && th !in s.parked && (!s.returned || th.Submitter?)
    requires turn.out == Park ==> pc == (if th.Worker? then Popping else Waiting)
    requires Leaving(pc) ==> turn.out == Leave
    requires s'.q == s.q && s'.pcs == s.pcs[th := pc]
    requires s'.parked == s.parked + if turn.out == Park then {th} else {}
    requires th.Worker? ==> turn.out == Park || turn.out == Leave
    requires s'.closed == s.closed && s'.timedOut == s.timedOut && s'.returned == s.returned
    ensures Wakeful(c, s')
  {
    if th.Worker? {
      SilentWorker(c, s, th, pc, s');
    } else {
      AwakeSame(c, s, s', th);
    }
  }

  /** A worker that wakes nobody parks over an empty open queue, or leaves an empty closed one. */
  lemma SilentWorker(c: Config, s: State, th: Thread, pc: Pc, s': State)
    requires Threads(c, s) && Wakeful(c, s) && th.Worker? && th in s.pcs && !s.returned && s.q == []
    requires (pc == Popping && !s.closed && s'.parked == s.parked + {th}) || (s.closed && s'.parked == s.parked)
    requires s'.q == s.q && s'.pcs == s.pcs[th := pc]
    requires s'.closed == s.closed && s'.timedOut == s.timedOut && s'.returned == s.returned
    ensures Wakeful(c, s')
  {
  }

  lemma AwakeSame(c: Config, s: State, s': State, th: Thread)
    requires !th.Worker? && th in s'.pcs && s'.pcs == s.pcs[th := s'.pcs[th]]
    requires s.parked <= s'.parked <= s.parked + {th}
    ensures Awake(c, s) == Awake(c, s')
  {
  }

  lemma WakefulTurn(c: Config, s: State, th: Thread, turn: Turn, w: Thread, pc: Pc, s': State)
    requires c.Valid() && Threads(c, s) && Wakeful(c, s) && Fair(c, s, th, turn)
    requires th in s.pcs && th !in s.parked && (turn.wake == One ==> MayWake(s, w))
    requires !s.returned || th.Submitter?
    requires turn.out == Enqueued ==> pc == Done
    requires turn.out == Park ==> pc == (if th.Worker? then Popping else Waiting)
    requires Leaving(pc) ==> turn.out == Leave
    requires th.Worker? && turn.wake == Nobody ==> turn.out == Park || turn.out == Leave
    requires s'.q == turn.q && s'.pcs == s.pcs[th := pc]
    requires s'.parked == Woken(s.parked, turn.wake, w) + if turn.out == Park then {th} else {}
    requires s'.closed == s.closed && s'.timedOut == s.timedOut && s'.returned == s.returned
    ensures Wakeful(c, s')
  {
    match turn.wake
    case One => WakefulEnqueue(c, s, th.task, w, s');
    case All => WakefulBroadcast(c, s, s');
    case Nobody => WakefulSilent(c, s, th, turn, pc, s');
  }

  lemma WakefulSubmit(c: Config, s: State, t: Task, w: Thread)
    requires c.Valid() && Enabled(c, s, Submit(t, w)) && Threads(c, s) && Timers(s) && Wakeful(c, s)
    ensures Wakeful(c, Next(c, s, Submit(t, w)))
  {
    var turn := SubmitTurn(c, s.q, s.closed, t, s.now);
    TurnsFair(c, s, t, 0);
    WakefulTurn(c, s, Submitter(t), turn, w, PcAfter(Submitter(t), turn, s.now), Next(c, s, Submit(t, w)));
  }

  lemma WakefulRewait(c: Config, s: State, t: Task, w: Thread)
    requires c.Valid() && Enabled(c, s, Rewait(t, w)) && Threads(c, s) && Wakeful(c, s)
    ensures Wakeful(c, Next(c, s, Rewait(t, w)))
  {
    var turn := WaitTurn(c, s.q, s.closed, t in s.timedOut, t, s.now);
    TurnsFair(c, s, t, 0);
    WakefulTurn(c, s, Submitter(t), turn, w, PcAfter(Submitter(t), turn, s.now), Next(c, s, Rewait(t, w)));
  }

  lemma WakefulGather(c: Config, s: State, th: Thread)
    requires c.Valid() && Enabled(c, s, Gather(th)) && Threads(c, s) && Wakeful(c, s)
    ensures Wakeful(c, Next(c, s, Gather(th)))
  {
    var s' := Next(c, s, Gather(th));
    PurgeFair(c, s, th);
    WakefulTurn(c, s, th, PurgeTurn(c, s.q, s.now), th, s'.pcs[th], s');
  }

  lemma WakefulPop(c: Config, s: State, i: nat)
    requires c.Valid() && Enabled(c, s, Pop(i)) && Threads(c, s) && Wakeful(c, s)
    ensures Wakeful(c, Next(c, s, Pop(i)))
  {
    var turn := PopTurn(c, s.q, s.closed, s.now);
    TurnsFair(c, s, Task(0, 0, 0), i);
    WakefulTurn(c, s, Worker(i), turn, Worker(i), PcAfter(Worker(i), turn, s.now), Next(c, s, Pop(i)));
  }

  /** A thread moves on its own: the queue, the parked threads and the flags stay. */
  lemma WakefulMove(c: Config, s: State, s': State, th: Thread)
    requires Threads(c, s) && Wakeful(c, s) && th in s.pcs && th in s'.pcs
    requires s'.pcs == s.pcs[th := s'.pcs[th]] && s.pcs[th] != Exited
    requires s.pcs[th] != Popping && s.pcs[th] != Waiting
    requires s'.q == s.q && s'.parked == s.parked && s'.closed == s.closed
    requires s'.timedOut == s.timedOut && s'.returned == s.returned
    requires th.Worker? && Leaving(s'.pcs[th]) ==> Leaving(s.pcs[th])
    ensures Wakeful(c, s')
  {
    AwakeGrows(c, s, s', th);
  }

  lemma WakefulNext(c: Config, s: State, a: Action)
    requires c.Valid() && Enabled(c, s, a) && Threads(c, s) && Timers(s) && Wakeful(c, s)
    ensures Wakeful(c, Next(c, s, a))
  {
    match a
    case Submit(t, w) => WakefulSubmit(c, s, t, w);
    case Rewait(t, w) => WakefulRewait(c, s, t, w);
    case Gather(th) => WakefulGather(c, s, th);
    case Pop(i) => WakefulPop(c, s, i);
    case _ => WakefulStep(c, s, a);
  }

  lemma WakefulStep(c: Config, s: State, a: Action)
    requires c.Valid() && Enabled(c, s, a) && Threads(c, s) && Wakeful(c, s) && !Section(a)
    ensures Wakeful(c, Next(c, s, a))
  {
    var s' := Next(c, s, a);
    match a
    case Check(t) => WakefulMove(c, s, s', Submitter(t));
    case Budget(i) => WakefulMove(c, s, s', Worker(i));
    case Count(th) => WakefulMove(c, s, s', th);
    case Tell(th) => WakefulMove(c, s, s', th);
    case Proceed(th) => WakefulMove(c, s, s', th);
    case SweepExit => WakefulMove(c, s, s', Sweeper);
    case Arrive(t) => AwakeSame(c, s, s', Submitter(t));
    case Fire(_) => WakefulBroadcast(c, s, s');
    case CloseLock => WakefulBroadcast(c, s, s');
    case _ => WakefulFlags(c, s, s');
  }

  /** The clock and the flags that wake nobody. */
  lemma WakefulFlags(c: Config, s: State, s': State)
    requires Wakeful(c, s) && s'.q == s.q && s'.pcs == s.pcs && s'.parked == s.parked
    requires s'.closed == s.closed && s'.timedOut == s.timedOut
    requires s'.returned ==> s'.closed && forall th :: th in s.pcs && !th.Submitter? ==> s.pcs[th] == Exited
    ensures Wakeful(c, s')
  {
    assert Awake(c, s) == Awake(c, s');
  }
}
