/**
 Where every task of the pool is, over every interleaving: exactly one place at
 any time, told exactly once, in order, with honest reasons and exact counters.
 */
module PoolLedger {
  import opened Queue
  import opened PoolProtocol

  predicate HeldBy(p: Place, th: Thread) {
    (p.With? || p.Marked?) && p.who == th
  }

  /** How often a task occurs in a thread's hands. */
  function Hand(th: Thread, pc: Pc, t: Task): nat
    decreases pc
  {
    match pc
    case Reply(ts, _, _, _, next) => Num(ts, t) + Hand(th, next, t)
    case Hold(x) => if x == t then 1 else 0
    case Start => Own(th, t)
    case Collect => Own(th, t)
    case Enter => Own(th, t)
    case Waiting => Own(th, t)
    case _ => 0
  }

  function Own(th: Thread, t: Task): nat {
    if th == Submitter(t) then 1 else 0
  }

  predicate QueueAgrees(s: State, t: Task) {
    Num(s.q, t) == if t in s.place && s.place[t] == Queued then 1 else 0
  }

  predicate HandAgrees(s: State, th: Thread, t: Task)
    requires th in s.pcs
  {
    Hand(th, s.pcs[th], t) == if t in s.place && HeldBy(s.place[t], th) then 1 else 0
  }

  /** The queue and the threads' hands hold what the ledger says, each task once. */
  ghost predicate Hands(s: State) {
    && (forall t :: t in s.place <==> Submitter(t) in s.pcs)
    && (forall t :: QueueAgrees(s, t))
    && (forall th, t :: th in s.pcs ==> HandAgrees(s, th, t))
    && (forall t :: t in s.place && (s.place[t].With? || s.place[t].Marked?) ==> s.place[t].who in s.pcs)
  }

  /** A task is marked exactly when the thread that counted it is about to tell it. */
  ghost predicate Marks(s: State) {
    && (forall t :: t in s.place && s.place[t].Marked? ==>
          var th := s.place[t].who;
          Replying(s, th) && s.pcs[th].marked && s.pcs[th].tasks != [] && s.pcs[th].tasks[0] == t)
    && (forall th :: Replying(s, th) && s.pcs[th].marked ==>
          && s.pcs[th].tasks != [] && s.pcs[th].tasks[0] in s.place
          && s.place[s.pcs[th].tasks[0]] == Marked(th, s.pcs[th].reason))
  }

  function Tasks(answers: seq<Answer>): set<Task> {
    set a | a in answers :: a.task
  }

  /** The answers: one per told task, with the reason in the ledger. */
  ghost predicate Answers(s: State) {
    && (forall i, j :: 0 <= i < j < |s.answers| ==> s.answers[i].task != s.answers[j].task)
    && (forall a :: a in s.answers ==> a.task in s.place && s.place[a.task] == Told(a.reason))
    && (forall t :: t in s.place && s.place[t].Told? ==> t in Tasks(s.answers))
  }

  predicate Counted(p: Place, r: Reason) {
    (p.Marked? || p.Told?) && p.reason == r
  }

  /** The tasks counted with a reason. */
  ghost function CountedIn(place: map<Task, Place>, r: Reason): set<Task> {
    set t | t in place && Counted(place[t], r)
  }

  ghost function CountedAs(s: State, r: Reason): set<Task> {
    CountedIn(s.place, r)
  }

  lemma CountedSame(a: map<Task, Place>, b: map<Task, Place>, r: Reason)
    requires forall t :: t in a && Counted(a[t], r) <==> t in b && Counted(b[t], r)
    ensures CountedIn(a, r) == CountedIn(b, r)
  {
  }

  /** One place changes: the counted tasks are one more, or as before. */
  lemma CountedMark(a: map<Task, Place>, t: Task, p: Place, r: Reason)
    requires t in a ==> !Counted(a[t], r)
    ensures |CountedIn(a[t := p], r)| == |CountedIn(a, r)| + if Counted(p, r) then 1 else 0
  {
    OneMore(CountedIn(a, r), CountedIn(a[t := p], r), t, Counted(p, r));
  }

  lemma OneMore(a: set<Task>, b: set<Task>, t: Task, more: bool)
    requires t !in a && forall x :: x in b <==> x in a || (more && x == t)
    ensures |b| == |a| + if more then 1 else 0
  {
    if more {
      assert b == a + {t};
    } else {
      assert b == a;
    }
  }

  ghost predicate Counters(s: State) {
    s.expired == |CountedAs(s, Deadline)| && s.shed == |CountedAs(s, Limit)|
  }

  // ---- Critical sections conserve tasks ----

  function Taken(turn: Turn, t: Task): nat {
    if turn.out == Took(t) then 1 else 0
  }

  function Given(th: Thread, turn: Turn, t: Task): nat {
    if turn.out == Enqueued then Own(th, t) else 0
  }

  /** What leaves the queue reaches the hands of the thread, and the other way round. */
  predicate Moves(s: State, th: Thread, turn: Turn, pc: Pc, t: Task)
    requires th in s.pcs
  {
    && Num(turn.q, t) + Num(turn.dead, t) + Taken(turn, t) == Num(s.q, t) + Given(th, turn, t)
    && Hand(th, pc, t) + Given(th, turn, t) == Hand(th, s.pcs[th], t) + Num(turn.dead, t) + Taken(turn, t)
  }

  ghost predicate Conserves(s: State, th: Thread, turn: Turn, pc: Pc) {
    && th in s.pcs && !(pc.Reply? && pc.marked)
    && (turn.out == Enqueued ==> turn.dead == [])
    && forall t :: Moves(s, th, turn, pc, t)
  }

  /** One task seen through a critical section of the thread `th`. */
  lemma TaskTurn(s: State, th: Thread, turn: Turn, w: Thread, pc: Pc, t: Task)
    requires Hands(s) && Conserves(s, th, turn, pc)
    ensures var s' := AfterTurn(s, th, turn, w, pc);
            && QueueAgrees(s', t) && HandAgrees(s', th, t)
            && (t in s.place && s'.place[t] != s.place[t] ==>
                  && (s.place[t] == Queued || HeldBy(s.place[t], th))
                  && (s'.place[t] == Queued || s'.place[t] == With(th)))
  {
    assert QueueAgrees(s, t) && HandAgrees(s, th, t) && Moves(s, th, turn, pc, t);
    NumIn(turn.dead, t);
  }

  lemma HandsTurn(s: State, th: Thread, turn: Turn, w: Thread, pc: Pc)
    requires Hands(s) && Conserves(s, th, turn, pc)
    ensures Hands(AfterTurn(s, th, turn, w, pc))
  {
    var s' := AfterTurn(s, th, turn, w, pc);
    forall t ensures QueueAgrees(s', t) {
      TaskTurn(s, th, turn, w, pc, t);
    }
    forall x, t | x in s'.pcs ensures HandAgrees(s', x, t) {
      TaskTurn(s, th, turn, w, pc, t);
      assert HandAgrees(s, x, t);
    }
  }

  /** Marked and told tasks are out of reach of a critical section. */
  lemma LedgerTurn(s: State, th: Thread, turn: Turn, w: Thread, pc: Pc)
    requires Hands(s) && Marks(s) && Conserves(s, th, turn, pc) && !Replying(s, th)
    ensures var s' := AfterTurn(s, th, turn, w, pc);
            forall t :: t in s.place && s'.place[t] != s.place[t] ==>
              !s.place[t].Marked? && !s.place[t].Told? && !s'.place[t].Marked? && !s'.place[t].Told?
  {
    var s' := AfterTurn(s, th, turn, w, pc);
    forall t | t in s.place && s'.place[t] != s.place[t]
      ensures !s.place[t].Marked? && !s.place[t].Told? && !s'.place[t].Marked? && !s'.place[t].Told?
    {
      TaskTurn(s, th, turn, w, pc, t);
    }
  }

  lemma MarksTurn(s: State, th: Thread, turn: Turn, w: Thread, pc: Pc)
    requires Hands(s) && Marks(s) && Conserves(s, th, turn, pc) && !Replying(s, th)
    ensures Marks(AfterTurn(s, th, turn, w, pc))
  {
    LedgerTurn(s, th, turn, w, pc);
  }

  lemma AnswersTurn(s: State, th: Thread, turn: Turn, w: Thread, pc: Pc)
    requires Hands(s) && Marks(s) && Answers(s) && Conserves(s, th, turn, pc) && !Replying(s, th)
    ensures Answers(AfterTurn(s, th, turn, w, pc))
  {
    LedgerTurn(s, th, turn, w, pc);
  }

  lemma CountersTurn(s: State, th: Thread, turn: Turn, w: Thread, pc: Pc)
    requires Hands(s) && Marks(s) && Counters(s) && Conserves(s, th, turn, pc) && !Replying(s, th)
    ensures Counters(AfterTurn(s, th, turn, w, pc))
  {
    var s' := AfterTurn(s, th, turn, w, pc);
    LedgerTurn(s, th, turn, w, pc);
    CountedSame(s'.place, s.place, Deadline);
    CountedSame(s'.place, s.place, Limit);
  }

  lemma PurgeConserves(c: Config, s: State, th: Thread, next: Pc)
    requires th in s.pcs && forall t :: Hand(th, next, t) == Hand(th, s.pcs[th], t)
    ensures var turn := PurgeTurn(c, s.q, s.now);
            Conserves(s, th, turn, Reply(turn.dead, false, Deadline, s.now, next))
  {
    var turn := PurgeTurn(c, s.q, s.now);
    forall t ensures Moves(s, th, turn, Reply(turn.dead, false, Deadline, s.now, next), t) {
      PurgeCount(c, s.q, s.now, t);
    }
  }

  lemma PopMoves(s: State, i: nat, p: Turn, t: Task)
    requires At(s, Worker(i), Popping) && p.out == Again
    requires Num(p.q, t) + Num(p.dead, t) == Num(s.q, t)
    ensures var turn := PopFrom(p, s.closed);
            Moves(s, Worker(i), turn, PcAfter(Worker(i), turn, s.now), t)
  {
    if p.q != [] {
      NumFirst(p.q, t);
    }
  }

  lemma PopConserves(c: Config, s: State, i: nat)
    requires At(s, Worker(i), Popping)
    ensures var turn := PopTurn(c, s.q, s.closed, s.now);
            Conserves(s, Worker(i), turn, PcAfter(Worker(i), turn, s.now))
  {
    var turn := PopTurn(c, s.q, s.closed, s.now);
    forall t ensures Moves(s, Worker(i), turn, PcAfter(Worker(i), turn, s.now), t) {
      PurgeCount(c, s.q, s.now, t);
      PopMoves(s, i, PurgeTurn(c, s.q, s.now), t);
    }
  }

  lemma LastMoves(c: Config, s: State, t: Task, x: Task)
    requires At(s, Submitter(t), Enter) || At(s, Submitter(t), Waiting)
    ensures var turn := LastTurn(c, s.q, s.closed, t);
            Moves(s, Submitter(t), turn, PcAfter(Submitter(t), turn, s.now), x)
  {
    NumConcat(s.q, [t], x);
    NumOne(t, x);
  }

  /** A section that leaves the queue as it is leaves the task with its submitter. */
  lemma StayMoves(s: State, t: Task, out: Out, x: Task)
    requires At(s, Submitter(t), Enter) || At(s, Submitter(t), Waiting)
    requires out == Park || out == Expire || out == Shed
    ensures var turn := Turn(s.q, [], Nobody, out);
            Moves(s, Submitter(t), turn, PcAfter(Submitter(t), turn, s.now), x)
  {
    NumOne(t, x);
  }

  lemma WaitConserves(c: Config, s: State, t: Task, timedOut: bool)
    requires At(s, Submitter(t), Enter) || At(s, Submitter(t), Waiting)
    ensures var turn := WaitTurn(c, s.q, s.closed, timedOut, t, s.now);
            Conserves(s, Submitter(t), turn, PcAfter(Submitter(t), turn, s.now))
  {
    var turn := WaitTurn(c, s.q, s.closed, timedOut, t, s.now);
    forall x ensures Moves(s, Submitter(t), turn, PcAfter(Submitter(t), turn, s.now), x) {
      WaitMoves(c, s, t, timedOut, x);
    }
  }

  lemma WaitMoves(c: Config, s: State, t: Task, timedOut: bool, x: Task)
    requires At(s, Submitter(t), Enter) || At(s, Submitter(t), Waiting)
    ensures var turn := WaitTurn(c, s.q, s.closed, timedOut, t, s.now);
            Moves(s, Submitter(t), turn, PcAfter(Submitter(t), turn, s.now), x)
  {
    LastMoves(c, s, t, x);
    StayMoves(s, t, Park, x);
    AgainMoves(c, s, t, x);
  }

  lemma AgainMoves(c: Config, s: State, t: Task, x: Task)
    requires At(s, Submitter(t), Enter) || At(s, Submitter(t), Waiting)
    ensures var turn := PurgeTurn(c, s.q, s.now);
            Moves(s, Submitter(t), turn, PcAfter(Submitter(t), turn, s.now), x)
  {
    PurgeCount(c, s.q, s.now, x);
  }

  lemma SubmitConserves(c: Config, s: State, t: Task)
    requires At(s, Submitter(t), Enter)
    ensures var turn := SubmitTurn(c, s.q, s.closed, t, s.now);
            Conserves(s, Submitter(t), turn, PcAfter(Submitter(t), turn, s.now))
  {
    var turn := SubmitTurn(c, s.q, s.closed, t, s.now);
    WaitConserves(c, s, t, false);
    forall x ensures Moves(s, Submitter(t), turn, PcAfter(Submitter(t), turn, s.now), x) {
      LastMoves(c, s, t, x);
      StayMoves(s, t, Expire, x);
      StayMoves(s, t, Shed, x);
    }
  }

  // ---- The other steps ----

  /** Only the thread `th` moved and only the place of `t` changed. */
  ghost predicate Local(s: State, s': State, th: Thread, t: Task) {
    && th in s.pcs && t in s.place && s'.pcs.Keys == s.pcs.Keys && s'.place.Keys == s.place.Keys && s'.q == s.q
    && (forall x :: x in s.pcs && x != th ==> s'.pcs[x] == s.pcs[x])
    && (forall x :: x in s.place && x != t ==> s'.place[x] == s.place[x])
    && (forall x :: x != t ==> Hand(th, s'.pcs[th], x) == Hand(th, s.pcs[th], x))
    && HeldBy(s.place[t], th)
  }

  lemma HandsLocal(s: State, s': State, th: Thread, t: Task)
    requires Hands(s) && Local(s, s', th, t)
    requires || (HeldBy(s'.place[t], th) && Hand(th, s'.pcs[th], t) == Hand(th, s.pcs[th], t))
             || (s'.place[t].Told? && Hand(th, s'.pcs[th], t) + 1 == Hand(th, s.pcs[th], t))
    ensures Hands(s')
  {
    forall x ensures QueueAgrees(s', x) {
      assert QueueAgrees(s, x);
    }
    forall y, x | y in s'.pcs ensures HandAgrees(s', y, x) {
      assert HandAgrees(s, y, x);
    }
  }

  /** Pieces of the state the ledger does not look at. */
  ghost predicate SameLedger(s: State, s': State) {
    s'.q == s.q && s'.pcs.Keys == s.pcs.Keys && s'.place == s.place && s'.answers == s.answers
    && s'.shed == s.shed && s'.expired == s.expired
  }

  ghost predicate Ledger(s: State) {
    Hands(s) && Marks(s) && Answers(s) && Counters(s)
  }

  /** A thread changes where it is and keeps what it holds. */
  lemma LedgerStill(s: State, s': State, th: Thread)
    requires Ledger(s) && SameLedger(s, s') && th in s.pcs
    requires forall x :: x in s.pcs && x != th ==> s'.pcs[x] == s.pcs[x]
    requires forall t :: Hand(th, s'.pcs[th], t) == Hand(th, s.pcs[th], t)
    requires s'.pcs[th] == s.pcs[th] || !(s.pcs[th].Reply? && s.pcs[th].marked)
    requires s'.pcs[th] == s.pcs[th] || !(s'.pcs[th].Reply? && s'.pcs[th].marked)
    ensures Ledger(s')
  {
    HandsStill(s, s', th);
    MarksStill(s, s', th);
  }

  lemma MarksStill(s: State, s': State, th: Thread)
    requires Marks(s) && s'.pcs.Keys == s.pcs.Keys && s'.place == s.place && th in s.pcs
    requires forall x :: x in s.pcs && x != th ==> s'.pcs[x] == s.pcs[x]
    requires s'.pcs[th] == s.pcs[th] || !(s.pcs[th].Reply? && s.pcs[th].marked)
    requires s'.pcs[th] == s.pcs[th] || !(s'.pcs[th].Reply? && s'.pcs[th].marked)
    ensures Marks(s')
  {
  }

  lemma HandsStill(s: State, s': State, th: Thread)
    requires Hands(s) && s'.q == s.q && s'.pcs.Keys == s.pcs.Keys && s'.place == s.place && th in s.pcs
    requires forall x :: x in s.pcs && x != th ==> s'.pcs[x] == s.pcs[x]
    requires forall t :: Hand(th, s'.pcs[th], t) == Hand(th, s.pcs[th], t)
    ensures Hands(s')
  {
    forall x ensures QueueAgrees(s', x) {
      assert QueueAgrees(s, x);
    }
    forall y, x | y in s'.pcs ensures HandAgrees(s', y, x) {
      assert HandAgrees(s, y, x);
    }
  }

  lemma HandsArrive(c: Config, s: State, t: Task)
    requires c.Valid() && Enabled(c, s, Arrive(t)) && Hands(s)
    ensures Hands(Next(c, s, Arrive(t)))
  {
    var s' := Next(c, s, Arrive(t));
    forall x ensures QueueAgrees(s', x) {
      assert QueueAgrees(s, x);
    }
    forall y, x | y in s'.pcs ensures HandAgrees(s', y, x) {
      if y in s.pcs {
        assert HandAgrees(s, y, x);
      }
    }
  }

  /** A thread that is not in the middle of a call brings a task that nobody told. */
  lemma MarksNew(s: State, s': State, th: Thread, pc: Pc, t: Task)
    requires Marks(s) && th !in s.pcs && t !in s.place && !pc.Reply?
    requires s'.pcs == s.pcs[th := pc] && s'.place == s.place[t := With(th)]
    ensures Marks(s')
  {
  }

  lemma AnswersNew(s: State, s': State, th: Thread, t: Task)
    requires Answers(s) && t !in s.place && s'.place == s.place[t := With(th)] && s'.answers == s.answers
    ensures Answers(s')
  {
  }

  lemma CountersNew(s: State, s': State, th: Thread, t: Task)
    requires Counters(s) && t !in s.place && s'.place == s.place[t := With(th)]
    requires s'.expired == s.expired && s'.shed == s.shed
    ensures Counters(s')
  {
    CountedMark(s.place, t, With(th), Deadline);
    CountedMark(s.place, t, With(th), Limit);
  }

  lemma LedgerArrive(c: Config, s: State, t: Task)
    requires c.Valid() && Enabled(c, s, Arrive(t)) && Ledger(s)
    ensures Ledger(Next(c, s, Arrive(t)))
  {
    var s' := Next(c, s, Arrive(t));
    HandsArrive(c, s, t);
    MarksNew(s, s', Submitter(t), Start, t);
    AnswersNew(s, s', Submitter(t), t);
    CountersNew(s, s', Submitter(t), t);
  }

  /** A task passes from a thread's hands to its lips: the counter of its reason goes up by one. */
  lemma CountersMark(s: State, s': State, t: Task, r: Reason)
    requires Counters(s) && t in s.place && s.place[t].With?
    requires t in s'.place && s'.place == s.place[t := s'.place[t]] && s'.place[t].Marked? && s'.place[t].reason == r
    requires s'.expired == s.expired + if r == Deadline then 1 else 0
    requires s'.shed == s.shed + if r == Limit then 1 else 0
    ensures Counters(s')
  {
    CountedMark(s.place, t, s'.place[t], Deadline);
    CountedMark(s.place, t, s'.place[t], Limit);
  }

  lemma MarksMark(s: State, s': State, th: Thread, t: Task, pc: Pc)
    requires Marks(s) && th in s.pcs && !(s.pcs[th].Reply? && s.pcs[th].marked)
    requires t in s.place && s.place[t] == With(th)
    requires pc.Reply? && pc.marked && pc.tasks != [] && pc.tasks[0] == t
    requires s'.place == s.place[t := Marked(th, pc.reason)] && s'.pcs == s.pcs[th := pc]
    ensures Marks(s')
  {
  }

  lemma AnswersMark(s: State, s': State, t: Task, p: Place)
    requires Answers(s) && t in s.place && !s.place[t].Told? && !p.Told?
    requires s'.answers == s.answers && s'.place == s.place[t := p]
    ensures Answers(s')
  {
  }

  /** A thread counts the task it will tell next. */
  lemma LedgerMark(s: State, s': State, th: Thread, t: Task, pc: Pc)
    requires Ledger(s) && th in s.pcs && !(s.pcs[th].Reply? && s.pcs[th].marked)
    requires Hand(th, s.pcs[th], t) > 0
    requires pc.Reply? && pc.marked && pc.tasks != [] && pc.tasks[0] == t
    requires forall x :: Hand(th, pc, x) == Hand(th, s.pcs[th], x)
    requires s'.place == s.place[t := Marked(th, pc.reason)] && s'.pcs == s.pcs[th := pc]
    requires s'.answers == s.answers && s'.q == s.q
    requires s'.expired == s.expired + if pc.reason == Deadline then 1 else 0
    requires s'.shed == s.shed + if pc.reason == Limit then 1 else 0
    ensures Ledger(s')
  {
    assert HandAgrees(s, th, t);
    assert s.place[t] == With(th);
    HandsLocal(s, s', th, t);
    MarksMark(s, s', th, t, pc);
    AnswersMark(s, s', t, Marked(th, pc.reason));
    CountersMark(s, s', t, pc.reason);
  }

  lemma AnswersTell(s: State, s': State, t: Task, r: Reason, at: int)
    requires Answers(s) && t in s.place && s.place[t].Marked?
    requires s'.answers == s.answers + [Answer(t, r, at)] && s'.place == s.place[t := Told(r)]
    ensures Answers(s')
  {
    assert forall i :: 0 <= i < |s.answers| ==> s.answers[i] in s.answers && s.answers[i].task != t;
    assert Answer(t, r, at) in s'.answers;
    assert Tasks(s'.answers) == Tasks(s.answers) + {t};
  }

  lemma MarksTell(s: State, s': State, th: Thread, t: Task, pc: Pc, r: Reason)
    requires Marks(s) && Replying(s, th) && s.pcs[th].marked && s.pcs[th].tasks[0] == t
    requires !(pc.Reply? && pc.marked)
    requires s'.place == s.place[t := Told(r)] && s'.pcs == s.pcs[th := pc]
    ensures Marks(s')
  {
  }

  lemma CountersTell(s: State, s': State, t: Task, r: Reason)
    requires Counters(s) && t in s.place && s.place[t].Marked? && s.place[t].reason == r
    requires s'.place == s.place[t := Told(r)] && s'.expired == s.expired && s'.shed == s.shed
    ensures Counters(s')
  {
    CountedSame(s'.place, s.place, Deadline);
    CountedSame(s'.place, s.place, Limit);
  }

  /** Telling the first task takes just that one from the hand. */
  lemma TellHand(th: Thread, pc: Pc)
    requires pc.Reply? && pc.tasks != []
    ensures var pc' := pc.(tasks := pc.tasks[1..], marked := false);
      forall x :: Hand(th, pc, x) == Hand(th, pc', x) + if x == pc.tasks[0] then 1 else 0
  {
    var pc' := pc.(tasks := pc.tasks[1..], marked := false);
    forall x ensures Hand(th, pc, x) == Hand(th, pc', x) + if x == pc.tasks[0] then 1 else 0 {
      NumFirst(pc.tasks, x);
    }
  }

  lemma LedgerTell(c: Config, s: State, th: Thread)
    requires c.Valid() && Enabled(c, s, Tell(th)) && Ledger(s)
    ensures Ledger(Next(c, s, Tell(th)))
  {
    var s' := Next(c, s, Tell(th));
    var pc := s.pcs[th];
    var t := pc.tasks[0];
    assert s.place[t] == Marked(th, pc.reason);
    TellHand(th, pc);
    HandsLocal(s, s', th, t);
    MarksTell(s, s', th, t, s'.pcs[th], pc.reason);
    AnswersTell(s, s', t, pc.reason, pc.at);
    CountersTell(s, s', t, pc.reason);
  }

  lemma LedgerCount(c: Config, s: State, th: Thread)
    requires c.Valid() && Enabled(c, s, Count(th)) && Ledger(s)
    ensures Ledger(Next(c, s, Count(th)))
  {
    var pc := s.pcs[th];
    NumIn(pc.tasks, pc.tasks[0]);
    LedgerMark(s, Next(c, s, Count(th)), th, pc.tasks[0], pc.(marked := true));
  }

  lemma LedgerBudget(c: Config, s: State, i: nat)
    requires c.Valid() && Enabled(c, s, Budget(i)) && Ledger(s)
    ensures Ledger(Next(c, s, Budget(i)))
  {
    var s' := Next(c, s, Budget(i));
    var t := s.pcs[Worker(i)].task;
    forall x ensures Hand(Worker(i), s'.pcs[Worker(i)], x) == Hand(Worker(i), Hold(t), x) {
      NumOne(t, x);
    }
    LedgerMark(s, s', Worker(i), t, s'.pcs[Worker(i)]);
  }

  lemma LedgerSection(s: State, th: Thread, turn: Turn, w: Thread, pc: Pc, s': State)
    requires Ledger(s) && Conserves(s, th, turn, pc) && !Replying(s, th)
    requires s' == AfterTurn(s, th, turn, w, pc).(armed := s'.armed, fill := s'.fill)
    ensures Ledger(s')
  {
    HandsTurn(s, th, turn, w, pc);
    MarksTurn(s, th, turn, w, pc);
    AnswersTurn(s, th, turn, w, pc);
    CountersTurn(s, th, turn, w, pc);
    LedgerStill(AfterTurn(s, th, turn, w, pc), s', th);
  }

  lemma LedgerSections(c: Config, s: State, a: Action)
    requires c.Valid() && Enabled(c, s, a) && Threads(c, s) && Ledger(s) && Section(a)
    ensures Ledger(Next(c, s, a))
  {
    var s' := Next(c, s, a);
    match a
    case Submit(t, w) =>
      SubmitConserves(c, s, t);
      LedgerSection(s, Submitter(t), SubmitTurn(c, s.q, s.closed, t, s.now), w, s'.pcs[Submitter(t)], s');
    case Rewait(t, w) =>
      WaitConserves(c, s, t, t in s.timedOut);
      LedgerSection(s, Submitter(t), WaitTurn(c, s.q, s.closed, t in s.timedOut, t, s.now), w,
                    s'.pcs[Submitter(t)], s');
    case Gather(th) =>
      PurgeConserves(c, s, th, s'.pcs[th].next);
      LedgerSection(s, th, PurgeTurn(c, s.q, s.now), th, s'.pcs[th], s');
    case Pop(i) =>
      PopConserves(c, s, i);
      LedgerSection(s, Worker(i), PopTurn(c, s.q, s.closed, s.now), Worker(i), s'.pcs[Worker(i)], s');
  }

  lemma LedgerCheck(c: Config, s: State, t: Task)
    requires c.Valid() && Enabled(c, s, Check(t)) && Ledger(s)
    ensures Ledger(Next(c, s, Check(t)))
  {
    forall x ensures Num([t], x) == Own(Submitter(t), x) {
      NumOne(t, x);
    }
    LedgerStill(s, Next(c, s, Check(t)), Submitter(t));
  }

  lemma LedgerProceed(c: Config, s: State, th: Thread)
    requires c.Valid() && Enabled(c, s, Proceed(th)) && Threads(c, s) && Ledger(s)
    ensures Ledger(Next(c, s, Proceed(th)))
  {
    assert GoodPc(th, s.pcs[th]) && !s.pcs[th].marked;
    HandDone(th, s.pcs[th]);
    LedgerStill(s, Next(c, s, Proceed(th)), th);
  }

  lemma HandDone(th: Thread, pc: Pc)
    requires pc.Reply? && pc.tasks == []
    ensures forall t :: Hand(th, pc, t) == Hand(th, pc.next, t)
  {
  }

  /** The clock, the timers and Close touch neither tasks nor threads. */
  lemma LedgerFlags(s: State, s': State)
    requires Ledger(s) && SameLedger(s, s') && s'.pcs == s.pcs
    ensures Ledger(s')
  {
    if th :| th in s.pcs {
      LedgerStill(s, s', th);
    } else {
      assert forall x :: QueueAgrees(s, x) ==> QueueAgrees(s', x);
    }
  }

  lemma LedgerNext(c: Config, s: State, a: Action)
    requires c.Valid() && Enabled(c, s, a) && Threads(c, s) && Ledger(s)
    ensures Ledger(Next(c, s, a))
  {
    if Section(a) {
      LedgerSections(c, s, a);
    } else {
      LedgerStep(c, s, a);
    }
  }

  lemma LedgerStep(c: Config, s: State, a: Action)
    requires c.Valid() && Enabled(c, s, a) && Threads(c, s) && Ledger(s) && !Section(a)
    ensures Ledger(Next(c, s, a))
  {
    var s' := Next(c, s, a);
    match a
    case Arrive(t) => LedgerArrive(c, s, t);
    case Budget(i) => LedgerBudget(c, s, i);
    case Count(th) => LedgerCount(c, s, th);
    case Tell(th) => LedgerTell(c, s, th);
    case Check(t) => LedgerCheck(c, s, t);
    case Proceed(th) => LedgerProceed(c, s, th);
    case SweepExit => LedgerStill(s, s', Sweeper);
    case _ => LedgerFlags(s, s');
  }
}
