/**
 The bounded work queue of internal/queue/queue.go: what one critical section
 of the mutex does, as functions on the queue (the "turns"), and the pool's
 slice as an object updated in place and proved against them.
 */
module Queue {

  /** A submitted request. `enqueued` and `deadline` are durations in one unit. */
  datatype Task = Task(id: nat, enqueued: int, deadline: int)

  /** The parameters of the pool; `waits` is the "wait" mode for a full queue. */
  datatype Config = Config(workers: nat, depth: nat, reserve: int, minBudget: int, waits: bool) {
    predicate Valid() { depth >= 1 }
  }

  function Left(c: Config, t: Task, now: int): int {
    t.deadline - (now - t.enqueued) - c.reserve
  }

  /** Too little budget is left for a handler to start. */
  predicate Spent(c: Config, t: Task, now: int) {
    Left(c, t, now) < c.minBudget
  }

  function Alive(c: Config, q: seq<Task>, now: int): seq<Task> {
    if q == [] then [] else
      var t := q[|q| - 1];
      Alive(c, q[..|q| - 1], now) + (if Spent(c, t, now) then [] else [t])
  }

  function Dead(c: Config, q: seq<Task>, now: int): seq<Task> {
    if q == [] then [] else
      var t := q[|q| - 1];
      Dead(c, q[..|q| - 1], now) + (if Spent(c, t, now) then [t] else [])
  }

  /** Who is woken at the end of a critical section: cond.Signal is One, cond.Broadcast is All. */
  datatype Wake = Nobody | One | All

  /** How a critical section ends for the thread that ran it. */
  datatype Out = Took(task: Task) | Leave | Again | Park | Enqueued | Expire | Shed

  /** The queue after a critical section, the expired tasks carried out of it, and its ending. */
  datatype Turn = Turn(q: seq<Task>, dead: seq<Task>, wake: Wake, out: Out)

  function PurgeTurn(c: Config, q: seq<Task>, now: int): Turn {
    var dead := Dead(c, q, now);
    Turn(Alive(c, q, now), dead, if dead == [] then Nobody else All, Again)
  }

  /** One pass of the loop in pop, from the purge to the return or the wait. */
  function PopTurn(c: Config, q: seq<Task>, closed: bool, now: int): Turn {
    PopFrom(PurgeTurn(c, q, now), closed)
  }

  function PopFrom(p: Turn, closed: bool): Turn {
    if p.q != [] then Turn(p.q[1..], p.dead, All, Took(p.q[0]))
    else if closed then p.(out := Leave)
    else if p.dead != [] then p
    else p.(out := Park)
  }

  /** One pass of the loop in submitWaitLocked, or what follows the loop. */
  function WaitTurn(c: Config, q: seq<Task>, closed: bool, timedOut: bool, t: Task, now: int): Turn {
    if |q| >= c.depth && !timedOut && !closed then
      var p := PurgeTurn(c, q, now);
      if p.dead != [] then p else Turn(q, [], Nobody, Park)
    else LastTurn(c, q, closed, t)
  }

  /** After the loop of submitWaitLocked. */
  function LastTurn(c: Config, q: seq<Task>, closed: bool, t: Task): Turn {
    if closed then Turn(q, [], Nobody, Expire)
    else if |q| < c.depth then Turn(q + [t], [], One, Enqueued)
    else Turn(q, [], Nobody, Expire)
  }

  /** The locked part of Submit, the first pass of submitWaitLocked included. */
  function SubmitTurn(c: Config, q: seq<Task>, closed: bool, t: Task, now: int): Turn {
    if closed || |q| < c.depth then LastTurn(c, q, closed, t)
    else if !c.waits then Turn(q, [], Nobody, Shed)
    else if Spent(c, t, now) then Turn(q, [], Nobody, Expire)
    else WaitTurn(c, q, closed, false, t, now)
  }

  /** Submit arms the wait timer when it gets as far as the loop. */
  predicate Arms(c: Config, q: seq<Task>, closed: bool, t: Task, now: int) {
    !closed && |q| >= c.depth && c.waits && !Spent(c, t, now)
  }

  function Fill(c: Config, n: nat): int
    requires c.Valid()
  {
    if n >= c.depth then 100 else n * 100 / c.depth
  }

  /** A recorded fill of 100 means a full queue and nothing else. */
  lemma FillIsFull(c: Config, n: nat)
    requires c.Valid()
    ensures 0 <= Fill(c, n) <= 100
    ensures Fill(c, n) == 100 <==> n >= c.depth
  {
    if n < c.depth {
      DivBelow(n * 100, c.depth, 100);
    }
  }

  lemma DivBelow(x: nat, d: nat, k: nat)
    requires d >= 1 && x < k * d
    ensures 0 <= x / d < k
  {
    if x / d >= k {
      MulMono(d, k, x / d);
      assert false;
    }
  }

  lemma MulMono(d: nat, a: nat, b: nat)
    requires a <= b
    ensures d * a <= d * b
  {
  }

  // ---- The purge as a partition of the queue ----

  function Without(s: seq<Task>, gone: set<Task>): seq<Task> {
    if s == [] then [] else
      var t := s[|s| - 1];
      Without(s[..|s| - 1], gone) + (if t in gone then [] else [t])
  }

  function Elems(s: seq<Task>): set<Task> {
    set t | t in s
  }

  lemma {:induction false} PurgeMembers(c: Config, q: seq<Task>, now: int)
    ensures forall t :: t in Alive(c, q, now) <==> t in q && !Spent(c, t, now)
    ensures forall t :: t in Dead(c, q, now) <==> t in q && Spent(c, t, now)
    ensures |Alive(c, q, now)| + |Dead(c, q, now)| == |q|
  {
    if q != [] {
      PurgeMembers(c, q[..|q| - 1], now);
      assert q == q[..|q| - 1] + [q[|q| - 1]];
    }
  }

  /** How often a task occurs. */
  function Num(s: seq<Task>, t: Task): nat {
    if s == [] then 0 else Num(s[..|s| - 1], t) + if s[|s| - 1] == t then 1 else 0
  }

  lemma {:induction false} NumConcat(a: seq<Task>, b: seq<Task>, t: Task)
    ensures Num(a + b, t) == Num(a, t) + Num(b, t)
  {
    if b == [] {
      assert a + b == a;
    } else {
      assert (a + b)[..|a + b| - 1] == a + b[..|b| - 1];
      NumConcat(a, b[..|b| - 1], t);
    }
  }

  lemma {:induction false} NumIn(s: seq<Task>, t: Task)
    ensures Num(s, t) > 0 <==> t in s
  {
    if s != [] {
      NumIn(s[..|s| - 1], t);
      assert s == s[..|s| - 1] + [s[|s| - 1]];
    }
  }

  lemma NumOne(x: Task, t: Task)
    ensures Num([x], t) == if x == t then 1 else 0
  {
    assert [x][..0] == [];
  }

  lemma NumFirst(s: seq<Task>, t: Task)
    requires s != []
    ensures Num(s, t) == Num(s[1..], t) + if s[0] == t then 1 else 0
  {
    assert s == [s[0]] + s[1..];
    NumConcat([s[0]], s[1..], t);
    NumOne(s[0], t);
  }

  /** The purge neither loses nor doubles a task. */
  lemma {:induction false} PurgeCount(c: Config, q: seq<Task>, now: int, t: Task)
    ensures Num(Alive(c, q, now), t) + Num(Dead(c, q, now), t) == Num(q, t)
  {
    if q != [] {
      var last := q[|q| - 1];
      PurgeCount(c, q[..|q| - 1], now, t);
      NumConcat(Alive(c, q[..|q| - 1], now), if Spent(c, last, now) then [] else [last], t);
      NumConcat(Dead(c, q[..|q| - 1], now), if Spent(c, last, now) then [last] else [], t);
    }
  }

  /** Nothing spent: the purge keeps the queue as it is. */
  lemma {:induction false} PurgeNothing(c: Config, q: seq<Task>, now: int)
    requires Dead(c, q, now) == []
    ensures Alive(c, q, now) == q
  {
    if q != [] {
      PurgeNothing(c, q[..|q| - 1], now);
      assert q == q[..|q| - 1] + [q[|q| - 1]];
    }
  }

  /** What survives a purge is the queue without the spent tasks, in the same order. */
  lemma {:induction false} AliveIsWithout(c: Config, q: seq<Task>, now: int, gone: set<Task>)
    requires forall t :: t in q ==> (t in gone <==> Spent(c, t, now))
    ensures Alive(c, q, now) == Without(q, gone)
  {
    if q != [] {
      AliveIsWithout(c, q[..|q| - 1], now, gone);
    }
  }

  lemma {:induction false} WithoutConcat(a: seq<Task>, b: seq<Task>, gone: set<Task>)
    ensures Without(a + b, gone) == Without(a, gone) + Without(b, gone)
  {
    if b == [] {
      assert a + b == a;
    } else {
      var b' := b[..|b| - 1];
      assert (a + b)[..|a + b| - 1] == a + b';
      WithoutConcat(a, b', gone);
    }
  }

  lemma {:induction false} WithoutNone(s: seq<Task>, gone: set<Task>)
    requires forall t :: t in s ==> t !in gone
    ensures Without(s, gone) == s
  {
    if s != [] {
      WithoutNone(s[..|s| - 1], gone);
      assert s == s[..|s| - 1] + [s[|s| - 1]];
    }
  }

  lemma {:induction false} WithoutTwice(s: seq<Task>, a: set<Task>, b: set<Task>)
    ensures Without(s, a + b) == Without(Without(s, a), b)
  {
    if s != [] {
      var t := s[|s| - 1];
      WithoutTwice(s[..|s| - 1], a, b);
      WithoutConcat(Without(s[..|s| - 1], a), if t in a then [] else [t], b);
      assert Without([t], b) == if t in b then [] else [t];
    }
  }

  /** One more element of the queue seen by the purge. */
  lemma PurgeStep(c: Config, q: seq<Task>, i: nat, now: int)
    requires i < |q|
    ensures Alive(c, q[..i + 1], now) == Alive(c, q[..i], now) + if Spent(c, q[i], now) then [] else [q[i]]
    ensures Dead(c, q[..i + 1], now) == Dead(c, q[..i], now) + if Spent(c, q[i], now) then [q[i]] else []
  {
    assert q[..i + 1][..i] == q[..i] && q[..i + 1][i] == q[i];
  }

  // ---- The pool's slice, updated in place ----

  /**
   The loop of takeExpiredLocked: the kept tasks are written over the front of
   the slice they are read from; the write index never passes the read index.
   */
  method Compact(c: Config, a: array<Task>, lo: nat, hi: nat, now: int) returns (kept: nat, dead: seq<Task>)
    requires lo <= hi <= a.Length
    modifies a
    ensures lo <= kept <= hi
    ensures a[lo..kept] == Alive(c, old(a[lo..hi]), now)
    ensures dead == Dead(c, old(a[lo..hi]), now)
  {
    kept, dead := lo, [];
    ghost var was, alive := a[lo..hi], [];
    for i := lo to hi
      invariant kept == lo + |alive| <= i
      invariant forall k :: i <= k < hi ==> a[k] == was[k - lo]
      invariant forall k :: 0 <= k < |alive| ==> a[lo + k] == alive[k]
      invariant alive == Alive(c, was[..i - lo], now)
      invariant dead == Dead(c, was[..i - lo], now)
    {
      PurgeStep(c, was, i - lo, now);
      if Spent(c, a[i], now) {
        dead := dead + [a[i]];
      } else {
        alive := alive + [a[i]];
        a[kept] := a[i];
        kept := kept + 1;
      }
    }
    assert was[..hi - lo] == was;
    assert a[lo..kept] == alive;
  }

  /** A longer array that begins with n tasks of another. */
  method Copied(a: array<Task>, lo: nat, n: nat, t: Task) returns (bigger: array<Task>)
    requires lo + n <= a.Length
    ensures fresh(bigger) && bigger.Length == 2 * n + 1 && bigger[..n] == a[lo..lo + n]
  {
    bigger := new Task[2 * n + 1](_ => t);
    for i := 0 to n
      invariant bigger[..i] == a[lo..lo + i]
    {
      bigger[i] := a[lo + i];
    }
  }

  class Pool {
    const c: Config
    var buf: array<Task>
    var lo: nat
    var hi: nat
    var closed: bool
    var accepted: nat

    ghost predicate Valid()
      reads this
    {
      c.Valid() && lo <= hi <= buf.Length
    }

    ghost function Q(): seq<Task>
      requires Valid()
      reads this, buf
    {
      buf[lo..hi]
    }

    constructor (c: Config)
      requires c.Valid()
      ensures Valid() && this.c == c && fresh(buf) && Q() == [] && !closed && accepted == 0
    {
      this.c := c;
      buf := new Task[c.depth](_ => Task(0, 0, 0));
      lo, hi, closed, accepted := 0, 0, false, 0;
    }

    /** append(p.q, t): in place while the backing array has room, into a fresh one when not. */
    method EnqueueLocked(t: Task)
      requires Valid()
      modifies this, buf
      ensures Valid() && (buf == old(buf) || fresh(buf)) && closed == old(closed)
      ensures Q() == old(Q()) + [t]
      ensures accepted == old(accepted) + 1
    {
      if hi == buf.Length { Grow(t); }
      Append(t);
      accepted := accepted + 1;
    }

    method Append(t: Task)
      requires Valid() && hi < buf.Length
      modifies this`hi, buf
      ensures Valid() && Q() == old(Q()) + [t]
    {
      buf[hi] := t;
      hi := hi + 1;
    }

    /** The queue moves to the front of a larger array. */
    method Grow(t: Task)
      requires Valid()
      modifies this`buf, this`lo, this`hi
      ensures Valid() && fresh(buf) && hi < buf.Length && Q() == old(Q())
    {
      var bigger := Copied(buf, lo, hi - lo, t);
      buf, lo, hi := bigger, 0, hi - lo;
    }

    method TakeExpiredLocked(now: int) returns (dead: seq<Task>, wake: Wake)
      requires Valid()
      modifies this`hi, buf
      ensures Valid()
      ensures Turn(Q(), dead, wake, Again) == PurgeTurn(c, old(Q()), now)
    {
      hi, dead := Compact(c, buf, lo, hi, now);
      wake := if dead != [] then All else Nobody;
    }

    method PopLocked(now: int) returns (dead: seq<Task>, wake: Wake, out: Out)
      requires Valid()
      modifies this`lo, this`hi, buf
      ensures Valid()
      ensures Turn(Q(), dead, wake, out) == PopTurn(c, old(Q()), closed, now)
    {
      dead, wake := TakeExpiredLocked(now);
      if lo < hi {
        out := Took(buf[lo]);
        lo := lo + 1;
        wake := All;
      } else if closed {
        out := Leave;
      } else if dead != [] {
        out := Again;
      } else {
        out := Park;
      }
    }

    method WaitLocked(t: Task, timedOut: bool, now: int) returns (dead: seq<Task>, wake: Wake, out: Out)
      requires Valid()
      modifies this, buf
      ensures Valid() && (buf == old(buf) || fresh(buf)) && closed == old(closed)
      ensures Turn(Q(), dead, wake, out) == WaitTurn(c, old(Q()), old(closed), timedOut, t, now)
      ensures accepted == old(accepted) + if out == Enqueued then 1 else 0
    {
      dead, wake, out := [], Nobody, Expire;
      if hi - lo >= c.depth && !timedOut && !closed {
        dead, wake := TakeExpiredLocked(now);
        if dead != [] {
          out := Again;
        } else {
          PurgeNothing(c, old(Q()), now);
          out := Park;
        }
      } else if !closed && hi - lo < c.depth {
        EnqueueLocked(t);
        wake, out := One, Enqueued;
      }
    }

    method SubmitLocked(t: Task, now: int)
      returns (fill: int, dead: seq<Task>, wake: Wake, out: Out, armed: bool)
      requires Valid()
      modifies this, buf
      ensures Valid() && (buf == old(buf) || fresh(buf)) && closed == old(closed)
      ensures !closed ==> fill == Fill(c, |old(Q())|)
      ensures Turn(Q(), dead, wake, out) == SubmitTurn(c, old(Q()), old(closed), t, now)
      ensures armed == Arms(c, old(Q()), old(closed), t, now)
      ensures accepted == old(accepted) + if out == Enqueued then 1 else 0
    {
      fill, dead, wake, out, armed := 0, [], Nobody, Expire, false;
      if closed { return; }
      fill := if hi - lo >= c.depth then 100 else (hi - lo) * 100 / c.depth;
      if hi - lo < c.depth {
        EnqueueLocked(t);
        wake, out := One, Enqueued;
      } else if !c.waits {
        out := Shed;
      } else if !Spent(c, t, now) {
        armed := true;
        dead, wake, out := WaitLocked(t, false, now);
      }
    }
  }
}
