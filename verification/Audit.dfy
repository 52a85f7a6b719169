/**
 The audit batcher (internal/audit/sink.go): events pending for hand-over, the
 oldest given up beyond a cap, batches grouped by subject.
 */
module Audit {
  import opened Bytes
  import opened Sequences

  datatype Item = Item(subject: string, body: seq<byte>)

  const MAX_ITEMS := 256
  const MAX_SIZE := 512 * 1024
  const MAX_PENDING := 50000

  function SizeOf(items: seq<Item>): nat {
    if items == [] then 0 else SizeOf(items[..|items| - 1]) + |items[|items| - 1].body| + 2
  }

  /** An item counts its bytes and two more, and items count together what they count apart. */
  lemma {:induction false} SizeAdds(a: seq<Item>, b: seq<Item>, x: Item)
    ensures SizeOf([]) == 0 && SizeOf([x]) == |x.body| + 2 && SizeOf(a + b) == SizeOf(a) + SizeOf(b)
  {
    if b == [] {
      assert a + b == a;
    } else {
      assert (a + b)[..|a + b| - 1] == a + b[..|b| - 1];
      SizeAdds(a, b[..|b| - 1], x);
    }
  }

  method CountSize(items: seq<Item>) returns (n: nat)
    ensures n == SizeOf(items)
  {
    n := 0;
    for i := 0 to |items|
      invariant n == SizeOf(items[..i])
    {
      assert items[..i + 1][..i] == items[..i];
      n := n + |items[i].body| + 2;
    }
    assert items[..|items|] == items;
  }

  // ---- Grouping ----

  /** The items of one subject, in their order. */
  function Of(items: seq<Item>, subject: string): seq<Item> {
    if items == [] then [] else
      var last := items[|items| - 1];
      Of(items[..|items| - 1], subject) + if last.subject == subject then [last] else []
  }

  lemma {:induction false} OfConcat(a: seq<Item>, b: seq<Item>, subject: string)
    ensures Of(a + b, subject) == Of(a, subject) + Of(b, subject)
  {
    if b == [] {
      assert a + b == a;
    } else {
      assert (a + b)[..|a + b| - 1] == a + b[..|b| - 1];
      OfConcat(a, b[..|b| - 1], subject);
    }
  }

  predicate Names(items: seq<Item>, subject: string) {
    exists i :: 0 <= i < |items| && items[i].subject == subject
  }

  /** The subjects, each at its first appearance. */
  function Order(items: seq<Item>): seq<string> {
    if items == [] then [] else
      var before, last := Order(items[..|items| - 1]), items[|items| - 1];
      if last.subject in before then before else before + [last.subject]
  }

  lemma {:induction false} OrderMembers(items: seq<Item>)
    ensures forall s :: s in Order(items) <==> Names(items, s)
    ensures Distinct(Order(items))
  {
    if items != [] {
      var n := |items| - 1;
      OrderMembers(items[..n]);
      forall s
        ensures Names(items, s) <==> Names(items[..n], s) || items[n].subject == s
      {
        if Names(items[..n], s) {
          var i :| 0 <= i < n && items[..n][i].subject == s;
          assert items[i].subject == s;
        }
        if Names(items, s) && items[n].subject != s {
          var i :| 0 <= i < |items| && items[i].subject == s;
          assert items[..n][i].subject == s;
        }
      }
    }
  }

  /** Record k is the first of its subject. */
  predicate Opens(items: seq<Item>, k: nat) {
    k < |items| && forall m :: 0 <= m < k ==> items[m].subject != items[k].subject
  }

  /** The subjects stand in the order of their first items. */
  lemma {:induction false} OrderByFirst(items: seq<Item>, i: nat, j: nat) returns (a: nat, b: nat)
    requires i < j < |Order(items)|
    ensures Opens(items, a) && Opens(items, b) && a < b
    ensures items[a].subject == Order(items)[i] && items[b].subject == Order(items)[j]
  {
    var n := |items| - 1;
    var before := Order(items[..n]);
    if j < |before| {
      a, b := OrderByFirst(items[..n], i, j);
    } else {
      OrderMembers(items[..n]);
      assert before[i] in before;
      a := FirstOf(items[..n], before[i]);
      b := n;
      forall m | 0 <= m < n ensures items[m].subject != items[n].subject {
        assert items[..n][m].subject == items[m].subject;
      }
    }
  }

  lemma {:induction false} FirstOf(items: seq<Item>, subject: string) returns (k: nat)
    requires Names(items, subject)
    ensures Opens(items, k) && items[k].subject == subject
  {
    var n := |items| - 1;
    if Names(items[..n], subject) {
      k := FirstOf(items[..n], subject);
    } else {
      forall m | 0 <= m < n ensures items[m].subject != subject {
        assert items[..n][m] == items[m];
      }
      k := n;
    }
  }

  /** The subjects in order, each with its items. */
  ghost predicate Grouped(items: seq<Item>, order: seq<string>, groups: map<string, seq<Item>>) {
    && order == Order(items) && groups.Keys == (set s | s in order)
    && (forall s :: s in groups ==> groups[s] == Of(items, s))
    && (forall s :: s !in groups ==> Of(items, s) == [])
  }

  lemma OfSteps(items: seq<Item>, x: Item)
    ensures Of(items + [x], x.subject) == Of(items, x.subject) + [x]
    ensures forall s :: s != x.subject ==> Of(items + [x], s) == Of(items, s)
  {
    assert (items + [x])[..|items|] == items;
  }

  lemma OrderStep(items: seq<Item>, x: Item)
    ensures Order(items + [x]) == if x.subject in Order(items) then Order(items) else Order(items) + [x.subject]
  {
    assert (items + [x])[..|items|] == items;
  }

  /** One turn of the loop. */
  method GroupOne(it: Item, order: seq<string>, groups: map<string, seq<Item>>, ghost seen: seq<Item>)
    returns (order': seq<string>, groups': map<string, seq<Item>>)
    requires Grouped(seen, order, groups)
    ensures Grouped(seen + [it], order', groups')
  {
    OfSteps(seen, it);
    OrderStep(seen, it);
    order' := order;
    if it.subject !in groups {
      order' := order + [it.subject];
      groups' := groups[it.subject := [it]];
    } else {
      groups' := groups[it.subject := groups[it.subject] + [it]];
    }
  }

  method GroupBySubject(items: seq<Item>) returns (order: seq<string>, groups: map<string, seq<Item>>)
    ensures order == Order(items)
    ensures groups.Keys == (set s | s in order)
    ensures forall s :: s in groups ==> groups[s] == Of(items, s)
  {
    order, groups := [], map[];
    for i := 0 to |items|
      invariant Grouped(items[..i], order, groups)
    {
      order, groups := GroupOne(items[i], order, groups, items[..i]);
      assert items[..i + 1] == items[..i] + [items[i]];
    }
    assert items[..|items|] == items;
  }

  // ---- Hand-over ----

  /** One message: a batch of items of one subject. */
  datatype Message = Message(subject: string, items: seq<Item>)

  function Batch(items: seq<Item>, order: seq<string>): seq<Message> {
    seq(|order|, i requires 0 <= i < |order| => Message(order[i], Of(items, order[i])))
  }

  /** What publish sends for a batch. */
  function Batches(items: seq<Item>): seq<Message> {
    Batch(items, Order(items))
  }

  /** Everything sent under one subject, in order. */
  function SentOn(messages: seq<Message>, subject: string): seq<Item> {
    if messages == [] then [] else
      var last := messages[|messages| - 1];
      SentOn(messages[..|messages| - 1], subject) + if last.subject == subject then last.items else []
  }

  function Total(messages: seq<Message>): nat {
    if messages == [] then 0 else Total(messages[..|messages| - 1]) + |messages[|messages| - 1].items|
  }

  lemma {:induction false} SentConcat(a: seq<Message>, b: seq<Message>, subject: string)
    ensures SentOn(a + b, subject) == SentOn(a, subject) + SentOn(b, subject)
    ensures Total(a + b) == Total(a) + Total(b)
  {
    if b == [] {
      assert a + b == a;
    } else {
      assert (a + b)[..|a + b| - 1] == a + b[..|b| - 1];
      SentConcat(a, b[..|b| - 1], subject);
    }
  }

  lemma {:induction false} BatchSent(items: seq<Item>, order: seq<string>, subject: string)
    requires Distinct(order)
    ensures SentOn(Batch(items, order), subject) == if subject in order then Of(items, subject) else []
  {
    if order != [] {
      var n := |order| - 1;
      assert Batch(items, order)[..n] == Batch(items, order[..n]);
      assert order == order[..n] + [order[n]] && order[n] !in order[..n];
      BatchSent(items, order[..n], subject);
    }
  }

  lemma {:induction false} OfNothing(items: seq<Item>, subject: string)
    requires !Names(items, subject)
    ensures Of(items, subject) == []
  {
    if items != [] {
      var n := |items| - 1;
      assert items[n].subject != subject;
      assert forall i :: 0 <= i < n ==> items[..n][i] == items[i];
      OfNothing(items[..n], subject);
    }
  }

  /** Per subject, a batch hands over exactly its items in their order. */
  lemma BatchesSent(items: seq<Item>, subject: string)
    ensures SentOn(Batches(items), subject) == Of(items, subject)
  {
    OrderMembers(items);
    BatchSent(items, Order(items), subject);
    if !Names(items, subject) { OfNothing(items, subject); }
  }

  lemma OfStep(items: seq<Item>, x: Item, subject: string)
    ensures Of(items + [x], subject) == if x.subject == subject then Of(items, subject) + [x] else Of(items, subject)
  {
    assert (items + [x])[..|items|] == items;
  }

  /** One more item makes one message longer by one. */
  lemma {:induction false} BatchGrows(items: seq<Item>, x: Item, order: seq<string>)
    requires Distinct(order)
    ensures Total(Batch(items + [x], order)) == Total(Batch(items, order)) + if x.subject in order then 1 else 0
  {
    if order != [] {
      var n := |order| - 1;
      assert Batch(items, order)[..n] == Batch(items, order[..n]);
      assert Batch(items + [x], order)[..n] == Batch(items + [x], order[..n]);
      assert order == order[..n] + [order[n]] && order[n] !in order[..n];
      BatchGrows(items, x, order[..n]);
      OfStep(items, x, order[n]);
    }
  }

  /** No item is handed over twice or left out. */
  lemma {:induction false} BatchesTotal(items: seq<Item>)
    ensures Total(Batches(items)) == |items|
  {
    if items != [] {
      var n := |items| - 1;
      var before, x := items[..n], items[n];
      assert items == before + [x];
      BatchesTotal(before);
      OrderMembers(before);
      BatchGrows(before, x, Order(before));
      if x.subject !in Order(before) {
        OfStep(before, x, x.subject);
        OfNothing(before, x.subject);
        BatchLonger(items, Order(before), x.subject);
      }
    }
  }

  lemma BatchLonger(items: seq<Item>, order: seq<string>, subject: string)
    ensures Total(Batch(items, order + [subject])) == Total(Batch(items, order)) + |Of(items, subject)|
  {
    var longer := Batch(items, order + [subject]);
    assert longer[..|order|] == Batch(items, order);
  }

  // ---- The sink, step by step ----

  /** `hand` is the batch taken but not yet published. */
  datatype State = State(pending: seq<Item>, size: nat, dropped: nat, hand: seq<Item>, sent: seq<Message>)

  datatype Event = Add(item: Item) | Take | Publish

  const EMPTY := State([], 0, 0, [], [])

  /** How many of the oldest must go when one more is pending. */
  function Cut(s: State): nat {
    if |s.pending| + 1 > MAX_PENDING then |s.pending| + 1 - MAX_PENDING else 0
  }

  /** How many the flusher takes at once. */
  function BatchSize(s: State): nat {
    if |s.pending| > MAX_ITEMS then MAX_ITEMS else |s.pending|
  }

  function AddTo(s: State, item: Item): State {
    var pending := (s.pending + [item])[Cut(s)..];
    s.(pending := pending, size := SizeOf(pending), dropped := s.dropped + Cut(s))
  }

  /** The flusher takes a batch when it holds none. */
  function TakeFrom(s: State): State {
    if s.hand != [] then s else
    var n := BatchSize(s);
    s.(pending := s.pending[n..], size := SizeOf(s.pending[n..]), hand := s.pending[..n])
  }

  function PublishIn(s: State): State {
    s.(hand := [], sent := s.sent + Batches(s.hand))
  }

  function Step(s: State, e: Event): State {
    match e
    case Add(item) => AddTo(s, item)
    case Take => TakeFrom(s)
    case Publish => PublishIn(s)
  }

  function Run(events: seq<Event>): State {
    if events == [] then EMPTY else Step(Run(events[..|events| - 1]), events[|events| - 1])
  }

  // ---- What became of every item ----

  function Added(events: seq<Event>): seq<Item> {
    if events == [] then [] else
      var e := events[|events| - 1];
      Added(events[..|events| - 1]) + if e.Add? then [e.item] else []
  }

  /** An item that is no longer pending: given up, or taken for hand-over. */
  datatype Departure = Departure(item: Item, lost: bool)

  function Marked(items: seq<Item>, lost: bool): seq<Departure> {
    seq(|items|, i requires 0 <= i < |items| => Departure(items[i], lost))
  }

  /** The items an event takes from the front of the queue. */
  function Leaving(s: State, e: Event): seq<Departure> {
    match e
    case Add(item) => Marked((s.pending + [item])[..Cut(s)], true)
    case Take => if s.hand != [] then [] else Marked(s.pending[..BatchSize(s)], false)
    case Publish => []
  }

  function Departed(events: seq<Event>): seq<Departure> {
    if events == [] then [] else
      var before := events[..|events| - 1];
      Departed(before) + Leaving(Run(before), events[|events| - 1])
  }

  function Items(log: seq<Departure>): seq<Item> {
    seq(|log|, i requires 0 <= i < |log| => log[i].item)
  }

  function Taken(log: seq<Departure>): seq<Item> {
    if log == [] then [] else
      var last := log[|log| - 1];
      Taken(log[..|log| - 1]) + if last.lost then [] else [last.item]
  }

  lemma {:induction false} TakenConcat(a: seq<Departure>, b: seq<Departure>)
    ensures Taken(a + b) == Taken(a) + Taken(b)
  {
    if b == [] {
      assert a + b == a;
    } else {
      assert (a + b)[..|a + b| - 1] == a + b[..|b| - 1];
      TakenConcat(a, b[..|b| - 1]);
    }
  }

  lemma {:induction false} TakenMarked(items: seq<Item>, lost: bool)
    ensures Taken(Marked(items, lost)) == if lost then [] else items
    ensures Items(Marked(items, lost)) == items
  {
    if items != [] {
      var n := |items| - 1;
      assert Marked(items, lost)[..n] == Marked(items[..n], lost);
      TakenMarked(items[..n], lost);
      assert items == items[..n] + [items[n]];
    }
  }

  /** What holds of a sink, given all it was ever handed and all that left its queue. */
  ghost predicate Sound(s: State, added: seq<Item>, log: seq<Departure>) {
    && |s.pending| <= MAX_PENDING && s.size == SizeOf(s.pending)
    && added == Items(log) + s.pending
    && s.dropped == |log| - |Taken(log)|
    && Total(s.sent) + |s.hand| == |Taken(log)|
    && forall subject :: SentOn(s.sent, subject) + Of(s.hand, subject) == Of(Taken(log), subject)
  }

  lemma ItemsConcat(a: seq<Departure>, b: seq<Departure>)
    ensures Items(a + b) == Items(a) + Items(b)
  {
  }

  /** The queue loses its front to the log, and nothing else. */
  lemma Conserved(pending: seq<Item>, n: nat, log: seq<Departure>, lost: bool, added: seq<Item>)
    requires n <= |pending| && added == Items(log) + pending
    ensures added == Items(log + Marked(pending[..n], lost)) + pending[n..]
    ensures Taken(log + Marked(pending[..n], lost)) == Taken(log) + if lost then [] else pending[..n]
  {
    ItemsConcat(log, Marked(pending[..n], lost));
    TakenMarked(pending[..n], lost);
    TakenConcat(log, Marked(pending[..n], lost));
    Moved(Items(log), pending, n);
  }

  lemma Moved(front: seq<Item>, pending: seq<Item>, n: nat)
    requires n <= |pending|
    ensures front + pending == front + pending[..n] + pending[n..]
  {
  }

  lemma SoundAdd(s: State, item: Item, added: seq<Item>, log: seq<Departure>)
    requires Sound(s, added, log)
    ensures Sound(AddTo(s, item), added + [item], log + Leaving(s, Add(item)))
  {
    var pending := s.pending + [item];
    assert added + [item] == Items(log) + pending;
    Conserved(pending, Cut(s), log, true, added + [item]);
    assert Taken(log) + [] == Taken(log);
  }

  lemma SoundTake(s: State, added: seq<Item>, log: seq<Departure>)
    requires Sound(s, added, log)
    ensures Sound(TakeFrom(s), added, log + Leaving(s, Take))
  {
    if s.hand != [] {
      assert log + [] == log;
    } else {
      var batch := s.pending[..BatchSize(s)];
      Conserved(s.pending, BatchSize(s), log, false, added);
      forall subject
        ensures SentOn(s.sent, subject) + Of(batch, subject) == Of(Taken(log) + batch, subject)
      {
        OfConcat(Taken(log), batch, subject);
        assert SentOn(s.sent, subject) + [] == SentOn(s.sent, subject);
      }
    }
  }

  lemma SoundPublish(s: State, added: seq<Item>, log: seq<Departure>)
    requires Sound(s, added, log)
    ensures Sound(PublishIn(s), added, log + [])
  {
    assert log + [] == log;
    BatchesTotal(s.hand);
    forall subject
      ensures SentOn(s.sent + Batches(s.hand), subject) == SentOn(s.sent, subject) + Of(s.hand, subject)
      ensures Total(s.sent + Batches(s.hand)) == Total(s.sent) + |s.hand|
    {
      SentConcat(s.sent, Batches(s.hand), subject);
      BatchesSent(s.hand, subject);
    }
    SentConcat(s.sent, Batches(s.hand), "");
  }

  /**
   Over every interleaving of adds and flushes: `size` is the size of what is
   pending, which stays within the cap; what was added is what left the queue
   followed by what is pending, so only the oldest ever go; what left was either
   given up and counted, or is handed over or in hand; and under each subject the
   hand-over follows the order of the adds.
   */
  lemma {:induction false} SoundRun(events: seq<Event>)
    ensures Sound(Run(events), Added(events), Departed(events))
  {
    if events != [] {
      var before, e := events[..|events| - 1], events[|events| - 1];
      SoundRun(before);
      var s, added, log := Run(before), Added(before), Departed(before);
      match e
      case Add(item) => SoundAdd(s, item, added, log);
      case Take => SoundTake(s, added, log);
      case Publish => SoundPublish(s, added, log);
      assert added + [] == added;
    }
  }

  /** An add keeps the newest, up to the cap: nothing is given up within it, and one for one beyond it. */
  lemma AddKeepsNewest(events: seq<Event>, item: Item)
    ensures var s, s' := Run(events), Run(events + [Add(item)]);
      && |s'.pending| == (if |s.pending| < 50000 then |s.pending| + 1 else 50000)
      && s'.pending == s.pending[|s.pending| + 1 - |s'.pending|..] + [item]
      && s'.dropped == s.dropped + (if |s.pending| < 50000 then 0 else 1)
      && s'.hand == s.hand && s'.sent == s.sent
  {
    SizeRight(events);
    assert (events + [Add(item)])[..|events|] == events;
  }

  /** A flush takes the oldest, up to 256 of them. */
  lemma TakeOldest(events: seq<Event>)
    requires Run(events).hand == []
    ensures var s, s' := Run(events), Run(events + [Take]);
      && s'.hand + s'.pending == s.pending && |s'.hand| == (if |s.pending| <= 256 then |s.pending| else 256)
      && s'.dropped == s.dropped && s'.sent == s.sent
  {
    assert (events + [Take])[..|events|] == events;
  }

  lemma SizeRight(events: seq<Event>)
    ensures Run(events).size == SizeOf(Run(events).pending) && |Run(events).pending| <= MAX_PENDING
  {
    SoundRun(events);
  }

  /** Added is handed over, in hand, pending or dropped, in number. */
  lemma NothingUnaccounted(events: seq<Event>)
    ensures var s := Run(events);
      |Added(events)| == Total(s.sent) + |s.hand| + |s.pending| + s.dropped
  {
    SoundRun(events);
  }

  // ---- The sink as it runs ----

  class Sink {
    var pending: seq<Item>
    var size: nat
    var dropped: nat
    var hand: seq<Item>
    var sent: seq<Message>
    ghost var events: seq<Event>  // every step so far, of whichever goroutine

    ghost function Now(): State
      reads this
    {
      State(pending, size, dropped, hand, sent)
    }

    ghost predicate Valid()
      reads this
    {
      Now() == Run(events)
    }

    constructor ()
      ensures Valid() && Now() == EMPTY && events == []
    {
      pending, size, dropped, hand, sent, events := [], 0, 0, [], [], [];
    }

    ghost method Note(e: Event)
      requires Now() == Step(Run(events), e)
      modifies this`events
      ensures Valid() && events == old(events) + [e]
    {
      assert (events + [e])[..|events|] == events;
      events := events + [e];
    }

    /** An event without a subject is not kept; `full` asks for a flush. */
    method Add(subject: string, body: seq<byte>) returns (full: bool)
      requires Valid()
      modifies this
      ensures Valid() && events == old(events) + if subject == "" then [] else [Event.Add(Item(subject, body))]
      ensures Now() == if subject == "" then old(Now()) else AddTo(old(Now()), Item(subject, body))
      ensures full == (subject != "" && (|pending| >= 256 || size >= 524288))
    {
      if subject == "" { return false; }
      var item := Item(subject, body);
      Push(item);
      Note(Event.Add(item));
      full := |pending| >= MAX_ITEMS || size >= MAX_SIZE;
    }

    method Push(item: Item)
      requires Valid()
      modifies this`pending, this`size, this`dropped
      ensures Now() == AddTo(old(Now()), item)
    {
      SizeRight(events);
      assert (pending + [item])[..|pending|] == pending;
      assert (pending + [item])[0..] == pending + [item];
      pending := pending + [item];
      size := size + |item.body| + 2;
      if |pending| > MAX_PENDING {
        var cut := |pending| - MAX_PENDING;
        dropped := dropped + cut;
        pending := pending[cut..];
        size := CountSize(pending);
      }
    }

    /** The locked half of a turn of flush. */
    method Take() returns (more: bool)
      requires Valid() && hand == []
      modifies this
      ensures Valid() && more == (old(pending) != []) && Now() == TakeFrom(old(Now()))
      ensures events == old(events) + [Event.Take]
    {
      if |pending| == 0 {
        SizeRight(events);
        Note(Event.Take);
        return false;
      }
      var n := |pending|;
      if n > MAX_ITEMS { n := MAX_ITEMS; }
      hand := pending[..n];
      pending := pending[n..];
      size := CountSize(pending);
      Note(Event.Take);
      return true;
    }

    /** The unlocked half: the batch goes out, message by message. */
    method Publish()
      requires Valid()
      modifies this
      ensures Valid() && Now() == PublishIn(old(Now())) && events == old(events) + [Event.Publish]
    {
      SendAll();
      hand := [];
      Note(Event.Publish);
    }

    method SendAll()
      modifies this`sent
      ensures sent == old(sent) + Batches(hand)
    {
      if |hand| == 1 {
        Single(hand[0]);
        assert hand == [hand[0]];
        sent := sent + [Message(hand[0].subject, hand)];
        return;
      }
      var order, groups := GroupBySubject(hand);
      for i := 0 to |order|
        invariant sent == old(sent) + Batch(hand, order)[..i]
      {
        sent := sent + [Message(order[i], groups[order[i]])];
      }
    }

    /** With nobody adding, as on Close, a flush empties the queue. */
    method Flush()
      requires Valid() && hand == []
      modifies this
      ensures Valid() && pending == [] && hand == [] && dropped == old(dropped)
      ensures forall subject :: SentOn(sent, subject) == SentOn(old(sent), subject) + Of(old(pending), subject)
    {
      while true
        invariant Valid() && hand == [] && dropped == old(dropped)
        invariant forall subject ::
          SentOn(sent, subject) + Of(pending, subject) == SentOn(old(sent), subject) + Of(old(pending), subject)
        decreases |pending|
      {
        ghost var s := Now();
        var more := Take();
        if !more { return; }
        Publish();
        forall subject
          ensures SentOn(sent, subject) + Of(pending, subject) == SentOn(s.sent, subject) + Of(s.pending, subject)
        {
          Flushed(s, subject);
        }
      }
    }
  }

  lemma Single(x: Item)
    ensures Batches([x]) == [Message(x.subject, [x])]
  {
    assert [x][..0] == [];
    assert Order([x]) == [x.subject];
    assert Of([x], x.subject) == [x];
  }

  lemma Flushed(s: State, subject: string)
    requires s.hand == []
    ensures var s' := PublishIn(TakeFrom(s));
      SentOn(s'.sent, subject) + Of(s'.pending, subject) == SentOn(s.sent, subject) + Of(s.pending, subject)
  {
    var batch, rest := s.pending[..BatchSize(s)], s.pending[BatchSize(s)..];
    assert s.pending == batch + rest;
    OfConcat(batch, rest, subject);
    SentConcat(s.sent, Batches(batch), subject);
    BatchesSent(batch, subject);
  }
}
