/**
 The cookies of a reply (cmd/inspector/handler.go, apply): the outcome of the rules
 turned into entries, at most one for each name.
 */
module Reply {
  import opened Sequences
  import opened Text
  import opened Cookie
  import opened CookieHeader
  import opened Rules

  datatype Entry = Entry(name: string, value: string, path: string, maxAge: Option<int>)

  /** Go's division of durations truncates. */
  function Seconds(d: int): int {
    if d >= 0 then d / SECOND else -(-d / SECOND)
  }

  function Issuing(c: Decl, text: string): Entry {
    Entry(c.name, text, c.path, if c.maxAge.Some? then Some(Seconds(c.maxAge.value)) else None)
  }

  function Dropping(c: Decl): Entry {
    Entry(c.name, "", c.path, Some(0))
  }

  /** An error of Issue that fails the reply; a missing value does not. */
  predicate Fails(r: Issued) {
    !r.Value? && r != NoValue
  }

  /** A missing key, a missing number and a value too long fail; a request without a value does not. */
  lemma FailsMeans(r: Issued)
    ensures Fails(r) <==> r == NoSecret || r == NoRandom || r == TooLong
  {
  }

  /** The entries that issuing these cookies gives, with `issue` the outcome for each. */
  function IssueEntries(cs: seq<Decl>, issue: Decl -> Issued): seq<Entry> {
    if cs == [] then [] else
      var c := cs[|cs| - 1];
      IssueEntries(cs[..|cs| - 1], issue) + if issue(c).Value? then [Issuing(c, issue(c).text)] else []
  }

  function DropEntries(cs: seq<Decl>): seq<Entry> {
    if cs == [] then [] else DropEntries(cs[..|cs| - 1]) + [Dropping(cs[|cs| - 1])]
  }

  /** What the request knows of cookies afterwards: an issued one is known by its new value. */
  function Known(cs: seq<Decl>, issue: Decl -> Issued, values: map<string, Noted>): map<string, Noted> {
    if cs == [] then values else
      var c := cs[|cs| - 1];
      var before := Known(cs[..|cs| - 1], issue, values);
      if issue(c).Value? then before[c.name := Noted(issue(c).text, issue(c).tag)] else before
  }

  function Empties(cs: seq<Decl>, issue: Decl -> Issued): seq<string> {
    if cs == [] then [] else
      var c := cs[|cs| - 1];
      Empties(cs[..|cs| - 1], issue) + if issue(c).NoValue? then [c.name] else []
  }

  /** How many cookies are issued, or have no value, before the first that fails. */
  function Reached(cs: seq<Decl>, issue: Decl -> Issued): (k: nat)
    ensures k <= |cs| && (forall i :: 0 <= i < k ==> !Fails(issue(cs[i]))) && (k < |cs| ==> Fails(issue(cs[k])))
  {
    if cs == [] || Fails(issue(cs[0])) then 0 else
    var k := Reached(cs[1..], issue);
    assert forall i :: 0 < i <= k ==> cs[i] == cs[1..][i - 1];
    1 + k
  }

  method ApplyOutcome(out: Outcome, values: map<string, Noted>, issue: Decl -> Issued)
    returns (entries: Option<seq<Entry>>, empty: seq<string>, values': map<string, Noted>)
    ensures entries.None? <==> exists i :: 0 <= i < |out.issue| && Fails(issue(out.issue[i]))
    ensures entries.Some? ==> entries.value == IssueEntries(out.issue, issue) + DropEntries(out.drop)
    ensures var done := out.issue[..Reached(out.issue, issue)];
      empty == Empties(done, issue) && values' == Known(done, issue, values)
  {
    var items: seq<Entry> := [];
    empty, values' := [], values;
    for i := 0 to |out.issue|
      invariant forall k :: 0 <= k < i ==> !Fails(issue(out.issue[k]))
      invariant items == IssueEntries(out.issue[..i], issue) && empty == Empties(out.issue[..i], issue)
      invariant values' == Known(out.issue[..i], issue, values)
    {
      var c := out.issue[i];
      assert out.issue[..i + 1][..i] == out.issue[..i] && out.issue[..i + 1][i] == c;
      match issue(c)
      case NoValue => empty := empty + [c.name];
      case Value(text, tag) =>
        items := items + [Issuing(c, text)];
        values' := values'[c.name := Noted(text, tag)];
      case _ =>
        assert Reached(out.issue, issue) == i;
        return None, empty, values';
    }
    assert out.issue[..|out.issue|] == out.issue && Reached(out.issue, issue) == |out.issue|;
    ghost var issued := items;
    for i := 0 to |out.drop|
      invariant items == issued + DropEntries(out.drop[..i])
    {
      assert out.drop[..i + 1][..i] == out.drop[..i] && out.drop[..i + 1][i] == out.drop[i];
      items := items + [Dropping(out.drop[i])];
    }
    assert out.drop[..|out.drop|] == out.drop;
    entries := Some(items);
  }

  // ---- At most one entry for each name ----

  /** Some entry has the name. */
  predicate Lists(entries: seq<Entry>, name: string) {
    exists i :: 0 <= i < |entries| && entries[i].name == name
  }

  predicate DistinctEntries(entries: seq<Entry>) {
    forall i, j :: 0 <= i < j < |entries| ==> entries[i].name != entries[j].name
  }

  lemma {:induction false} IssueEntriesNames(cs: seq<Decl>, issue: Decl -> Issued)
    requires DistinctNames(cs)
    ensures DistinctEntries(IssueEntries(cs, issue))
    ensures forall e :: e in IssueEntries(cs, issue) ==>
      exists k :: 0 <= k < |cs| && issue(cs[k]).Value? && e == Issuing(cs[k], issue(cs[k]).text)
  {
    if cs != [] {
      var before, last := IssueEntries(cs[..|cs| - 1], issue), cs[|cs| - 1];
      IssueEntriesNames(cs[..|cs| - 1], issue);
      forall i | 0 <= i < |before|
        ensures before[i].name != last.name
      {
        assert before[i] in before;
      }
    }
  }

  lemma {:induction false} IssueEntriesAll(cs: seq<Decl>, issue: Decl -> Issued, k: nat)
    requires k < |cs| && issue(cs[k]).Value?
    ensures Issuing(cs[k], issue(cs[k]).text) in IssueEntries(cs, issue)
  {
    if k < |cs| - 1 {
      IssueEntriesAll(cs[..|cs| - 1], issue, k);
    }
  }

  lemma {:induction false} DropEntriesAre(cs: seq<Decl>)
    ensures |DropEntries(cs)| == |cs| && forall i :: 0 <= i < |cs| ==> DropEntries(cs)[i] == Dropping(cs[i])
  {
    if cs != [] {
      DropEntriesAre(cs[..|cs| - 1]);
    }
  }

  lemma StandDistinct(cookies: seq<Decl>, picked: seq<Decl>, names: seq<string>)
    requires Stand(cookies, picked, names) && Distinct(names)
    ensures DistinctNames(picked)
  {
    forall i, j | 0 <= i < j < |picked|
      ensures picked[i].name != picked[j].name
    {
      assert names[i] != names[j];
    }
  }

  /** A dropped cookie is sent empty, with its path, to expire at once. */
  lemma DropEntryIs(cs: seq<Decl>, i: nat)
    requires i < |cs|
    ensures |DropEntries(cs)| == |cs| && DropEntries(cs)[i] == Entry(cs[i].name, "", cs[i].path, Some(0))
  {
    DropEntriesAre(cs);
  }

  /** An issued one is sent with its value and path, and with its age in whole seconds when it has one. */
  lemma IssueEntryIs(cs: seq<Decl>, issue: Decl -> Issued, e: Entry)
    requires DistinctNames(cs) && e in IssueEntries(cs, issue)
    ensures exists i :: 0 <= i < |cs| && issue(cs[i]).Value? && Carries(e, cs[i], issue(cs[i]).text)
  {
    IssueEntriesNames(cs, issue);
    var i :| 0 <= i < |cs| && issue(cs[i]).Value? && e == Issuing(cs[i], issue(cs[i]).text);
    assert Carries(e, cs[i], issue(cs[i]).text);
  }

  predicate Carries(e: Entry, c: Decl, text: string) {
    e.name == c.name && e.value == text && e.path == c.path && Age(c.maxAge, e.maxAge)
  }

  predicate Age(d: Option<int>, secs: Option<int>) {
    && (d.None? <==> secs.None?)
    && (d.Some? && d.value >= 0 ==> secs.value * 1_000_000_000 <= d.value < (secs.value + 1) * 1_000_000_000)
  }

  /** Afterwards an issued cookie is known by its new value and tag, and every other as before. */
  lemma {:induction false} KnownMeans(cs: seq<Decl>, issue: Decl -> Issued, values: map<string, Noted>, name: string)
    requires DistinctNames(cs)
    ensures var after := Known(cs, issue, values);
      && (forall i :: 0 <= i < |cs| && cs[i].name == name && issue(cs[i]).Value? ==>
            name in after && after[name] == Noted(issue(cs[i]).text, issue(cs[i]).tag))
      && ((forall i :: 0 <= i < |cs| && cs[i].name == name ==> !issue(cs[i]).Value?) ==>
            (name in after <==> name in values) && (name in values ==> after[name] == values[name]))
  {
    if cs != [] {
      var n := |cs| - 1;
      KnownMeans(cs[..n], issue, values, name);
      assert forall i :: 0 <= i < n ==> cs[..n][i] == cs[i];
    }
  }

  /** The empty names are those of the cookies the request has no value for. */
  lemma {:induction false} EmptiesMean(cs: seq<Decl>, issue: Decl -> Issued, name: string)
    ensures name in Empties(cs, issue) <==> exists i :: 0 <= i < |cs| && cs[i].name == name && issue(cs[i]) == NoValue
  {
    if cs != [] {
      var n := |cs| - 1;
      EmptiesMean(cs[..n], issue, name);
      assert forall i :: 0 <= i < n ==> cs[..n][i] == cs[i];
    }
  }

  /** Two lists of entries that share no name, each without repetition. */
  lemma DistinctConcat(a: seq<Entry>, b: seq<Entry>)
    requires DistinctEntries(a) && DistinctEntries(b)
    requires forall i, j :: 0 <= i < |a| && 0 <= j < |b| ==> a[i].name != b[j].name
    ensures DistinctEntries(a + b)
  {
  }

  /** Nothing is both issued and dropped. */
  lemma Apart(p: Profile, t: Target, out: Outcome, i: nat, j: nat)
    requires Stand(p.cookies, out.issue, IssueNames(p, t)) && Stand(p.cookies, out.drop, DropNames(p, t))
    requires i < |out.issue| && j < |out.drop|
    ensures out.issue[i].name != out.drop[j].name
  {
    var a, b := out.issue[i].name, out.drop[j].name;
    DropBeatsIssue(p, t, a);
    assert IssueNames(p, t)[i] == a && DropNames(p, t)[j] == b;
    assert a in IssueNames(p, t) && b in DropNames(p, t);
  }

  /** The reply to what Collect found carries at most one entry for each cookie name. */
  lemma OneEntryEach(p: Profile, t: Target, out: Outcome, issue: Decl -> Issued)
    requires Stand(p.cookies, out.issue, IssueNames(p, t)) && Stand(p.cookies, out.drop, DropNames(p, t))
    ensures DistinctEntries(IssueEntries(out.issue, issue) + DropEntries(out.drop))
  {
    var a, b := IssueEntries(out.issue, issue), DropEntries(out.drop);
    DropBeatsIssue(p, t, "");
    StandDistinct(p.cookies, out.issue, IssueNames(p, t));
    StandDistinct(p.cookies, out.drop, DropNames(p, t));
    IssueEntriesNames(out.issue, issue);
    DropEntriesAre(out.drop);
    forall i, j | 0 <= i < |a| && 0 <= j < |b|
      ensures a[i].name != b[j].name
    {
      assert a[i] in a;
      var k :| 0 <= k < |out.issue| && issue(out.issue[k]).Value?
        && a[i] == Issuing(out.issue[k], issue(out.issue[k]).text);
      Apart(p, t, out, k, j);
    }
    DistinctConcat(a, b);
  }

  /**
   An expired entry stands for exactly the names the rules drop, a value for
   exactly the names they issue, do not drop, and have a value for.
   */
  lemma EntryFor(p: Profile, t: Target, out: Outcome, issue: Decl -> Issued, name: string)
    requires Stand(p.cookies, out.issue, IssueNames(p, t)) && Stand(p.cookies, out.drop, DropNames(p, t))
    ensures Lists(DropEntries(out.drop), name) <==> name in DropNames(p, t)
    ensures Lists(IssueEntries(out.issue, issue), name) <==>
      exists i :: 0 <= i < |out.issue| && out.issue[i].name == name && issue(out.issue[i]).Value?
  {
    DropEntriesAre(out.drop);
    DropBeatsIssue(p, t, "");
    StandDistinct(p.cookies, out.issue, IssueNames(p, t));
    IssueEntriesNames(out.issue, issue);
    var a := IssueEntries(out.issue, issue);
    if Lists(a, name) {
      var i :| 0 <= i < |a| && a[i].name == name;
      assert a[i] in a;
    }
    forall i | 0 <= i < |out.issue| && out.issue[i].name == name && issue(out.issue[i]).Value?
      ensures Lists(a, name)
    {
      IssueEntriesAll(out.issue, issue, i);
    }
    if name in DropNames(p, t) {
      var i :| 0 <= i < |DropNames(p, t)| && DropNames(p, t)[i] == name;
      assert DropEntries(out.drop)[i].name == name;
    }
  }
}
