/**
 The rules of a profile (internal/policy/policy.go): which of them fire, what they
 issue, drop and ask for, and why the order of the rows does not matter.
 */
module Rules {
  import opened Sequences
  import opened Text
  import opened Cookie

  datatype Match = Match(prefix: string, suffixes: seq<string>, fixed: bool, methods: seq<string>)
  datatype ListCheck = ListCheck(list: string, negated: bool, fixed: bool, values: set<string>, hashed: bool)
  datatype Ask = Ask(verb: string, marker: string, cookie: string)
  datatype Write = Write(list: string, cookie: string)

  /** `tagSet` is the index of a long tag list. */
  datatype Rule = Rule(
    name: string, shape: Match, phase: string, status: seq<int>, on: string, cookie: string,
    tags: seq<string>, tagsNot: bool, tagSet: Option<set<string>>, listed: Option<ListCheck>,
    issue: string, drop: string, asks: seq<Ask>, writes: seq<Write>, overload: bool, at: int)

  datatype Profile = Profile(cookies: seq<Decl>, rules: seq<Rule>)

  datatype Answer = Answer(found: bool, ready: bool)

  /** `sets` looks a value up in a mirrored list; None when there is no mirror. */
  datatype Target = Target(
    phase: string, verb: string, uri: string, status: int,
    states: map<string, string>, tags: map<string, string>,
    sets: Option<(string, string) -> Answer>, md5: string -> string)

  function Get(m: map<string, string>, k: string): string {
    if k in m then m[k] else ""
  }

  // ---- The match of a rule ----

  const STATIC_SUFFIXES := [".css", ".js", ".mjs", ".map", ".png", ".jpg", ".jpeg", ".gif", ".svg", ".ico", ".webp",
                           ".avif", ".woff", ".woff2", ".ttf", ".eot"]

  predicate Ends(s: string, end: string) {
    |end| <= |s| && s[|s| - |end|..] == end
  }

  predicate EndsInOne(s: string, suffixes: seq<string>) {
    exists i :: 0 <= i < |suffixes| && Ends(s, suffixes[i])
  }

  predicate FoldsToOne(verb: string, methods: seq<string>) {
    exists i :: 0 <= i < |methods| && Lowered(methods[i]) == Lowered(verb)
  }

  /** A request matches when each given part of the match does. */
  predicate Matches(m: Match, verb: string, uri: string) {
    var suffixes := if m.fixed then m.suffixes + STATIC_SUFFIXES else m.suffixes;
    && m.prefix <= uri
    && (m.methods != [] ==> FoldsToOne(verb, m.methods))
    && (suffixes != [] ==> EndsInOne(Lowered(uri), suffixes))
  }

  method AnySuffix(s: string, suffixes: seq<string>) returns (ok: bool)
    ensures ok == EndsInOne(s, suffixes)
  {
    for i := 0 to |suffixes|
      invariant forall k :: 0 <= k < i ==> !Ends(s, suffixes[k])
    {
      if Ends(s, suffixes[i]) { return true; }
    }
    return false;
  }

  method AnyMethod(verb: string, methods: seq<string>) returns (ok: bool)
    ensures ok == FoldsToOne(verb, methods)
  {
    for i := 0 to |methods|
      invariant forall k :: 0 <= k < i ==> Lowered(methods[k]) != Lowered(verb)
    {
      if Lowered(methods[i]) == Lowered(verb) { return true; }
    }
    return false;
  }

  method DoesMatch(m: Match, verb: string, uri: string) returns (ok: bool)
    ensures ok <==> Matches(m, verb, uri)
  {
    if m.prefix != "" && !(m.prefix <= uri) { return false; }
    if |m.methods| > 0 {
      ok := AnyMethod(verb, m.methods);
      if !ok { return false; }
    }
    var suffixes := m.suffixes;
    if m.fixed { suffixes := suffixes + STATIC_SUFFIXES; }
    if |suffixes| > 0 {
      ok := AnySuffix(Lowered(uri), suffixes);
      if !ok { return false; }
    }
    return true;
  }

  // ---- Tags ----

  const TAGS_INDEXED := 8

  /** The index holds the tags of a long list, as parsing leaves it. */
  predicate Indexed(r: Rule) {
    r.tagSet == if |r.tags| > TAGS_INDEXED then Some(set x | x in r.tags) else None
  }

  method Index(tags: seq<string>) returns (tagSet: Option<set<string>>)
    ensures tagSet == if |tags| > TAGS_INDEXED then Some(set x | x in tags) else None
  {
    if |tags| <= TAGS_INDEXED { return None; }
    var s: set<string> := {};
    for i := 0 to |tags|
      invariant s == set x | x in tags[..i]
    {
      assert tags[..i + 1] == tags[..i] + [tags[i]];
      s := s + {tags[i]};
    }
    assert tags[..|tags|] == tags;
    return Some(s);
  }

  /** hasTag: the index answers as the list would. */
  predicate HasTag(r: Rule, v: string)
    requires Indexed(r)
    ensures HasTag(r, v) <==> v in r.tags
  {
    if r.tagSet.Some? then v in r.tagSet.value else v in r.tags
  }

  // ---- When a rule fires ----

  function Hashed(l: ListCheck, v: string, md5: string -> string): string {
    if l.hashed then md5(v) else v
  }

  /** Whether the value is in the list; missing data is never a match. */
  predicate In(t: Target, l: ListCheck, v: string) {
    v != "" &&
    if l.fixed then Hashed(l, v, t.md5) in l.values
    else t.sets.Some? && t.sets.value(l.list, Hashed(l, v, t.md5)).found
  }

  /** The lookup found the mirror without the list. */
  predicate Unready(t: Target, l: ListCheck, v: string) {
    v != "" && !l.fixed && (t.sets.None? || !t.sets.value(l.list, Hashed(l, v, t.md5)).ready)
  }

  /** Everything a rule demands before its list is consulted. */
  predicate Reaches(r: Rule, t: Target) {
    && !r.overload && (r.phase == "" || r.phase == t.phase)
    && Matches(r.shape, t.verb, t.uri)
    && (r.status != [] ==> t.status in r.status)
    && (r.on != "" ==> Get(t.states, r.cookie) == r.on)
    && (r.tags != [] ==> (Get(t.tags, r.cookie) in r.tags) != r.tagsNot)
  }

  predicate Fires(r: Rule, t: Target) {
    Reaches(r, t) && (r.listed.Some? ==> In(t, r.listed.value, Get(t.tags, r.cookie)) != r.listed.value.negated)
  }

  /** The list a rule leaves a note of. */
  predicate NotesOf(r: Rule, t: Target, list: string) {
    Reaches(r, t) && r.listed.Some? && r.listed.value.list == list && Unready(t, r.listed.value, Get(t.tags, r.cookie))
  }

  // ---- What each condition of a rule means ----

  /** A rule without conditions. */
  predicate Unconditional(r: Rule) {
    && !r.overload && r.shape == Match("", [], false, []) && r.phase == "" && r.status == [] && r.on == ""
    && r.tags == [] && r.listed == None
  }

  /** It fires on every request. */
  lemma UnconditionalFires(r: Rule, t: Target)
    requires Unconditional(r)
    ensures Fires(r, t)
  {
  }

  /** Each condition narrows a rule by what it says, whatever the other conditions are. */
  lemma ConditionsNarrow(r: Rule, t: Target)
    ensures r.overload ==> !Fires(r, t)
    ensures Fires(r, t) <==> Fires(r.(phase := ""), t) && (r.phase == "" || r.phase == t.phase)
    ensures Fires(r, t) <==> Fires(r.(status := []), t) && (r.status == [] || t.status in r.status)
    ensures Fires(r, t) <==>
      Fires(r.(on := ""), t) && (r.on == "" || (r.cookie in t.states && t.states[r.cookie] == r.on))
    ensures Fires(r, t) <==> Fires(r.(shape := Match("", [], false, [])), t) && Matches(r.shape, t.verb, t.uri)
  {
  }

  /** Tags ask for a value among them, or with `tagsNot` for anything else, no value included. */
  lemma TagsNarrow(r: Rule, t: Target)
    requires r.tags != []
    ensures r.cookie in t.tags ==>
      (Fires(r, t) <==> Fires(r.(tags := []), t) && (t.tags[r.cookie] in r.tags) != r.tagsNot)
    ensures r.cookie !in t.tags && "" !in r.tags ==> (Fires(r, t) <==> Fires(r.(tags := []), t) && r.tagsNot)
  {
  }

  /** A match is prefix, one of the methods, and one of the suffixes, each only when given. */
  lemma MatchesMeans(m: Match, verb: string, uri: string, i: nat)
    ensures !(m.prefix <= uri) ==> !Matches(m, verb, uri)
    ensures m.methods == [] && m.suffixes == [] && !m.fixed ==> (Matches(m, verb, uri) <==> m.prefix <= uri)
    ensures m.prefix == "" && m.suffixes == [] && !m.fixed ==>
      i < |m.methods| && Lowered(m.methods[i]) == Lowered(verb) ==> Matches(m, verb, uri)
    ensures m.prefix == "" && m.methods == [] && i < |m.suffixes| && Ends(Lowered(uri), m.suffixes[i]) ==>
      Matches(m, verb, uri)
    ensures m.prefix == "" && m.methods == [] && m.fixed && Ends(Lowered(uri), ".css") ==> Matches(m, verb, uri)
  {
    if m.fixed {
      var all := m.suffixes + STATIC_SUFFIXES;
      assert all[|m.suffixes|] == ".css";
      if i < |m.suffixes| { assert all[i] == m.suffixes[i]; }
    }
  }

  /**
   Missing data never turns into a match: without a value, and with a list the
   mirror does not have, "in" is false and "not in" is true, and only the second
   leaves a note.
   */
  lemma MissingNeverMatches(r: Rule, t: Target)
    requires r.listed.Some?
    requires Get(t.tags, r.cookie) == "" || (!r.listed.value.fixed && t.sets.None?)
    ensures Fires(r, t) <==> Fires(r.(listed := None), t) && r.listed.value.negated
    ensures NotesOf(r, t, r.listed.value.list) ==> Get(t.tags, r.cookie) != "" && !r.listed.value.fixed
  {
  }

  /** A value is looked up as it is, or hashed when the list keeps hashes: in the rule's own set, or in the mirror. */
  lemma ListedMeans(r: Rule, t: Target)
    requires r.listed.Some? && Get(t.tags, r.cookie) != "" && (r.listed.value.fixed || t.sets.Some?)
    ensures var l, v := r.listed.value, Get(t.tags, r.cookie);
      var k := if l.hashed then t.md5(v) else v;
      var found := if l.fixed then k in l.values else t.sets.value(l.list, k).found;
      Fires(r, t) <==> Fires(r.(listed := None), t) && found != l.negated
  {
  }

  method DoesReach(r: Rule, t: Target) returns (ok: bool)
    requires Indexed(r)
    ensures ok == Reaches(r, t)
  {
    if r.overload || (r.phase != "" && r.phase != t.phase) { return false; }
    ok := DoesMatch(r.shape, t.verb, t.uri);
    if !ok { return false; }
    if |r.status| > 0 && t.status !in r.status { return false; }
    if r.on != "" && Get(t.states, r.cookie) != r.on { return false; }
    if |r.tags| > 0 && HasTag(r, Get(t.tags, r.cookie)) == r.tagsNot { return false; }
    return true;
  }

  // ---- Declared cookies ----

  predicate Declared(cookies: seq<Decl>, name: string) {
    exists i :: 0 <= i < |cookies| && cookies[i].name == name
  }

  /** Profile.Cookie: the declaration of the name. */
  method FindCookie(cookies: seq<Decl>, name: string) returns (c: Option<Decl>)
    ensures c.Some? <==> Declared(cookies, name)
    ensures c.Some? ==> c.value in cookies && c.value.name == name
  {
    for i := 0 to |cookies|
      invariant forall k :: 0 <= k < i ==> cookies[k].name != name
    {
      if cookies[i].name == name { return Some(cookies[i]); }
    }
    return None;
  }

  /** Parse takes the declarations exactly when no name is declared twice. */
  method DeclareAll(parsed: seq<Decl>) returns (cookies: Option<seq<Decl>>)
    ensures cookies == if DistinctNames(parsed) then Some(parsed) else None
  {
    var out: seq<Decl> := [];
    for i := 0 to |parsed|
      invariant out == parsed[..i] && DistinctNames(out)
    {
      var dup := FindCookie(out, parsed[i].name);
      if dup.Some? {
        assert exists k :: 0 <= k < i && parsed[k].name == parsed[i].name;
        return None;
      }
      out := out + [parsed[i]];
    }
    assert parsed[..|parsed|] == parsed;
    return Some(out);
  }

  // ---- What the fired rules ask for ----

  function Fired(rules: seq<Rule>, t: Target): seq<Rule> {
    if rules == [] then [] else
      Fired(rules[..|rules| - 1], t) + if Fires(rules[|rules| - 1], t) then [rules[|rules| - 1]] else []
  }

  lemma FiredStep(rules: seq<Rule>, r: Rule, t: Target)
    ensures Fired(rules + [r], t) == if Fires(r, t) then Fired(rules, t) + [r] else Fired(rules, t)
  {
    assert (rules + [r])[..|rules|] == rules;
  }

  /** The name a rule issues, or drops. */
  function Named(r: Rule, dropping: bool): string {
    if dropping then r.drop else r.issue
  }

  /** The declared names the rules issue, or drop, each at its first use. */
  function Uses(cookies: seq<Decl>, rules: seq<Rule>, dropping: bool): seq<string> {
    if rules == [] then [] else
      var before := Uses(cookies, rules[..|rules| - 1], dropping);
      var n := Named(rules[|rules| - 1], dropping);
      if n != "" && n !in before && Declared(cookies, n) then before + [n] else before
  }

  function Asks(rules: seq<Rule>): seq<Ask> {
    if rules == [] then [] else Asks(rules[..|rules| - 1]) + rules[|rules| - 1].asks
  }

  function Writes(rules: seq<Rule>): seq<Write> {
    if rules == [] then [] else Writes(rules[..|rules| - 1]) + rules[|rules| - 1].writes
  }

  function RuleNames(rules: seq<Rule>): seq<string> {
    if rules == [] then [] else RuleNames(rules[..|rules| - 1]) + [rules[|rules| - 1].name]
  }

  function NotedLists(rules: seq<Rule>, t: Target): seq<string> {
    if rules == [] then [] else
      var before, r := NotedLists(rules[..|rules| - 1], t), rules[|rules| - 1];
      if r.listed.Some? && NotesOf(r, t, r.listed.value.list) && r.listed.value.list !in before
      then before + [r.listed.value.list] else before
  }

  /** The names not among the dropped ones. */
  function Kept(names: seq<string>, dropped: seq<string>): seq<string> {
    if names == [] then [] else
      Kept(names[..|names| - 1], dropped) + if names[|names| - 1] in dropped then [] else [names[|names| - 1]]
  }

  datatype Outcome = Outcome(
    issue: seq<Decl>, drop: seq<Decl>, asks: seq<Ask>, writes: seq<Write>, rules: seq<string>, notes: seq<string>)

  /** These declarations, in this order. */
  predicate Stand(cookies: seq<Decl>, picked: seq<Decl>, names: seq<string>) {
    |picked| == |names| && forall i :: 0 <= i < |picked| ==> picked[i] in cookies && picked[i].name == names[i]
  }

  method AddNote(notes: seq<string>, list: string) returns (r: seq<string>)
    ensures r == if list in notes then notes else notes + [list]
  {
    for i := 0 to |notes|
      invariant list !in notes[..i]
    {
      if notes[i] == list { return notes; }
    }
    assert notes[..|notes|] == notes;
    return notes + [list];
  }

  /** The list check of a rule, with the note it may leave. */
  method CheckList(r: Rule, t: Target, notes: seq<string>) returns (pass: bool, notes': seq<string>)
    requires Reaches(r, t)
    ensures pass == Fires(r, t)
    ensures notes' == if r.listed.Some? && NotesOf(r, t, r.listed.value.list) && r.listed.value.list !in notes
                      then notes + [r.listed.value.list] else notes
  {
    if r.listed.None? { return true, notes; }
    var l, v := r.listed.value, Get(t.tags, r.cookie);
    notes' := notes;
    if Unready(t, l, v) { notes' := AddNote(notes, l.list); }
    pass := In(t, l, v) != l.negated;
  }

  /** One name joins those issued, or dropped, so far. */
  method Use(cookies: seq<Decl>, name: string, seen: set<string>, picked: seq<Decl>, ghost names: seq<string>)
    returns (seen': set<string>, picked': seq<Decl>)
    requires Stand(cookies, picked, names) && seen == set n | n in names
    ensures var names' := if name != "" && name !in names && Declared(cookies, name) then names + [name] else names;
      Stand(cookies, picked', names') && seen' == set n | n in names'
  {
    seen', picked' := seen, picked;
    if name != "" && name !in seen {
      var c := FindCookie(cookies, name);
      if c.Some? { seen', picked' := seen + {name}, picked + [c.value]; }
    }
  }

  /** The issued declarations that are not dropped: each is written over the front of the same list. */
  method Keep(cookies: seq<Decl>, issue: seq<Decl>, dropped: set<string>,
              ghost names: seq<string>, ghost drops: seq<string>)
    returns (kept: seq<Decl>)
    requires Stand(cookies, issue, names) && dropped == set n | n in drops
    ensures Stand(cookies, kept, Kept(names, drops))
  {
    var list, k := issue, 0;
    for i := 0 to |issue|
      invariant k <= i && |list| == |issue| && list[i..] == issue[i..]
      invariant Stand(cookies, list[..k], Kept(names[..i], drops))
    {
      assert names[..i + 1][..i] == names[..i];
      assert list[i] == list[i..][0] == issue[i];
      if list[i].name !in dropped {
        ghost var before := list;
        list := list[k := list[i]];
        k := k + 1;
        assert list[..k] == before[..k - 1] + [issue[i]];
      }
      assert list[i + 1..] == issue[i + 1..];
    }
    assert names[..|names|] == names;
    kept := list[..k];
  }

  /** What these fired rules ask for, before dropping takes away from issuing. */
  predicate Taken(p: Profile, fired: seq<Rule>, out: Outcome) {
    && Stand(p.cookies, out.issue, Uses(p.cookies, fired, false))
    && Stand(p.cookies, out.drop, Uses(p.cookies, fired, true))
    && out.asks == Asks(fired) && out.writes == Writes(fired) && out.rules == RuleNames(fired)
  }

  /** The sets of names that Collect keeps beside the outcome. */
  predicate Tracked(p: Profile, fired: seq<Rule>, issued: set<string>, dropped: set<string>) {
    && issued == (set n | n in Uses(p.cookies, fired, false))
    && dropped == (set n | n in Uses(p.cookies, fired, true))
  }

  predicate AllIndexed(rules: seq<Rule>) {
    forall i :: 0 <= i < |rules| ==> Indexed(rules[i])
  }

  method Collect(p: Profile, t: Target) returns (out: Outcome)
    requires AllIndexed(p.rules)
    ensures Stand(p.cookies, out.issue, IssueNames(p, t)) && Stand(p.cookies, out.drop, DropNames(p, t))
    ensures out.asks == Asks(Fired(p.rules, t)) && out.writes == Writes(Fired(p.rules, t))
    ensures out.rules == RuleNames(Fired(p.rules, t)) && out.notes == NotedLists(p.rules, t)
  {
    out := Outcome([], [], [], [], [], []);
    var issued: set<string>, dropped: set<string> := {}, {};
    for i := 0 to |p.rules|
      invariant Taken(p, Fired(p.rules[..i], t), out) && out.notes == NotedLists(p.rules[..i], t)
      invariant Tracked(p, Fired(p.rules[..i], t), issued, dropped)
    {
      out, issued, dropped := CollectRule(p, p.rules[..i], p.rules[i], t, out, issued, dropped);
      assert p.rules[..i + 1] == p.rules[..i] + [p.rules[i]];
    }
    assert p.rules[..|p.rules|] == p.rules;
    ghost var names, drops := Uses(p.cookies, Fired(p.rules, t), false), Uses(p.cookies, Fired(p.rules, t), true);
    if |out.drop| > 0 && |out.issue| > 0 {
      var kept := Keep(p.cookies, out.issue, dropped, names, drops);
      out := out.(issue := kept);
    } else {
      KeptAll(names, drops);
    }
  }

  lemma {:induction false} KeptAll(names: seq<string>, drops: seq<string>)
    requires drops == [] || names == []
    ensures Kept(names, drops) == names
  {
    if names != [] {
      KeptAll(names[..|names| - 1], drops);
    }
  }

  /** One turn of the loop of Collect. */
  method CollectRule(p: Profile, ghost done: seq<Rule>, r: Rule, t: Target, out: Outcome,
                     issued: set<string>, dropped: set<string>)
    returns (out': Outcome, issued': set<string>, dropped': set<string>)
    requires Indexed(r) && Taken(p, Fired(done, t), out) && out.notes == NotedLists(done, t)
    requires Tracked(p, Fired(done, t), issued, dropped)
    ensures Taken(p, Fired(done + [r], t), out') && out'.notes == NotedLists(done + [r], t)
    ensures Tracked(p, Fired(done + [r], t), issued', dropped')
  {
    FiredStep(done, r, t);
    assert (done + [r])[..|done|] == done;
    out', issued', dropped' := out, issued, dropped;
    var pass := DoesReach(r, t);
    if pass {
      var notes;
      pass, notes := CheckList(r, t, out.notes);
      out' := out.(notes := notes);
      if pass { out', issued', dropped' := TakeRule(p, Fired(done, t), r, out', issued, dropped); }
    }
  }

  /** A fired rule adds what it asks for. */
  method TakeRule(p: Profile, ghost fired: seq<Rule>, r: Rule, out: Outcome, issued: set<string>, dropped: set<string>)
    returns (out': Outcome, issued': set<string>, dropped': set<string>)
    requires Taken(p, fired, out) && Tracked(p, fired, issued, dropped)
    ensures Taken(p, fired + [r], out') && out'.notes == out.notes && Tracked(p, fired + [r], issued', dropped')
  {
    assert (fired + [r])[..|fired|] == fired;
    var issue, drop;
    issued', issue := Use(p.cookies, r.issue, issued, out.issue, Uses(p.cookies, fired, false));
    dropped', drop := Use(p.cookies, r.drop, dropped, out.drop, Uses(p.cookies, fired, true));
    out' := Outcome(issue, drop, out.asks + r.asks, out.writes + r.writes, out.rules + [r.name], out.notes);
  }

  // ---- What the order of the rows does not change ----

  /** Some fired rule issues, or drops, the name. */
  predicate Wanted(rules: seq<Rule>, t: Target, name: string, dropping: bool) {
    exists i :: 0 <= i < |rules| && Fires(rules[i], t) && Named(rules[i], dropping) == name
  }

  lemma {:induction false} FiredMembers(rules: seq<Rule>, t: Target, r: Rule)
    ensures r in Fired(rules, t) <==> r in rules && Fires(r, t)
  {
    if rules != [] {
      var n := |rules| - 1;
      assert rules == rules[..n] + [rules[n]];
      FiredMembers(rules[..n], t, r);
    }
  }

  lemma {:induction false} UsesMembers(cookies: seq<Decl>, rules: seq<Rule>, dropping: bool, name: string)
    ensures Distinct(Uses(cookies, rules, dropping))
    ensures name in Uses(cookies, rules, dropping) <==>
      name != "" && Declared(cookies, name) && exists r :: r in rules && Named(r, dropping) == name
  {
    if rules != [] {
      var n := |rules| - 1;
      assert rules == rules[..n] + [rules[n]];
      UsesMembers(cookies, rules[..n], dropping, name);
    }
  }

  lemma {:induction false} KeptMembers(names: seq<string>, drops: seq<string>, name: string)
    requires Distinct(names)
    ensures Distinct(Kept(names, drops)) && (name in Kept(names, drops) <==> name in names && name !in drops)
    ensures forall x :: x in Kept(names, drops) ==> x in names
  {
    if names != [] {
      var n := |names| - 1;
      assert names == names[..n] + [names[n]] && names[n] !in names[..n];
      KeptMembers(names[..n], drops, name);
    }
  }

  /** The names come in the order of their first use. */
  lemma {:induction false} UsesInOrder(cookies: seq<Decl>, rules: seq<Rule>, dropping: bool, i: nat, j: nat)
    requires i < j < |Uses(cookies, rules, dropping)|
    ensures var u := Uses(cookies, rules, dropping);
      exists k :: 0 <= k < |rules| && Named(rules[k], dropping) == u[i] &&
        forall m :: 0 <= m <= k ==> Named(rules[m], dropping) != u[j]
  {
    var n, u := |rules| - 1, Uses(cookies, rules, dropping);
    var before := Uses(cookies, rules[..n], dropping);
    if j < |before| {
      UsesInOrder(cookies, rules[..n], dropping, i, j);
      var k :| 0 <= k < n && Named(rules[..n][k], dropping) == u[i] &&
        forall m :: 0 <= m <= k ==> Named(rules[..n][m], dropping) != u[j];
      assert Named(rules[k], dropping) == u[i];
      assert forall m :: 0 <= m <= k ==> rules[..n][m] == rules[m];
    } else {
      FirstUse(cookies, rules, dropping, i);
    }
  }

  /** The last name is new with the last rule, so it is named by none before. */
  lemma FirstUse(cookies: seq<Decl>, rules: seq<Rule>, dropping: bool, i: nat)
    requires rules != []
    requires var before, u := Uses(cookies, rules[..|rules| - 1], dropping), Uses(cookies, rules, dropping);
      |u| == |before| + 1 && i < |before|
    ensures var u := Uses(cookies, rules, dropping);
      exists k :: 0 <= k < |rules| && Named(rules[k], dropping) == u[i] &&
        forall m :: 0 <= m <= k ==> Named(rules[m], dropping) != u[|u| - 1]
  {
    var n, u := |rules| - 1, Uses(cookies, rules, dropping);
    var before := Uses(cookies, rules[..n], dropping);
    var last := u[|before|];
    UsesMembers(cookies, rules[..n], dropping, last);
    UsesMembers(cookies, rules[..n], dropping, u[i]);
    assert u[i] in before;
    var r :| r in rules[..n] && Named(r, dropping) == u[i];
    var k :| 0 <= k < n && rules[..n][k] == r;
    forall m | 0 <= m <= k ensures Named(rules[m], dropping) != last {
      assert rules[m] in rules[..n];
    }
    assert Named(rules[k], dropping) == u[i];
  }

  /** Dropping leaves the order of the rest. */
  lemma {:induction false} KeptConcat(a: seq<string>, b: seq<string>, drops: seq<string>)
    ensures Kept(a + b, drops) == Kept(a, drops) + Kept(b, drops)
  {
    if b == [] {
      assert a + b == a;
    } else {
      assert (a + b)[..|a + b| - 1] == a + b[..|b| - 1];
      KeptConcat(a, b[..|b| - 1], drops);
    }
  }

  /** The names of an outcome: those issued and those dropped. */
  function IssueNames(p: Profile, t: Target): seq<string> {
    Kept(Uses(p.cookies, Fired(p.rules, t), false), Uses(p.cookies, Fired(p.rules, t), true))
  }

  function DropNames(p: Profile, t: Target): seq<string> {
    Uses(p.cookies, Fired(p.rules, t), true)
  }

  /** A name is wanted by the field of that name of some rule that fires. */
  lemma WantedMeans(rules: seq<Rule>, t: Target, name: string)
    ensures Wanted(rules, t, name, true) <==>
      exists i :: 0 <= i < |rules| && Fires(rules[i], t) && rules[i].drop == name
    ensures Wanted(rules, t, name, false) <==>
      exists i :: 0 <= i < |rules| && Fires(rules[i], t) && rules[i].issue == name
  {
    if Wanted(rules, t, name, true) {
      var i :| 0 <= i < |rules| && Fires(rules[i], t) && Named(rules[i], true) == name;
    }
    if Wanted(rules, t, name, false) {
      var i :| 0 <= i < |rules| && Fires(rules[i], t) && Named(rules[i], false) == name;
    }
    forall i | 0 <= i < |rules| && Fires(rules[i], t)
      ensures Wanted(rules, t, rules[i].drop, true) && Wanted(rules, t, rules[i].issue, false)
    {
      assert Named(rules[i], true) == rules[i].drop && Named(rules[i], false) == rules[i].issue;
    }
  }

  lemma WantedIsNamed(rules: seq<Rule>, t: Target, name: string, dropping: bool)
    ensures Wanted(rules, t, name, dropping) <==> exists r :: r in Fired(rules, t) && Named(r, dropping) == name
  {
    forall r ensures r in Fired(rules, t) <==> r in rules && Fires(r, t) { FiredMembers(rules, t, r); }
    if Wanted(rules, t, name, dropping) {
      var i :| 0 <= i < |rules| && Fires(rules[i], t) && Named(rules[i], dropping) == name;
      assert rules[i] in Fired(rules, t);
    }
  }

  /**
   Drop beats issue: a name is dropped when a fired rule drops it, issued when a
   fired rule issues it and none drops it, and never more than once.
   */
  lemma DropBeatsIssue(p: Profile, t: Target, name: string)
    ensures name in DropNames(p, t) <==> name != "" && Declared(p.cookies, name) && Wanted(p.rules, t, name, true)
    ensures name in IssueNames(p, t) <==>
      name != "" && Declared(p.cookies, name) && Wanted(p.rules, t, name, false) && !Wanted(p.rules, t, name, true)
    ensures Distinct(IssueNames(p, t)) && Distinct(DropNames(p, t))
  {
    var fired := Fired(p.rules, t);
    UsesMembers(p.cookies, fired, false, name);
    UsesMembers(p.cookies, fired, true, name);
    KeptMembers(Uses(p.cookies, fired, false), Uses(p.cookies, fired, true), name);
    WantedIsNamed(p.rules, t, name, false);
    WantedIsNamed(p.rules, t, name, true);
  }

  lemma {:induction false} NotedMembers(rules: seq<Rule>, t: Target, list: string)
    ensures Distinct(NotedLists(rules, t))
    ensures list in NotedLists(rules, t) <==> exists r :: r in rules && NotesOf(r, t, list)
  {
    if rules != [] {
      var n := |rules| - 1;
      assert rules == rules[..n] + [rules[n]];
      NotedMembers(rules[..n], t, list);
    }
  }

  /** The same rows in another order. */
  ghost predicate Shuffled(p: Profile, q: Profile) {
    p.cookies == q.cookies && multiset(p.rules) == multiset(q.rules)
  }

  lemma ShuffledWants(a: seq<Rule>, b: seq<Rule>, t: Target, name: string, dropping: bool)
    requires multiset(a) == multiset(b) && Wanted(a, t, name, dropping)
    ensures Wanted(b, t, name, dropping)
  {
    var i :| 0 <= i < |a| && Fires(a[i], t) && Named(a[i], dropping) == name;
    assert a[i] in multiset(b);
    var j :| 0 <= j < |b| && b[j] == a[i];
  }

  lemma SetIgnoresOrder(p: Profile, q: Profile, t: Target, name: string)
    requires Shuffled(p, q)
    ensures name in IssueNames(p, t) <==> name in IssueNames(q, t)
    ensures name in DropNames(p, t) <==> name in DropNames(q, t)
    ensures name in NotedLists(p.rules, t) <==> name in NotedLists(q.rules, t)
  {
    DropBeatsIssue(p, t, name);
    DropBeatsIssue(q, t, name);
    forall dropping
      ensures Wanted(p.rules, t, name, dropping) <==> Wanted(q.rules, t, name, dropping)
    {
      if Wanted(p.rules, t, name, dropping) { ShuffledWants(p.rules, q.rules, t, name, dropping); }
      if Wanted(q.rules, t, name, dropping) { ShuffledWants(q.rules, p.rules, t, name, dropping); }
    }
    NotedMembers(p.rules, t, name);
    NotedMembers(q.rules, t, name);
    assert forall r :: r in p.rules <==> r in multiset(q.rules);
  }

  lemma {:induction false} FiredConcat(a: seq<Rule>, b: seq<Rule>, t: Target)
    ensures Fired(a + b, t) == Fired(a, t) + Fired(b, t)
  {
    if b == [] {
      assert a + b == a;
    } else {
      assert (a + b)[..|a + b| - 1] == a + b[..|b| - 1];
      FiredConcat(a, b[..|b| - 1], t);
    }
  }

  lemma {:induction false} ListsConcat(a: seq<Rule>, b: seq<Rule>)
    ensures Asks(a + b) == Asks(a) + Asks(b) && Writes(a + b) == Writes(a) + Writes(b)
  {
    if b == [] {
      assert a + b == a;
    } else {
      assert (a + b)[..|a + b| - 1] == a + b[..|b| - 1];
      ListsConcat(a, b[..|b| - 1]);
    }
  }

  /** Everything the fired rules ask for, wherever it stands. */
  lemma AsksConcat(a: seq<Rule>, b: seq<Rule>, t: Target)
    ensures Asks(Fired(a + b, t)) == Asks(Fired(a, t)) + Asks(Fired(b, t))
    ensures Writes(Fired(a + b, t)) == Writes(Fired(a, t)) + Writes(Fired(b, t))
  {
    FiredConcat(a, b, t);
    ListsConcat(Fired(a, t), Fired(b, t));
  }

  lemma AsksStep(a: seq<Rule>, r: Rule, t: Target)
    ensures Asks(Fired(a + [r], t)) == if Fires(r, t) then Asks(Fired(a, t)) + r.asks else Asks(Fired(a, t))
    ensures Writes(Fired(a + [r], t)) == if Fires(r, t) then Writes(Fired(a, t)) + r.writes else Writes(Fired(a, t))
  {
    FiredStep(a, r, t);
    ListStep(Fired(a, t), r);
  }

  datatype Bags = Bags(asks: multiset<Ask>, writes: multiset<Write>)

  /** The actions and list writes of the fired rules, however often each. */
  ghost function BagsOf(rules: seq<Rule>, t: Target): Bags {
    Bags(multiset(Asks(Fired(rules, t))), multiset(Writes(Fired(rules, t))))
  }

  ghost function Plus(b: Bags, r: Rule, t: Target): Bags {
    if Fires(r, t) then Bags(b.asks + multiset(r.asks), b.writes + multiset(r.writes)) else b
  }

  lemma Pulled(left: seq<Rule>, r: Rule, right: seq<Rule>, t: Target)
    ensures BagsOf(left + [r] + right, t) == Plus(BagsOf(left + right, t), r, t)
  {
    AsksConcat(left + [r], right, t);
    AsksStep(left, r, t);
    AsksConcat(left, right, t);
  }

  lemma {:induction false} AsksIgnoreOrder(a: seq<Rule>, b: seq<Rule>, t: Target)
    requires multiset(a) == multiset(b)
    ensures BagsOf(a, t) == BagsOf(b, t)
    decreases |a|
  {
    if a == [] {
      assert |multiset(b)| == 0;
    } else {
      var a', r := a[..|a| - 1], a[|a| - 1];
      assert a == a' + [r];
      var j := Counterpart(a', r, b);
      var left, right := b[..j], b[j + 1..];
      AsksIgnoreOrder(a', left + right, t);
      PulledFrom(a, |a'|, t);
      PulledFrom(b, j, t);
      assert a' + a[|a'| + 1..] == a';
    }
  }

  lemma PulledFrom(b: seq<Rule>, j: nat, t: Target)
    requires j < |b|
    ensures BagsOf(b, t) == Plus(BagsOf(b[..j] + b[j + 1..], t), b[j], t)
  {
    assert b[..j] + [b[j]] + b[j + 1..] == b;
    Pulled(b[..j], b[j], b[j + 1..], t);
  }

  /** The last row of one order, found in the other; without it both still hold the same rows. */
  lemma Counterpart<T>(a: seq<T>, r: T, b: seq<T>) returns (j: nat)
    requires multiset(a + [r]) == multiset(b)
    ensures j < |b| && b[j] == r && multiset(a) == multiset(b[..j] + b[j + 1..])
  {
    Without(a, r, []);
    assert a + [] == a && a + [r] + [] == a + [r];
    assert r in multiset(b);
    j :| 0 <= j < |b| && b[j] == r;
    Without(b[..j], r, b[j + 1..]);
    assert b == b[..j] + [r] + b[j + 1..];
  }

  lemma Without<T>(left: seq<T>, r: T, right: seq<T>)
    ensures multiset(left + right) == multiset(left + [r] + right) - multiset{r}
  {
  }

  /**
   Under any order of the rows of a profile, Collect finds the same cookies to
   issue, the same to drop, the same lists unready, and the same actions and list
   writes as often.
   */
  lemma OrderDoesNotMatter(p: Profile, q: Profile, t: Target)
    requires Shuffled(p, q)
    ensures forall name :: name in IssueNames(p, t) <==> name in IssueNames(q, t)
    ensures forall name :: name in DropNames(p, t) <==> name in DropNames(q, t)
    ensures forall name :: name in NotedLists(p.rules, t) <==> name in NotedLists(q.rules, t)
    ensures BagsOf(p.rules, t) == BagsOf(q.rules, t)
  {
    forall name
      ensures name in IssueNames(p, t) <==> name in IssueNames(q, t)
      ensures name in DropNames(p, t) <==> name in DropNames(q, t)
      ensures name in NotedLists(p.rules, t) <==> name in NotedLists(q.rules, t)
    {
      SetIgnoresOrder(p, q, t, name);
    }
    AsksIgnoreOrder(p.rules, q.rules, t);
  }

  // ---- Overload ----

  const AT_MAX := 100

  /** overload.Fires. */
  predicate Overloads(r: Rule, fill: int, shed: bool) {
    r.overload && (shed || (r.at < AT_MAX && fill >= r.at))
  }

  function Overloaded(rules: seq<Rule>, fill: int, shed: bool): seq<Rule> {
    if rules == [] then [] else
      var r := rules[|rules| - 1];
      Overloaded(rules[..|rules| - 1], fill, shed) + if Overloads(r, fill, shed) then [r] else []
  }

  lemma OverloadStep(rules: seq<Rule>, r: Rule, fill: int, shed: bool)
    ensures Overloaded(rules + [r], fill, shed) ==
      if Overloads(r, fill, shed) then Overloaded(rules, fill, shed) + [r] else Overloaded(rules, fill, shed)
  {
    assert (rules + [r])[..|rules|] == rules;
  }

  lemma ListStep(fired: seq<Rule>, r: Rule)
    ensures Asks(fired + [r]) == Asks(fired) + r.asks && Writes(fired + [r]) == Writes(fired) + r.writes
    ensures RuleNames(fired + [r]) == RuleNames(fired) + [r.name]
  {
    assert (fired + [r])[..|fired|] == fired;
  }

  method CollectOverload(p: Profile, fill: int, shed: bool) returns (out: Outcome)
    ensures var fired := Overloaded(p.rules, fill, shed);
      out == Outcome([], [], Asks(fired), Writes(fired), RuleNames(fired), [])
  {
    out := Outcome([], [], [], [], [], []);
    for i := 0 to |p.rules|
      invariant var fired := Overloaded(p.rules[..i], fill, shed);
        out == Outcome([], [], Asks(fired), Writes(fired), RuleNames(fired), [])
    {
      var r := p.rules[i];
      assert p.rules[..i + 1] == p.rules[..i] + [r];
      OverloadStep(p.rules[..i], r, fill, shed);
      ListStep(Overloaded(p.rules[..i], fill, shed), r);
      if r.overload && (shed || (r.at < AT_MAX && fill >= r.at)) {
        out := out.(asks := out.asks + r.asks, writes := out.writes + r.writes, rules := out.rules + [r.name]);
      }
    }
    assert p.rules[..|p.rules|] == p.rules;
  }

  /** Exactly the overload rules fire: all of them on shedding, and below 100 those whose mark the fill has reached. */
  lemma {:induction false} OverloadMeans(rules: seq<Rule>, fill: int, shed: bool, r: Rule)
    ensures r in Overloaded(rules, fill, shed) <==>
      r in rules && r.overload && (shed || (r.at < 100 && r.at <= fill))
  {
    if rules != [] {
      var n := |rules| - 1;
      assert rules == rules[..n] + [rules[n]];
      OverloadMeans(rules[..n], fill, shed, r);
    }
  }

  /** A fuller queue, or shedding, only adds rules; and a rule never answers both to a request and to overload. */
  lemma {:induction false} OverloadGrows(rules: seq<Rule>, fill: int, more: int, shed: bool, t: Target, r: Rule)
    requires fill <= more
    ensures r in Overloaded(rules, fill, shed) ==> r in Overloaded(rules, more, shed)
    ensures r in Overloaded(rules, fill, shed) ==> r in Overloaded(rules, more, true)
    ensures r in Overloaded(rules, fill, shed) ==> r !in Fired(rules, t)
    ensures r in Overloaded(rules, fill, true) <==> r in rules && r.overload
    ensures r in Overloaded(rules, fill, shed) ==> r.overload
  {
    FiredMembers(rules, t, r);
    if rules != [] {
      var n := |rules| - 1;
      assert rules == rules[..n] + [rules[n]];
      OverloadGrows(rules[..n], fill, more, shed, t, r);
    }
  }
}
