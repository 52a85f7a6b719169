/**
 The Cookie header (cmd/inspector/source.go, Cookies; cmd/inspector/handler.go,
 states): splitting it into pairs, and the road of an issued value through it.
 */
module CookieHeader {
  import opened Bytes
  import opened Sequences
  import opened Text
  import opened Cookie

  datatype Pair = Pair(name: string, value: string)

  /** strings.EqualFold with "cookie", for ASCII names. */
  predicate IsCookieHeader(name: string) {
    |name| == 6 && forall i :: 0 <= i < 6 ==> Lower(name[i]) == "cookie"[i]
  }

  function Unquote(v: string): string {
    if |v| >= 2 && v[0] == '"' && v[|v| - 1] == '"' then v[1..|v| - 1] else v
  }

  /** One item between semicolons: a pair, or nothing. */
  function ParseItem(item: string): Option<Pair> {
    var i := First(item, '=');
    if i == |item| then None else
    var name := Trim(item[..i]);
    if name == "" then None else Some(Pair(name, Unquote(Trim(item[i + 1..]))))
  }

  function ParseItems(items: seq<string>): seq<Pair> {
    if items == [] then [] else
      ParseItems(items[..|items| - 1]) + Listed(ParseItem(items[|items| - 1]))
  }

  function Listed(p: Option<Pair>): seq<Pair> {
    if p.Some? then [p.value] else []
  }

  /** All pairs of all Cookie headers, in order. */
  function ParseHeaders(headers: seq<Pair>): seq<Pair> {
    if headers == [] then [] else
      var h := headers[|headers| - 1];
      ParseHeaders(headers[..|headers| - 1]) + if IsCookieHeader(h.name) then ParseItems(Split(h.value, ';')) else []
  }

  /** The value of the first pair of the name; empty when there is none. */
  function Lookup(pairs: seq<Pair>, name: string): string {
    if pairs == [] then "" else if pairs[0].name == name then pairs[0].value else Lookup(pairs[1..], name)
  }

  predicate Mentions(pairs: seq<Pair>, name: string) {
    exists i :: 0 <= i < |pairs| && pairs[i].name == name
  }

  // ---- The source, with its first-use caches ----

  class Source {
    /** What the first call of Headers finds: None when the headers cannot be had. */
    const found: Option<seq<Pair>>
    var cookies: seq<Pair>
    var cookiesDone: bool
    var cookiesOK: bool

    ghost predicate Valid()
      reads this
    {
      cookiesDone ==>
        cookiesOK == found.Some? && cookies == if found.Some? then ParseHeaders(found.value) else []
    }

    constructor (found: Option<seq<Pair>>)
      ensures Valid() && this.found == found && !cookiesDone
    {
      this.found, cookies, cookiesDone, cookiesOK := found, [], false, false;
    }

    /** However often it is asked, the answer is the one the headers give. */
    method Cookies() returns (pairs: seq<Pair>, ok: bool)
      requires Valid()
      modifies this
      ensures Valid() && cookiesDone
      ensures ok == found.Some? && pairs == if found.Some? then ParseHeaders(found.value) else []
    {
      if cookiesDone { return cookies, cookiesOK; }
      cookiesDone := true;
      cookies := [];
      if found.None? {
        cookiesOK := false;
        return [], false;
      }
      cookiesOK := true;
      var headers := found.value;
      for i := 0 to |headers|
        invariant cookiesDone && cookiesOK && cookies == ParseHeaders(headers[..i])
      {
        HeadersStep(headers, i);
        if IsCookieHeader(headers[i].name) {
          AddItems(headers[i].value);
        }
      }
      assert headers[..|headers|] == headers;
      return cookies, true;
    }

    /** The inner loop: the pairs of one header join those found so far. */
    method AddItems(value: string)
      modifies this`cookies
      ensures cookies == old(cookies) + ParseItems(Split(value, ';'))
    {
      var items := Split(value, ';');
      for j := 0 to |items|
        invariant cookies == old(cookies) + ParseItems(items[..j])
      {
        ItemsStep(items, j);
        var p := ParseItem(items[j]);
        if p.Some? { cookies := cookies + [p.value]; }
      }
      assert items[..|items|] == items;
    }
  }

  lemma HeadersStep(headers: seq<Pair>, i: nat)
    requires i < |headers|
    ensures ParseHeaders(headers[..i + 1]) == ParseHeaders(headers[..i]) +
      if IsCookieHeader(headers[i].name) then ParseItems(Split(headers[i].value, ';')) else []
  {
    assert headers[..i + 1][..i] == headers[..i] && headers[..i + 1][i] == headers[i];
  }

  lemma ItemsStep(items: seq<string>, j: nat)
    requires j < |items|
    ensures ParseItems(items[..j + 1]) == ParseItems(items[..j]) + Listed(ParseItem(items[j]))
  {
    assert items[..j + 1][..j] == items[..j] && items[..j + 1][j] == items[j];
  }

  // ---- States of a profile's cookies ----

  datatype Noted = Noted(raw: string, value: string)

  /** The text a cookie is read from: the first pair of its name, when the headers are there. */
  function RawOf(c: Decl, pairs: seq<Pair>, ok: bool): string {
    if ok then Lookup(pairs, c.name) else ""
  }

  /** What the maps say of a cookie is what reading it says. */
  predicate Noticed(c: Decl, raw: string, seen: Seen, states: map<string, Status>, values: map<string, Noted>) {
    && seen.Seen? && c.name in states && states[c.name] == seen.status
    && (c.name in values <==> seen.status == Present || seen.status == Expired)
    && (c.name in values ==> values[c.name] == Noted(raw, seen.tag))
  }

  /** With headers it is the first pair of the name; without them there is no text. */
  lemma RawMeans(c: Decl, pairs: seq<Pair>)
    ensures RawOf(c, pairs, true) == Lookup(pairs, c.name) && RawOf(c, pairs, false) == ""
  {
  }

  /** A cookie as this request shows it. */
  function Shown(c: Decl, pairs: seq<Pair>, ok: bool, now: int, key: string, mac: Mac): Seen {
    Read(c, RawOf(c, pairs, ok), now, key, mac)
  }

  /** The loop of states: each declared cookie is read once, and an unreadable one fails them all. */
  method States(decls: seq<Decl>, pairs: seq<Pair>, ok: bool, now: int, key: string, mac: Mac)
    returns (states: Option<map<string, Status>>, values: map<string, Noted>)
    requires DistinctNames(decls)
    ensures states.None? <==> exists c :: c in decls && Shown(c, pairs, ok, now, key, mac) == KeyMissing
    ensures states.Some? ==> forall c :: c in decls ==>
      Noticed(c, RawOf(c, pairs, ok), Shown(c, pairs, ok, now, key, mac), states.value, values)
    ensures states.Some? ==> forall n :: n in states.value || n in values ==> exists c :: c in decls && c.name == n
  {
    var st: map<string, Status> := map[];
    values := map[];
    ghost var shown: seq<Seen> := [];
    for i := 0 to |decls|
      invariant |shown| == i
      invariant forall k :: 0 <= k < i ==> shown[k] == Shown(decls[k], pairs, ok, now, key, mac)
      invariant forall n :: n in st || n in values ==> exists k :: 0 <= k < i && decls[k].name == n
      invariant forall k :: 0 <= k < i ==> Noticed(decls[k], RawOf(decls[k], pairs, ok), shown[k], st, values)
    {
      var c := decls[i];
      var raw, seen := ReadCookie(c, pairs, ok, now, key, mac);
      if seen.KeyMissing? { return None, map[]; }
      assert c.name !in st && c.name !in values;
      st, values := Notice(c, raw, seen, st, values);
      shown := shown + [seen];
    }
    states := Some(st);
  }

  /** What was read of one cookie is noted, and nothing else changes. */
  method Notice(c: Decl, raw: string, seen: Seen, st: map<string, Status>, values: map<string, Noted>)
    returns (st': map<string, Status>, values': map<string, Noted>)
    requires seen.Seen? && c.name !in st && c.name !in values
    ensures Noticed(c, raw, seen, st', values')
    ensures forall n :: n != c.name ==> (n in st' <==> n in st) && (n in values' <==> n in values)
    ensures forall d: Decl, r, s :: d.name != c.name && Noticed(d, r, s, st, values) ==> Noticed(d, r, s, st', values')
  {
    st', values' := st[c.name := seen.status], values;
    if seen.status == Present || seen.status == Expired {
      values' := values[c.name := Noted(raw, seen.tag)];
    }
  }

  method ReadCookie(c: Decl, pairs: seq<Pair>, ok: bool, now: int, key: string, mac: Mac)
    returns (raw: string, seen: Seen)
    ensures raw == RawOf(c, pairs, ok) && seen == Shown(c, pairs, ok, now, key, mac)
  {
    raw := "";
    if ok { raw := FirstValue(pairs, c.name); }
    seen := Read(c, raw, now, key, mac);
  }

  method FirstValue(pairs: seq<Pair>, name: string) returns (raw: string)
    ensures raw == Lookup(pairs, name)
  {
    for i := 0 to |pairs|
      invariant Lookup(pairs, name) == Lookup(pairs[i..], name)
    {
      assert pairs[i..][1..] == pairs[i + 1..];
      if pairs[i].name == name { return pairs[i].value; }
    }
    return "";
  }

  // ---- The road of an issued value ----

  lemma {:induction false} LookupBehind(a: seq<Pair>, b: seq<Pair>, name: string)
    requires !Mentions(a, name)
    ensures Lookup(a + b, name) == Lookup(b, name)
  {
    if a == [] {
      assert a + b == b;
    } else {
      assert a[0].name != name;
      assert !Mentions(a[1..], name) by {
        assert forall i :: 0 <= i < |a| - 1 ==> a[1..][i] == a[i + 1];
      }
      assert (a + b)[1..] == a[1..] + b;
      LookupBehind(a[1..], b, name);
    }
  }

  lemma {:induction false} ParseItemsConcat(a: seq<string>, b: seq<string>)
    ensures ParseItems(a + b) == ParseItems(a) + ParseItems(b)
  {
    if b == [] {
      assert a + b == a;
    } else {
      assert (a + b)[..|a + b| - 1] == a + b[..|b| - 1];
      ParseItemsConcat(a, b[..|b| - 1]);
    }
  }

  lemma {:induction false} ParseHeadersConcat(a: seq<Pair>, b: seq<Pair>)
    ensures ParseHeaders(a + b) == ParseHeaders(a) + ParseHeaders(b)
  {
    if b == [] {
      assert a + b == a;
    } else {
      assert (a + b)[..|a + b| - 1] == a + b[..|b| - 1];
      ParseHeadersConcat(a, b[..|b| - 1]);
    }
  }

  /** A pair as a user agent writes it, first in the header or behind "; " (section 4.2.1 of RFC 6265). */
  function Item(name: string, value: string, first: bool): string {
    (if first then "" else " ") + name + "=" + value
  }

  lemma NameTrims(name: string, first: bool)
    requires NameOk(name)
    ensures Trim((if first then "" else " ") + name) == name && Lacks(name, '=') && Lacks(name, ';')
  {
    if first {
      assert "" + name == name;
      TrimNothing(name);
    } else {
      TrimOneLeft(name);
    }
  }

  lemma ValueTrims(value: string)
    requires AllSafe(value)
    ensures Unquote(Trim(value)) == value && Lacks(value, ';')
  {
    TrimNothing(value);
    assert |value| >= 1 ==> value[0] in value;
  }

  lemma ItemParses(name: string, value: string, first: bool)
    requires NameOk(name) && AllSafe(value)
    ensures ParseItem(Item(name, value, first)) == Some(Pair(name, value))
  {
    var lead := (if first then "" else " ") + name;
    NameTrims(name, first);
    ValueTrims(value);
    LeadParses(lead, name, value);
    assert Item(name, value, first) == lead + "=" + value;
  }

  lemma LeadParses(lead: string, name: string, value: string)
    requires Lacks(lead, '=') && Trim(lead) == name && name != "" && Unquote(Trim(value)) == value
    ensures ParseItem(lead + "=" + value) == Some(Pair(name, value))
  {
    var item := lead + "=" + value;
    FirstIs(lead, '=', value);
    assert item[..|lead|] == lead && item[|lead| + 1..] == value;
  }

  /** The pair is item k of header j, with no pair of its name before it. */
  ghost predicate Stands(headers: seq<Pair>, j: nat, items: seq<string>, k: nat, name: string, value: string) {
    && j < |headers| && k < |items| && (forall i :: 0 <= i < |items| ==> Lacks(items[i], ';'))
    && IsCookieHeader(headers[j].name) && headers[j].value == Join(items, ';')
    && items[k] == Item(name, value, k == 0)
    && !Mentions(ParseHeaders(headers[..j]), name) && !Mentions(ParseItems(items[..k]), name)
  }

  ghost predicate Carries(headers: seq<Pair>, name: string, value: string) {
    exists j: nat, items: seq<string>, k: nat :: Stands(headers, j, items, k, name, value)
  }

  /** A pair sent back behind others, none of its name, is carried. */
  lemma SentBack(headers: seq<Pair>, items: seq<string>, name: string, value: string)
    requires NameOk(name) && AllSafe(value) && (forall i :: 0 <= i < |items| ==> Lacks(items[i], ';'))
    requires !Mentions(ParseHeaders(headers), name) && !Mentions(ParseItems(items), name)
    ensures Carries(headers + [Pair("Cookie", Join(items + [Item(name, value, items == [])], ';'))], name, value)
  {
    var all := items + [Item(name, value, items == [])];
    ItemLacks(name, value, items == []);
    assert IsCookieHeader("Cookie");
    StandsLast(headers, Pair("Cookie", Join(all, ';')), items, all, name, value);
  }

  lemma ItemLacks(name: string, value: string, first: bool)
    requires NameOk(name) && AllSafe(value)
    ensures Lacks(Item(name, value, first), ';')
  {
    NameTrims(name, first);
    ValueTrims(value);
  }

  lemma StandsLast(headers: seq<Pair>, h: Pair, items: seq<string>, all: seq<string>, name: string, value: string)
    requires all == items + [Item(name, value, items == [])] && IsCookieHeader(h.name) && h.value == Join(all, ';')
    requires forall i :: 0 <= i < |all| ==> Lacks(all[i], ';')
    requires !Mentions(ParseHeaders(headers), name) && !Mentions(ParseItems(items), name)
    ensures Carries(headers + [h], name, value)
  {
    Front(headers, [h]);
    Front(items, [Item(name, value, items == [])]);
    assert Stands(headers + [h], |headers|, all, |items|, name, value);
  }

  /** The pairs of one header around item k. */
  lemma ItemsAround(items: seq<string>, k: nat, p: Pair)
    requires k < |items| && ParseItem(items[k]) == Some(p)
    ensures ParseItems(items) == ParseItems(items[..k]) + [p] + ParseItems(items[k + 1..])
  {
    ItemsStep(items, k);
    ItemsSplit(items, k + 1);
  }

  lemma ItemsSplit(items: seq<string>, k: nat)
    requires k <= |items|
    ensures ParseItems(items) == ParseItems(items[..k]) + ParseItems(items[k..])
  {
    Rejoined(items, k);
    ParseItemsConcat(items[..k], items[k..]);
  }

  /** The pairs of all headers around header j. */
  lemma HeadersAround(headers: seq<Pair>, j: nat, items: seq<string>)
    requires j < |headers| && IsCookieHeader(headers[j].name) && Split(headers[j].value, ';') == items
    ensures ParseHeaders(headers) == ParseHeaders(headers[..j]) + ParseItems(items) + ParseHeaders(headers[j + 1..])
  {
    assert headers == headers[..j + 1] + headers[j + 1..];
    ParseHeadersConcat(headers[..j + 1], headers[j + 1..]);
    HeadersStep(headers, j);
  }

  lemma LookupAround(a: seq<Pair>, b: seq<Pair>, p: Pair, c: seq<Pair>, d: seq<Pair>)
    requires !Mentions(a, p.name) && !Mentions(b, p.name)
    ensures Lookup(a + (b + [p] + c) + d, p.name) == p.value
  {
    var rest := [p] + (c + d);
    assert a + (b + [p] + c) + d == a + (b + rest);
    LookupBehind(a, b + rest, p.name);
    LookupBehind(b, rest, p.name);
  }

  lemma FoundInHeaders(headers: seq<Pair>, j: nat, items: seq<string>, k: nat, p: Pair)
    requires j < |headers| && IsCookieHeader(headers[j].name) && Split(headers[j].value, ';') == items
    requires k < |items| && ParseItem(items[k]) == Some(p) && !Mentions(ParseItems(items[..k]), p.name)
    requires !Mentions(ParseHeaders(headers[..j]), p.name)
    ensures Lookup(ParseHeaders(headers), p.name) == p.value
  {
    ItemsAround(items, k, p);
    HeadersAround(headers, j, items);
    LookupAround(ParseHeaders(headers[..j]), ParseItems(items[..k]), p, ParseItems(items[k + 1..]),
                 ParseHeaders(headers[j + 1..]));
  }

  lemma CarriedIsFound(headers: seq<Pair>, name: string, value: string)
    requires NameOk(name) && AllSafe(value) && Carries(headers, name, value)
    ensures Lookup(ParseHeaders(headers), name) == value
  {
    var j: nat, items: seq<string>, k: nat :| Stands(headers, j, items, k, name, value);
    SplitJoin(items, ';');
    ItemParses(name, value, k == 0);
    FoundInHeaders(headers, j, items, k, Pair(name, value));
  }

  /**
   End to end. A value issued at `now` and sent back in the Cookie headers, among
   any other pairs but with none of its name before it, is read at any later
   instant with the same raw text and with the value that was asked for as its tag
   (sanitised, or the number when nothing was asked for): present, or expired once
   `renew` has passed.
   */
  lemma EndToEnd(c: Decl, src: Option<string>, now: int, key: string, noise: Option<seq<byte>>, mac: Mac,
                 headers: seq<Pair>, later: int)
    requires Accepted(c) && Fits(c, noise) && GoTime(now) && Int64(c.renew) && now <= later
    requires IssueOf(c, src, now, key, noise, mac).Value?
    requires Carries(headers, c.name, IssueOf(c, src, now, key, noise, mac).text)
    ensures var r, v := IssueOf(c, src, now, key, noise, mac), Asked(c, src);
      && Lookup(ParseHeaders(headers), c.name) == r.text
      && (v != "" ==> TagFor(v, c.value.maxLen, r.tag))
      && (v == "" ==> noise.Some? && r.tag == Hex(noise.value))
      && Read(c, Lookup(ParseHeaders(headers), c.name), later, key, mac) ==
           Seen(if c.renew > 0 && later >= now / SECOND * SECOND + c.renew then Expired else Present, r.tag)
  {
    IssuedSafe(c, src, now, key, noise, mac);
    CarriedIsFound(headers, c.name, IssueOf(c, src, now, key, noise, mac).text);
    ReadsBack(c, src, now, key, noise, mac, later);
    IssuedTag(c, src, now, key, noise, mac);
  }

  // ---- Odd headers ----

  /** The name of the header counts in any case of its letters. */
  lemma HeaderInAnyCase(name: string)
    ensures IsCookieHeader(name) <==> Lowered(name) == "cookie"
  {
  }

  /** An item without a name or an equals sign is no pair; quotes around a value are not part of it. */
  lemma OddItems(name: string, value: string)
    requires Lacks(name, '=')
    ensures ParseItem(name) == None
    ensures Trim(name) == "" ==> ParseItem(name + "=" + value) == None
    ensures Trim(name) == name != "" && NoSpace(value) ==>
      ParseItem(name + "=" + ("\"" + value + "\"")) == Some(Pair(name, value))
  {
    FirstNone(name, '=');
    FirstIs(name, '=', value);
    assert (name + "=" + value)[..|name|] == name;
    if Trim(name) == name != "" && NoSpace(value) { QuotedItem(name, value); }
  }

  /** White space around a name or a value is not part of it. */
  lemma SpacedItem(a: string, name: string, b: string, value: string)
    requires forall c :: c in a || c in b ==> c as int in {9, 10, 11, 12, 13, 32}
    requires name != "" && NoSpace(name) && Lacks(name, '=') && value != "" && NoSpace(value) && value[0] != '"'
    ensures ParseItem((a + name + b) + "=" + (b + value + a)) == Some(Pair(name, value))
  {
    assert name[0] in name && name[|name| - 1] in name && value[0] in value && value[|value| - 1] in value;
    TrimMeans(a, name, b);
    TrimMeans(b, value, a);
    var lead, tail := a + name + b, b + value + a;
    FirstIs(lead, '=', tail);
    assert (lead + "=" + tail)[..|lead|] == lead && (lead + "=" + tail)[|lead| + 1..] == tail;
  }

  lemma QuotedItem(name: string, value: string)
    requires Lacks(name, '=') && Trim(name) == name != "" && NoSpace(value)
    ensures ParseItem(name + "=" + ("\"" + value + "\"")) == Some(Pair(name, value))
  {
    var quoted := "\"" + value + "\"";
    FirstIs(name, '=', quoted);
    var item := name + "=" + quoted;
    assert item[..|name|] == name && item[|name| + 1..] == quoted;
    TrimNothing(quoted);
    assert quoted[1..|quoted| - 1] == value;
  }

  /** Headers of other names count for nothing. */
  lemma OtherHeaders(headers: seq<Pair>)
    requires forall i :: 0 <= i < |headers| ==> Lowered(headers[i].name) != "cookie"
    ensures ParseHeaders(headers) == []
  {
    if headers != [] {
      HeaderInAnyCase(headers[|headers| - 1].name);
      OtherHeaders(headers[..|headers| - 1]);
    }
  }

  /** A cookie no pair names has no text. */
  lemma {:induction false} NotMentioned(pairs: seq<Pair>, name: string)
    requires !Mentions(pairs, name)
    ensures Lookup(pairs, name) == ""
  {
    if pairs != [] {
      assert pairs[0].name != name;
      assert forall i :: 0 <= i < |pairs| - 1 ==> pairs[1..][i] == pairs[i + 1];
      NotMentioned(pairs[1..], name);
    }
  }
}
