/**
 Marker templates (internal/policy/marker.go): the check of a marker's slots and
 the filling of them, two scanners over a shrinking rest.
 */
module Marker {
  import opened Text
  import opened Cookie

  /** A marker, taken apart at its slots. */
  datatype Template = End(lit: string) | Slot(lit: string, slot: string, rest: Template)

  /** The marker a template stands for. */
  function Written(t: Template): string {
    match t
    case End(lit) => lit
    case Slot(lit, slot, rest) => lit + "{" + slot + "}" + Written(rest)
  }

  /** The text with every slot replaced by its value. */
  function Rendered(t: Template, value: string -> string): string {
    match t
    case End(lit) => lit
    case Slot(lit, slot, rest) => lit + value(slot) + Rendered(rest, value)
  }

  function Slots(t: Template): seq<string> {
    match t
    case End(_) => []
    case Slot(_, slot, rest) => [slot] + Slots(rest)
  }

  predicate Braceless(s: string) {
    Lacks(s, '{') && Lacks(s, '}')
  }

  /** Literals and slots without braces. */
  predicate Plain(t: Template) {
    && Braceless(t.lit)
    && (t.Slot? ==> Braceless(t.slot) && Plain(t.rest))
  }

  datatype Cut = Whole | At(lit: string, slot: string, rest: string)

  /** The text cut at the first `{` and the first `}` behind it. */
  function Next(marker: string): (c: Cut)
    ensures c.At? ==> |c.rest| < |marker| && Lacks(c.lit, '{')
  {
    var open := First(marker, '{');
    if open == |marker| then Whole else
    var end := First(marker[open..], '}');
    if open + end == |marker| then Whole
    else At(marker[..open], marker[open + 1..open + end], marker[open + end + 1..])
  }

  /** The scan both functions do, one cut after another. */
  function Scan(marker: string): Template
    decreases |marker|
  {
    match Next(marker)
    case Whole => End(marker)
    case At(lit, slot, rest) => Slot(lit, slot, Scan(rest))
  }

  lemma NextWritten(marker: string)
    requires Next(marker).At?
    ensures var c := Next(marker); marker == c.lit + "{" + c.slot + "}" + c.rest
  {
    var open := First(marker, '{');
    var end := First(marker[open..], '}');
    assert marker[open..][end] == '}' && marker[open..][end] == marker[open + end];
    assert end > 0;
    TwoCuts(marker, open, open + end);
  }

  lemma TwoCuts(s: string, i: nat, j: nat)
    requires i < j < |s|
    ensures s == s[..i] + [s[i]] + s[i + 1..j] + [s[j]] + s[j + 1..]
  {
  }

  /** No character is lost. */
  lemma {:induction false} ScanWritten(marker: string)
    ensures Written(Scan(marker)) == marker
    decreases |marker|
  {
    if Next(marker).At? {
      NextWritten(marker);
      ScanWritten(Next(marker).rest);
    }
  }

  /** A plain template is found again: the decomposition is the only one. */
  lemma {:induction false} ScanUnique(t: Template)
    requires Plain(t)
    ensures Scan(Written(t)) == t
  {
    match t
    case End(lit) =>
      FirstNone(lit, '{');
    case Slot(lit, slot, rest) =>
      ScanUnique(rest);
      NextAt(lit, slot, Written(rest));
  }

  lemma NextAt(lit: string, slot: string, rest: string)
    requires Braceless(lit) && Braceless(slot)
    ensures Next(lit + "{" + slot + "}" + rest) == At(lit, slot, rest)
  {
    var marker := lit + "{" + slot + "}" + rest;
    assert marker == lit + "{" + (slot + "}" + rest);
    FirstIs(lit, '{', slot + "}" + rest);
    SlotEnds(slot, rest);
    assert marker[|lit|..] == "{" + slot + "}" + rest;
    Slices(lit, slot, rest, marker);
  }

  lemma SlotEnds(slot: string, rest: string)
    requires Braceless(slot)
    ensures First("{" + slot + "}" + rest, '}') == 1 + |slot|
  {
    assert Lacks("{" + slot, '}');
    FirstIs("{" + slot, '}', rest);
  }

  lemma Slices(lit: string, slot: string, rest: string, marker: string)
    requires marker == lit + "{" + slot + "}" + rest
    ensures marker[..|lit|] == lit && marker[|lit| + 1..|lit| + (1 + |slot|)] == slot
    ensures marker[|lit| + (1 + |slot|) + 1..] == rest
  {
  }

  // ---- The check ----

  predicate OwnSlot(slot: string) {
    slot == "value" || slot == "tag" || slot == "name"
  }

  /** The slots a rule with this cookie may use. */
  predicate Allowed(slot: string, cookie: string, valued: bool, names: set<string>) {
    if OwnSlot(slot) then cookie != "" && (valued || slot == "name") else slot in names
  }

  /** The value of the rule's cookie needs one that has it; its name, a cookie; any other slot, a declaration. */
  lemma AllowedMeans(slot: string, cookie: string, valued: bool, names: set<string>)
    ensures slot == "value" || slot == "tag" ==> (Allowed(slot, cookie, valued, names) <==> cookie != "" && valued)
    ensures slot == "name" ==> (Allowed(slot, cookie, valued, names) <==> cookie != "")
    ensures slot !in ["value", "tag", "name"] ==> (Allowed(slot, cookie, valued, names) <==> slot in names)
  {
    assert "tag"[0] != "value"[0];
  }

  predicate AllAllowed(t: Template, cookie: string, valued: bool, names: set<string>) {
    t.Slot? ==> Allowed(t.slot, cookie, valued, names) && AllAllowed(t.rest, cookie, valued, names)
  }

  /** What the check takes: brace-free literals, and slots the rule may use. */
  predicate Taken(t: Template, cookie: string, valued: bool, names: set<string>) {
    && Braceless(t.lit)
    && (t.Slot? ==> Allowed(t.slot, cookie, valued, names) && Taken(t.rest, cookie, valued, names))
  }

  method CheckMarkerSlots(marker: string, cookie: string, valued: bool, names: set<string>) returns (ok: bool)
    ensures ok == Taken(Scan(marker), cookie, valued, names)
  {
    var rest := marker;
    while true
      invariant Taken(Scan(marker), cookie, valued, names) == Taken(Scan(rest), cookie, valued, names)
      decreases |rest|
    {
      var open := First(rest, '{');
      ghost var c := Next(rest);
      Judged(rest, cookie, valued, names);
      if open == |rest| {
        Unopened(rest);
        return First(rest, '}') == |rest|;
      }
      var stray := First(rest[..open], '}');
      Stray(rest, open);
      if stray < open { return false; }
      var end := First(rest[open..], '}');
      if open + end == |rest| { return false; }
      var slot := rest[open + 1..open + end];
      assert c == At(rest[..open], slot, rest[open + end + 1..]);
      if OwnSlot(slot) {
        if cookie == "" { return false; }
        if !valued && slot != "name" { return false; }
      } else if slot !in names {
        return false;
      }
      rest := rest[open + end + 1..];
    }
  }

  /** The check, by the first cut. */
  lemma Judged(rest: string, cookie: string, valued: bool, names: set<string>)
    ensures Next(rest).Whole? ==> Taken(Scan(rest), cookie, valued, names) == Braceless(rest)
    ensures Next(rest).At? ==> var c := Next(rest);
      Taken(Scan(rest), cookie, valued, names) ==
        (Lacks(c.lit, '}') && Allowed(c.slot, cookie, valued, names) && Taken(Scan(c.rest), cookie, valued, names))
  {
  }

  lemma Unopened(rest: string)
    requires First(rest, '{') == |rest|
    ensures Next(rest).Whole? && Braceless(rest) == (First(rest, '}') == |rest|)
  {
    FirstNone(rest, '{');
    FirstNone(rest, '}');
  }

  lemma Stray(rest: string, open: nat)
    requires open == First(rest, '{') < |rest|
    ensures Next(rest).Whole? ==> !Braceless(rest)
    ensures Next(rest).At? ==> Lacks(Next(rest).lit, '}') == (First(rest[..open], '}') == open)
    ensures Next(rest).Whole? <==> open + First(rest[open..], '}') == |rest|
  {
    assert rest[open] == '{';
    FirstNone(rest[..open], '}');
  }

  /** Slots the check takes have no braces when the names of cookies have none. */
  lemma {:induction false} TakenIsPlain(t: Template, cookie: string, valued: bool, names: set<string>)
    requires forall n :: n in names ==> NameOk(n)
    ensures Taken(t, cookie, valued, names) <==> Plain(t) && AllAllowed(t, cookie, valued, names)
  {
    if t.Slot? {
      TakenIsPlain(t.rest, cookie, valued, names);
    }
  }

  /**
   A marker passes the check exactly when it is written as brace-free literals and
   slots the rule may use, and then in one way only.
   */
  lemma CheckedIffWritten(marker: string, cookie: string, valued: bool, names: set<string>)
    requires forall n :: n in names ==> NameOk(n)
    ensures Taken(Scan(marker), cookie, valued, names) <==>
      exists t :: Plain(t) && AllAllowed(t, cookie, valued, names) && Written(t) == marker
    ensures forall t :: Plain(t) && Written(t) == marker ==> t == Scan(marker)
  {
    ScanWritten(marker);
    TakenIsPlain(Scan(marker), cookie, valued, names);
    forall t | Plain(t) && Written(t) == marker
      ensures t == Scan(marker)
    {
      ScanUnique(t);
    }
  }

  // ---- Filling ----

  /** The value of a slot in a request; empty when its cookie has none. */
  function SlotValue(slot: string, cookie: string, seen: map<string, string>): string {
    if slot == "value" || slot == "tag" then (if cookie in seen then seen[cookie] else "")
    else if slot == "name" then cookie
    else if slot in seen then seen[slot] else ""
  }

  /** The values of all slots in a request. */
  function ValueOf(cookie: string, seen: map<string, string>): string -> string {
    (slot: string) => SlotValue(slot, cookie, seen)
  }

  /**
   The slots of the rule's cookie: its value under two names, and its name; they
   win over cookies that happen to be called so. Any other slot is the value of
   the cookie of that name.
   */
  lemma SlotsMean(cookie: string, seen: map<string, string>, slot: string)
    ensures cookie in seen ==> SlotValue("value", cookie, seen) == SlotValue("tag", cookie, seen) == seen[cookie]
    ensures SlotValue("name", cookie, seen) == cookie
    ensures slot !in ["value", "tag", "name"] && slot in seen ==> SlotValue(slot, cookie, seen) == seen[slot]
    ensures slot != "name" && slot !in seen && cookie !in seen ==> SlotValue(slot, cookie, seen) == ""
  {
  }

  predicate AllFilled(t: Template, value: string -> string) {
    forall i :: 0 <= i < |Slots(t)| ==> value(Slots(t)[i]) != ""
  }

  lemma FilledStep(t: Template, value: string -> string)
    requires t.Slot?
    ensures AllFilled(t, value) <==> value(t.slot) != "" && AllFilled(t.rest, value)
  {
    var slots := Slots(t);
    assert slots[0] == t.slot && slots[1..] == Slots(t.rest);
    assert forall i :: 0 <= i < |Slots(t.rest)| ==> Slots(t.rest)[i] == slots[i + 1];
  }

  /** The filling, by the first cut. */
  lemma Filling(rest: string, value: string -> string)
    ensures Next(rest).Whole? ==> AllFilled(Scan(rest), value) && Rendered(Scan(rest), value) == rest
    ensures Next(rest).At? ==> var c := Next(rest);
      && AllFilled(Scan(rest), value) == (value(c.slot) != "" && AllFilled(Scan(c.rest), value))
      && Rendered(Scan(rest), value) == c.lit + value(c.slot) + Rendered(Scan(c.rest), value)
  {
    if Next(rest).At? { FilledStep(Scan(rest), value); }
  }

  /** The marker with its slots filled, or nothing when one of them is empty; values are never scanned. */
  method FillMarker(marker: string, cookie: string, seen: map<string, string>) returns (out: string, ok: bool)
    ensures ok == AllFilled(Scan(marker), ValueOf(cookie, seen))
    ensures out == if ok then Rendered(Scan(marker), ValueOf(cookie, seen)) else ""
  {
    out := "";
    var rest := marker;
    while true
      invariant Going(marker, out, rest, ValueOf(cookie, seen))
      decreases |rest|
    {
      var cut := CutSlot(rest);
      if cut.Whole? {
        Stays(marker, out, rest, ValueOf(cookie, seen));
        return out + rest, true;
      }
      Goes(marker, out, rest, ValueOf(cookie, seen));
      out := out + cut.lit;
      var v := SlotValue(cut.slot, cookie, seen);
      if v == "" { return "", false; }
      out := out + v;
      rest := cut.rest;
    }
  }

  /** The front of one turn: the first slot, if the text has one. */
  method CutSlot(rest: string) returns (cut: Cut)
    ensures cut == Next(rest)
  {
    var open := First(rest, '{');
    if open == |rest| { return Whole; }
    var end := First(rest[open..], '}');
    if open + end == |rest| { return Whole; }
    return At(rest[..open], rest[open + 1..open + end], rest[open + end + 1..]);
  }

  /** So far `out` is written, and `rest` decides the remainder. */
  ghost predicate Going(marker: string, out: string, rest: string, value: string -> string) {
    && AllFilled(Scan(marker), value) == AllFilled(Scan(rest), value)
    && Rendered(Scan(marker), value) == out + Rendered(Scan(rest), value)
  }

  lemma Stays(marker: string, out: string, rest: string, value: string -> string)
    requires Going(marker, out, rest, value) && Next(rest).Whole?
    ensures AllFilled(Scan(marker), value) && Rendered(Scan(marker), value) == out + rest
  {
    Filling(rest, value);
  }

  lemma Goes(marker: string, out: string, rest: string, value: string -> string)
    requires Going(marker, out, rest, value) && Next(rest).At?
    ensures var c := Next(rest);
      if value(c.slot) == "" then !AllFilled(Scan(marker), value)
      else Going(marker, out + c.lit + value(c.slot), c.rest, value)
  {
    Filling(rest, value);
    var c := Next(rest);
    Placed(out, c.lit, value(c.slot), Rendered(Scan(c.rest), value));
  }

  lemma Placed(out: string, lit: string, v: string, tail: string)
    ensures out + (lit + v + tail) == out + lit + v + tail
  {
  }

  /** Filling each slot with its own braces gives the marker back: literals and slots stand where they stood. */
  lemma {:induction false} RenderedInPlace(t: Template, value: string -> string)
    requires forall slot :: value(slot) == "{" + slot + "}"
    ensures Rendered(t, value) == Written(t)
  {
    if t.Slot? {
      RenderedInPlace(t.rest, value);
      assert t.lit + ("{" + t.slot + "}") == t.lit + "{" + t.slot + "}";
    }
  }

  /** The cookies whose values the slots of a marker ask for. */
  function Cookies(t: Template, cookie: string): set<string> {
    match t
    case End(_) => {}
    case Slot(_, slot, rest) =>
      CookieOf(slot, cookie) + Cookies(rest, cookie)
  }

  function CookieOf(slot: string, cookie: string): set<string> {
    if slot == "name" then {} else if OwnSlot(slot) then {cookie} else {slot}
  }

  predicate HasValue(seen: map<string, string>, name: string) {
    name in seen && seen[name] != ""
  }

  /**
   A checked marker is filled exactly when each cookie it speaks of has a value in
   the request; the slot for the name of the rule's cookie is always filled.
   */
  lemma {:induction false} CheckedFills(t: Template, cookie: string, valued: bool, names: set<string>,
                                        seen: map<string, string>)
    requires AllAllowed(t, cookie, valued, names)
    ensures AllFilled(t, ValueOf(cookie, seen)) <==> forall n :: n in Cookies(t, cookie) ==> HasValue(seen, n)
  {
    if t.Slot? {
      FilledStep(t, ValueOf(cookie, seen));
      CheckedFills(t.rest, cookie, valued, names, seen);
      var own := CookieOf(t.slot, cookie);
      assert Cookies(t, cookie) == own + Cookies(t.rest, cookie);
      assert SlotValue(t.slot, cookie, seen) != "" <==> forall n :: n in own ==> HasValue(seen, n);
    }
  }

  /** Then no brace is left, when those values and the cookie's name have none. */
  lemma {:induction false} FilledBraceless(t: Template, cookie: string, seen: map<string, string>)
    requires Plain(t) && Braceless(cookie)
    requires forall n :: n in Cookies(t, cookie) && n in seen ==> Braceless(seen[n])
    ensures Braceless(Rendered(t, ValueOf(cookie, seen)))
  {
    if t.Slot? {
      FilledBraceless(t.rest, cookie, seen);
      assert Braceless(SlotValue(t.slot, cookie, seen));
    }
  }
}
