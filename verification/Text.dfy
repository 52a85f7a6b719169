/** Strings as the Go code sees them: searching, cutting, trimming and numbers in base 36. */
module Text {
  import opened Bytes

  datatype Option<+T> = None | Some(value: T)

  function Lower(c: char): char {
    if 'A' <= c <= 'Z' then (c as int + 32) as char else c
  }

  /** strings.ToLower, for ASCII. */
  function Lowered(s: string): string {
    seq(|s|, i requires 0 <= i < |s| => Lower(s[i]))
  }

  lemma LowerMeans(c: char)
    ensures 'A' <= c <= 'Z' ==> 'a' <= Lower(c) <= 'z' && Lower(c) as int - 'a' as int == c as int - 'A' as int
    ensures !('A' <= c <= 'Z') ==> Lower(c) == c
  {
  }

  predicate Lacks(s: string, c: char) { c !in s }

  /** strings.IndexByte: the first occurrence, or the length when there is none. */
  function First(s: string, c: char): (i: nat)
    ensures i <= |s| && Lacks(s[..i], c) && (i < |s| ==> s[i] == c)
  {
    if s == [] || s[0] == c then 0 else
      assert s[..1 + First(s[1..], c)] == [s[0]] + s[1..][..First(s[1..], c)];
      1 + First(s[1..], c)
  }

  lemma FirstIs(a: string, c: char, b: string)
    requires Lacks(a, c)
    ensures First(a + [c] + b, c) == |a|
  {
    var s := a + [c] + b;
    assert s[|a|] == c && s[..|a|] == a;
  }

  lemma FirstNone(s: string, c: char)
    ensures First(s, c) == |s| <==> Lacks(s, c)
  {
    var i := First(s, c);
    if i == |s| {
      assert s[..i] == s;
    }
  }

  /** cutLast: the parts around the last separator. */
  function CutLast(s: string, sep: char): Option<(string, string)> {
    if s == [] then None
    else if s[|s| - 1] == sep then Some((s[..|s| - 1], ""))
    else match CutLast(s[..|s| - 1], sep)
      case None => None
      case Some(p) => Some((p.0, p.1 + [s[|s| - 1]]))
  }

  lemma {:induction false} CutLastJoin(a: string, sep: char, b: string)
    requires Lacks(b, sep)
    ensures CutLast(a + [sep] + b, sep) == Some((a, b))
  {
    var s := a + [sep] + b;
    if b == [] {
      assert s[..|s| - 1] == a;
    } else {
      var b' := b[..|b| - 1];
      assert s[..|s| - 1] == a + [sep] + b' && b == b' + [b[|b| - 1]];
      CutLastJoin(a, sep, b');
    }
  }

  lemma {:induction false} CutLastParts(s: string, sep: char)
    ensures match CutLast(s, sep)
      case None => Lacks(s, sep)
      case Some((a, b)) => s == a + [sep] + b && Lacks(b, sep)
  {
    if s != [] && s[|s| - 1] != sep {
      CutLastParts(s[..|s| - 1], sep);
      assert s == s[..|s| - 1] + [s[|s| - 1]];
    }
  }

  // ---- White space ----

  predicate Space(c: char) {
    c == ' ' || '\t' <= c <= '\r'
  }

  /** strings.TrimSpace, for ASCII white space. */
  function Trim(s: string): string {
    TrimRight(TrimLeft(s))
  }

  function TrimLeft(s: string): string {
    if s != [] && Space(s[0]) then TrimLeft(s[1..]) else s
  }

  function TrimRight(s: string): string {
    if s != [] && Space(s[|s| - 1]) then TrimRight(s[..|s| - 1]) else s
  }

  /** Only white space in front and behind is taken away, and all of it. */
  lemma {:induction false} TrimMeans(a: string, s: string, b: string)
    requires forall c :: c in a || c in b ==> c as int in {9, 10, 11, 12, 13, 32}
    requires s != "" && s[0] as int !in {9, 10, 11, 12, 13, 32} && s[|s| - 1] as int !in {9, 10, 11, 12, 13, 32}
    ensures Trim(a + s + b) == s
  {
    TrimFront(a, s + b);
    assert a + (s + b) == a + s + b;
    TrimBack(s, b);
  }

  lemma {:induction false} TrimFront(a: string, s: string)
    requires (forall c :: c in a ==> Space(c)) && s != "" && !Space(s[0])
    ensures TrimLeft(a + s) == s
  {
    if a == "" {
      assert a + s == s;
    } else {
      assert (a + s)[1..] == a[1..] + s;
      TrimFront(a[1..], s);
    }
  }

  lemma {:induction false} TrimBack(s: string, b: string)
    requires (forall c :: c in b ==> Space(c)) && s != "" && !Space(s[|s| - 1])
    ensures TrimRight(s + b) == s
  {
    if b == "" {
      assert s + b == s;
    } else {
      assert (s + b)[..|s + b| - 1] == s + b[..|b| - 1];
      TrimBack(s, b[..|b| - 1]);
    }
  }

  predicate NoSpace(s: string) {
    forall c :: c in s ==> !Space(c)
  }

  lemma TrimNothing(s: string)
    requires NoSpace(s)
    ensures TrimLeft(s) == s && Trim(s) == s
  {
  }

  lemma TrimOneLeft(s: string)
    requires NoSpace(s)
    ensures Trim(" " + s) == s
  {
    assert (" " + s)[1..] == s;
    TrimNothing(s);
  }

  // ---- strings.Split on one separator ----

  function Split(s: string, sep: char): (items: seq<string>)
    ensures items != []
    decreases |s|
  {
    var i := First(s, sep);
    if i == |s| then [s] else [s[..i]] + Split(s[i + 1..], sep)
  }

  function Join(items: seq<string>, sep: char): string
    requires items != []
  {
    if |items| == 1 then items[0] else items[0] + [sep] + Join(items[1..], sep)
  }

  lemma {:induction false} SplitJoin(items: seq<string>, sep: char)
    requires items != [] && forall i :: 0 <= i < |items| ==> Lacks(items[i], sep)
    ensures Split(Join(items, sep), sep) == items
  {
    if |items| == 1 {
      FirstNone(items[0], sep);
    } else {
      var rest := Join(items[1..], sep);
      FirstIs(items[0], sep, rest);
      var s := items[0] + [sep] + rest;
      assert s[..|items[0]|] == items[0] && s[|items[0]| + 1..] == rest;
      SplitJoin(items[1..], sep);
    }
  }

  // ---- strconv.FormatInt and ParseInt in base 36 ----

  function DigitValue(c: char): int {
    if '0' <= c <= '9' then c as int - '0' as int
    else if 'a' <= c <= 'z' then c as int - 'a' as int + 10
    else if 'A' <= c <= 'Z' then c as int - 'A' as int + 10
    else -1
  }

  function Digit(d: nat): (c: char)
    requires d < 36
    ensures DigitValue(c) == d && ('0' <= c <= '9' || 'a' <= c <= 'z')
  {
    if d < 10 then ('0' as int + d) as char else ('a' as int + d - 10) as char
  }

  function Format(n: nat): (s: string)
    ensures s != []
  {
    if n < 36 then [Digit(n)] else Format(n / 36) + [Digit(n % 36)]
  }

  /** The base is 36: ten digits, then the small letters. */
  lemma BaseIs36()
    ensures Format(9) == "9" && Format(10) == "a" && Format(35) == "z" && Format(36) == "10"
  {
    assert Format(36 / 36) == "1";
  }

  function FormatInt(i: int): string {
    if i < 0 then "-" + Format(-i) else Format(i)
  }

  predicate AllDigits(s: string) {
    forall c :: c in s ==> DigitValue(c) >= 0
  }

  function Value(s: string): nat
    requires AllDigits(s)
  {
    if s == [] then 0 else Value(s[..|s| - 1]) * 36 + DigitValue(s[|s| - 1])
  }

  function ParseInt(s: string): Option<int> {
    if s == [] then None else
    var neg := s[0] == '-';
    var digits := if neg || s[0] == '+' then s[1..] else s;
    if digits == [] || !AllDigits(digits) then None else
    var v: int := Value(digits);
    if neg then (if v > TWO63 then None else Some(-v)) else if v >= TWO63 then None else Some(v)
  }

  lemma {:induction false} FormatValue(n: nat)
    ensures AllDigits(Format(n)) && Value(Format(n)) == n
    ensures forall c :: c in Format(n) ==> '0' <= c <= '9' || 'a' <= c <= 'z'
  {
    if n >= 36 {
      var s := Format(n);
      FormatValue(n / 36);
      assert s[..|s| - 1] == Format(n / 36) && s[|s| - 1] == Digit(n % 36);
    }
  }

  /** Every 64-bit number is read back from its text. */
  lemma ParseFormat(i: int)
    requires -TWO63 <= i < TWO63
    ensures ParseInt(FormatInt(i)) == Some(i)
  {
    FormatValue(if i < 0 then -i else i);
    if i < 0 {
      assert FormatInt(i)[1..] == Format(-i);
    } else {
      assert Format(i)[0] in Format(i);
    }
  }

  function Pow36(k: nat): nat {
    if k == 0 then 1 else 36 * Pow36(k - 1)
  }

  lemma {:induction false} FormatLength(n: nat, k: nat)
    requires k >= 1 && n < Pow36(k)
    ensures |Format(n)| <= k
  {
    if n >= 36 {
      FormatLength(n / 36, k - 1);
    }
  }

  lemma FormatIntLength(i: int)
    requires -TWO63 <= i < TWO63
    ensures 1 <= |FormatInt(i)| <= 14
  {
    assert Pow36(1) == 36 && Pow36(2) == 1296 && Pow36(3) == 46656 && Pow36(4) == 1679616;
    assert Pow36(5) == 60466176 && Pow36(6) == 2176782336 && Pow36(7) == 78364164096;
    assert Pow36(8) == 2821109907456 && Pow36(9) == 101559956668416 && Pow36(10) == 3656158440062976;
    assert Pow36(11) == 131621703842267136 && Pow36(12) == 4738381338321616896;
    assert Pow36(13) == 170581728179578208256;
    FormatLength(if i < 0 then -i else i, 13);
  }
}
