/**
 Issuing a cookie and reading it back (internal/policy/cookie.go): the length of
 every value issued, and what every later read of it answers.
 */
module Cookie {
  import opened Bytes
  import opened Text

  const VALUE_MAX: nat := 256
  const MAX_LEN_LIMIT: nat := 128
  const MAX_LEN_DEFAULT: nat := 64
  const RANDOM_MAX: int := 32
  const RANDOM_DEFAULT: int := 8
  const SECOND: int := 1_000_000_000
  const MINUTE: int := 60 * SECOND

  /** A request value: `from` says that the declaration names one. */
  datatype Recipe = Recipe(from: bool, dflt: string, random: int, maxLen: int)

  /** Durations are in nanoseconds; renew is 0 when the cookie is never renewed. */
  datatype Decl = Decl(name: string, path: string, maxAge: Option<int>, signed: bool, renew: int, value: Recipe)

  /** No name is declared twice. */
  predicate DistinctNames(decls: seq<Decl>) {
    forall i, j :: 0 <= i < j < |decls| ==> decls[i].name != decls[j].name
  }

  // ---- Declarations ----

  datatype Ttl = Unset | Wrong | Lasts(d: int)
  datatype FileCookie = FileCookie(name: string, path: string, sign: string, maxAge: Ttl, renew: Ttl,
                                   from: Option<bool>, dflt: string, random: Option<int>, maxLen: int)

  predicate NameChar(c: char) {
    'A' <= c <= 'Z' || 'a' <= c <= 'z' || '0' <= c <= '9' || c == '_' || c == '.' || c == '-'
  }

  predicate NameOk(s: string) {
    1 <= |s| <= 64 && forall c :: c in s ==> NameChar(c)
  }

  function LimitFor(limit: int): (n: nat) {
    var m := if limit > MAX_LEN_LIMIT as int then MAX_LEN_LIMIT as int else limit;
    if m < 0 then 0 else m
  }

  predicate TagChar(c: char) {
    'a' <= c <= 'z' || 'A' <= c <= 'Z' || '0' <= c <= '9' || c == '_' || c == '-'
  }

  function Clean(c: char): char {
    if TagChar(c) then c else '_'
  }

  /** What sanitizeTag answers: the first characters of the value, the odd ones replaced. */
  function Sanitized(raw: string, limit: int): (tag: string)
    ensures |tag| <= MAX_LEN_LIMIT && |tag| <= |raw| && forall c :: c in tag ==> TagChar(c)
    ensures limit >= 1 && raw != [] ==> tag != []
  {
    var n := if |raw| < LimitFor(limit) then |raw| else LimitFor(limit);
    seq(n, i requires 0 <= i < n => Clean(raw[i]))
  }

  method SanitizeTag(raw: string, limit: int) returns (tag: string)
    ensures tag == Sanitized(raw, limit)
  {
    if raw == "" { return ""; }
    var most := if limit > MAX_LEN_LIMIT as int then MAX_LEN_LIMIT as int else limit;
    tag := "";
    var i := 0;
    while i < |raw| && |tag| < most
      invariant |tag| == i <= |raw| && i <= LimitFor(limit)
      invariant forall k :: 0 <= k < i ==> tag[k] == Clean(raw[k])
    {
      tag := tag + [if TagChar(raw[i]) then raw[i] else '_'];
      i := i + 1;
    }
  }

  /** The checks of parseCookie on the fields it has read; None is a refused declaration. */
  method ParseCookie(f: FileCookie) returns (c: Option<Decl>)
    ensures c.Some? <==> Acceptable(f)
    ensures c.Some? ==> Accepted(c.value) && Declares(f, c.value)
  {
    var name, path, sign := Trim(f.name), Trim(f.path), Trim(f.sign);
    if !NameOk(name) { return None; }
    if path == "" { path := "/"; }
    if path[0] != '/' { return None; }
    if sign == "" { sign := "hmac"; }
    if sign != "hmac" && sign != "none" { return None; }
    var maxAge: Option<int>, renew := None, 0;
    if f.maxAge != Unset {
      if f.maxAge.Wrong? || f.maxAge.d < SECOND { return None; }
      maxAge := Some(f.maxAge.d);
    }
    if f.renew != Unset {
      if f.renew.Wrong? || f.renew.d < SECOND || sign != "hmac" { return None; }
      if maxAge.Some? && f.renew.d >= maxAge.value { return None; }
      renew := f.renew.d;
    }
    if f.from == Some(false) { return None; }
    var dflt := SanitizeTag(Trim(f.dflt), MAX_LEN_LIMIT);
    var random := if f.random.Some? then f.random.value else RANDOM_DEFAULT;
    if random < 0 || random > RANDOM_MAX { return None; }
    var maxLen: int := if f.maxLen == 0 then MAX_LEN_DEFAULT else f.maxLen;
    if maxLen < 1 || maxLen > MAX_LEN_LIMIT { return None; }
    if f.from.None? && dflt == "" && random == 0 { return None; }
    c := Some(Decl(name, path, maxAge, sign == "hmac", renew, Recipe(f.from.Some?, dflt, random, maxLen)));
  }

  predicate LongEnough(t: Ttl) {
    t.Unset? || (t.Lasts? && t.d >= 1_000_000_000)
  }

  /** A declaration that loads; `from` is Some(false) when its operand does not parse. */
  predicate Acceptable(f: FileCookie) {
    && NameOk(Trim(f.name))
    && (Trim(f.path) == "" || Trim(f.path)[0] == '/')
    && Trim(f.sign) in {"", "hmac", "none"}
    && LongEnough(f.maxAge) && LongEnough(f.renew)
    && (f.renew.Lasts? ==> Trim(f.sign) != "none" && (f.maxAge.Lasts? ==> f.renew.d < f.maxAge.d))
    && f.from != Some(false)
    && (f.random.Some? ==> 0 <= f.random.value <= 32)
    && 0 <= f.maxLen <= 128
    && (f.from.Some? || Trim(f.dflt) != "" || f.random != Some(0))
  }

  predicate Declares(f: FileCookie, c: Decl) {
    && c.name == Trim(f.name) && c.path == (if Trim(f.path) == "" then "/" else Trim(f.path))
    && c.signed == (Trim(f.sign) != "none")
    && c.maxAge == (if f.maxAge.Lasts? then Some(f.maxAge.d) else None)
    && c.renew == (if f.renew.Lasts? then f.renew.d else 0)
    && c.value == Recipe(f.from.Some?, Sanitized(Trim(f.dflt), 128),
                         if f.random.Some? then f.random.value else 8,
                         if f.maxLen == 0 then 64 else f.maxLen)
  }

  /** What every accepted declaration has. */
  predicate Accepted(c: Decl) {
    && NameOk(c.name)
    && (c.renew == 0 || (c.renew >= SECOND && c.signed && (c.maxAge.Some? ==> c.renew < c.maxAge.value)))
    && 0 <= c.value.random <= RANDOM_MAX
    && 1 <= c.value.maxLen <= MAX_LEN_LIMIT
    && (c.value.from || c.value.dflt != "" || c.value.random > 0)
  }

  // ---- The signature ----

  predicate Base64Url(c: char) {
    'A' <= c <= 'Z' || 'a' <= c <= 'z' || '0' <= c <= '9' || c == '-' || c == '_'
  }

  /** 12 bytes of HMAC in base64url without padding: sixteen characters. */
  type MacText = s: string | |s| == 16 && forall c :: c in s ==> Base64Url(c) witness "AAAAAAAAAAAAAAAA"

  /** Of a key, a cookie name and a payload; HMAC-SHA-256 in the source, any function here. */
  type Mac = (string, string, string) -> MacText

  // ---- Issue ----

  datatype Issued = Value(text: string, tag: string) | NoValue | NoSecret | NoRandom | TooLong

  function HexDigit(d: nat): (c: char)
    requires d < 16
    ensures TagChar(c)
  {
    if d < 10 then ('0' as int + d) as char else ('a' as int + d - 10) as char
  }

  function Hex(b: seq<byte>): (s: string)
    ensures |s| == 2 * |b| && forall c :: c in s ==> TagChar(c)
  {
    if b == [] then "" else Hex(b[..|b| - 1]) + [HexDigit(b[|b| - 1] / 16), HexDigit(b[|b| - 1] % 16)]
  }

  function TagOf(payload: string): string {
    payload[..First(payload, '~')]
  }

  /** The request's value when it has one, the fallback when not. */
  function Raw(c: Decl, src: Option<string>): string {
    if c.value.from && src.Some? && src.value != "" then src.value else c.value.dflt
  }

  function Limit(c: Decl): int {
    if c.value.maxLen <= 0 then MAX_LEN_DEFAULT else c.value.maxLen
  }

  /** The unsigned part: the value, and the number behind a tilde or alone. */
  function Payload(c: Decl, src: Option<string>, noise: seq<byte>): string {
    var tag := Sanitized(Raw(c, src), Limit(c));
    if c.value.random <= 0 then tag else tag + (if tag == "" then "" else "~") + Hex(noise)
  }

  /** Seconds from year 1, where Go counts from, to 1970. */
  const UNIX_EPOCH: int := 62_135_596_800

  /** An instant that a time.Time can be: its seconds since year 1 fit 64 bits. */
  predicate GoTime(now: int) {
    Int64(now / SECOND + UNIX_EPOCH)
  }

  /** Time.Unix and time.Unix: seconds since 1970, and the instant of them, in 64-bit arithmetic. */
  function UnixOf(now: int): (secs: int)
    ensures Int64(secs)
  {
    Wrap64(now / SECOND)
  }

  function InstantOf(secs: int): int {
    (Wrap64(secs + UNIX_EPOCH) - UNIX_EPOCH) * SECOND
  }

  /** For every instant there is, the two are inverse to the second, wrapped or not. */
  lemma UnixInverse(now: int)
    requires GoTime(now)
    ensures InstantOf(UnixOf(now)) == now / SECOND * SECOND
  {
    WrapSum(now / SECOND, UNIX_EPOCH);
  }

  function Stamp(now: int): string {
    FormatInt(UnixOf(now))
  }

  function Sign(mac: Mac, key: string, name: string, payload: string, now: int): string {
    payload + "." + Stamp(now) + "." + mac(key, name, payload + "." + Stamp(now))
  }

  /** What Issue answers; `noise` is None when no random bytes can be had. */
  function IssueOf(c: Decl, src: Option<string>, now: int, key: string, noise: Option<seq<byte>>, mac: Mac): Issued {
    if c.value.random > 0 && noise.None? then NoRandom else
    var payload := Payload(c, src, if noise.Some? then noise.value else []);
    if payload == "" then NoValue
    else if c.signed && key == "" then NoSecret else
    var text := if c.signed then Sign(mac, key, c.name, payload, now) else payload;
    if |text| > VALUE_MAX then TooLong else Value(text, TagOf(payload))
  }

  method Issue(c: Decl, src: Option<string>, now: int, key: string, noise: Option<seq<byte>>, mac: Mac)
    returns (r: Issued)
    ensures r == IssueOf(c, src, now, key, noise, mac)
  {
    var raw := c.value.dflt;
    if c.value.from {
      if src.Some? && src.value != "" { raw := src.value; }
    }
    var limit := c.value.maxLen;
    if limit <= 0 { limit := MAX_LEN_DEFAULT; }
    var tag := SanitizeTag(raw, limit);
    var text := tag;
    if c.value.random > 0 {
      if noise.None? { return NoRandom; }
      if tag != "" { text := text + "~"; }
      text := text + Hex(noise.value);
    }
    assert text == Payload(c, src, if noise.Some? then noise.value else []);
    if text == "" { return NoValue; }
    tag := TagOf(text);
    if c.signed {
      if key == "" { return NoSecret; }
      var stamp := FormatInt(UnixOf(now));
      text := text + "." + stamp + "." + mac(key, c.name, text + "." + stamp);
    }
    if |text| > VALUE_MAX { return TooLong; }
    return Value(text, tag);
  }

  // ---- Read ----

  datatype Status = Absent | Present | Invalid | Expired

  datatype Seen = Seen(status: Status, tag: string) | KeyMissing

  /** A time.Duration is cut to 64 bits. */
  function Duration(d: int): int {
    if d >= TWO63 then TWO63 - 1 else if d < -TWO63 then -TWO63 else d
  }

  function Read(c: Decl, raw: string, now: int, key: string, mac: Mac): Seen {
    if raw == "" then Seen(Absent, "")
    else if |raw| > VALUE_MAX then Seen(Invalid, "")
    else if !c.signed then Seen(Present, TagOf(raw))
    else if key == "" then KeyMissing
    else match CutLast(raw, '.')
      case None => Seen(Invalid, "")
      case Some((rest, sig)) =>
        match CutLast(rest, '.')
        case None => Seen(Invalid, "")
        case Some((payload, stamp)) =>
          if |sig| != 16 || sig != mac(key, c.name, payload + "." + stamp) then Seen(Invalid, "") else
          match ParseInt(stamp)
          case None => Seen(Invalid, "")
          case Some(secs) =>
            var issued := InstantOf(secs);
            if issued > now + MINUTE then Seen(Invalid, "")
            else if c.renew > 0 && Duration(now - issued) >= c.renew then Seen(Expired, TagOf(payload))
            else Seen(Present, TagOf(payload))
  }

  // ---- Theorems ----

  predicate Fits(c: Decl, noise: Option<seq<byte>>) {
    noise.Some? ==> |noise.value| == c.value.random
  }

  lemma PayloadLength(c: Decl, src: Option<string>, noise: seq<byte>)
    requires Accepted(c) && |noise| == c.value.random
    ensures |Payload(c, src, noise)| <= 193
    ensures !c.value.from ==> Payload(c, src, noise) != ""
  {
  }

  /** `tag` is the value, cut to the limit and to 128, with every odd character replaced by an underscore. */
  predicate TagFor(v: string, limit: int, tag: string) {
    && |tag| == (if |v| <= limit && |v| <= 128 then |v| else if limit <= 128 then limit else 128)
    && forall i :: 0 <= i < |tag| && i < |v| ==>
      var ch := v[i];
      tag[i] == if 'a' <= ch <= 'z' || 'A' <= ch <= 'Z' || '0' <= ch <= '9' || ch == '_' || ch == '-' then ch else '_'
  }

  lemma SanitizedMeans(v: string, limit: int)
    requires limit >= 1
    ensures TagFor(v, limit, Sanitized(v, limit))
  {
  }

  /** A value of tag characters within the limit is its own tag. */
  lemma CleanStays(v: string, limit: int)
    requires |v| <= limit <= 128 && forall ch :: ch in v ==> TagChar(ch)
    ensures Sanitized(v, limit) == v
  {
    var tag := Sanitized(v, limit);
    forall i | 0 <= i < |v| ensures tag[i] == v[i] {
      assert v[i] in v;
    }
  }

  /** The tag is what stands before the first tilde, or all of it. */
  lemma TagOfMeans(tag: string, rest: string)
    requires Lacks(tag, '~')
    ensures TagOf(tag) == tag && TagOf(tag + "~" + rest) == tag
  {
    FirstNone(tag, '~');
    FirstIs(tag, '~', rest);
    assert (tag + "~" + rest)[..|tag|] == tag;
  }

  /** Two different numbers of one length are written differently. */
  lemma {:induction false} HexInjective(a: seq<byte>, b: seq<byte>)
    requires |a| == |b| && Hex(a) == Hex(b)
    ensures a == b
  {
    if a != [] {
      var n := |a| - 1;
      HexLast(a);
      HexLast(b);
      HexInjective(a[..n], b[..n]);
      OneByte(a[n], b[n]);
      assert a == a[..n] + [a[n]] && b == b[..n] + [b[n]];
    }
  }

  lemma HexLast(a: seq<byte>)
    requires a != []
    ensures var n := |a| - 1;
      && Hex(a)[..2 * n] == Hex(a[..n])
      && Hex(a)[2 * n] == HexDigit(a[n] / 16) && Hex(a)[2 * n + 1] == HexDigit(a[n] % 16)
  {
  }

  lemma OneByte(x: byte, y: byte)
    requires HexDigit(x / 16) == HexDigit(y / 16) && HexDigit(x % 16) == HexDigit(y % 16)
    ensures x == y
  {
    assert x / 16 == y / 16 && x % 16 == y % 16;
  }

  /** A digit is the one of its value: 0 to 9, then a to f. */
  lemma HexDigitMeans(d: nat)
    requires d < 16
    ensures HexDigit(d) == "0123456789abcdef"[d]
  {
  }

  /** What a request asks a cookie to carry: its own value, or the fallback when it has none. */
  function Asked(c: Decl, src: Option<string>): string {
    match src
    case Some(v) => if v == "" || !c.value.from then c.value.dflt else v
    case None => c.value.dflt
  }

  /**
   The tag of an issued value is the value asked for, sanitised; when nothing was
   asked for it is the number alone.
   */
  lemma IssuedTag(c: Decl, src: Option<string>, now: int, key: string, noise: Option<seq<byte>>, mac: Mac)
    requires IssueOf(c, src, now, key, noise, mac).Value?
    ensures var r, v := IssueOf(c, src, now, key, noise, mac), Asked(c, src);
      && (v != "" ==> TagFor(v, if c.value.maxLen <= 0 then 64 else c.value.maxLen, r.tag))
      && (v == "" ==> noise.Some? && r.tag == Hex(noise.value))
  {
    SanitizedMeans(Asked(c, src), Limit(c));
    PayloadTag(c, src, if noise.Some? then noise.value else []);
  }

  /** The unsigned part of an issued value: the tag, then the number behind a tilde, or either alone. */
  lemma PayloadShape(c: Decl, src: Option<string>, noise: seq<byte>)
    ensures var tag, p := Sanitized(Asked(c, src), Limit(c)), Payload(c, src, noise);
      && (c.value.random <= 0 ==> p == tag)
      && (c.value.random > 0 && tag == "" ==> p == Hex(noise))
      && (c.value.random > 0 && tag != "" ==> p == tag + "~" + Hex(noise))
  {
  }

  lemma PayloadTag(c: Decl, src: Option<string>, noise: seq<byte>)
    ensures var tag, p := Sanitized(Asked(c, src), Limit(c)), Payload(c, src, noise);
      && (tag != "" ==> TagOf(p) == tag)
      && (tag == "" && p != "" ==> c.value.random > 0 && TagOf(p) == Hex(noise))
  {
    PayloadShape(c, src, noise);
    TagOfMeans(Sanitized(Asked(c, src), Limit(c)), Hex(noise));
    TagOfMeans(Hex(noise), "");
  }

  /** With a number in it, two issues of one cookie with different numbers differ. */
  lemma NoiseShows(c: Decl, src: Option<string>, a: seq<byte>, b: seq<byte>)
    requires c.value.random > 0 && |a| == |b| && Payload(c, src, a) == Payload(c, src, b)
    ensures a == b
  {
    var tag := Sanitized(Raw(c, src), Limit(c));
    var lead := tag + if tag == "" then "" else "~";
    assert Payload(c, src, a)[|lead|..] == Hex(a) && Payload(c, src, b)[|lead|..] == Hex(b);
    HexInjective(a, b);
  }

  /** The plain cases of a read: nothing, too much, unsigned text as it is, and no key to check with. */
  lemma ReadPlain(c: Decl, raw: string, now: int, key: string, mac: Mac)
    ensures Read(c, raw, now, key, mac) == Seen(Absent, "") <==> raw == ""
    ensures |raw| > 256 ==> Read(c, raw, now, key, mac) == Seen(Invalid, "")
    ensures 1 <= |raw| <= 256 && !c.signed ==> Read(c, raw, now, key, mac) == Seen(Present, TagOf(raw))
    ensures Read(c, raw, now, key, mac) == KeyMissing <==> 1 <= |raw| <= 256 && c.signed && key == ""
  {
  }

  /**
   The length bound. For every accepted declaration, request value and instant
   the value issued is neither empty nor longer than 225 bytes, so the refusal of
   a value over 256 bytes is never reached; and no value at all comes only of a
   declaration that takes it from the request.
   */
  lemma LengthBound(c: Decl, src: Option<string>, now: int, key: string, noise: Option<seq<byte>>, mac: Mac)
    requires Accepted(c) && Fits(c, noise)
    ensures var r := IssueOf(c, src, now, key, noise, mac);
      && r != TooLong
      && (r.Value? ==> 1 <= |r.text| <= 225)
      && (r == NoValue ==> c.value.from)
  {
    if noise.Some? {
      PayloadLength(c, src, noise.value);
    } else if c.value.random == 0 {
      PayloadLength(c, src, []);
    }
    FormatIntLength(UnixOf(now));
  }

  predicate Safe(c: char) {
    TagChar(c) || c == '~' || c == '.'
  }

  predicate AllSafe(s: string) {
    forall c :: c in s ==> Safe(c)
  }

  lemma StampChars(i: int)
    ensures forall c :: c in FormatInt(i) ==> TagChar(c)
  {
    FormatValue(if i < 0 then -i else i);
  }

  /** A value issued is made of characters that need no quoting in a header. */
  lemma IssuedSafe(c: Decl, src: Option<string>, now: int, key: string, noise: Option<seq<byte>>, mac: Mac)
    requires IssueOf(c, src, now, key, noise, mac).Value?
    ensures AllSafe(IssueOf(c, src, now, key, noise, mac).text)
  {
    StampChars(UnixOf(now));
    var payload := Payload(c, src, if noise.Some? then noise.value else []);
    assert AllSafe(payload);
  }

  /** A signed value comes apart again into the three it was made of. */
  lemma SignedParts(mac: Mac, key: string, name: string, payload: string, now: int)
    ensures var text := Sign(mac, key, name, payload, now);
      && CutLast(text, '.') == Some((payload + "." + Stamp(now), mac(key, name, payload + "." + Stamp(now))))
      && CutLast(payload + "." + Stamp(now), '.') == Some((payload, Stamp(now)))
  {
    StampChars(UnixOf(now));
    CutLastJoin(payload, '.', Stamp(now));
    CutLastJoin(payload + "." + Stamp(now), '.', mac(key, name, payload + "." + Stamp(now)));
  }

  /**
   The cookie's life. A value issued at `now` reads back at every later instant
   with the tag it was issued with: present until `renew` has passed since the
   second it was issued in, expired from then on, and never anything else.
   */
  lemma ReadsBack(c: Decl, src: Option<string>, now: int, key: string, noise: Option<seq<byte>>, mac: Mac, later: int)
    requires Accepted(c) && Fits(c, noise) && GoTime(now) && Int64(c.renew)
    requires IssueOf(c, src, now, key, noise, mac).Value? && now <= later
    ensures var r := IssueOf(c, src, now, key, noise, mac);
      Read(c, r.text, later, key, mac) ==
        Seen(if c.renew > 0 && later >= now / SECOND * SECOND + c.renew then Expired else Present, r.tag)
    ensures later == now ==> Read(c, IssueOf(c, src, now, key, noise, mac).text, later, key, mac).status == Present
  {
    LengthBound(c, src, now, key, noise, mac);
    if c.signed {
      var payload := Payload(c, src, if noise.Some? then noise.value else []);
      SignedReads(c, payload, now, key, mac, later);
    }
  }

  lemma SignedReads(c: Decl, payload: string, now: int, key: string, mac: Mac, later: int)
    requires c.signed && key != "" && |Sign(mac, key, c.name, payload, now)| <= VALUE_MAX
    requires GoTime(now) && Int64(c.renew) && now <= later
    ensures Read(c, Sign(mac, key, c.name, payload, now), later, key, mac) ==
      Seen(if c.renew > 0 && later >= now / SECOND * SECOND + c.renew then Expired else Present, TagOf(payload))
  {
    SignedParts(mac, key, c.name, payload, now);
    ParseFormat(UnixOf(now));
    UnixInverse(now);
  }

  /** Once expired, always expired. */
  lemma ExpiresOnce(c: Decl, src: Option<string>, now: int, key: string, noise: Option<seq<byte>>, mac: Mac,
                    t1: int, t2: int)
    requires Accepted(c) && Fits(c, noise) && GoTime(now) && Int64(c.renew)
    requires IssueOf(c, src, now, key, noise, mac).Value? && now <= t1 <= t2
    ensures var text := IssueOf(c, src, now, key, noise, mac).text;
      Read(c, text, t1, key, mac).status == Expired ==> Read(c, text, t2, key, mac).status == Expired
  {
    ReadsBack(c, src, now, key, noise, mac, t1);
    ReadsBack(c, src, now, key, noise, mac, t2);
  }

  /**
   Nothing but a signed text is believed: a signed cookie is present or expired
   exactly when it is some payload and time under the signature of this cookie's
   own name, the time a number of seconds whose instant, as time.Unix computes it,
   is not more than a minute ahead.
   */
  lemma BelievedIsSigned(c: Decl, raw: string, now: int, key: string, mac: Mac)
    requires c.signed && key != "" && |raw| <= VALUE_MAX
    ensures (Read(c, raw, now, key, mac).status == Present || Read(c, raw, now, key, mac).status == Expired) <==>
      exists payload, stamp ::
        && Lacks(stamp, '.') && raw == payload + "." + stamp + "." + mac(key, c.name, payload + "." + stamp)
        && ParseInt(stamp).Some? && InstantOf(ParseInt(stamp).value) <= now + MINUTE
  {
    CutLastParts(raw, '.');
    match CutLast(raw, '.')
    case None =>
      forall payload, stamp ensures raw != payload + "." + stamp + "." + mac(key, c.name, payload + "." + stamp) {
        assert '.' in payload + "." + stamp + "." + mac(key, c.name, payload + "." + stamp);
      }
    case Some((rest, sig)) =>
      CutLastParts(rest, '.');
      forall payload, stamp |
        Lacks(stamp, '.') && raw == payload + "." + stamp + "." + mac(key, c.name, payload + "." + stamp)
        ensures CutLast(rest, '.') == Some((payload, stamp)) && sig == mac(key, c.name, payload + "." + stamp)
      {
        CutLastJoin(payload, '.', stamp);
        CutLastJoin(payload + "." + stamp, '.', mac(key, c.name, payload + "." + stamp));
      }
  }
}
