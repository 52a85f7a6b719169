/**
 Loading bodies (internal/body/body.go; internal/body/redis.go): one locator at a
 time, and many at once with one read for those of a single store.
 */
module Loader {
  import opened Text

  datatype Locator = Locator(
    unavailable: string, driver: string, store: string, key: string,
    encrypted: bool, sha: string, processedSha: string, truncated: bool)

  datatype Body = Body(data: string, truncated: bool, unavailable: string, fault: bool, sha: string)

  datatype Got<T> = Got(value: T) | UnknownDriver | StoreError

  type Get = (string, string, string) -> Got<string>
  type GetMany = (string, string, seq<string>) -> Got<seq<Option<string>>>

  /** No store, one that reads a key at a time, or one that also reads many. */
  datatype Store = NoStore | OneByOne(get: Get) | AtOnce(get: Get, getMany: GetMany)

  /** A loader: its store, and what is uninterpreted here, decryption and the digest. */
  datatype Loader = Loader(store: Store, decrypt: (Locator, string) -> Option<string>, digest: string -> string)

  const NOTHING := Body("", false, "", false, "")

  function Fault(why: string): Body {
    Body("", false, why, true, "")
  }

  /** The digest a body must have; empty when there is none to compare with. */
  function Expected(loc: Locator): string {
    if loc.processedSha != "" then loc.processedSha else if loc.truncated then "" else loc.sha
  }

  function Finish(l: Loader, loc: Locator, raw: string): Body {
    var plain := if loc.encrypted then l.decrypt(loc, raw) else Some(raw);
    if plain.None? then Fault("decrypt_failed") else
    var sum := l.digest(plain.value);
    if Expected(loc) != "" && Expected(loc) != sum then Fault("digest_mismatch")
    else Body(plain.value, loc.truncated, "", false, sum)
  }

  function Answered(l: Loader, loc: Locator, got: Got<string>): Body {
    match got
    case UnknownDriver => Fault("unknown_driver")
    case StoreError => Fault("store_error")
    case Got(raw) => Finish(l, loc, raw)
  }

  function Load(l: Loader, loc: Option<Locator>): Body {
    if loc.None? then NOTHING
    else if loc.value.unavailable != "" then NOTHING.(unavailable := loc.value.unavailable)
    else if loc.value.driver == "" then NOTHING
    else if l.store.NoStore? then Fault("store_unconfigured")
    else Answered(l, loc.value, l.store.get(loc.value.driver, loc.value.store, loc.value.key))
  }

  /**
   A body as a caller may use it: nothing was asked for; or it is not available, by
   the locator or by a fault; or it is labelled with its own digest, which is the
   one the locator gives.
   */
  predicate Genuine(l: Loader, loc: Option<Locator>, b: Body) {
    if loc.None? || (loc.value.unavailable == "" && loc.value.driver == "") then b == NOTHING
    else if b.unavailable != "" then b.data == "" && b.fault == (loc.value.unavailable == "")
    else b.sha == l.digest(b.data) && !b.fault && (Expected(loc.value) == "" || b.sha == Expected(loc.value))
  }

  /** What the store answered, decrypted when the locator says so. */
  function Plain(l: Loader, loc: Locator): Option<string>
    requires !l.store.NoStore?
  {
    match l.store.get(loc.driver, loc.store, loc.key)
    case Got(raw) => if loc.encrypted then l.decrypt(loc, raw) else Some(raw)
    case _ => None
  }

  /** The digest to compare with: that of the processed body first, none for a truncated one. */
  predicate Matches(l: Loader, loc: Locator, text: string) {
    if loc.processedSha != "" then l.digest(text) == loc.processedSha
    else loc.truncated || loc.sha == "" || l.digest(text) == loc.sha
  }

  /**
   A locator with a driver is delivered exactly when the store has the object, it
   can be decrypted, and its digest matches; and then the body is that text.
   */
  lemma DeliveredIff(l: Loader, loc: Locator)
    requires !l.store.NoStore? && loc.unavailable == "" && loc.driver != ""
    ensures var b, plain := Load(l, Some(loc)), Plain(l, loc);
      && (b.unavailable == "" <==> plain.Some? && Matches(l, loc, plain.value))
      && (b.unavailable == "" ==> b.data == plain.value && b.truncated == loc.truncated)
  {
  }

  /** No locator, or one without a driver, is no body; one marked unavailable says so and is no fault. */
  lemma LoadGiven(l: Loader, loc: Locator)
    ensures Load(l, None) == Body("", false, "", false, "")
    ensures loc.unavailable != "" ==> Load(l, Some(loc)) == Body("", false, loc.unavailable, false, "")
    ensures loc.unavailable == "" && loc.driver == "" ==> Load(l, Some(loc)) == Body("", false, "", false, "")
  {
  }

  /** Why a locator is not delivered, by what went wrong first. */
  lemma FaultMeans(l: Loader, loc: Locator)
    requires loc.unavailable == "" && loc.driver != ""
    ensures var b := Load(l, Some(loc));
      && (b.unavailable == "store_unconfigured" <==> l.store.NoStore?)
      && (!l.store.NoStore? ==>
            var got := l.store.get(loc.driver, loc.store, loc.key);
            && (b.unavailable == "unknown_driver" <==> got.UnknownDriver?)
            && (b.unavailable == "store_error" <==> got.StoreError?)
            && (b.unavailable == "decrypt_failed" <==> got.Got? && loc.encrypted && l.decrypt(loc, got.value).None?))
  {
    assert "store_unconfigured"[6] == 'u' && "store_error"[6] == 'e' && "unknown_driver"[0] == 'u';
    assert "decrypt_failed"[0] == 'd' && "digest_mismatch"[1] == 'i' && "decrypt_failed"[1] == 'e';
    assert "digest_mismatch"[0] == 'd' && "store_error"[0] == 's';
  }

  lemma LoadIsGenuine(l: Loader, loc: Option<Locator>)
    ensures Genuine(l, loc, Load(l, loc))
  {
  }

  // ---- Stores that answer both ways alike ----

  /** The answer for one key within an answer for many. */
  function Nth(got: Got<seq<Option<string>>>, n: nat): Got<string>
    requires got.Got? ==> n < |got.value|
  {
    match got
    case UnknownDriver => UnknownDriver
    case StoreError => StoreError
    case Got(raws) => if raws[n].Some? then Got(raws[n].value) else StoreError
  }

  ghost predicate Alike(get: Get, getMany: GetMany, driver: string, store: string, keys: seq<string>) {
    var got := getMany(driver, store, keys);
    && (got.Got? ==> |got.value| == |keys|)
    && forall n :: 0 <= n < |keys| ==> Nth(got, n) == get(driver, store, keys[n])
  }

  /** Reading many keys, at least one, answers for each as reading it alone does. */
  ghost predicate Coherent(store: Store) {
    store.AtOnce? ==>
      forall driver, name, keys | keys != [] :: Alike(store.get, store.getMany, driver, name, keys)
  }

  /** The Redis store while it is reachable (or not), with these values in it. */
  function RedisGet(db: map<string, string>, up: bool): Get {
    (driver: string, store: string, key: string) =>
      if driver != "redis" then UnknownDriver else if up && key in db then Got(db[key]) else StoreError
  }

  function RedisGetMany(db: map<string, string>, up: bool): GetMany {
    (driver: string, store: string, keys: seq<string>) =>
      if driver != "redis" then UnknownDriver else if !up then StoreError
      else Got(seq(|keys|, n requires 0 <= n < |keys| => if keys[n] in db then Some(db[keys[n]]) else None))
  }

  lemma RedisCoherent(db: map<string, string>, up: bool)
    ensures Coherent(AtOnce(RedisGet(db, up), RedisGetMany(db, up)))
  {
  }

  // ---- Many at once ----

  /** The locator is read from this store. */
  predicate ReadFrom(loc: Option<Locator>, driver: string, store: string) {
    loc.Some? && loc.value.unavailable == "" && loc.value.driver == driver != "" && loc.value.store == store
  }

  /** The places set aside for one read, with their keys. */
  predicate Aside(locs: seq<Option<Locator>>, at: seq<nat>, keys: seq<string>, driver: string, store: string) {
    && |at| == |keys|
    && forall n :: 0 <= n < |at| ==>
      at[n] < |locs| && ReadFrom(locs[at[n]], driver, store) && locs[at[n]].value.key == keys[n]
  }

  /**
   Loading many gives at every place what loading that locator alone gives,
   whatever mix of locators there is, when the store answers both ways alike.
   */
  method LoadMany(l: Loader, locs: seq<Option<Locator>>) returns (out: seq<Body>)
    requires Coherent(l.store)
    ensures |out| == |locs| && forall i :: 0 <= i < |locs| ==> out[i] == Load(l, locs[i])
    ensures forall i :: 0 <= i < |locs| ==> Genuine(l, locs[i], out[i])
  {
    forall loc ensures Genuine(l, loc, Load(l, loc)) {
      LoadIsGenuine(l, loc);
    }
    var bodies := new Body[|locs|](_ => NOTHING);
    if !l.store.AtOnce? {
      for i := 0 to |locs|
        invariant forall k :: 0 <= k < i ==> bodies[k] == Load(l, locs[k])
      {
        bodies[i] := Load(l, locs[i]);
      }
      return bodies[..];
    }
    var at, keys, driver, store := SetAside(l, locs, bodies);
    if |keys| < 2 {
      for n := 0 to |at|
        invariant forall k :: 0 <= k < |locs| && k !in at[n..] ==> bodies[k] == Load(l, locs[k])
      {
        bodies[at[n]] := Load(l, locs[at[n]]);
      }
      return bodies[..];
    }
    ReadAside(l, locs, bodies, at, keys, driver, store);
    return bodies[..];
  }

  /** The first loop: what cannot be batched is loaded, the rest set aside. */
  method SetAside(l: Loader, locs: seq<Option<Locator>>, bodies: array<Body>)
    returns (at: seq<nat>, keys: seq<string>, driver: string, store: string)
    requires bodies.Length == |locs|
    modifies bodies
    ensures Aside(locs, at, keys, driver, store)
    ensures forall k :: 0 <= k < |locs| && k !in at ==> bodies[k] == Load(l, locs[k])
  {
    at, keys, driver, store := [], [], "", "";
    var batched := false;
    for i := 0 to |locs|
      invariant Aside(locs, at, keys, driver, store) && (!batched ==> at == [])
      invariant forall k :: 0 <= k < i && k !in at ==> bodies[k] == Load(l, locs[k])
    {
      var loc := locs[i];
      if loc.None? || loc.value.unavailable != "" || loc.value.driver == "" {
        bodies[i] := Load(l, loc);
      } else if batched && (loc.value.driver != driver || loc.value.store != store) {
        bodies[i] := Load(l, loc);
      } else {
        driver, store, batched := loc.value.driver, loc.value.store, true;
        keys, at := keys + [loc.value.key], at + [i];
      }
    }
  }

  /** The one read for all that were set aside. */
  method ReadAside(l: Loader, locs: seq<Option<Locator>>, bodies: array<Body>, at: seq<nat>, keys: seq<string>,
                   driver: string, store: string)
    requires bodies.Length == |locs| && Aside(locs, at, keys, driver, store)
    requires l.store.AtOnce? && Alike(l.store.get, l.store.getMany, driver, store, keys)
    requires forall k :: 0 <= k < |locs| && k !in at ==> bodies[k] == Load(l, locs[k])
    modifies bodies
    ensures forall k :: 0 <= k < |locs| ==> bodies[k] == Load(l, locs[k])
  {
    var got := l.store.getMany(driver, store, keys);
    for n := 0 to |at|
      invariant forall k :: 0 <= k < |locs| && k !in at[n..] ==> bodies[k] == Load(l, locs[k])
    {
      var i := at[n];
      assert Nth(got, n) == l.store.get(driver, store, keys[n]);
      match got
      case UnknownDriver => bodies[i] := Fault("unknown_driver");
      case StoreError => bodies[i] := Fault("store_error");
      case Got(raws) =>
        bodies[i] := if raws[n].None? then Fault("store_error") else Finish(l, locs[i].value, raws[n].value);
    }
  }
}
