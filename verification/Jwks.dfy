/** What a JWKS document does to the key cache (fetchJWKS in internal/auth/jwt.go). */
module Jwks {
  import opened Options

  type Byte = x: int | 0 <= x < 256

  const TWO_63: int := 0x8000_0000_0000_0000
  const TWO_64: int := 0x1_0000_0000_0000_0000

  /** Go's int: 64 bits, two's complement. */
  function Wrap(x: int): int {
    (x + TWO_63) % TWO_64 - TWO_63
  }

  /** The number big-endian bytes stand for (section 6.3.1.2 of RFC 7518). */
  function Value(bytes: seq<Byte>): nat {
    if bytes == [] then 0 else Value(bytes[..|bytes| - 1]) * 256 + bytes[|bytes| - 1]
  }

  lemma WrapStep(x: int, b: Byte)
    ensures Wrap(Wrap(Wrap(x) * 256) + b) == Wrap(x * 256 + b)
  {
    WrapAbsorbs(Wrap(x) * 256, b);
    var q := (x + TWO_63) / TWO_64;
    assert Wrap(x) == x - q * TWO_64;
    assert Wrap(x) * 256 + b == x * 256 + b + (-256 * q) * TWO_64;
    WrapPeriod(x * 256 + b, -256 * q);
  }

  lemma WrapAbsorbs(x: int, b: int)
    ensures Wrap(Wrap(x) + b) == Wrap(x + b)
  {
    var q := (x + TWO_63) / TWO_64;
    assert Wrap(x) + b == x + b + (-q) * TWO_64;
    WrapPeriod(x + b, -q);
  }

  lemma WrapPeriod(x: int, k: int)
    ensures Wrap(x + k * TWO_64) == Wrap(x)
  {
    ModPeriod(x + TWO_63, k);
  }

  lemma {:induction false} ModPeriod(x: int, k: int)
    ensures (x + k * TWO_64) % TWO_64 == x % TWO_64
    decreases if k < 0 then -k else k
  {
    if k > 0 {
      ModPeriod(x, k - 1);
      assert x + k * TWO_64 == (x + (k - 1) * TWO_64) + TWO_64;
    } else if k < 0 {
      ModPeriod(x, k + 1);
      assert x + k * TWO_64 == (x + (k + 1) * TWO_64) - TWO_64;
    }
  }

  /** The exponent loop accepts any bytes; it yields their value modulo 2^64, read as a signed number. */
  method ParseExponent(bytes: seq<Byte>) returns (e: int)
    ensures e == Wrap(Value(bytes))
    ensures e == Value(bytes) <==> Value(bytes) < 0x8000_0000_0000_0000
    ensures -0x8000_0000_0000_0000 <= e < 0x8000_0000_0000_0000
    ensures (e - Value(bytes)) % 0x1_0000_0000_0000_0000 == 0
    ensures bytes == [1, 0, 1] ==> e == 65537
  {
    e := 0;
    for i := 0 to |bytes|
      invariant e == Wrap(Value(bytes[..i]))
    {
      assert bytes[..i + 1][..i] == bytes[..i];
      WrapStep(Value(bytes[..i]), bytes[i]);
      e := Wrap(Wrap(e * 256) + bytes[i]);
    }
    assert bytes[..|bytes|] == bytes;
    WrapIs(Value(bytes));
    if bytes == [1, 0, 1] {
      UsualExponent(bytes);
    }
  }

  lemma WrapIs(x: int)
    ensures (Wrap(x) - x) % 0x1_0000_0000_0000_0000 == 0
  {
    var q := (x + TWO_63) / TWO_64;
    assert Wrap(x) - x == (-q) * TWO_64;
    ModPeriod(0, -q);
  }

  lemma UsualExponent(bytes: seq<Byte>)
    requires bytes == [1, 0, 1]
    ensures Value(bytes) == 65537
  {
    assert bytes[..2] == [1, 0] && bytes[..2][..1] == [1] && bytes[..2][..1][..0] == [];
    assert Value(bytes[..2][..1]) == 1 && Value(bytes[..2]) == 256;
  }

  /** One key of the document; `n` and `e` are their base64url decodings, where these succeed. */
  datatype Jwk = Jwk(kid: string, kty: string, use: string, n: Option<seq<Byte>>, e: Option<seq<Byte>>)

  datatype RsaKey = RsaKey(n: nat, e: int)

  datatype Verdict = Skipped | Broken | Accepted(key: RsaKey)

  function Judge(jwk: Jwk): Verdict {
    if jwk.kty != "RSA" || jwk.use != "sig" then Skipped
    else if jwk.n.None? || jwk.e.None? then Broken
    else Accepted(RsaKey(Value(jwk.n.value), Wrap(Value(jwk.e.value))))
  }

  /** An accepted key and the id it goes under. */
  datatype Entry = Entry(kid: string, key: RsaKey)

  /** What the document adds before its first broken key, and whether it has none. */
  function Added(doc: seq<Jwk>): seq<Entry> {
    if doc == [] || Judge(doc[0]).Broken? then []
    else (if Judge(doc[0]).Accepted? then [Entry(doc[0].kid, Judge(doc[0]).key)] else []) + Added(doc[1..])
  }

  /** A key that can be used: an RSA key for signatures, whose two numbers can be decoded. */
  predicate Usable(jwk: Jwk) {
    jwk.kty == "RSA" && jwk.use == "sig" && jwk.n.Some? && jwk.e.Some?
  }

  /** Only usable keys are added, and from a document without a broken key all of them are. */
  lemma {:induction false} AddedAre(doc: seq<Jwk>)
    ensures forall entry :: entry in Added(doc) ==> exists jwk :: jwk in doc && Usable(jwk) && EntryOf(jwk) == entry
    ensures Whole(doc) ==> forall jwk :: jwk in doc && Usable(jwk) ==> EntryOf(jwk) in Added(doc)
    ensures Whole(doc) <==>
      forall jwk :: jwk in doc && jwk.kty == "RSA" && jwk.use == "sig" ==> jwk.n.Some? && jwk.e.Some?
  {
    if doc != [] {
      AddedAre(doc[1..]);
      assert doc == [doc[0]] + doc[1..];
      forall entry | entry in Added(doc) ensures exists jwk :: jwk in doc && Usable(jwk) && EntryOf(jwk) == entry {
        if entry in Added(doc[1..]) {
          var jwk :| jwk in doc[1..] && Usable(jwk) && EntryOf(jwk) == entry;
          assert jwk in doc;
        } else {
          assert Usable(doc[0]) && EntryOf(doc[0]) == entry;
        }
      }
    }
  }

  function EntryOf(jwk: Jwk): Entry
    requires Usable(jwk)
  {
    Entry(jwk.kid, RsaKey(Value(jwk.n.value), Wrap(Value(jwk.e.value))))
  }

  predicate Whole(doc: seq<Jwk>) {
    forall jwk :: jwk in doc ==> !Judge(jwk).Broken?
  }

  /** `key` is what the log last says of the id. */
  predicate LastSays(log: seq<Entry>, kid: string, key: RsaKey) {
    exists i :: 0 <= i < |log| && log[i] == Entry(kid, key) && forall j :: i < j < |log| ==> log[j].kid != kid
  }

  /** The cache is the last-write-wins content of the log. */
  ghost predicate Holds(keys: map<string, RsaKey>, log: seq<Entry>) {
    forall kid ::
      if kid in keys then LastSays(log, kid, keys[kid]) else forall i :: 0 <= i < |log| ==> log[i].kid != kid
  }

  lemma HoldsOn(keys: map<string, RsaKey>, log: seq<Entry>, entry: Entry)
    requires Holds(keys, log)
    ensures Holds(keys[entry.kid := entry.key], log + [entry])
  {
    var keys', log' := keys[entry.kid := entry.key], log + [entry];
    forall kid
      ensures if kid in keys' then LastSays(log', kid, keys'[kid])
              else forall i :: 0 <= i < |log'| ==> log'[i].kid != kid
    {
      assert if kid in keys then LastSays(log, kid, keys[kid]) else forall i :: 0 <= i < |log| ==> log[i].kid != kid;
      if kid == entry.kid {
        assert log'[|log|] == Entry(kid, keys'[kid]);
      } else if kid in keys {
        var i :| 0 <= i < |log| && log[i] == Entry(kid, keys[kid]) && forall j :: i < j < |log| ==> log[j].kid != kid;
        assert log'[i] == Entry(kid, keys'[kid]);
      }
    }
  }

  /** Two caches with the same log are the same: there is one last write. */
  lemma HoldsUnique(a: map<string, RsaKey>, b: map<string, RsaKey>, log: seq<Entry>)
    requires Holds(a, log) && Holds(b, log)
    ensures a == b
  {
    forall kid ensures (kid in a <==> kid in b) && (kid in a && kid in b ==> a[kid] == b[kid]) {
      assert if kid in a then LastSays(log, kid, a[kid]) else forall i :: 0 <= i < |log| ==> log[i].kid != kid;
      assert if kid in b then LastSays(log, kid, b[kid]) else forall i :: 0 <= i < |log| ==> log[i].kid != kid;
    }
  }

  const TTL := 3600   // seconds

  /** time.Since(lastKeysFetch) < keysCacheTTL; the zero time is long ago. */
  predicate WithinTTL(lastFetch: Option<int>, now: int) {
    lastFetch.Some? && now - lastFetch.value < TTL
  }

  /** A cache after a document: what is new in it is usable, and after a whole document all that is usable is
      there. */
  lemma NewKeysAreUsable(before: map<string, RsaKey>, log: seq<Entry>, after: map<string, RsaKey>, doc: seq<Jwk>)
    requires Holds(before, log) && Holds(after, log + Added(doc))
    ensures forall kid :: kid in after && kid !in before ==> exists jwk :: jwk in doc && Usable(jwk) && jwk.kid == kid
    ensures Whole(doc) ==> forall jwk :: jwk in doc && Usable(jwk) ==> jwk.kid in after
  {
    var all := log + Added(doc);
    AddedAre(doc);
    forall kid | kid in after && kid !in before ensures exists jwk :: jwk in doc && Usable(jwk) && jwk.kid == kid {
      assert LastSays(all, kid, after[kid]) && forall i :: 0 <= i < |log| ==> log[i].kid != kid;
      var i :| 0 <= i < |all| && all[i] == Entry(kid, after[kid]);
      assert all[i] in Added(doc);
    }
    forall jwk | Whole(doc) && jwk in doc && Usable(jwk) ensures jwk.kid in after {
      assert EntryOf(jwk) in all;
    }
  }

  /** The validator's cache. `log` is every key it ever accepted, in order. */
  class KeyCache {
    var publicKeys: map<string, RsaKey>
    var lastKeysFetch: Option<int>
    ghost var log: seq<Entry>

    ghost predicate Valid()
      reads this
    {
      Holds(publicKeys, log)
    }

    constructor ()
      ensures Valid() && publicKeys == map[] && lastKeysFetch == None && log == []
    {
      publicKeys, lastKeysFetch, log := map[], None, [];
    }

    /** fetchJWKS, given the document the endpoint answered with, if it did, and the time at its end. */
    method FetchJWKS(answer: Option<seq<Jwk>>, now: int) returns (ok: bool)
      requires Valid()
      modifies this
      ensures Valid()
      ensures log == old(log) + if answer.Some? then Added(answer.value) else []
      ensures ok <==> answer.Some? && Whole(answer.value)
      ensures lastKeysFetch == if ok then Some(now) else old(lastKeysFetch)
      ensures old(publicKeys).Keys <= publicKeys.Keys
      ensures forall kid :: kid in publicKeys && kid !in old(publicKeys) ==>
        answer.Some? && exists jwk :: jwk in answer.value && Usable(jwk) && jwk.kid == kid
      ensures ok ==> forall jwk :: jwk in answer.value && Usable(jwk) ==> jwk.kid in publicKeys
    {
      if answer.None? {
        return false;
      }
      ok := TakeKeys(answer.value);
      NewKeysAreUsable(old(publicKeys), old(log), publicKeys, answer.value);
      if ok {
        lastKeysFetch := Some(now);
      }
    }

    /** The loop over the document. */
    method TakeKeys(doc: seq<Jwk>) returns (ok: bool)
      requires Valid()
      modifies this
      ensures Valid() && log == old(log) + Added(doc) && lastKeysFetch == old(lastKeysFetch)
      ensures ok <==> Whole(doc)
      ensures old(publicKeys).Keys <= publicKeys.Keys
    {
      for i := 0 to |doc|
        invariant Valid() && lastKeysFetch == old(lastKeysFetch)
        invariant log + Added(doc[i..]) == old(log) + Added(doc)
        invariant Whole(doc[..i])
        invariant old(publicKeys).Keys <= publicKeys.Keys
      {
        var jwk := doc[i];
        assert doc[i..][0] == jwk && doc[i..][1..] == doc[i + 1..];
        assert doc[..i + 1] == doc[..i] + [jwk];
        if jwk.kty != "RSA" || jwk.use != "sig" {
          continue;
        }
        if jwk.n.None? || jwk.e.None? {
          return false;
        }
        var e := ParseExponent(jwk.e.value);
        var entry := Entry(jwk.kid, RsaKey(Value(jwk.n.value), e));
        HoldsOn(publicKeys, log, entry);
        publicKeys := publicKeys[jwk.kid := entry.key];
        log := log + [entry];
      }
      assert doc[..|doc|] == doc;
      ok := true;
    }

    /** Other calls fetch, in this order. */
    method OthersRun(answers: seq<(Option<seq<Jwk>>, int)>)
      requires Valid()
      modifies this
      ensures Valid() && old(publicKeys).Keys <= publicKeys.Keys && old(log) <= log
    {
      for i := 0 to |answers|
        invariant Valid() && old(publicKeys).Keys <= publicKeys.Keys && old(log) <= log
      {
        var _ := FetchJWKS(answers[i].0, answers[i].1);
      }
    }

    /** getPublicKey. Others run before the read lock is taken and again before the write lock is; the
        clock is read at both checks and at the end of a fetch. `checked` is the moment of the last check. */
    method GetPublicKey(
        kid: string, first: seq<(Option<seq<Jwk>>, int)>, second: seq<(Option<seq<Jwk>>, int)>,
        at1: int, at2: int, answer: Option<seq<Jwk>>, end: int)
      returns (r: Option<RsaKey>, fetched: bool, at: int, checked: Option<int>, ghost before: seq<Entry>)
      requires Valid()
      modifies this
      ensures Valid() && old(publicKeys).Keys <= publicKeys.Keys
      ensures if r.Some? then LastSays(log, kid, r.value) else forall i :: 0 <= i < |log| ==> log[i].kid != kid
      ensures old(log) <= before && log == before + if fetched && answer.Some? then Added(answer.value) else []
      ensures at == at2 || (at == at1 && !fetched)
      ensures !fetched ==> r.Some? && checked.Some? && at - checked.value < 3600 && lastKeysFetch == checked
      ensures fetched ==>
        || checked.None? || at - checked.value >= 3600
        || forall i :: 0 <= i < |before| ==> before[i].kid != kid
      ensures fetched ==> lastKeysFetch == if answer.Some? && Whole(answer.value) then Some(end) else checked
    {
      OthersRun(first);
      at, checked, before := at1, lastKeysFetch, log;
      if kid in publicKeys && WithinTTL(lastKeysFetch, at1) {
        return Some(publicKeys[kid]), false, at, checked, before;
      }
      OthersRun(second);
      at, checked, before := at2, lastKeysFetch, log;
      if kid in publicKeys && WithinTTL(lastKeysFetch, at2) {
        return Some(publicKeys[kid]), false, at, checked, before;
      }
      var _ := FetchJWKS(answer, end);
      fetched := true;
      r := if kid in publicKeys then Some(publicKeys[kid]) else None;
    }
  }
}
