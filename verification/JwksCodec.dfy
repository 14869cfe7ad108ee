/** The JSON Web Key Set that the identity service publishes (section 5 of RFC 7517, section 6.3.1
    of RFC 7518) and the parser that reads it back into public keys. */
module JwksCodec {
  import opened Decimal
  import opened Base64Url

  const TWO_TO_THE_63 := 0x8000_0000_0000_0000
  const TWO_TO_THE_64 := 0x1_0000_0000_0000_0000

  /** One member of the "keys" array. */
  datatype Jwk = Jwk(kty: string, usage: string, alg: string, kid: string, n: string, e: string)

  /** The modulus is a big.Int, the exponent an int of 64 bits. */
  datatype PublicKey = PublicKey(n: int, e: int)

  datatype SigningKey = SigningKey(kid: string, public: PublicKey)

  function Magnitude(x: int): nat {
    if x < 0 then -x else x
  }

  // ---- publishing

  function Entry(k: SigningKey): Jwk {
    Jwk("RSA", "sig", "RS256", k.kid, Encode(Bytes(Magnitude(k.public.n))), Encode(Bytes(Magnitude(k.public.e))))
  }

  function Published(keys: seq<SigningKey>): seq<Jwk> {
    seq(|keys|, i requires 0 <= i < |keys| => Entry(keys[i]))
  }

  /** Every key it is given, in order. */
  method JwksHandler(keys: seq<SigningKey>) returns (entries: seq<Jwk>)
    ensures entries == Published(keys)
    ensures |entries| == |keys|
    ensures forall i :: 0 <= i < |keys| ==>
              && entries[i].kty == "RSA" && entries[i].usage == "sig" && entries[i].alg == "RS256" && entries[i].kid == keys[i].kid
              && entries[i].n == Encode(Bytes(if keys[i].public.n < 0 then -keys[i].public.n else keys[i].public.n))
              && entries[i].e == Encode(Bytes(if keys[i].public.e < 0 then -keys[i].public.e else keys[i].public.e))
  {
    entries := [];
    for i := 0 to |keys|
      invariant |entries| == i
      invariant forall j :: 0 <= j < i ==> entries[j] == Entry(keys[j])
    {
      var k := keys[i];
      entries := entries + [Jwk("RSA", "sig", "RS256", k.kid,
                                Encode(Bytes(Magnitude(k.public.n))), Encode(Bytes(Magnitude(k.public.e))))];
    }
  }

  // ---- parsing

  /** big.Int.Int64: the low 64 bits, read as a signed number. */
  function LowInt64(n: nat): (r: int)
    ensures IsInt64(r) && (n - r) % 0x1_0000_0000_0000_0000 == 0
  {
    var low := n % TWO_TO_THE_64;
    if low < TWO_TO_THE_63 then low else low - TWO_TO_THE_64
  }

  /** What one entry contributes: a key under its kid, or nothing. */
  datatype Item = Skipped | Read(kid: string, key: PublicKey)

  function ItemOf(j: Jwk): Item {
    if j.kty != "RSA" || j.kid == "" then Skipped
    else
      match Decode(j.n)
      case None => Skipped
      case Some(n) =>
        match Decode(j.e)
        case None => Skipped
        case Some(e) => Read(j.kid, PublicKey(SetBytes(n), LowInt64(SetBytes(e))))
  }

  function Items(entries: seq<Jwk>): seq<Item> {
    seq(|entries|, i requires 0 <= i < |entries| => ItemOf(entries[i]))
  }

  /** Entries are put into the map one after the other. */
  function Collected(items: seq<Item>): map<string, PublicKey> {
    if items == [] then map[]
    else
      var m, last := Collected(items[..|items| - 1]), items[|items| - 1];
      if last.Read? then m[last.kid := last.key] else m
  }

  /** The key of the last item of a kid, if there is one. */
  function Latest(items: seq<Item>, kid: string): Option<PublicKey> {
    if items == [] then None
    else
      var last := items[|items| - 1];
      if last.Read? && last.kid == kid then Some(last.key) else Latest(items[..|items| - 1], kid)
  }

  /** The collected map holds, for each kid, its last usable entry, and nothing else. */
  lemma {:induction false} CollectedIsLatest(items: seq<Item>, kid: string)
    ensures kid in Collected(items) <==> Latest(items, kid).Some?
    ensures kid in Collected(items) ==> Latest(items, kid) == Some(Collected(items)[kid])
  {
    if items != [] {
      CollectedIsLatest(items[..|items| - 1], kid);
    }
  }

  lemma {:induction false} CollectedIsEmpty(items: seq<Item>)
    ensures Collected(items) == map[] <==> forall i :: 0 <= i < |items| ==> items[i].Skipped?
  {
    if items != [] {
      var last := items[|items| - 1];
      CollectedIsEmpty(items[..|items| - 1]);
      if last.Read? {
        assert last.kid in Collected(items);
      }
    }
  }

  /** An entry the parser can use, and the last one of its kid. */
  predicate IsRsaKey(j: Jwk) {
    j.kty == "RSA" && j.kid != "" && Decode(j.n).Some? && Decode(j.e).Some?
  }

  predicate IsLastOf(entries: seq<Jwk>, i: nat, kid: string) {
    && i < |entries| && IsRsaKey(entries[i]) && entries[i].kid == kid
    && forall j :: i < j < |entries| && IsRsaKey(entries[j]) ==> entries[j].kid != kid
  }

  function KeyOf(j: Jwk): PublicKey
    requires IsRsaKey(j)
  {
    PublicKey(SetBytes(Decode(j.n).value), LowInt64(SetBytes(Decode(j.e).value)))
  }

  /** The keys are those of the usable entries, the last of each kid. */
  ghost predicate IsLastOfEach(entries: seq<Jwk>, keys: map<string, PublicKey>) {
    && (forall i :: 0 <= i < |entries| && IsRsaKey(entries[i]) ==> entries[i].kid in keys)
    && (forall kid :: kid in keys ==> exists i: nat :: IsLastOf(entries, i, kid) && keys[kid] == KeyOf(entries[i]))
  }

  lemma {:induction false} CollectedIsLastOfEach(entries: seq<Jwk>)
    ensures IsLastOfEach(entries, Collected(Items(entries)))
    decreases |entries|
  {
    if entries != [] {
      var n := |entries| - 1;
      CollectedIsLastOfEach(entries[..n]);
      CollectedStep(entries, n);
      assert entries[..n + 1] == entries;
      OneMoreEntry(entries, Collected(Items(entries[..n])));
    }
  }

  lemma LastStays(entries: seq<Jwk>, i: nat, kid: string)
    requires entries != [] && IsLastOf(entries[..|entries| - 1], i, kid)
    requires !(IsRsaKey(entries[|entries| - 1]) && entries[|entries| - 1].kid == kid)
    ensures IsLastOf(entries, i, kid) && entries[i] == entries[..|entries| - 1][i]
  {
    forall j | i < j < |entries| && IsRsaKey(entries[j]) ensures entries[j].kid != kid {
      assert j < |entries| - 1 ==> entries[..|entries| - 1][j] == entries[j];
    }
  }

  lemma OneMoreEntry(entries: seq<Jwk>, keys: map<string, PublicKey>)
    requires entries != [] && IsLastOfEach(entries[..|entries| - 1], keys)
    ensures var last := entries[|entries| - 1];
            IsLastOfEach(entries, if IsRsaKey(last) then keys[last.kid := KeyOf(last)] else keys)
  {
    var n := |entries| - 1;
    var init, last := entries[..n], entries[n];
    var keys' := if IsRsaKey(last) then keys[last.kid := KeyOf(last)] else keys;
    forall kid | kid in keys' ensures exists i: nat :: IsLastOf(entries, i, kid) && keys'[kid] == KeyOf(entries[i]) {
      if IsRsaKey(last) && kid == last.kid {
        assert IsLastOf(entries, n, kid);
      } else {
        var i: nat :| IsLastOf(init, i, kid) && keys[kid] == KeyOf(init[i]);
        LastStays(entries, i, kid);
      }
    }
    forall i | 0 <= i < |entries| && IsRsaKey(entries[i]) ensures entries[i].kid in keys' {
      assert i < n ==> init[i] == entries[i];
    }
  }

  /** What came back from the HTTP request. */
  datatype Reply = Unreachable | Refused(status: int) | Garbled | Served(entries: seq<Jwk>)

  /** The keys of a reply, or the error that there are none. A key set without a usable key is an
      error too. */
  function Fetched(reply: Reply): Option<map<string, PublicKey>> {
    if !reply.Served? || Collected(Items(reply.entries)) == map[] then None
    else Some(Collected(Items(reply.entries)))
  }

  lemma CollectedStep(entries: seq<Jwk>, i: nat)
    requires i < |entries|
    ensures Collected(Items(entries[..i + 1]))
         == if ItemOf(entries[i]).Read? then Collected(Items(entries[..i]))[ItemOf(entries[i]).kid := ItemOf(entries[i]).key]
            else Collected(Items(entries[..i]))
  {
    var items := Items(entries[..i + 1]);
    assert items[..|items| - 1] == Items(entries[..i]);
    assert items[|items| - 1] == ItemOf(entries[i]);
  }

  method FetchJwks(reply: Reply) returns (r: Option<map<string, PublicKey>>)
    ensures r == Fetched(reply)
    ensures !reply.Served? ==> r == None
    ensures reply.Served? ==> (r == None <==> forall i :: 0 <= i < |reply.entries| ==> !IsRsaKey(reply.entries[i]))
    ensures r.Some? ==> reply.Served? && IsLastOfEach(reply.entries, r.value)
  {
    if reply.Served? {
      CollectedIsLastOfEach(reply.entries);
    }
    if !reply.Served? {
      return None;
    }
    var entries := reply.entries;
    var keys: map<string, PublicKey> := map[];
    for i := 0 to |entries|
      invariant keys == Collected(Items(entries[..i]))
    {
      var k := entries[i];
      CollectedStep(entries, i);
      if k.kty != "RSA" || k.kid == "" {
        continue;
      }
      var n := Decode(k.n);
      if n.None? {
        continue;
      }
      var e := Decode(k.e);
      if e.None? {
        continue;
      }
      keys := keys[k.kid := PublicKey(SetBytes(n.value), LowInt64(SetBytes(e.value)))];
    }
    assert entries[..|entries|] == entries;
    if |keys| == 0 {
      return None;
    }
    return Some(keys);
  }

  // ---- the round trip

  /** The keys a published entry can carry: no sign is written, and the exponent comes back
      from 64 bits. */
  predicate Carried(k: PublicKey) {
    k.n >= 0 && (k.e >= 0 || k.e == MIN_INT64)
  }

  function Returned(k: PublicKey): PublicKey {
    PublicKey(Magnitude(k.n), LowInt64(Magnitude(k.e)))
  }

  lemma EntryIsRead(k: SigningKey)
    ensures ItemOf(Entry(k)) == if k.kid == "" then Skipped else Read(k.kid, Returned(k.public))
  {
    var n, e := Magnitude(k.public.n), Magnitude(k.public.e);
    DecodeEncode(Bytes(n));
    DecodeEncode(Bytes(e));
    SetBytesOfBytes(n);
    SetBytesOfBytes(e);
  }

  /** One key comes back as it was exactly when its modulus has no sign, and its exponent none
      either but for the least 64-bit integer. */
  lemma ReturnedIsSame(k: PublicKey)
    requires IsInt64(k.e)
    ensures Returned(k) == k <==> Carried(k)
  {
  }

  predicate DistinctKids(keys: seq<SigningKey>) {
    forall i, j :: 0 <= i < j < |keys| ==> keys[i].kid != keys[j].kid
  }

  predicate NamedKids(keys: seq<SigningKey>) {
    forall i :: 0 <= i < |keys| ==> keys[i].kid != "" && IsInt64(keys[i].public.e)
  }

  /** What the parser has under a kid is the last published key of that kid. */
  lemma {:induction false} LatestPublished(keys: seq<SigningKey>, i: nat)
    requires i < |keys| && keys[i].kid != ""
    requires forall j :: i < j < |keys| ==> keys[j].kid != keys[i].kid
    ensures Latest(Items(Published(keys)), keys[i].kid) == Some(Returned(keys[i].public))
  {
    var init, last := keys[..|keys| - 1], keys[|keys| - 1];
    LatestStep(keys, keys[i].kid);
    if i < |init| {
      LatestPublished(init, i);
    }
  }

  lemma LatestStep(keys: seq<SigningKey>, kid: string)
    requires keys != []
    ensures Latest(Items(Published(keys)), kid)
         == (var init, last := keys[..|keys| - 1], keys[|keys| - 1];
             if last.kid != "" && last.kid == kid then Some(Returned(last.public)) else Latest(Items(Published(init)), kid))
  {
    var init, last := keys[..|keys| - 1], keys[|keys| - 1];
    var items := Items(Published(keys));
    assert items[..|items| - 1] == Items(Published(init));
    assert items[|items| - 1] == ItemOf(Entry(last));
    EntryIsRead(last);
  }

  lemma {:induction false} NothingElsePublished(keys: seq<SigningKey>, kid: string)
    requires forall i :: 0 <= i < |keys| ==> keys[i].kid != kid
    ensures Latest(Items(Published(keys)), kid) == None
  {
    if keys != [] {
      LatestStep(keys, kid);
      NothingElsePublished(keys[..|keys| - 1], kid);
    }
  }

  /** kid → key for the whole list, and no other kid. */
  ghost predicate Holds(keys: seq<SigningKey>, m: map<string, PublicKey>) {
    && (forall i :: 0 <= i < |keys| ==> keys[i].kid in m && m[keys[i].kid] == keys[i].public)
    && (forall kid :: kid in m ==> exists i :: 0 <= i < |keys| && keys[i].kid == kid)
  }

  function Through(keys: seq<SigningKey>): map<string, PublicKey> {
    Collected(Items(Published(keys)))
  }

  lemma ThroughAt(keys: seq<SigningKey>, i: nat)
    requires DistinctKids(keys) && i < |keys| && keys[i].kid != ""
    ensures keys[i].kid in Through(keys) && Through(keys)[keys[i].kid] == Returned(keys[i].public)
  {
    LatestPublished(keys, i);
    CollectedIsLatest(Items(Published(keys)), keys[i].kid);
  }

  lemma ThroughOnly(keys: seq<SigningKey>, kid: string)
    requires kid in Through(keys)
    ensures exists i :: 0 <= i < |keys| && keys[i].kid == kid
  {
    CollectedIsLatest(Items(Published(keys)), kid);
    if forall i :: 0 <= i < |keys| ==> keys[i].kid != kid {
      NothingElsePublished(keys, kid);
    }
  }

  /** Parsing what was published gives exactly kid → (N, E) if and only if every key can be carried.
      Kids are as the publisher makes them, distinct and not empty. */
  lemma SetRoundTrip(keys: seq<SigningKey>)
    requires DistinctKids(keys) && NamedKids(keys)
    ensures Holds(keys, Through(keys)) <==> forall i :: 0 <= i < |keys| ==> Carried(keys[i].public)
  {
    var m := Through(keys);
    forall i | 0 <= i < |keys| ensures keys[i].kid in m && (m[keys[i].kid] == keys[i].public <==> Carried(keys[i].public)) {
      ThroughAt(keys, i);
      ReturnedIsSame(keys[i].public);
    }
    forall kid | kid in m ensures exists i :: 0 <= i < |keys| && keys[i].kid == kid {
      ThroughOnly(keys, kid);
    }
  }

  /** A real key set comes through the wire whole; no keys at all is an error, never an empty set. */
  lemma FetchedPublished(keys: seq<SigningKey>)
    requires DistinctKids(keys) && NamedKids(keys)
    requires forall i :: 0 <= i < |keys| ==> keys[i].public.n > 0 && keys[i].public.e > 0
    ensures match Fetched(Served(Published(keys)))
            case None => keys == []
            case Some(m) => keys != [] && Holds(keys, m)
  {
    SetRoundTrip(keys);
    if keys != [] {
      ThroughAt(keys, 0);
    }
  }
}
