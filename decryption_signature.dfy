/**
 * FhevmDecryptionSignature: a reusable, time-bounded authorisation to decrypt
 * ciphertexts of some contracts. It is created once (a key pair, an EIP-712
 * request and the wallet's signature over it), kept as JSON text in a
 * GenericStringStorage, and reused while it has not expired.
 */
module DecryptionSignature {
  import opened Wrappers
  import opened Json
  import opened StringStorage

  type Address = string

  /** The EIP-712 typed-data request that the SDK's `createEIP712` builds. */
  datatype Eip712 = Eip712(
    domain: Json,
    userDecryptRequestVerification: seq<Json>,
    message: Json,
    primaryType: string)

  /** The eight fields of a decryption signature. */
  datatype Signature = Signature(
    publicKey: string,
    privateKey: string,
    signature: string,
    startTimestamp: int,
    durationDays: int,
    userAddress: Address,
    contractAddresses: seq<Address>,
    eip712: Eip712)

  const SecondsPerDay: int := 86400
  /** The lifetime `new` gives every signature. */
  const DefaultDurationDays: int := 365

  /** The first second (Unix time) at which `s` is no longer valid. */
  function ExpirySeconds(s: Signature): int {
    s.startTimestamp + s.durationDays * SecondsPerDay
  }

  /** `isValid()` at wall-clock time `nowMs` (milliseconds, as `Date.now()`). */
  predicate IsValid(s: Signature, nowMs: int) {
    nowMs < 1000 * ExpirySeconds(s)
  }

  /** The integer test is the source's `Date.now() / 1000 < start + days * 86400`. */
  lemma IsValidInSeconds(s: Signature, nowMs: int)
    ensures IsValid(s, nowMs) <==> (nowMs as real) / 1000.0 < ExpirySeconds(s) as real
  {
  }

  /** Valid up to the last millisecond before expiry; invalid from expiry on. */
  lemma ValidUntilExpiry(s: Signature, nowMs: int)
    ensures IsValid(s, nowMs) <==> nowMs <= 1000 * ExpirySeconds(s) - 1
    ensures !IsValid(s, 1000 * ExpirySeconds(s))
  {
  }

  /** The `types` object handed to `signTypedData`: only the request's own type. */
  function SigningTypes(e: Eip712): Json {
    JObject(map["UserDecryptRequestVerification" := JArray(e.userDecryptRequestVerification)])
  }

  /**
   * `FhevmDecryptionSignature.new`: the SDK builds the EIP-712 request for a
   * 365-day authorisation starting at the current second, the wallet signs it
   * (None: the wallet refused), and the record keeps everything.
   */
  function New(createEip712: (string, seq<Address>, int, int) -> Eip712,
               signTypedData: (Json, Json, Json) -> Option<string>,
               contracts: seq<Address>, publicKey: string, privateKey: string,
               userAddress: Address, nowMs: int): (r: Option<Signature>)
    ensures var start := nowMs / 1000;
            var e := createEip712(publicKey, contracts, start, DefaultDurationDays);
            r.Some? <==> signTypedData(e.domain, SigningTypes(e), e.message).Some?
    ensures r.Some? ==>
      && r.value.durationDays == DefaultDurationDays
      && 1000 * r.value.startTimestamp <= nowMs < 1000 * (r.value.startTimestamp + 1)
      && r.value.userAddress == userAddress
      && r.value.contractAddresses == contracts
      && r.value.publicKey == publicKey && r.value.privateKey == privateKey
      && r.value.eip712 == createEip712(publicKey, contracts, r.value.startTimestamp, DefaultDurationDays)
      && Some(r.value.signature) == signTypedData(r.value.eip712.domain, SigningTypes(r.value.eip712), r.value.eip712.message)
    ensures r.Some? ==> IsValid(r.value, nowMs)
  {
    var start := nowMs / 1000;
    var e := createEip712(publicKey, contracts, start, DefaultDurationDays);
    match signTypedData(e.domain, SigningTypes(e), e.message)
    case None => None
    case Some(sig) =>
      Some(Signature(publicKey, privateKey, sig, start, DefaultDurationDays, userAddress, contracts, e))
  }

  function AddressesToJson(a: seq<Address>): (items: seq<Json>)
    ensures |items| == |a|
  {
    seq(|a|, i requires 0 <= i < |a| => JString(a[i]))
  }

  /** The strings of a JSON array, if every item is a string. */
  function AddressesFromJson(items: seq<Json>): Option<seq<Address>> {
    if |items| == 0 then Some([])
    else match (items[0], AddressesFromJson(items[1..]))
      case (JString(a), Some(rest)) => Some([a] + rest)
      case _ => None
  }

  lemma {:induction false} AddressesRoundTrip(a: seq<Address>)
    ensures AddressesFromJson(AddressesToJson(a)) == Some(a)
  {
    if |a| > 0 {
      assert AddressesToJson(a)[1..] == AddressesToJson(a[1..]);
      AddressesRoundTrip(a[1..]);
      assert [a[0]] + a[1..] == a;
    }
  }

  function Eip712ToJson(e: Eip712): Json {
    JObject(map[
      "domain" := e.domain,
      "types" := SigningTypes(e),
      "message" := e.message,
      "primaryType" := JString(e.primaryType)])
  }

  function Eip712FromJson(j: Json): Option<Eip712> {
    if !j.JObject? then None
    else
      var f := j.fields;
      if "domain" in f && "types" in f && "message" in f && "primaryType" in f
         && f["types"].JObject? && "UserDecryptRequestVerification" in f["types"].fields
         && f["types"].fields["UserDecryptRequestVerification"].JArray?
         && f["primaryType"].JString?
      then Some(Eip712(f["domain"], f["types"].fields["UserDecryptRequestVerification"].items,
                       f["message"], f["primaryType"].s))
      else None
  }

  /** `toJSON()`: the record's own eight fields. */
  function ToJson(s: Signature): Json {
    JObject(map[
      "publicKey" := JString(s.publicKey),
      "privateKey" := JString(s.privateKey),
      "signature" := JString(s.signature),
      "startTimestamp" := JNumber(s.startTimestamp),
      "durationDays" := JNumber(s.durationDays),
      "userAddress" := JString(s.userAddress),
      "contractAddresses" := JArray(AddressesToJson(s.contractAddresses)),
      "eip712" := Eip712ToJson(s.eip712)])
  }

  /** `fromJSON(data)`: rebuilds the record from an object holding the eight fields. */
  function FromJson(j: Json): Option<Signature> {
    if !j.JObject? then None
    else
      var f := j.fields;
      if && "publicKey" in f && f["publicKey"].JString?
         && "privateKey" in f && f["privateKey"].JString?
         && "signature" in f && f["signature"].JString?
         && "startTimestamp" in f && f["startTimestamp"].JNumber?
         && "durationDays" in f && f["durationDays"].JNumber?
         && "userAddress" in f && f["userAddress"].JString?
         && "contractAddresses" in f && f["contractAddresses"].JArray?
         && "eip712" in f
      then
        match (AddressesFromJson(f["contractAddresses"].items), Eip712FromJson(f["eip712"]))
        case (Some(contracts), Some(e)) =>
          Some(Signature(f["publicKey"].s, f["privateKey"].s, f["signature"].s,
                         f["startTimestamp"].n, f["durationDays"].n, f["userAddress"].s, contracts, e))
        case _ => None
      else None
  }

  /** `fromJSON(toJSON(s))` reproduces all eight fields of `s`. */
  lemma JsonRoundTrip(s: Signature)
    ensures FromJson(ToJson(s)) == Some(s)
  {
    AddressesRoundTrip(s.contractAddresses);
    var e := s.eip712;
    assert Eip712FromJson(Eip712ToJson(e)) == Some(e);
  }

  /**
   * What `load` makes of the stored item: nothing for a missing or empty item,
   * nothing when the text does not parse to a signature (the exception is
   * swallowed), and nothing for an expired signature.
   */
  function Decode(stored: Option<string>, codec: JsonCodec, nowMs: int): (r: Option<Signature>)
    ensures r.Some? ==> IsValid(r.value, nowMs)
    ensures r.Some? ==> stored.Some? && stored.value != ""
                        && exists j :: codec.parse(stored.value) == Some(j) && FromJson(j) == r
    // Conversely, a present, non-empty item that parses to a signature valid now is returned.
    ensures stored.Some? && stored.value != "" && codec.parse(stored.value).Some?
            && FromJson(codec.parse(stored.value).value).Some?
            && IsValid(FromJson(codec.parse(stored.value).value).value, nowMs)
            ==> r == FromJson(codec.parse(stored.value).value)
  {
    match stored
    case None => None
    case Some(text) =>
      if text == "" then None
      else match codec.parse(text)
        case None => None
        case Some(j) =>
          match FromJson(j)
          case None => None
          case Some(s) => if IsValid(s, nowMs) then Some(s) else None
  }

  /** `save`: the record's JSON text under `key`. */
  method Save(s: Signature, storage: GenericStringStorage, key: string, codec: JsonCodec)
    modifies storage.window
    ensures storage.window != null ==>
      storage.window.entries == Put(old(storage.window.entries), storage.ns, key, codec.stringify(ToJson(s)))
  {
    storage.SetItem(key, codec.stringify(ToJson(s)));
  }

  /** `load`: the stored signature if it decodes and is still valid. */
  method Load(storage: GenericStringStorage, key: string, codec: JsonCodec, nowMs: int)
    returns (r: Option<Signature>)
    ensures storage.window == null ==> r == None
    ensures storage.window != null ==> r == Decode(Lookup(storage.window.entries, storage.ns, key), codec, nowMs)
  {
    var text := storage.GetItem(key);
    r := Decode(text, codec, nowMs);
  }

  /**
   * `save` then `load` before expiry gives back the saved signature, provided
   * the JSON codec reads back what it wrote and writes a non-empty text.
   */
  lemma SaveThenLoad(entries: map<string, string>, ns: string, key: string, s: Signature,
                     codec: JsonCodec, nowMs: int)
    requires RoundTripsOn(codec, ToJson(s)) && codec.stringify(ToJson(s)) != ""
    ensures Decode(Lookup(Put(entries, ns, key, codec.stringify(ToJson(s))), ns, key), codec, nowMs)
            == if IsValid(s, nowMs) then Some(s) else None
  {
    JsonRoundTrip(s);
  }

  /**
   * A freshly created signature that was saved is found again by `load` until
   * 365 days after the second it was created in, and never afterwards.
   */
  lemma NewSignatureReloads(createEip712: (string, seq<Address>, int, int) -> Eip712,
                            signTypedData: (Json, Json, Json) -> Option<string>,
                            contracts: seq<Address>, publicKey: string, privateKey: string,
                            userAddress: Address, createdMs: int, nowMs: int,
                            entries: map<string, string>, ns: string, key: string, codec: JsonCodec)
    requires New(createEip712, signTypedData, contracts, publicKey, privateKey, userAddress, createdMs).Some?
    requires var s := New(createEip712, signTypedData, contracts, publicKey, privateKey, userAddress, createdMs).value;
             RoundTripsOn(codec, ToJson(s)) && codec.stringify(ToJson(s)) != ""
    ensures var s := New(createEip712, signTypedData, contracts, publicKey, privateKey, userAddress, createdMs).value;
            Decode(Lookup(Put(entries, ns, key, codec.stringify(ToJson(s))), ns, key), codec, nowMs)
            == if nowMs < 1000 * (createdMs / 1000 + DefaultDurationDays * SecondsPerDay) then Some(s) else None
  {
    var s := New(createEip712, signTypedData, contracts, publicKey, privateKey, userAddress, createdMs).value;
    SaveThenLoad(entries, ns, key, s, codec, nowMs);
  }
}
