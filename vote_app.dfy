/**
 * useFHEVoteApp: the vote application's actions. Each action checks its
 * preconditions in a fixed order, sends at most the transactions it is about
 * (with a gas limit of the estimate plus 20%, or a fixed fallback), and
 * reports the outcome in `message`; `isBusy` is raised while a transaction is
 * under way and lowered again whatever happens. Decrypting results reuses a
 * cached decryption signature per (contract, user, poll).
 *
 * The wallet, the contract and the FHE instance are outside this code: their
 * replies are inputs, each a value or the error the call throws.
 */
module VoteApp {
  import opened Wrappers
  import opened JsText
  import opened Json
  import opened StringStorage
  import DecryptionSignature

  type Address = string

  /** An error thrown by the wallet, the provider, the contract or the SDK, or a refused signature request. */
  datatype TxError = TxError(shortMessage: Option<string>, message: Option<string>) | SigningRefused

  /** The account the wallet signs with. */
  datatype Signer = Signer(address: Address)

  /** A contract call the application sends. */
  datatype Call =
    | CreatePollCall(title: string, description: string, options: seq<string>, deadline: int)
    | VoteCall(pollId: nat, handles: seq<string>, inputProof: string)
    | GrantCall(pollId: nat)
    | DeletePollCall(pollId: nat)

  /** A transaction as sent: the call and its explicit gas limit, if any. */
  datatype Submission = Submission(call: Call, gasLimit: Option<nat>)

  /** The chain's replies: gas estimates, sending (a transaction id), mining, and the encrypted-count reads. */
  datatype Chain = Chain(
    estimate: Call -> Outcome<nat, TxError>,
    send: Submission -> Outcome<nat, TxError>,
    wait: nat -> Option<TxError>,
    encryptedCount: (nat, nat) -> Outcome<string, TxError>)

  /** An encrypted ballot: one handle per added value and the input proof. */
  datatype EncryptedBallot = EncryptedBallot(handles: seq<string>, inputProof: string)

  /** The `userDecrypt` request: the handles with their contract and the signature's fields. */
  datatype DecryptRequest = DecryptRequest(
    items: seq<(string, Address)>,
    privateKey: string, publicKey: string, signature: string,
    contractAddresses: seq<Address>, userAddress: Address,
    startTimestamp: int, durationDays: int)

  /** The FHE instance as the vote application uses it. */
  datatype FheInstance = FheInstance(
    encrypt: (Address, Address, seq<int>) -> Outcome<EncryptedBallot, TxError>,
    keypair: (string, string),
    createEip712: (string, seq<Address>, int, int) -> DecryptionSignature.Eip712,
    userDecrypt: DecryptRequest -> Outcome<map<string, int>, TxError>)

  const MissingContractMessage: string := "缺少合约地址：请切换到已部署合约的网络"
  const MissingProviderMessage: string := "未检测到钱包提供者，请先连接或安装钱包（如 MetaMask）"
  const NoSignerMessage: string := "钱包未授权或未连接，请点击右上角 Connect Wallet"
  const NoDeleteMessage: string := "当前网络的合约版本不支持删除功能，请重新部署最新合约并更新前端地址/ABI"
  const VoteNamespace: string := "fhevm-vote"
  const CreatePollFallbackGas: nat := 800000
  const DeletePollFallbackGas: nat := 300000

  /** A JavaScript string that is truthy: present and not empty. */
  predicate Present(s: Option<string>) {
    s.Some? && s.value != ""
  }

  /** `e?.shortMessage || e?.message || "Transaction failed"`. */
  function Reason(e: TxError): (r: string)
    ensures |r| > 0
    ensures e.TxError? && Present(e.shortMessage) ==> r == e.shortMessage.value
    ensures e.TxError? && !Present(e.shortMessage) && Present(e.message) ==> r == e.message.value
    ensures !(e.TxError? && (Present(e.shortMessage) || Present(e.message))) ==> r == "Transaction failed"
  {
    if e.TxError? && Present(e.shortMessage) then e.shortMessage.value
    else if e.TxError? && Present(e.message) then e.message.value
    else "Transaction failed"
  }

  /** `(est * 12n) / 10n`: the estimate plus 20%, rounded down. */
  function GasWithMargin(est: nat): (g: nat)
    ensures est <= g
    ensures 10 * g <= 12 * est < 10 * g + 10
  {
    est * 12 / 10
  }

  /** The margin is exactly the floor of 1.2 times the estimate: no other number meets the bounds. */
  lemma GasWithMarginIsFloor(est: nat, g: nat)
    requires 10 * g <= 12 * est < 10 * g + 10
    ensures g == GasWithMargin(est)
  {
  }

  /**
   * The gas limits tried for `call`: the estimate plus 20% when estimation
   * succeeds, followed by the fallback when estimation or that first send
   * throws.
   */
  function GasTried(call: Call, chain: Chain, fallback: nat): (limits: seq<nat>)
    ensures 1 <= |limits| <= 2
    ensures limits[0] == if chain.estimate(call).Ok? then GasWithMargin(chain.estimate(call).value) else fallback
    ensures |limits| == 2 <==>
      chain.estimate(call).Ok? && chain.send(Submission(call, Some(limits[0]))).Threw?
    ensures |limits| == 2 ==> limits[1] == fallback
    ensures chain.estimate(call).Ok? ==> chain.estimate(call).value <= limits[0]
  {
    match chain.estimate(call)
    case Threw(_) => [fallback]
    case Ok(est) =>
      var g := GasWithMargin(est);
      if chain.send(Submission(call, Some(g))).Ok? then [g] else [g, fallback]
  }

  /**
   * The chain as the hook reaches it through `(c as any).estimateGas`: an
   * ethers v6 contract has no `estimateGas` member, so reading a method off
   * it throws a TypeError before any estimate is requested.
   */
  function EstimateAsWritten(chain: Chain): (c: Chain)
    ensures forall call :: c.estimate(call).Threw?
    ensures c.send == chain.send && c.wait == chain.wait && c.encryptedCount == chain.encryptedCount
  {
    chain.(estimate := (call: Call) => Threw(TxError(None, Some("Cannot read properties of undefined"))))
  }

  /** As written, every create and delete is first sent with the fixed fallback limit. */
  lemma GasAsWrittenIsFallback(call: Call, chain: Chain, fallback: nat)
    ensures GasTried(call, EstimateAsWritten(chain), fallback) == [fallback]
    ensures Submissions(call, GasTried(call, EstimateAsWritten(chain), fallback)) == [Submission(call, Some(fallback))]
  {
  }

  function Submissions(call: Call, limits: seq<nat>): (s: seq<Submission>)
    ensures |s| == |limits|
    ensures forall i | 0 <= i < |s| :: s[i] == Submission(call, Some(limits[i]))
  {
    seq(|limits|, i requires 0 <= i < |limits| => Submission(call, Some(limits[i])))
  }

  /** Whether the last transaction tried for `call` was sent and mined; otherwise the error that ended it. */
  function Confirmation(call: Call, chain: Chain, fallback: nat): Option<TxError> {
    var limits := GasTried(call, chain, fallback);
    match chain.send(Submission(call, Some(limits[|limits| - 1])))
    case Threw(e) => Some(e)
    case Ok(tx) => chain.wait(tx)
  }

  /** The message an action reports after its transaction: success, or failure with the reason. */
  function Report(success: string, failurePrefix: string, outcome: Option<TxError>): string {
    if outcome.None? then success else failurePrefix + Reason(outcome.value)
  }

  /** The values added for a ballot: one per option, 1 at the chosen option and 0 elsewhere. */
  function OneHot(choice: int, count: nat): seq<int> {
    if count == 0 then [] else OneHot(choice, count - 1) + [if count - 1 == choice then 1 else 0]
  }

  function Sum(s: seq<int>): int {
    if |s| == 0 then 0 else Sum(s[..|s| - 1]) + s[|s| - 1]
  }

  /** A ballot has one value per option, 1 exactly at the chosen option. */
  lemma {:induction false} OneHotShape(choice: int, count: nat)
    ensures |OneHot(choice, count)| == count
    ensures forall i | 0 <= i < count :: OneHot(choice, count)[i] == if i == choice then 1 else 0
  {
    if count > 0 {
      OneHotShape(choice, count - 1);
    }
  }

  /** A ballot holds a single vote when the choice is in range, and none otherwise. */
  lemma {:induction false} OneHotSum(choice: int, count: nat)
    ensures Sum(OneHot(choice, count)) == if 0 <= choice < count then 1 else 0
  {
    if count > 0 {
      OneHotSum(choice, count - 1);
      assert OneHot(choice, count)[..count - 1] == OneHot(choice, count - 1) by {
        OneHotShape(choice, count);
        OneHotShape(choice, count - 1);
      }
    }
  }

  /** The cache key of a decryption signature: `contract:user:poll:pollId`. */
  function StorageKey(contract: Address, user: Address, pollId: nat): string {
    contract + ":" + user + ":poll:" + DecimalString(pollId)
  }

  /** The key ends with the poll id, so keys for different polls of one contract and user differ. */
  lemma StorageKeySeparatesPolls(contract: Address, user: Address, p: nat, q: nat)
    ensures StorageKey(contract, user, p) == StorageKey(contract, user, q) <==> p == q
  {
    var prefix := contract + ":" + user + ":poll:";
    if StorageKey(contract, user, p) == StorageKey(contract, user, q) {
      assert StorageKey(contract, user, p)[|prefix|..] == DecimalString(p);
      assert StorageKey(contract, user, q)[|prefix|..] == DecimalString(q);
      DecimalStringInjective(p, q);
    }
  }

  /** `handles.map(h => BigInt(res[h] ?? 0))`: one value per handle, 0 where nothing was decrypted. */
  function ResultsFor(handles: seq<string>, res: map<string, int>): (r: seq<int>)
    ensures |r| == |handles|
    ensures forall i | 0 <= i < |handles| && handles[i] !in res :: r[i] == 0
    ensures forall i | 0 <= i < |handles| && handles[i] in res :: r[i] == res[handles[i]]
  {
    seq(|handles|, i requires 0 <= i < |handles| => if handles[i] in res then res[handles[i]] else 0)
  }

  /** The decryption request for `handles` of `contract`, signed with `s`. */
  function RequestFor(handles: seq<string>, contract: Address, s: DecryptionSignature.Signature): (q: DecryptRequest)
    ensures |q.items| == |handles| && forall j | 0 <= j < |handles| :: q.items[j] == (handles[j], contract)
    ensures q.privateKey == s.privateKey && q.publicKey == s.publicKey && q.signature == s.signature
    ensures q.contractAddresses == s.contractAddresses && q.userAddress == s.userAddress
    ensures q.startTimestamp == s.startTimestamp && q.durationDays == s.durationDays
  {
    DecryptRequest(seq(|handles|, j requires 0 <= j < |handles| => (handles[j], contract)),
                   s.privateKey, s.publicKey, s.signature, s.contractAddresses,
                   s.userAddress, s.startTimestamp, s.durationDays)
  }

  /** `userDecrypt` over the handles, then one result per handle. */
  function DecryptHandles(inst: FheInstance, handles: seq<string>, contract: Address,
                          s: DecryptionSignature.Signature): (r: Outcome<seq<int>, TxError>)
    ensures var reply := inst.userDecrypt(RequestFor(handles, contract, s));
            && (reply.Ok? ==> r == Ok(ResultsFor(handles, reply.value)))
            && (reply.Threw? ==> r == Threw(reply.error))
  {
    var res := inst.userDecrypt(RequestFor(handles, contract, s));
    if res.Threw? then Threw(res.error) else Ok(ResultsFor(handles, res.value))
  }

  /**
   * The signature decryption uses, given the item stored under its key: the
   * stored one while it decodes and is valid, else a new one for `contract`
   * (None when the wallet refuses to sign).
   */
  function SignatureFor(stored: Option<string>, inst: FheInstance, contract: Address, user: Address,
                        signTypedData: (Json, Json, Json) -> Option<string>, codec: JsonCodec, nowMs: int)
    : (s: Option<DecryptionSignature.Signature>)
    ensures s.Some? ==> DecryptionSignature.IsValid(s.value, nowMs)
  {
    var loaded := DecryptionSignature.Decode(stored, codec, nowMs);
    if loaded.Some? then loaded
    else DecryptionSignature.New(inst.createEip712, signTypedData, [contract], inst.keypair.0, inst.keypair.1, user, nowMs)
  }

  /**
   * The local storage after obtaining the signature for `key`: unchanged when
   * a stored one loads or the wallet refuses, else with the new one saved
   * under `key`.
   */
  function EntriesAfterSigning(entries: map<string, string>, ns: string, key: string, inst: FheInstance,
                               contract: Address, user: Address, signTypedData: (Json, Json, Json) -> Option<string>,
                               codec: JsonCodec, nowMs: int): (e: map<string, string>)
    ensures SignatureFor(Lookup(entries, ns, key), inst, contract, user, signTypedData, codec, nowMs).Some? ==>
            Lookup(e, ns, key).Some?
    ensures SignatureFor(Lookup(entries, ns, key), inst, contract, user, signTypedData, codec, nowMs).None? ==>
            e == entries
  {
    var loaded := DecryptionSignature.Decode(Lookup(entries, ns, key), codec, nowMs);
    var created := DecryptionSignature.New(inst.createEip712, signTypedData, [contract], inst.keypair.0,
                                           inst.keypair.1, user, nowMs);
    if loaded.Some? || created.None? then entries
    else Put(entries, ns, key, codec.stringify(DecryptionSignature.ToJson(created.value)))
  }

  /**
   * The signature obtained for a poll is obtained again by a later
   * decryption while it stays valid: it is then loaded from storage rather
   * than signed anew (for a codec that reads back what it wrote).
   */
  lemma SignatureReused(entries: map<string, string>, ns: string, key: string, inst: FheInstance,
                        contract: Address, user: Address, signTypedData: (Json, Json, Json) -> Option<string>,
                        codec: JsonCodec, nowMs: int, laterMs: int)
    requires var s := SignatureFor(Lookup(entries, ns, key), inst, contract, user, signTypedData, codec, nowMs);
             && s.Some? && DecryptionSignature.IsValid(s.value, laterMs)
             && RoundTripsOn(codec, DecryptionSignature.ToJson(s.value))
             && codec.stringify(DecryptionSignature.ToJson(s.value)) != ""
    ensures var after := EntriesAfterSigning(entries, ns, key, inst, contract, user, signTypedData, codec, nowMs);
            var s := SignatureFor(Lookup(entries, ns, key), inst, contract, user, signTypedData, codec, nowMs);
            DecryptionSignature.Decode(Lookup(after, ns, key), codec, laterMs) == s
  {
    var s := SignatureFor(Lookup(entries, ns, key), inst, contract, user, signTypedData, codec, nowMs).value;
    var loaded := DecryptionSignature.Decode(Lookup(entries, ns, key), codec, nowMs);
    if loaded.Some? {
      var text := Lookup(entries, ns, key).value;
      assert codec.parse(text).Some? && DecryptionSignature.FromJson(codec.parse(text).value) == Some(s);
    } else {
      DecryptionSignature.SaveThenLoad(entries, ns, key, s, codec, laterMs);
    }
  }

  /** `userDecrypt` of the handles read for the poll's options, under signature `s`. */
  function Reply(chain: Chain, pollId: nat, optionCount: int, inst: FheInstance, contract: Address,
                 s: DecryptionSignature.Signature): Outcome<map<string, int>, TxError>
    requires forall j | 0 <= j < optionCount :: chain.encryptedCount(pollId, j).Ok?
  {
    inst.userDecrypt(RequestFor(HandlesRead(chain, pollId, Max0(optionCount)), contract, s))
  }

  /** Each option's result is the decrypted value of that option's handle, or 0 when the reply lacks it. */
  lemma TallyPerOption(chain: Chain, pollId: nat, optionCount: int, reply: map<string, int>, j: nat)
    requires forall k | 0 <= k < optionCount :: chain.encryptedCount(pollId, k).Ok?
    requires j < optionCount
    ensures var h := chain.encryptedCount(pollId, j).value;
            ResultsFor(HandlesRead(chain, pollId, Max0(optionCount)), reply)[j] == if h in reply then reply[h] else 0
  {
  }

  function Max0(n: int): nat {
    if n < 0 then 0 else n
  }

  /** The handles read for the first `n` options, when every read succeeds. */
  function HandlesRead(chain: Chain, pollId: nat, n: nat): seq<string>
    requires forall j | 0 <= j < n :: chain.encryptedCount(pollId, j).Ok?
  {
    seq(n, j requires 0 <= j < n => chain.encryptedCount(pollId, j).value)
  }

  /** The encrypted input being built for one ballot. */
  class EncryptedInput {
    const contract: Address
    const user: Address
    var values: seq<int>

    constructor (contract: Address, user: Address)
      ensures this.contract == contract && this.user == user && values == []
    {
      this.contract, this.user, values := contract, user, [];
    }

    /** `add32`. */
    method Add32(v: int)
      modifies this
      ensures values == old(values) + [v]
    {
      values := values + [v];
    }
  }

  class VoteHook {
    const instance: Option<FheInstance>
    /** Whether a wallet provider was given (and so a BrowserProvider exists). */
    const hasProvider: bool
    const contractAddress: Option<Address>
    /** The names of the functions in the contract's ABI. */
    const abi: seq<string>
    const storage: GenericStringStorage
    var message: string
    var isBusy: bool
    var signerRef: Option<Signer>
    /** How many times the wallet has been asked for a signer. */
    ghost var signerFetches: nat
    /** Every transaction sent so far. */
    ghost var submitted: seq<Submission>

    constructor (instance: Option<FheInstance>, hasProvider: bool, contractAddress: Option<Address>,
                 abi: seq<string>, window: LocalStorage?)
      ensures this.instance == instance && this.hasProvider == hasProvider
      ensures this.contractAddress == contractAddress && this.abi == abi
      ensures storage.ns == VoteNamespace && storage.window == window && fresh(storage)
      ensures message == "" && !isBusy && signerRef == None && signerFetches == 0 && submitted == []
    {
      this.instance, this.hasProvider, this.contractAddress, this.abi := instance, hasProvider, contractAddress, abi;
      storage := new GenericStringStorage(VoteNamespace, window);
      message, isBusy, signerRef := "", false, None;
      signerFetches, submitted := 0, [];
    }

    /** The signer any successful fetch leaves behind: the cached one, else the wallet's. */
    function SignerAfter(walletSigner: Outcome<Signer, TxError>): Option<Signer>
      reads this
    {
      if signerRef.Some? then signerRef else if walletSigner.Ok? then Some(walletSigner.value) else None
    }

    /** The signer cache after one `getSigner` past its provider check: one wallet request unless a signer was cached. */
    twostate predicate SignerFetched(walletSigner: Outcome<Signer, TxError>)
      reads this
    {
      && signerRef == old(SignerAfter(walletSigner))
      && signerFetches == old(signerFetches) + (if old(signerRef).None? then 1 else 0)
    }

    /** The signer cache untouched, and the wallet not asked. */
    twostate predicate SignerKept()
      reads this
    {
      signerRef == old(signerRef) && signerFetches == old(signerFetches)
    }

    /**
     * `getSigner`: undefined without a provider; the cached signer when there
     * is one; otherwise one request to the wallet, whose signer is cached.
     */
    method GetSigner(walletSigner: Outcome<Signer, TxError>) returns (r: Outcome<Option<Signer>, TxError>)
      modifies this
      ensures message == old(message) && isBusy == old(isBusy) && submitted == old(submitted)
      ensures !hasProvider ==> r == Ok(None) && signerRef == old(signerRef) && signerFetches == old(signerFetches)
      ensures hasProvider && old(signerRef).Some? ==>
        r == Ok(old(signerRef)) && signerRef == old(signerRef) && signerFetches == old(signerFetches)
      ensures hasProvider && old(signerRef).None? ==> signerFetches == old(signerFetches) + 1
      ensures hasProvider && old(signerRef).None? && walletSigner.Ok? ==>
        r == Ok(Some(walletSigner.value)) && signerRef == Some(walletSigner.value)
      ensures hasProvider && old(signerRef).None? && walletSigner.Threw? ==>
        r == Threw(walletSigner.error) && signerRef == None
    {
      if !hasProvider {
        return Ok(None);
      }
      if signerRef.Some? {
        return Ok(signerRef);
      }
      signerFetches := signerFetches + 1;
      if walletSigner.Threw? {
        return Threw(walletSigner.error);
      }
      signerRef := Some(walletSigner.value);
      return Ok(signerRef);
    }

    /** `getContract(withSigner)`: Ok(true) when a contract object is made, after fetching the signer if asked. */
    method GetContract(withSigner: bool, walletSigner: Outcome<Signer, TxError>) returns (r: Outcome<bool, TxError>)
      modifies this
      ensures message == old(message) && isBusy == old(isBusy) && submitted == old(submitted)
      ensures !Present(contractAddress) || !hasProvider ==>
        r == Ok(false) && signerRef == old(signerRef) && signerFetches == old(signerFetches)
      ensures Present(contractAddress) && hasProvider && !withSigner ==>
        r == Ok(true) && signerRef == old(signerRef) && signerFetches == old(signerFetches)
      ensures Present(contractAddress) && hasProvider && withSigner ==>
        signerRef == old(SignerAfter(walletSigner))
        && signerFetches == old(signerFetches) + (if old(signerRef).None? then 1 else 0)
        && r == (if signerRef.Some? then Ok(true) else Threw(walletSigner.error))
    {
      if !Present(contractAddress) || !hasProvider {
        return Ok(false);
      }
      if withSigner {
        var s := GetSigner(walletSigner);
        if s.Threw? {
          return Threw(s.error);
        }
      }
      return Ok(true);
    }

    /**
     * Sends `call` with the estimated gas limit, or with `fallback` when
     * estimation or that send throws, and waits for it to be mined.
     */
    method SendWithGasFallback(call: Call, chain: Chain, fallback: nat) returns (outcome: Option<TxError>)
      modifies this
      ensures message == old(message) && isBusy == old(isBusy)
      ensures signerRef == old(signerRef) && signerFetches == old(signerFetches)
      ensures submitted == old(submitted) + Submissions(call, GasTried(call, chain, fallback))
      ensures outcome == Confirmation(call, chain, fallback)
    {
      var est := chain.estimate(call);
      var tx: Outcome<nat, TxError>;
      if est.Ok? {
        var g := GasWithMargin(est.value);
        submitted := submitted + [Submission(call, Some(g))];
        tx := chain.send(Submission(call, Some(g)));
      }
      if est.Threw? || tx.Threw? {
        submitted := submitted + [Submission(call, Some(fallback))];
        tx := chain.send(Submission(call, Some(fallback)));
      }
      if tx.Threw? {
        return Some(tx.error);
      }
      outcome := chain.wait(tx.value);
    }

    /**
     * `createPoll`: contract address, then provider, then signer; the first
     * missing one sets its message and returns false before anything is sent.
     * A wallet that refuses to give a signer makes the call reject.
     */
    method CreatePoll(title: string, description: string, options: seq<string>, deadline: int,
                      walletSigner: Outcome<Signer, TxError>, chain: Chain)
      returns (r: Outcome<bool, TxError>)
      modifies this
      ensures !Present(contractAddress) ==>
        r == Ok(false) && message == MissingContractMessage && submitted == old(submitted) && isBusy == old(isBusy)
      ensures Present(contractAddress) && !hasProvider ==>
        r == Ok(false) && message == MissingProviderMessage && submitted == old(submitted) && isBusy == old(isBusy)
      ensures Present(contractAddress) && hasProvider && old(SignerAfter(walletSigner)).None? ==>
        r == Threw(walletSigner.error) && message == old(message) && submitted == old(submitted) && isBusy == old(isBusy)
      ensures Present(contractAddress) && hasProvider && old(SignerAfter(walletSigner)).Some? ==>
        var call := CreatePollCall(title, description, options, deadline);
        var outcome := Confirmation(call, chain, CreatePollFallbackGas);
        && submitted == old(submitted) + Submissions(call, GasTried(call, chain, CreatePollFallbackGas))
        && r == Ok(outcome.None?)
        && message == Report("Poll created successfully", "Failed to create poll: ", outcome)
        && !isBusy
      // The signer check never decides: a provider always yields a signer or an error.
      ensures message != NoSignerMessage || message == old(message)
      ensures Present(contractAddress) && hasProvider ==> SignerFetched(walletSigner)
      ensures !(Present(contractAddress) && hasProvider) ==> SignerKept()
    {
      if !Present(contractAddress) {
        message := MissingContractMessage;
        return Ok(false);
      }
      if !hasProvider {
        message := MissingProviderMessage;
        return Ok(false);
      }
      var signer := GetSigner(walletSigner);
      if signer.Threw? {
        return Threw(signer.error);
      }
      if signer.value.None? {
        // A provider always yields a signer or an error: the no-signer check never fires.
        assert false;
      }
      isBusy := true;
      var call := CreatePollCall(title, description, options, deadline);
      var outcome := SendWithGasFallback(call, chain, CreatePollFallbackGas);
      message := Report("Poll created successfully", "Failed to create poll: ", outcome);
      assert message[0] != NoSignerMessage[0];
      isBusy := false;
      return Ok(outcome.None?);
    }

    /**
     * `vote`: without an instance nothing happens; otherwise the contract and
     * the signer are fetched, and with both and a contract address one
     * encrypted ballot is built (`optionCount` values, 1 at `optionIndex`) and
     * sent.
     */
    method Vote(pollId: nat, optionIndex: int, optionCount: int,
                walletSigner: Outcome<Signer, TxError>, chain: Chain)
      returns (r: Outcome<(), TxError>)
      modifies this
      ensures instance.None? ==> r == Ok(()) && submitted == old(submitted) && message == old(message)
                                 && signerRef == old(signerRef) && isBusy == old(isBusy)
      // With an instance and a provider the signer is fetched (once: the second getSigner hits the cache).
      ensures instance.Some? && hasProvider ==> SignerFetched(walletSigner)
      ensures !(instance.Some? && hasProvider) ==> SignerKept()
      ensures instance.Some? && hasProvider && old(SignerAfter(walletSigner)).None? ==>
        r == Threw(walletSigner.error) && submitted == old(submitted) && message == old(message) && isBusy == old(isBusy)
      ensures instance.Some? && !(Present(contractAddress) && hasProvider) ==>
        r.Ok? ==> submitted == old(submitted) && message == old(message) && isBusy == old(isBusy)
      ensures instance.Some? && Present(contractAddress) && hasProvider && old(SignerAfter(walletSigner)).Some? ==>
        var user := old(SignerAfter(walletSigner)).value.address;
        var enc := instance.value.encrypt(contractAddress.value, user, OneHot(optionIndex, Max0(optionCount)));
        var sent := if enc.Ok? then chain.send(Submission(VoteCall(pollId, enc.value.handles, enc.value.inputProof), None))
                    else Threw(enc.error);
        var outcome := if sent.Threw? then Some(sent.error) else chain.wait(sent.value);
        && r == Ok(())
        && submitted == old(submitted) + (if enc.Ok? then [Submission(VoteCall(pollId, enc.value.handles, enc.value.inputProof), None)] else [])
        && message == Report("Vote submitted successfully", "Failed to vote: ", outcome)
        && !isBusy
    {
      if instance.None? {
        return Ok(());
      }
      var c := GetContract(true, walletSigner);
      if c.Threw? {
        return Threw(c.error);
      }
      var signer := GetSigner(walletSigner);
      if signer.Threw? {
        return Threw(signer.error);
      }
      if !c.value || signer.value.None? || !Present(contractAddress) {
        return Ok(());
      }
      CastBallot(instance.value, contractAddress.value, signer.value.value.address, pollId, optionIndex,
                 optionCount, chain);
      return Ok(());
    }

    /**
     * The ballot part of `vote`: the one-hot input (`optionCount` values, 1 at
     * `optionIndex`) encrypted for `contract` and `user`, sent without a gas
     * limit and waited for; `isBusy` is lowered whatever happens.
     */
    method CastBallot(inst: FheInstance, contract: Address, user: Address, pollId: nat, optionIndex: int,
                      optionCount: int, chain: Chain)
      modifies this
      ensures SignerKept()
      ensures var enc := inst.encrypt(contract, user, OneHot(optionIndex, Max0(optionCount)));
        var sent := if enc.Ok? then chain.send(Submission(VoteCall(pollId, enc.value.handles, enc.value.inputProof), None))
                    else Threw(enc.error);
        var outcome := if sent.Threw? then Some(sent.error) else chain.wait(sent.value);
        && submitted == old(submitted) + (if enc.Ok? then [Submission(VoteCall(pollId, enc.value.handles, enc.value.inputProof), None)] else [])
        && message == Report("Vote submitted successfully", "Failed to vote: ", outcome)
        && !isBusy
    {
      isBusy := true;
      var input := new EncryptedInput(contract, user);
      var i := 0;
      while i < optionCount
        invariant 0 <= i <= Max0(optionCount)
        invariant input.values == OneHot(optionIndex, i)
        modifies input
      {
        input.Add32(if i == optionIndex then 1 else 0);
        i := i + 1;
      }
      var enc := inst.encrypt(input.contract, input.user, input.values);
      if enc.Threw? {
        message := Report("Vote submitted successfully", "Failed to vote: ", Some(enc.error));
        isBusy := false;
        return;
      }
      var submission := Submission(VoteCall(pollId, enc.value.handles, enc.value.inputProof), None);
      submitted := submitted + [submission];
      var tx := chain.send(submission);
      var outcome := if tx.Threw? then Some(tx.error) else chain.wait(tx.value);
      message := Report("Vote submitted successfully", "Failed to vote: ", outcome);
      isBusy := false;
    }

    /**
     * `requestPublicResultsAccess`: one grant transaction when a contract can
     * be made; its failure is not caught, but `isBusy` is lowered either way.
     */
    method RequestPublicResultsAccess(pollId: nat, walletSigner: Outcome<Signer, TxError>, chain: Chain)
      returns (r: Outcome<(), TxError>)
      modifies this
      ensures !(Present(contractAddress) && hasProvider) ==>
        r == Ok(()) && submitted == old(submitted) && message == old(message) && isBusy == old(isBusy)
      ensures Present(contractAddress) && hasProvider && old(SignerAfter(walletSigner)).None? ==>
        r == Threw(walletSigner.error) && submitted == old(submitted) && isBusy == old(isBusy) && message == old(message)
      ensures Present(contractAddress) && hasProvider ==> SignerFetched(walletSigner)
      ensures !(Present(contractAddress) && hasProvider) ==> SignerKept()
      ensures Present(contractAddress) && hasProvider && old(SignerAfter(walletSigner)).Some? ==>
        var submission := Submission(GrantCall(pollId), None);
        var sent := chain.send(submission);
        var outcome := if sent.Threw? then Some(sent.error) else chain.wait(sent.value);
        && submitted == old(submitted) + [submission]
        && !isBusy
        && r == (if outcome.None? then Ok(()) else Threw(outcome.value))
        && message == (if outcome.None? then "Decryption access requested successfully" else old(message))
    {
      var c := GetContract(true, walletSigner);
      if c.Threw? {
        return Threw(c.error);
      }
      if !c.value {
        return Ok(());
      }
      isBusy := true;
      var submission := Submission(GrantCall(pollId), None);
      submitted := submitted + [submission];
      var tx := chain.send(submission);
      var outcome := if tx.Threw? then Some(tx.error) else chain.wait(tx.value);
      isBusy := false;
      if outcome.Some? {
        return Threw(outcome.value);
      }
      message := "Decryption access requested successfully";
      return Ok(());
    }

    /**
     * `deletePoll`: contract address, then a contract object (a provider),
     * then a `deletePoll` function in the ABI; the first missing one sets its
     * message and returns false before anything is sent.
     */
    method DeletePoll(pollId: nat, walletSigner: Outcome<Signer, TxError>, chain: Chain)
      returns (r: Outcome<bool, TxError>)
      modifies this
      ensures !Present(contractAddress) ==>
        r == Ok(false) && message == MissingContractMessage && submitted == old(submitted) && isBusy == old(isBusy)
      ensures Present(contractAddress) && !hasProvider ==>
        r == Ok(false) && message == MissingProviderMessage && submitted == old(submitted) && isBusy == old(isBusy)
      ensures Present(contractAddress) && hasProvider && old(SignerAfter(walletSigner)).None? ==>
        r == Threw(walletSigner.error) && message == old(message) && submitted == old(submitted) && isBusy == old(isBusy)
      ensures Present(contractAddress) && hasProvider && old(SignerAfter(walletSigner)).Some? && "deletePoll" !in abi ==>
        r == Ok(false) && message == NoDeleteMessage && submitted == old(submitted) && isBusy == old(isBusy)
      ensures Present(contractAddress) && hasProvider && old(SignerAfter(walletSigner)).Some? && "deletePoll" in abi ==>
        var call := DeletePollCall(pollId);
        var outcome := Confirmation(call, chain, DeletePollFallbackGas);
        && submitted == old(submitted) + Submissions(call, GasTried(call, chain, DeletePollFallbackGas))
        && r == Ok(outcome.None?)
        && message == Report("Poll deleted successfully", "Failed to delete poll: ", outcome)
        && !isBusy
      ensures Present(contractAddress) && hasProvider ==> SignerFetched(walletSigner)
      ensures !(Present(contractAddress) && hasProvider) ==> SignerKept()
    {
      if !Present(contractAddress) {
        message := MissingContractMessage;
        return Ok(false);
      }
      var c := GetContract(true, walletSigner);
      if c.Threw? {
        return Threw(c.error);
      }
      if !c.value {
        message := MissingProviderMessage;
        return Ok(false);
      }
      if "deletePoll" !in abi {
        message := NoDeleteMessage;
        return Ok(false);
      }
      isBusy := true;
      var call := DeletePollCall(pollId);
      var outcome := SendWithGasFallback(call, chain, DeletePollFallbackGas);
      message := Report("Poll deleted successfully", "Failed to delete poll: ", outcome);
      isBusy := false;
      return Ok(outcome.None?);
    }

    /** The loop reading one encrypted-count handle per option; a failing read rejects. */
    method ReadHandles(chain: Chain, pollId: nat, optionCount: int) returns (r: Outcome<seq<string>, TxError>)
      ensures r.Ok? <==> forall j | 0 <= j < optionCount :: chain.encryptedCount(pollId, j).Ok?
      ensures r.Ok? ==> |r.value| == Max0(optionCount)
      ensures r.Ok? ==> forall j | 0 <= j < |r.value| :: chain.encryptedCount(pollId, j) == Ok(r.value[j])
      ensures r.Threw? ==> exists j | 0 <= j < optionCount ::
        chain.encryptedCount(pollId, j) == Threw(r.error)
    {
      var handles: seq<string> := [];
      var i := 0;
      while i < optionCount
        invariant 0 <= i <= Max0(optionCount)
        invariant |handles| == i
        invariant forall j | 0 <= j < i :: chain.encryptedCount(pollId, j) == Ok(handles[j])
      {
        var h := chain.encryptedCount(pollId, i);
        if h.Threw? {
          return Threw(h.error);
        }
        handles := handles + [h.value];
        i := i + 1;
      }
      return Ok(handles);
    }

    /**
     * The signature for `key`: the stored one while it is valid; otherwise a
     * new one for `contract`, signed by the wallet and saved under `key`.
     */
    method ObtainSignature(key: string, inst: FheInstance, contract: Address, user: Address,
                           signTypedData: (Json, Json, Json) -> Option<string>, codec: JsonCodec, nowMs: int)
      returns (r: Outcome<DecryptionSignature.Signature, TxError>)
      modifies storage.window
      ensures storage.window == null ==>
        r == (match DecryptionSignature.New(inst.createEip712, signTypedData, [contract], inst.keypair.0,
                                            inst.keypair.1, user, nowMs)
              case Some(s) => Ok(s)
              case None => Threw(SigningRefused))
      ensures storage.window != null ==>
        var loaded := DecryptionSignature.Decode(Lookup(old(storage.window.entries), storage.ns, key), codec, nowMs);
        var created := DecryptionSignature.New(inst.createEip712, signTypedData, [contract], inst.keypair.0,
                                               inst.keypair.1, user, nowMs);
        if loaded.Some? then r == Ok(loaded.value) && storage.window.entries == old(storage.window.entries)
        else if created.None? then r == Threw(SigningRefused) && storage.window.entries == old(storage.window.entries)
        else r == Ok(created.value)
             && storage.window.entries == Put(old(storage.window.entries), storage.ns, key,
                                              codec.stringify(DecryptionSignature.ToJson(created.value)))
      ensures r.Ok? ==> DecryptionSignature.IsValid(r.value, nowMs)
      ensures storage.window != null ==>
        storage.window.entries == EntriesAfterSigning(old(storage.window.entries), storage.ns, key, inst, contract,
                                                      user, signTypedData, codec, nowMs)
      ensures var sig := SignatureFor(if storage.window == null then None
                                      else Lookup(old(storage.window.entries), storage.ns, key),
                                      inst, contract, user, signTypedData, codec, nowMs);
              (r.Ok? <==> sig.Some?) && (r.Ok? ==> r.value == sig.value)
    {
      var sig := DecryptionSignature.Load(storage, key, codec, nowMs);
      if sig.Some? {
        return Ok(sig.value);
      }
      var (publicKey, privateKey) := inst.keypair;
      var created := DecryptionSignature.New(inst.createEip712, signTypedData, [contract], publicKey,
                                             privateKey, user, nowMs);
      if created.None? {
        return Threw(SigningRefused);
      }
      DecryptionSignature.Save(created.value, storage, key, codec);
      return Ok(created.value);
    }

    /**
     * `decryptResults`: [] without an instance, a contract address or a signer;
     * otherwise one handle per option, the cached (or newly signed and saved)
     * signature under `contract:user:poll:pollId`, and one value per handle.
     */
    method DecryptResults(pollId: nat, optionCount: int, walletSigner: Outcome<Signer, TxError>, chain: Chain,
                          signTypedData: (Json, Json, Json) -> Option<string>, codec: JsonCodec, nowMs: int)
      returns (r: Outcome<seq<int>, TxError>)
      modifies this, storage.window
      ensures submitted == old(submitted) && message == old(message) && isBusy == old(isBusy)
      ensures !(instance.Some? && Present(contractAddress) && hasProvider) ==>
        r == Ok([]) && (storage.window != null ==> storage.window.entries == old(storage.window.entries))
      ensures instance.Some? && Present(contractAddress) && hasProvider && old(SignerAfter(walletSigner)).None? ==>
        r == Threw(walletSigner.error)
      ensures r.Ok? && instance.Some? && Present(contractAddress) && hasProvider ==>
        |r.value| == Max0(optionCount) && (forall j | 0 <= j < optionCount :: chain.encryptedCount(pollId, j).Ok?)
      // The results are the decryption of the handles read, under the poll's stored or newly signed signature.
      ensures instance.Some? && Present(contractAddress) && hasProvider && old(SignerAfter(walletSigner)).Some? ==>
        var user := old(SignerAfter(walletSigner)).value.address;
        var stored := if storage.window == null then None
                      else Lookup(old(storage.window.entries), storage.ns, StorageKey(contractAddress.value, user, pollId));
        var sig := SignatureFor(stored, instance.value, contractAddress.value, user, signTypedData, codec, nowMs);
        && (r.Ok? <==> (forall j | 0 <= j < optionCount :: chain.encryptedCount(pollId, j).Ok?)
                       && sig.Some? && Reply(chain, pollId, optionCount, instance.value, contractAddress.value, sig.value).Ok?)
        && (r.Ok? ==> r.value == ResultsFor(HandlesRead(chain, pollId, Max0(optionCount)),
                                            Reply(chain, pollId, optionCount, instance.value, contractAddress.value, sig.value).value))
      ensures instance.Some? && Present(contractAddress) && hasProvider ==> SignerFetched(walletSigner)
      ensures !(instance.Some? && Present(contractAddress) && hasProvider) ==> SignerKept()
      // Only the poll's own cache entry, for the signer's address, can change: untouched after a failed
      // read, else as obtaining the signature leaves it.
      ensures storage.window != null && instance.Some? && Present(contractAddress) && hasProvider
              && old(SignerAfter(walletSigner)).Some? ==>
        var key := StorageKey(contractAddress.value, old(SignerAfter(walletSigner)).value.address, pollId);
        && (forall k | k != key ::
              Lookup(storage.window.entries, storage.ns, k) == Lookup(old(storage.window.entries), storage.ns, k))
        && storage.window.entries ==
             (if forall j | 0 <= j < optionCount :: chain.encryptedCount(pollId, j).Ok?
              then EntriesAfterSigning(old(storage.window.entries), storage.ns, key, instance.value,
                                       contractAddress.value, old(SignerAfter(walletSigner)).value.address,
                                       signTypedData, codec, nowMs)
              else old(storage.window.entries))
        && (r.Ok? ==> Lookup(storage.window.entries, storage.ns, key).Some?)
      ensures storage.window != null && !(instance.Some? && Present(contractAddress) && hasProvider
                                          && old(SignerAfter(walletSigner)).Some?) ==>
        storage.window.entries == old(storage.window.entries)
    {
      if instance.None? || !Present(contractAddress) {
        return Ok([]);
      }
      var c := GetContract(false, walletSigner);
      var signer := GetSigner(walletSigner);
      if signer.Threw? {
        return Threw(signer.error);
      }
      if !c.Ok? || !c.value || signer.value.None? {
        return Ok([]);
      }
      r := DecryptFor(pollId, optionCount, chain, instance.value, contractAddress.value, signer.value.value.address,
                      signTypedData, codec, nowMs);
    }

    /**
     * The part of `decryptResults` past its guards: read the handles, obtain
     * the signature for `contract:user:poll:pollId`, decrypt.
     */
    method DecryptFor(pollId: nat, optionCount: int, chain: Chain, inst: FheInstance, contract: Address, user: Address,
                      signTypedData: (Json, Json, Json) -> Option<string>, codec: JsonCodec, nowMs: int)
      returns (r: Outcome<seq<int>, TxError>)
      modifies storage.window
      ensures r.Ok? ==>
        |r.value| == Max0(optionCount) && (forall j | 0 <= j < optionCount :: chain.encryptedCount(pollId, j).Ok?)
      ensures var stored := if storage.window == null then None
                            else Lookup(old(storage.window.entries), storage.ns, StorageKey(contract, user, pollId));
              var sig := SignatureFor(stored, inst, contract, user, signTypedData, codec, nowMs);
              && (r.Ok? <==> (forall j | 0 <= j < optionCount :: chain.encryptedCount(pollId, j).Ok?)
                             && sig.Some? && Reply(chain, pollId, optionCount, inst, contract, sig.value).Ok?)
              && (r.Ok? ==> r.value == ResultsFor(HandlesRead(chain, pollId, Max0(optionCount)),
                                                  Reply(chain, pollId, optionCount, inst, contract, sig.value).value))
      ensures storage.window != null ==>
        forall k | k != StorageKey(contract, user, pollId) ::
          Lookup(storage.window.entries, storage.ns, k) == Lookup(old(storage.window.entries), storage.ns, k)
      // The poll's own slot: untouched after a failed read, else as obtaining the signature leaves it.
      ensures storage.window != null ==>
        storage.window.entries ==
          if forall j | 0 <= j < optionCount :: chain.encryptedCount(pollId, j).Ok?
          then EntriesAfterSigning(old(storage.window.entries), storage.ns, StorageKey(contract, user, pollId),
                                   inst, contract, user, signTypedData, codec, nowMs)
          else old(storage.window.entries)
      ensures storage.window != null && r.Ok? ==>
        Lookup(storage.window.entries, storage.ns, StorageKey(contract, user, pollId)).Some?
    {
      var handles := ReadHandles(chain, pollId, optionCount);
      if handles.Threw? {
        return Threw(handles.error);
      }
      var key := StorageKey(contract, user, pollId);
      var sig := ObtainSignature(key, inst, contract, user, signTypedData, codec, nowMs);
      if storage.window != null {
        OnlyOwnSlotChanges(old(storage.window.entries), storage.window.entries, storage.ns, key);
      }
      if sig.Threw? {
        return Threw(sig.error);
      }
      r := DecryptHandles(inst, handles.value, contract, sig.value);
      assert handles.value == HandlesRead(chain, pollId, Max0(optionCount));
    }
  }
}
