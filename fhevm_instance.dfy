/**
 * createFhevmInstance: acquiring an FHE instance bound to the provider's chain.
 * A chain that the mock table knows, served by a Hardhat node that publishes
 * relayer metadata, gets a mock instance; every other case, and a mock that
 * cannot be built, goes through the relayer SDK, which is loaded and
 * initialised at most once per page, reads and refreshes the public-key cache,
 * and honours the abort signal once, at the very end.
 */
module FhevmInstance {
  import opened Wrappers
  import opened Json
  import opened JsText
  import PublicKeyStorage

  /** A provider is either an RPC URL or an EIP-1193 wallet object (told apart by an id). */
  datatype Provider = RpcUrl(url: string) | Eip1193(wallet: nat)

  /** The notifications passed to `onStatusChange`, in the order they are declared. */
  datatype Status = SdkLoading | SdkLoaded | SdkInitializing | SdkInitialized | Creating

  function Rank(s: Status): nat {
    match s
    case SdkLoading => 0
    case SdkLoaded => 1
    case SdkInitializing => 2
    case SdkInitialized => 3
    case Creating => 4
  }

  /** Why a creation failed: the abort check, the ACL check, or a rejected network or SDK call. */
  datatype FhevmError =
    | AbortError
    | BadAclAddress
    | NoWindow  // the ReferenceError of reading `window` outside a browser
    | Rejected(reason: string)

  /** An FHE instance; only the key material it reports back is visible to this code. */
  datatype Instance = Instance(
    id: nat,
    publicKey: Option<PublicKeyStorage.StoredPublicKey>,
    publicParams: Option<PublicKeyStorage.StoredPublicParams>)

  /** The configuration handed to the SDK's `createInstance`. */
  datatype Config = Config(
    aclContractAddress: string,
    network: Provider,
    publicKey: Option<PublicKeyStorage.PublicKeyView>,
    publicParams: Option<PublicKeyStorage.StoredPublicParams>)

  /** The replies of the outside world during one creation; each call either returns or throws. */
  datatype Network = Network(
    networkChainId: Outcome<int, FhevmError>,     // getNetwork() of an RPC URL
    chainIdHex: Outcome<string, FhevmError>,      // eth_chainId of a wallet
    clientVersion: Outcome<Json, FhevmError>,     // web3_clientVersion at the mock URL
    relayerMetadata: Outcome<Json, FhevmError>,   // fhevm_relayer_metadata at the mock URL
    mockInstance: Outcome<Instance, FhevmError>,  // the mock module's instance
    sdkLoad: Option<FhevmError>,                  // failure of loading the SDK script
    sdkInit: Option<FhevmError>,                  // failure of initSDK
    createInstance: Config -> Outcome<Instance, FhevmError>)

  /** An AbortController together with its signal. */
  class AbortController {
    var aborted: bool

    constructor ()
      ensures !aborted
    {
      aborted := false;
    }

    method Abort()
      modifies this
      ensures aborted
    {
      aborted := true;
    }
  }

  /** The number of hex digits at the start of `s`. */
  function HexRun(s: string): (n: nat)
    ensures n <= |s| && AllDigits(s[..n], 16)
    ensures n < |s| ==> !IsDigit(s[n], 16)
  {
    if |s| > 0 && IsDigit(s[0], 16) then
      var n := 1 + HexRun(s[1..]);
      assert s[..n] == [s[0]] + s[1..][..n - 1];
      n
    else 0
  }

  /** What `parseInt(s, 16)` reads digits from: `s` after whitespace, one sign and a `0x` or `0X`. */
  function HexBody(s: string): string {
    var t := s[LeadingSpace(s)..];
    var u := if |t| > 0 && (t[0] == '-' || t[0] == '+') then t[1..] else t;
    if |u| >= 2 && u[0] == '0' && (u[1] == 'x' || u[1] == 'X') then u[2..] else u
  }

  /** Whether the sign `parseInt` reads is a minus. */
  predicate HexNegative(s: string) {
    var t := s[LeadingSpace(s)..];
    |t| > 0 && t[0] == '-'
  }

  /** `parseInt(s, 16)`: the longest run of hex digits of the body, signed; None is NaN. */
  function ParseHexInt(s: string): (r: Option<int>)
    ensures r.None? <==> |HexBody(s)| == 0 || !IsDigit(HexBody(s)[0], 16)
    ensures r.Some? && !HexNegative(s) ==> r.value >= 0
  {
    var v := HexBody(s);
    var n := HexRun(v);
    if n == 0 then None
    else
      var magnitude: int := FromDigits(v[..n], 16);
      Some(if HexNegative(s) then -magnitude else magnitude)
  }

  /** The chain id a node reports as a `0x`-prefixed hex quantity is read back exactly. */
  lemma ChainIdHexRoundTrip(n: nat)
    ensures ParseHexInt("0x" + ToDigits(n, 16)) == Some(n)
  {
    var d := ToDigits(n, 16);
    var s := "0x" + d;
    assert LeadingSpace(s) == 0 by {
      assert !IsJsWhitespace(s[0]);
    }
    assert HexBody(s) == d by {
      assert s[0..] == s && s[2..] == d;
    }
    assert !HexNegative(s);
    HexRunOfDigits(d);
    assert d[..|d|] == d;
    FromToDigits(n, 16);
  }

  lemma {:induction false} HexRunOfDigits(s: string)
    requires AllDigits(s, 16)
    ensures HexRun(s) == |s|
  {
    if |s| > 0 {
      HexRunOfDigits(s[1..]);
    }
  }

  /** `getChainId`: None stands for NaN (an unparsable wallet reply). */
  function ChainIdOf(provider: Provider, net: Network): Outcome<Option<int>, FhevmError> {
    match provider
    case RpcUrl(_) =>
      (match net.networkChainId
       case Ok(id) => Ok(Some(id))
       case Threw(e) => Threw(e))
    case Eip1193(_) =>
      (match net.chainIdHex
       case Ok(hex) => Ok(ParseHexInt(hex))
       case Threw(e) => Threw(e))
  }

  const HardhatChainId: int := 31337
  const HardhatRpcUrl: string := "http://localhost:8545"

  /** `{ 31337: "http://localhost:8545", ...(mockChains ?? {}) }`. */
  function MockTable(mockChains: Option<map<int, string>>): (t: map<int, string>)
    ensures mockChains.Some? ==> forall c | c in mockChains.value :: c in t && t[c] == mockChains.value[c]
    ensures forall c :: c in t <==> c == HardhatChainId || (mockChains.Some? && c in mockChains.value)
    ensures HardhatChainId in t
    ensures (mockChains.None? || HardhatChainId !in mockChains.value) ==> t[HardhatChainId] == HardhatRpcUrl
  {
    map[HardhatChainId := HardhatRpcUrl] + (if mockChains.Some? then mockChains.value else map[])
  }

  /** The RPC URL probed for a Hardhat node: a URL provider's own, a wallet's from the mock table. */
  function MockRpcUrl(provider: Provider, chainId: Option<int>, mocks: map<int, string>): (url: Option<string>)
    ensures provider.RpcUrl? ==> url == Some(provider.url)
    ensures provider.Eip1193? ==>
      (url.Some? <==> chainId.Some? && chainId.value in mocks) &&
      (url.Some? ==> url.value == mocks[chainId.value])
  {
    match provider
    case RpcUrl(u) => Some(u)
    case Eip1193(_) =>
      if chainId.Some? && chainId.value in mocks then Some(mocks[chainId.value]) else None
  }

  /** The client-version test: a string that contains "hardhat" in any letter case. */
  predicate IsHardhatClient(version: Json) {
    version.JString? && Contains(Lower(version.s), "hardhat")
  }

  /** Whether the seven characters of `s` from `i` spell "hardhat" in any letter case. */
  predicate SpellsHardhatAt(s: string, i: int) {
    0 <= i && i + 7 <= |s| && Lower(s[i..i + 7]) == "hardhat"
  }

  /**
   * A client version passes exactly when some seven consecutive characters of
   * it spell "hardhat" in any mix of upper and lower case; a reply that is not
   * a string never passes.
   */
  lemma HardhatTestFindsAnyCase(s: string, reply: Json)
    ensures IsHardhatClient(JString(s)) <==> exists i :: SpellsHardhatAt(s, i)
    ensures !reply.JString? ==> !IsHardhatClient(reply)
  {
    if IsHardhatClient(JString(s)) {
      var i :| 0 <= i <= |Lower(s)| - 7 && OccursAt(Lower(s), "hardhat", i);
      LowerOfSlice(s, i, i + 7);
      assert SpellsHardhatAt(s, i);
    }
    if exists i :: SpellsHardhatAt(s, i) {
      var i :| SpellsHardhatAt(s, i);
      LowerOfSlice(s, i, i + 7);
      assert OccursAt(Lower(s), "hardhat", i);
    }
  }

  lemma LowerOfSlice(s: string, i: nat, j: nat)
    requires i <= j <= |s|
    ensures Lower(s)[i..j] == Lower(s[i..j])
  {
  }

  /**
   * `tryFetchFHEVMHardhatNodeRelayerMetadata`: a failing client-version call
   * propagates; a non-Hardhat client gives undefined without a metadata call;
   * a failing metadata call gives undefined.
   */
  function TryFetchMetadata(clientVersion: Outcome<Json, FhevmError>,
                            relayerMetadata: Outcome<Json, FhevmError>): (r: Outcome<Option<Json>, FhevmError>)
    ensures clientVersion.Threw? ==> r == Threw(clientVersion.error)
    ensures clientVersion.Ok? ==>
      r.Ok? && (r.value.Some? <==> IsHardhatClient(clientVersion.value) && relayerMetadata.Ok?)
    ensures r.Ok? && r.value.Some? ==> Some(r.value.value) == (if relayerMetadata.Ok? then Some(relayerMetadata.value) else None)
  {
    match clientVersion
    case Threw(e) => Threw(e)
    case Ok(version) =>
      if !IsHardhatClient(version) then Ok(None)
      else match relayerMetadata
        case Ok(meta) => Ok(Some(meta))
        case Threw(_) => Ok(None)
  }

  /** Whether the mock path probes a node: the chain id is read and gives a non-empty RPC URL. */
  predicate ProbesNode(provider: Provider, mockChains: Option<map<int, string>>, net: Network) {
    && ChainIdOf(provider, net).Ok?
    && var url := MockRpcUrl(provider, ChainIdOf(provider, net).value, MockTable(mockChains));
       url.Some? && url.value != ""
  }

  /**
   * The mock path at the head of `createFhevmInstance`: Threw when the chain id
   * or client version cannot be read, Ok(Some(i)) when the mock instance is
   * returned, Ok(None) when creation continues on the SDK path.
   */
  function MockPath(provider: Provider, mockChains: Option<map<int, string>>, net: Network)
    : (r: Outcome<Option<Instance>, FhevmError>)
    ensures r.Ok? && r.value.Some? ==> net.mockInstance == Ok(r.value.value)
    ensures ChainIdOf(provider, net).Threw? ==> r == Threw(ChainIdOf(provider, net).error)
    ensures net.mockInstance.Threw? ==> r.Threw? || r == Ok(None)
    // The mock is used exactly for a probed Hardhat node with truthy relayer metadata and a built mock.
    ensures (r.Ok? && r.value.Some?) <==>
      && ProbesNode(provider, mockChains, net)
      && net.clientVersion.Ok? && IsHardhatClient(net.clientVersion.value)
      && net.relayerMetadata.Ok? && Truthy(net.relayerMetadata.value)
      && net.mockInstance.Ok?
    // Past the chain id, only a failing client-version call of a probed node stops creation.
    ensures r.Threw? <==>
      ChainIdOf(provider, net).Threw? || (ProbesNode(provider, mockChains, net) && net.clientVersion.Threw?)
    ensures ProbesNode(provider, mockChains, net) && net.clientVersion.Threw? ==> r == Threw(net.clientVersion.error)
  {
    match ChainIdOf(provider, net)
    case Threw(e) => Threw(e)
    case Ok(chainId) =>
      var url := MockRpcUrl(provider, chainId, MockTable(mockChains));
      if url.None? || url.value == "" then Ok(None)
      else match TryFetchMetadata(net.clientVersion, net.relayerMetadata)
        case Threw(e) => Threw(e)
        case Ok(meta) =>
          if meta.None? || !Truthy(meta.value) then Ok(None)
          else match net.mockInstance
            case Ok(i) => Ok(Some(i))
            case Threw(_) => Ok(None)
  }

  /** A wallet on an unlisted chain never reaches the mock path's network probes. */
  lemma UnlistedChainSkipsMock(wallet: nat, mockChains: Option<map<int, string>>, net: Network, hex: string)
    requires net.chainIdHex == Ok(hex)
    requires var c := ParseHexInt(hex); c.None? || c.value !in MockTable(mockChains)
    ensures MockPath(Eip1193(wallet), mockChains, net) == Ok(None)
  {
  }

  /** The page's `window.relayerSDK`, as far as creation reads and writes it. */
  class RelayerWindow {
    var sdkPresent: bool            // "relayerSDK" in window
    var initialized: bool           // relayerSDK.__initialized__
    const aclAddress: string        // relayerSDK.SepoliaConfig.aclContractAddress
    var notifications: seq<Status>  // every status passed to onStatusChange so far
    ghost var initCalls: nat        // how many times initSDK has run

    constructor (sdkPresent: bool, initialized: bool, aclAddress: string)
      ensures this.sdkPresent == sdkPresent && this.initialized == initialized
      ensures this.aclAddress == aclAddress && notifications == [] && initCalls == 0
    {
      this.sdkPresent, this.initialized, this.aclAddress := sdkPresent, initialized, aclAddress;
      notifications, initCalls := [], 0;
    }
  }

  /** Whether the SDK path runs initSDK: always after a fresh load, otherwise while not yet initialised. */
  predicate InitRuns(hadSdk: bool, wasInitialized: bool, net: Network) {
    (hadSdk || net.sdkLoad.None?) && !(hadSdk && wasInitialized)
  }

  /** Whether the SDK path gets past loading and initialising. */
  predicate SdkReady(hadSdk: bool, wasInitialized: bool, net: Network) {
    (hadSdk || net.sdkLoad.None?) && !(InitRuns(hadSdk, wasInitialized, net) && net.sdkInit.Some?)
  }

  /** The notifications the SDK path emits. */
  function SdkNotifications(hadSdk: bool, wasInitialized: bool, net: Network, aclOk: bool): seq<Status> {
    var loading := if hadSdk then [] else if net.sdkLoad.Some? then [SdkLoading] else [SdkLoading, SdkLoaded];
    var init := if !InitRuns(hadSdk, wasInitialized, net) then []
                else if net.sdkInit.Some? then [SdkInitializing] else [SdkInitializing, SdkInitialized];
    loading + init + (if SdkReady(hadSdk, wasInitialized, net) && aclOk then [Creating] else [])
  }

  /**
   * The notifications come in stage order without repeats, each completion
   * after its start; loading is announced exactly when the page had no SDK,
   * initialising exactly when initSDK runs, and creating exactly when the SDK
   * is ready and the ACL address is valid.
   */
  lemma SdkNotificationsInOrder(hadSdk: bool, wasInitialized: bool, net: Network, aclOk: bool)
    ensures var notes := SdkNotifications(hadSdk, wasInitialized, net, aclOk);
      && (forall i, j | 0 <= i < j < |notes| :: Rank(notes[i]) < Rank(notes[j]))
      && (SdkLoaded in notes ==> SdkLoading in notes)
      && (SdkInitialized in notes ==> SdkInitializing in notes)
      && ((SdkLoading in notes) == !hadSdk)
      && ((SdkInitializing in notes) == InitRuns(hadSdk, wasInitialized, net))
      && ((Creating in notes) == (SdkReady(hadSdk, wasInitialized, net) && aclOk))
  {
  }

  /** The configuration built from the ACL address, the provider and the cached key material. */
  function ConfigFor(acl: string, provider: Provider, cached: PublicKeyStorage.CachedMaterial): Config {
    Config(acl, provider, cached.publicKey, cached.publicParams2048)
  }

  /**
   * The outcome of the SDK path: the loading failure, the initialisation
   * failure, the ACL check, the SDK's own failure, and last the abort check.
   */
  function SdkResult(hadSdk: bool, wasInitialized: bool, net: Network, aclOk: bool,
                     created: Outcome<Instance, FhevmError>, aborted: bool): (r: Outcome<Instance, FhevmError>)
    ensures r.Ok? <==> SdkReady(hadSdk, wasInitialized, net) && aclOk && created.Ok? && !aborted
    ensures r.Ok? ==> r == created
    ensures r == Threw(BadAclAddress) <== SdkReady(hadSdk, wasInitialized, net) && !aclOk
    ensures r == Threw(AbortError) <== SdkReady(hadSdk, wasInitialized, net) && aclOk && created.Ok? && aborted
    ensures r == created <== SdkReady(hadSdk, wasInitialized, net) && aclOk && created.Threw?
    ensures !SdkReady(hadSdk, wasInitialized, net) ==>
      r == Threw(if !hadSdk && net.sdkLoad.Some? then net.sdkLoad.value else net.sdkInit.value)
  {
    if !hadSdk && net.sdkLoad.Some? then Threw(net.sdkLoad.value)
    else if InitRuns(hadSdk, wasInitialized, net) && net.sdkInit.Some? then Threw(net.sdkInit.value)
    else if !aclOk then Threw(BadAclAddress)
    else if created.Threw? then created
    else if aborted then Threw(AbortError)
    else created
  }

  /** Whether the SDK path refreshes the key cache: whenever the SDK created an instance, aborted or not. */
  predicate RefreshesCache(hadSdk: bool, wasInitialized: bool, net: Network, aclOk: bool,
                           created: Outcome<Instance, FhevmError>)
  {
    SdkReady(hadSdk, wasInitialized, net) && aclOk && created.Ok?
  }

  /**
   * Loading and initialising the SDK: the script is loaded when the page has
   * none, and initSDK runs while the SDK is not initialised (a freshly loaded
   * one never is). The result is the failure, if any.
   */
  method LoadAndInitSdk(win: RelayerWindow, net: Network) returns (failure: Option<FhevmError>)
    modifies win
    ensures failure.None? <==> SdkReady(old(win.sdkPresent), old(win.initialized), net)
    ensures failure.Some? ==>
      failure == (if !old(win.sdkPresent) && net.sdkLoad.Some? then net.sdkLoad else net.sdkInit)
    ensures win.notifications ==
      old(win.notifications) + SdkNotifications(old(win.sdkPresent), old(win.initialized), net, false)
    ensures win.initCalls ==
      old(win.initCalls) + (if InitRuns(old(win.sdkPresent), old(win.initialized), net) then 1 else 0)
    ensures win.sdkPresent == (old(win.sdkPresent) || net.sdkLoad.None?)
    ensures win.initialized ==
      if InitRuns(old(win.sdkPresent), old(win.initialized), net) then net.sdkInit.None? else old(win.initialized)
  {
    if !win.sdkPresent {
      win.notifications := win.notifications + [SdkLoading];
      if net.sdkLoad.Some? {
        return net.sdkLoad;
      }
      // A freshly loaded SDK starts out uninitialised.
      win.sdkPresent, win.initialized := true, false;
      win.notifications := win.notifications + [SdkLoaded];
    }
    if !win.initialized {
      win.notifications := win.notifications + [SdkInitializing];
      win.initCalls := win.initCalls + 1;
      if net.sdkInit.Some? {
        return net.sdkInit;
      }
      win.initialized := true;
      win.notifications := win.notifications + [SdkInitialized];
    }
    return None;
  }

  /**
   * The SDK path's effect, between the state before it and the state after:
   * the notifications and initSDK calls, the window's flags, the outcome, and
   * the key cache refreshed whenever the SDK created an instance.
   */
  twostate predicate SdkPathEffect(provider: Provider, signal: AbortController, win: RelayerWindow,
                                   db: PublicKeyStorage.KeyDatabase, net: Network, isAddress: string -> bool,
                                   new r: Outcome<Instance, FhevmError>)
    reads win, db, signal
  {
    var hadSdk, wasInit := old(win.sdkPresent), old(win.initialized);
    var aclOk := isAddress(win.aclAddress);
    var created := net.createInstance(ConfigFor(win.aclAddress, provider, old(PublicKeyStorage.CachedFor(db.publicKeyStore, db.paramsStore, win.aclAddress))));
    && win.notifications == old(win.notifications) + SdkNotifications(hadSdk, wasInit, net, aclOk)
    && win.initCalls == old(win.initCalls) + (if InitRuns(hadSdk, wasInit, net) then 1 else 0)
    && win.sdkPresent == (hadSdk || net.sdkLoad.None?)
    && win.initialized == (if InitRuns(hadSdk, wasInit, net) then net.sdkInit.None? else wasInit)
    && r == SdkResult(hadSdk, wasInit, net, aclOk, created, signal.aborted)
    && (if RefreshesCache(hadSdk, wasInit, net, aclOk, created)
        then db.publicKeyStore == PublicKeyStorage.PutIfPresent(old(db.publicKeyStore), win.aclAddress, created.value.publicKey)
          && db.paramsStore == PublicKeyStorage.PutIfPresent(old(db.paramsStore), win.aclAddress, created.value.publicParams)
        else db.publicKeyStore == old(db.publicKeyStore) && db.paramsStore == old(db.paramsStore))
  }

  /**
   * The SDK path of `createFhevmInstance`: load, initialise, check the ACL
   * address, create, cache, check the signal. Outside a browser (`db` null)
   * its first test of `window` throws before anything is announced.
   */
  method CreateWithSdk(provider: Provider, signal: AbortController, win: RelayerWindow,
                       db: PublicKeyStorage.KeyDatabase?, net: Network, isAddress: string -> bool)
    returns (r: Outcome<Instance, FhevmError>)
    modifies win, db
    ensures db == null ==> r == Threw(NoWindow) && unchanged(win)
    ensures db != null ==> SdkPathEffect(provider, signal, win, db, net, isAddress, r)
  {
    if db == null {
      return Threw(NoWindow);
    }
    var failure := LoadAndInitSdk(win, net);
    if failure.Some? {
      return Threw(failure.value);
    }

    var acl := win.aclAddress;
    if !isAddress(acl) {
      NotificationsAfterReady(old(win.sdkPresent), old(win.initialized), net);
      return Threw(BadAclAddress);
    }
    NotificationsAfterReady(old(win.sdkPresent), old(win.initialized), net);
    r := CreateAndCache(provider, signal, win, db, net);
  }

  /** Past loading and initialising, the notifications differ only by the final `creating`. */
  lemma NotificationsAfterReady(hadSdk: bool, wasInitialized: bool, net: Network)
    requires SdkReady(hadSdk, wasInitialized, net)
    ensures SdkNotifications(hadSdk, wasInitialized, net, true) == SdkNotifications(hadSdk, wasInitialized, net, false) + [Creating]
  {
  }

  /** The creation step of the SDK path: announce it, create, refresh the key cache, then check the signal. */
  method CreateAndCache(provider: Provider, signal: AbortController, win: RelayerWindow,
                        db: PublicKeyStorage.KeyDatabase, net: Network)
    returns (r: Outcome<Instance, FhevmError>)
    modifies win, db
    ensures win.notifications == old(win.notifications) + [Creating]
    ensures win.initCalls == old(win.initCalls)
    ensures win.sdkPresent == old(win.sdkPresent) && win.initialized == old(win.initialized)
    ensures var created := net.createInstance(ConfigFor(win.aclAddress, provider, old(PublicKeyStorage.CachedFor(db.publicKeyStore, db.paramsStore, win.aclAddress))));
            && r == (if created.Ok? && signal.aborted then Threw(AbortError) else created)
            && (if created.Ok?
                then db.publicKeyStore == PublicKeyStorage.PutIfPresent(old(db.publicKeyStore), win.aclAddress, created.value.publicKey)
                  && db.paramsStore == PublicKeyStorage.PutIfPresent(old(db.paramsStore), win.aclAddress, created.value.publicParams)
                else db.publicKeyStore == old(db.publicKeyStore) && db.paramsStore == old(db.paramsStore))
  {
    var acl := win.aclAddress;
    var cached := PublicKeyStorage.Get(db, acl);
    var config := Config(acl, provider, cached.publicKey, cached.publicParams2048);
    win.notifications := win.notifications + [Creating];
    var created := net.createInstance(config);
    if created.Threw? {
      return Threw(created.error);
    }
    var instance := created.value;
    PublicKeyStorage.Set(db, acl, instance.publicKey, instance.publicParams);
    if signal.aborted {
      return Threw(AbortError);
    }
    return Ok(instance);
  }

  /** `createFhevmInstance`. `db` is null when there is no window; `isAddress` is ethers' address test. */
  method CreateFhevmInstance(provider: Provider, mockChains: Option<map<int, string>>,
                             signal: AbortController, win: RelayerWindow,
                             db: PublicKeyStorage.KeyDatabase?, net: Network, isAddress: string -> bool)
    returns (r: Outcome<Instance, FhevmError>)
    modifies win, db
    // The mock path: a failure or a mock instance ends creation before the SDK is touched.
    ensures MockPath(provider, mockChains, net).Threw? ==>
      r == Threw(MockPath(provider, mockChains, net).error) && unchanged(win) && (db != null ==> unchanged(db))
    ensures MockPath(provider, mockChains, net).Ok? && MockPath(provider, mockChains, net).value.Some? ==>
      r == Ok(MockPath(provider, mockChains, net).value.value) && unchanged(win) && (db != null ==> unchanged(db))
    // Otherwise the SDK path, which outside a browser throws at its first test of `window`.
    ensures MockPath(provider, mockChains, net) == Ok(None) && db == null ==> r == Threw(NoWindow) && unchanged(win)
    ensures MockPath(provider, mockChains, net) == Ok(None) && db != null ==>
      SdkPathEffect(provider, signal, win, db, net, isAddress, r)
  {
    var head := MockPath(provider, mockChains, net);
    if head.Threw? {
      return Threw(head.error);
    }
    if head.value.Some? {
      return Ok(head.value.value);
    }
    r := CreateWithSdk(provider, signal, win, db, net, isAddress);
  }
}
