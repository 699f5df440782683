/**
 * What the two ABI generators share: the deployment records they read, the
 * fallback used when there is no Sepolia deployment, the ABI comparison, the
 * two generated TypeScript texts, and the regular-expression reader that
 * finds a chain's address in a previously generated address table.
 */
module AddressTable {
  import opened Wrappers
  import opened JsText
  import opened Json

  const ContractName: string := "FHEVoteApp"
  const ZeroAddress: string := "0x0000000000000000000000000000000000000000"
  const SepoliaChainId: nat := 11155111
  const HardhatChainId: nat := 31337

  /** The file names written into the output directory. */
  const AbiFileName: string := "FHEVoteAppABI.ts"
  const AddressesFileName: string := "FHEVoteAppAddresses.ts"

  /** A deployment record: the contract's ABI and address. */
  datatype Deployment = Deployment(abi: Json, address: string)

  /** `0x` followed by exactly 40 hex digits: what the reader's capture group accepts. */
  predicate IsHexAddress(a: string) {
    |a| == 42 && a[0] == '0' && a[1] == 'x' && AllDigits(a[2..], 16)
  }

  lemma HexAddressHasNoQuote(a: string)
    requires IsHexAddress(a)
    ensures '"' !in a
  {
    assert forall i | 2 <= i < |a| :: a[i] == a[2..][i - 2];
  }

  /**
   * The Sepolia deployment, or else the localhost ABI with the previously
   * recorded Sepolia address, or else the zero address.
   */
  function SepoliaOrFallback(sepolia: Option<Deployment>, local: Deployment, previous: Option<string>): (d: Deployment)
    ensures sepolia.Some? ==> d == sepolia.value
    ensures sepolia.None? ==> d.abi == local.abi
    ensures sepolia.None? && previous.Some? ==> d.address == previous.value
    ensures sepolia.None? && previous.None? ==> d.address == ZeroAddress
  {
    match sepolia
    case Some(d) => d
    case None => Deployment(local.abi, if previous.Some? then previous.value else ZeroAddress)
  }

  /** `JSON.stringify(localhost.abi) !== JSON.stringify(sepolia.abi)`. */
  predicate HasMismatch(codec: JsonCodec, local: Deployment, sepolia: Deployment) {
    codec.stringify(local.abi) != codec.stringify(sepolia.abi)
  }

  /** Without a Sepolia deployment the ABIs cannot disagree: the fallback carries the localhost ABI. */
  lemma FallbackNeverMismatches(codec: JsonCodec, local: Deployment, previous: Option<string>)
    ensures !HasMismatch(codec, local, SepoliaOrFallback(None, local, previous))
  {
  }

  /** The ABI module: `{ abi }` pretty-printed with two-space indentation. */
  function AbiText(pretty: Json -> string, abi: Json): string {
    "export const " + ContractName + "ABI = " + pretty(JObject(map["abi" := abi])) + " as const;\n"
  }

  const AddressesPrefix: string := "export const FHEVoteAppAddresses = {\n  "
  const Quote: string := "\""

  /**
   * One entry of the address table followed by `rest`:
   * `"<id>": { address: "<address>", chainId: <id>, chainName: "<chainName>" }<rest>`.
   */
  function EntryThen(id: string, address: string, chainName: string, rest: string): string {
    Quote + (id + (Quote + (": { address: " + (Quote + (address + (Quote + (", chainId: " + (id +
      (", chainName: " + (Quote + (chainName + (Quote + (" }" + rest)))))))))))))
  }

  /** The address module: Sepolia's entry, then the Hardhat node's. */
  function AddressesText(sepolia: string, localhost: string): string {
    AddressesPrefix + EntryThen("11155111", sepolia, "sepolia", ",\n  " + EntryThen("31337", localhost, "hardhat", ",\n};\n"))
  }

  /** `t` after the leading run of `\s`. */
  function AfterSpace(t: string): string {
    t[LeadingSpace(t)..]
  }

  /** What follows `lit` when `t` starts with it. */
  function Expect(t: string, lit: string): (r: Option<string>)
    ensures r.Some? ==> t == lit + r.value
  {
    if |lit| <= |t| && t[..|lit|] == lit then Some(t[|lit|..]) else None
  }

  /** `"(0x[a-fA-F0-9]{40})"` at the start of `t`: the captured address. */
  function QuotedAddress(t: string): (r: Option<string>)
    ensures r.Some? ==> IsHexAddress(r.value)
  {
    if |t| >= 44 && t[0] == '"' && IsHexAddress(t[1..43]) && t[43] == '"' then Some(t[1..43]) else None
  }

  /** The pattern `"<id>"\s*:\s*\{\s*address:\s*"(0x[a-fA-F0-9]{40})"` matched at the start of `t`. */
  function MatchHere(t: string, id: string): (r: Option<string>)
    ensures r.Some? ==> IsHexAddress(r.value)
    ensures r.Some? ==> |t| >= |id| + 2 && t[0] == '"' && t[1..|id| + 1] == id && t[|id| + 1] == '"'
  {
    if |t| >= |id| + 2 && t[0] == '"' && t[1..|id| + 1] == id && t[|id| + 1] == '"' then MatchAfterKey(t[|id| + 2..])
    else None
  }

  /** `\s*` followed by `lit` at the start of `t`: what follows. */
  function SpacedLiteral(t: string, lit: string): Option<string> {
    Expect(AfterSpace(t), lit)
  }

  /** The part of the pattern after the quoted chain id. */
  function MatchAfterKey(t: string): (r: Option<string>)
    ensures r.Some? ==> IsHexAddress(r.value)
  {
    match SpacedLiteral(t, ":")
    case None => None
    case Some(t2) =>
      match SpacedLiteral(t2, "{")
      case None => None
      case Some(t3) =>
        match SpacedLiteral(t3, "address:")
        case None => None
        case Some(t4) => QuotedAddress(AfterSpace(t4))
  }

  /**
   * Whether `r` is what `f` gives at the leftmost position of `s` where it
   * gives something, or None when it gives nothing at every position.
   */
  predicate IsLeftmost(s: string, f: string -> Option<string>, r: Option<string>) {
    && (r.None? <==> forall i | 0 <= i <= |s| :: f(s[i..]).None?)
    && (r.Some? ==> exists i | 0 <= i <= |s| :: f(s[i..]) == r && forall j | 0 <= j < i :: f(s[j..]).None?)
  }

  /** The pattern for chain `id`, tried at the start of a text. */
  function Pattern(id: string): string -> Option<string> {
    t => MatchHere(t, id)
  }

  /** `content.match(re)?.[1]`: the capture of the leftmost match. */
  function Search(s: string, id: string): (r: Option<string>)
    ensures r.Some? ==> IsHexAddress(r.value)
    ensures IsLeftmost(s, Pattern(id), r)
    decreases |s|
  {
    var m := MatchHere(s, id);
    if m.Some? then
      assert s[0..] == s;
      m
    else if |s| == 0 then
      assert s[0..] == s;
      None
    else
      LeftmostShift(s, Pattern(id), Search(s[1..], id));
      Search(s[1..], id)
  }

  /** With nothing at the front of `s`, the leftmost result in `s[1..]` is the leftmost result in `s`. */
  lemma LeftmostShift(s: string, f: string -> Option<string>, r: Option<string>)
    requires |s| > 0 && f(s).None?
    requires IsLeftmost(s[1..], f, r)
    ensures IsLeftmost(s, f, r)
  {
    assert s[0..] == s;
    if r.Some? {
      var i :| 0 <= i <= |s| - 1 && f(s[1..][i..]) == r && forall j | 0 <= j < i :: f(s[1..][j..]).None?;
      forall j | 0 <= j < i + 1
        ensures f(s[j..]).None?
      {
        if j > 0 {
          assert s[j..] == s[1..][j - 1..];
        }
      }
      assert s[i + 1..] == s[1..][i..];
    } else {
      forall i | 0 <= i <= |s|
        ensures f(s[i..]).None?
      {
        if i > 0 {
          assert s[i..] == s[1..][i - 1..];
        }
      }
    }
  }

  /** `readPreviousAddress(chainId)`; `file` is None when the address file is missing or cannot be read. */
  function ReadPreviousAddress(file: Option<string>, chainId: nat): (r: Option<string>)
    ensures file.None? ==> r.None?
    ensures r.Some? ==> IsHexAddress(r.value)
    ensures file.Some? ==> IsLeftmost(file.value, Pattern(DecimalString(chainId)), r)
  {
    if file.None? then None else Search(file.value, DecimalString(chainId))
  }

  /** No match starts at a character other than a quote. */
  lemma SearchStep(s: string, id: string)
    requires |s| > 0 && s[0] != '"'
    ensures Search(s, id) == Search(s[1..], id)
  {
    assert MatchHere(s, id).None?;
  }

  /** No match starts inside a stretch without quotes. */
  lemma SkipQuoteFree(x: string, y: string, id: string)
    requires '"' !in x
    ensures Search(x + y, id) == Search(y, id)
  {
    SkipUnquoted(x, y, id);
  }

  lemma {:induction false} SkipUnquoted(x: string, y: string, id: string)
    requires forall i | 0 <= i < |x| :: x[i] != '"'
    ensures Search(x + y, id) == Search(y, id)
  {
    if |x| > 0 {
      var s := x + y;
      assert s[0] == x[0];
      SearchStep(s, id);
      assert s[1..] == x[1..] + y;
      SkipUnquoted(x[1..], y, id);
    } else {
      assert x + y == y;
    }
  }

  /** No match starts at a quote that is followed by something other than the id's first character. */
  lemma SkipQuote(y: string, id: string)
    requires |id| > 0 && |y| > 0 && y[0] != id[0]
    ensures Search("\"" + y, id) == Search(y, id)
  {
    assert ("\"" + y)[1..] == y;
    assert ("\"" + y)[1] == y[0];
  }

  /** A table entry holds no match for an id whose first character differs from the entry's. */
  lemma SkipEntry(id: string, address: string, chainName: string, y: string, target: string)
    requires IsHexAddress(address) && '"' !in id && '"' !in chainName
    requires |id| > 0 && |chainName| > 0 && |target| > 0
    requires target[0] !in {id[0], chainName[0], ':', '0', ',', ' '}
    ensures Search(EntryThen(id, address, chainName, y), target) == Search(y, target)
  {
    var s3 := ", chainId: " + (id + (", chainName: " + (Quote + (chainName + (Quote + (" }" + y))))));
    calc {
      Search(EntryThen(id, address, chainName, y), target);
      { SkipKey(id, ": { address: " + (Quote + (address + (Quote + s3))), target); }
      Search(": { address: " + (Quote + (address + (Quote + s3))), target);
      { SkipAddress(address, s3, target); }
      Search(s3, target);
      { SkipChainId(id, Quote + (chainName + (Quote + (" }" + y))), target); }
      Search(Quote + (chainName + (Quote + (" }" + y))), target);
      { SkipChainName(chainName, y, target); }
      Search(y, target);
    }
  }

  /** No match for `target` starts in a quoted key other than its own. */
  lemma SkipKey(id: string, y: string, target: string)
    requires '"' !in id && |id| > 0 && |target| > 0 && |y| > 0
    requires target[0] != id[0] && target[0] != y[0]
    ensures Search(Quote + (id + (Quote + y)), target) == Search(y, target)
  {
    calc {
      Search(Quote + (id + (Quote + y)), target);
      { SkipQuote(id + (Quote + y), target); }
      Search(id + (Quote + y), target);
      { SkipQuoteFree(id, Quote + y, target); }
      Search(Quote + y, target);
      { SkipQuote(y, target); }
      Search(y, target);
    }
  }

  lemma SkipAddress(address: string, y: string, target: string)
    requires IsHexAddress(address) && |target| > 0 && |y| > 0
    requires target[0] != '0' && target[0] != y[0]
    ensures Search(": { address: " + (Quote + (address + (Quote + y))), target) == Search(y, target)
  {
    HexAddressHasNoQuote(address);
    calc {
      Search(": { address: " + (Quote + (address + (Quote + y))), target);
      { SkipQuoteFree(": { address: ", Quote + (address + (Quote + y)), target); }
      Search(Quote + (address + (Quote + y)), target);
      { SkipKey(address, y, target); }
      Search(y, target);
    }
  }

  lemma SkipChainId(id: string, y: string, target: string)
    requires '"' !in id
    ensures Search(", chainId: " + (id + (", chainName: " + y)), target) == Search(y, target)
  {
    calc {
      Search(", chainId: " + (id + (", chainName: " + y)), target);
      { SkipQuoteFree(", chainId: ", id + (", chainName: " + y), target); }
      Search(id + (", chainName: " + y), target);
      { SkipQuoteFree(id, ", chainName: " + y, target); }
      Search(", chainName: " + y, target);
      { SkipQuoteFree(", chainName: ", y, target); }
      Search(y, target);
    }
  }

  lemma SkipChainName(chainName: string, y: string, target: string)
    requires '"' !in chainName && |chainName| > 0 && |target| > 0
    requires target[0] != chainName[0] && target[0] != ' '
    ensures Search(Quote + (chainName + (Quote + (" }" + y))), target) == Search(y, target)
  {
    calc {
      Search(Quote + (chainName + (Quote + (" }" + y))), target);
      { SkipKey(chainName, " }" + y, target); }
      Search(" }" + y, target);
      { SkipQuoteFree(" }", y, target); }
      Search(y, target);
    }
  }

  /** Padding then `lit` is consumed by `\s*lit`. */
  lemma SpacedLiteralOf(pad: string, lit: string, u: string)
    requires AllWhitespace(pad) && |lit| > 0 && !IsJsWhitespace(lit[0])
    ensures SpacedLiteral(pad + (lit + u), lit) == Some(u)
  {
    LeadingSpaceOfPadded(pad, lit + u);
    assert (pad + (lit + u))[|pad|..] == lit + u;
    assert (lit + u)[..|lit|] == lit;
    assert (lit + u)[|lit|..] == u;
  }

  lemma QuotedAddressOf(address: string, rest: string)
    requires IsHexAddress(address) && |rest| > 0 && rest[0] == '"'
    ensures QuotedAddress(AfterSpace(" " + (Quote + (address + rest)))) == Some(address)
  {
    var t := Quote + (address + rest);
    LeadingSpaceOfPadded(" ", t);
    assert (" " + t)[1..] == t;
    assert t[1..43] == address;
    assert t[43] == '"';
  }

  lemma OneSpaceIsWhitespace()
    ensures AllWhitespace(" ")
  {
    assert IsJsWhitespace(" "[0]);
    assert " "[1..] == "";
  }

  lemma NoSpaceIsWhitespace()
    ensures AllWhitespace("")
  {
  }

  /** After the quoted id, an entry's text matches the rest of the pattern and yields the address. */
  lemma AfterKeyMatches(address: string, rest: string)
    requires IsHexAddress(address) && |rest| > 0 && rest[0] == '"'
    ensures MatchAfterKey(": { address: " + (Quote + (address + rest))) == Some(address)
  {
    var t4 := " " + (Quote + (address + rest));
    var t3 := " " + ("address:" + t4);
    var t2 := " " + ("{" + t3);
    assert ": { address: " + (Quote + (address + rest)) == "" + (":" + t2);
    NoSpaceIsWhitespace();
    OneSpaceIsWhitespace();
    SpacedLiteralOf("", ":", t2);
    SpacedLiteralOf(" ", "{", t3);
    SpacedLiteralOf(" ", "address:", t4);
    QuotedAddressOf(address, rest);
  }

  /** The pattern for `id` matches an entry for `id` and captures its address. */
  lemma EntryMatches(id: string, address: string, chainName: string, y: string)
    requires IsHexAddress(address)
    ensures MatchHere(EntryThen(id, address, chainName, y), id) == Some(address)
  {
    var rest := Quote + (", chainId: " + (id + (", chainName: " + (Quote + (chainName + (Quote + (" }" + y)))))));
    var after := ": { address: " + (Quote + (address + rest));
    var t := EntryThen(id, address, chainName, y);
    assert t == Quote + (id + (Quote + after));
    assert t[1..|id| + 1] == id && t[|id| + 1] == '"';
    assert t[|id| + 2..] == after;
    AfterKeyMatches(address, rest);
  }

  lemma SepoliaIdText()
    ensures DecimalString(SepoliaChainId) == "11155111"
  {
    assert ToDigits(1, 10) == "1";
    assert ToDigits(11, 10) == "11";
    assert ToDigits(111, 10) == "111";
    assert ToDigits(1115, 10) == "1115";
    assert ToDigits(11155, 10) == "11155";
    assert ToDigits(111551, 10) == "111551";
    assert ToDigits(1115511, 10) == "1115511";
    assert ToDigits(11155111, 10) == "11155111";
  }

  lemma HardhatIdText()
    ensures DecimalString(HardhatChainId) == "31337"
  {
    assert ToDigits(3, 10) == "3";
    assert ToDigits(31, 10) == "31";
    assert ToDigits(313, 10) == "313";
    assert ToDigits(3133, 10) == "3133";
    assert ToDigits(31337, 10) == "31337";
  }

  /** Reading Sepolia's address back from a generated table gives the address written, when it is a hex address. */
  lemma ReadsBackSepolia(sepolia: string, localhost: string)
    requires IsHexAddress(sepolia)
    ensures ReadPreviousAddress(Some(AddressesText(sepolia, localhost)), SepoliaChainId) == Some(sepolia)
  {
    SepoliaIdText();
    var rest := ",\n  " + EntryThen("31337", localhost, "hardhat", ",\n};\n");
    SkipQuoteFree(AddressesPrefix, EntryThen("11155111", sepolia, "sepolia", rest), "11155111");
    EntryMatches("11155111", sepolia, "sepolia", rest);
  }

  /** Reading the Hardhat node's address back gives the address written, when both addresses are hex addresses. */
  lemma ReadsBackHardhat(sepolia: string, localhost: string)
    requires IsHexAddress(sepolia) && IsHexAddress(localhost)
    ensures ReadPreviousAddress(Some(AddressesText(sepolia, localhost)), HardhatChainId) == Some(localhost)
  {
    HardhatIdText();
    var tail := EntryThen("31337", localhost, "hardhat", ",\n};\n");
    var middle := ",\n  " + tail;
    calc {
      Search(AddressesText(sepolia, localhost), "31337");
      { SkipQuoteFree(AddressesPrefix, EntryThen("11155111", sepolia, "sepolia", middle), "31337"); }
      Search(EntryThen("11155111", sepolia, "sepolia", middle), "31337");
      { SkipEntry("11155111", sepolia, "sepolia", middle, "31337"); }
      Search(middle, "31337");
      { SkipQuoteFree(",\n  ", tail, "31337"); }
      Search(tail, "31337");
      { EntryMatches("31337", localhost, "hardhat", ",\n};\n"); }
      Some(localhost);
    }
  }

  /** The output directory: file name to contents. */
  class OutputDir {
    var files: map<string, string>

    constructor (files: map<string, string>)
      ensures this.files == files
    {
      this.files := files;
    }

    /** The previous address file, if there is one. */
    function AddressFile(): Option<string>
      reads this
    {
      if AddressesFileName in files then Some(files[AddressesFileName]) else None
    }

    /** `fs.writeFileSync` of one file. */
    method Write(name: string, text: string)
      modifies this
      ensures files == old(files)[name := text]
    {
      files := files[name := text];
    }
  }

  /** The deployment record a generator reads for `chainName`. */
  function DeploymentFile(dir: string, chainName: string): string {
    dir + "/" + chainName + "/" + ContractName + ".json"
  }

  /**
   * `readDeployment(chainName)`: None when the file does not exist, the
   * parsed record or the parser's error otherwise.
   */
  function ReadDeployment(files: map<string, Outcome<Deployment, string>>, dir: string, chainName: string)
    : (r: Option<Outcome<Deployment, string>>)
    ensures r.Some? <==> DeploymentFile(dir, chainName) in files
  {
    if DeploymentFile(dir, chainName) in files then Some(files[DeploymentFile(dir, chainName)]) else None
  }

  /** `GENABI_ALLOW_MISMATCH`, trimmed, is exactly `"1"`; an unset variable reads as the empty string. */
  predicate MismatchFlagSet(env: Option<string>) {
    env.Some? && Trim(env.value) == "1"
  }

  /** The variable is set exactly when it is `1` with whitespace around it. */
  lemma MismatchFlagIsPaddedOne(env: Option<string>)
    ensures MismatchFlagSet(env) <==>
      env.Some? && exists a, b | AllWhitespace(a) && AllWhitespace(b) :: env.value == a + "1" + b
  {
    if env.Some? {
      TrimIsPadding(env.value, "1");
    }
  }

  /** Why a generator stops: no localhost deployment, an unparsable deployment file, or an ABI mismatch. */
  datatype Failure = NoLocalhost | Unparsable(error: string) | AbiMismatch

  /** The two generated texts, and whether they were generated over an ABI mismatch. */
  datatype Output = Output(abiText: string, addressesText: string, mismatchAllowed: bool)

  /**
   * The generators' common decision: fail without a (parsable) localhost
   * deployment, read the Sepolia deployment or fall back, and refuse an ABI
   * mismatch unless it is allowed; otherwise emit the localhost ABI and both
   * addresses.
   */
  function Plan(local: Option<Outcome<Deployment, string>>, sepolia: Option<Outcome<Deployment, string>>,
                previousFile: Option<string>, allowMismatch: bool, codec: JsonCodec, pretty: Json -> string)
    : (r: Outcome<Output, Failure>)
    ensures local.None? ==> r == Threw(NoLocalhost)
    ensures local.Some? && local.value.Threw? ==> r == Threw(Unparsable(local.value.error))
    ensures local.Some? && local.value.Ok? && sepolia.Some? && sepolia.value.Threw? ==>
      r == Threw(Unparsable(sepolia.value.error))
    ensures r.Ok? ==> local.Some? && local.value.Ok? && (sepolia.Some? ==> sepolia.value.Ok?)
    ensures r.Ok? ==> r.value.abiText == AbiText(pretty, local.value.value.abi)
    ensures r.Ok? ==>
      r.value.addressesText ==
      AddressesText(SepoliaEntry(sepolia, local.value.value, previousFile).address, local.value.value.address)
    ensures r.Ok? ==>
      (r.value.mismatchAllowed <==> HasMismatch(codec, local.value.value, SepoliaEntry(sepolia, local.value.value, previousFile)))
    ensures r == Threw(AbiMismatch) <==>
      && local.Some? && local.value.Ok? && sepolia.Some? && sepolia.value.Ok?
      && HasMismatch(codec, local.value.value, sepolia.value.value) && !allowMismatch
    ensures local.Some? && local.value.Ok? && (sepolia.None? || sepolia.value.Ok?) && allowMismatch ==> r.Ok?
  {
    match local
    case None => Threw(NoLocalhost)
    case Some(Threw(e)) => Threw(Unparsable(e))
    case Some(Ok(l)) =>
      match sepolia
      case Some(Threw(e)) => Threw(Unparsable(e))
      case Some(Ok(d)) => Compare(l, d, allowMismatch, codec, pretty)
      case None => Compare(l, SepoliaOrFallback(None, l, ReadPreviousAddress(previousFile, SepoliaChainId)),
                           allowMismatch, codec, pretty)
  }

  /** The Sepolia entry a generator uses: the parsed deployment, or the fallback when there is no file. */
  function SepoliaEntry(sepolia: Option<Outcome<Deployment, string>>, local: Deployment, previousFile: Option<string>)
    : (d: Deployment)
    requires sepolia.None? || sepolia.value.Ok?
    ensures sepolia.Some? ==> d == sepolia.value.value
    ensures sepolia.None? ==> d == SepoliaOrFallback(None, local, ReadPreviousAddress(previousFile, SepoliaChainId))
  {
    if sepolia.Some? then sepolia.value.value
    else SepoliaOrFallback(None, local, ReadPreviousAddress(previousFile, SepoliaChainId))
  }

  /** Refuse an ABI mismatch unless allowed; otherwise emit the localhost ABI and both addresses. */
  function Compare(local: Deployment, sepolia: Deployment, allowMismatch: bool, codec: JsonCodec,
                   pretty: Json -> string): (r: Outcome<Output, Failure>)
    ensures r.Threw? <==> HasMismatch(codec, local, sepolia) && !allowMismatch
    ensures r.Threw? ==> r.error == AbiMismatch
    ensures r.Ok? ==> r.value.abiText == AbiText(pretty, local.abi)
    ensures r.Ok? ==> r.value.addressesText == AddressesText(sepolia.address, local.address)
    ensures r.Ok? ==> (r.value.mismatchAllowed <==> HasMismatch(codec, local, sepolia))
  {
    var mismatch := HasMismatch(codec, local, sepolia);
    if mismatch && !allowMismatch then Threw(AbiMismatch)
    else Ok(Output(AbiText(pretty, local.abi), AddressesText(sepolia.address, local.address), mismatch))
  }

  /**
   * Regenerating without a Sepolia deployment keeps the Sepolia address of the
   * previous table, and a fresh table records the zero address.
   */
  lemma RegenerationKeepsSepoliaAddress(local: Deployment, previousSepolia: string, previousLocal: string,
                                        allowMismatch: bool, codec: JsonCodec, pretty: Json -> string)
    requires IsHexAddress(previousSepolia)
    ensures var r := Plan(Some(Ok(local)), None, Some(AddressesText(previousSepolia, previousLocal)),
                          allowMismatch, codec, pretty);
            r.Ok? && r.value.addressesText == AddressesText(previousSepolia, local.address)
    ensures var r := Plan(Some(Ok(local)), None, None, allowMismatch, codec, pretty);
            r.Ok? && r.value.addressesText == AddressesText(ZeroAddress, local.address)
  {
    ReadsBackSepolia(previousSepolia, previousLocal);
  }
}
