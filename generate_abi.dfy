/**
 * The repository-level generator: reads the localhost and Sepolia deployment
 * records under `deployments/`, and writes the ABI module and the address
 * table into the frontend's `src/abi` directory. Any failure is thrown, and
 * the top-level handler reports it and exits with status 1.
 */
module GenerateAbi {
  import opened Wrappers
  import opened JsText
  import opened Json
  import opened AddressTable

  /** The deployments directory, relative to the repository root. */
  const DeploymentsDir: string := "deployments"

  const NoLocalhostMessage: string := "No localhost deployment found. Run `npx hardhat deploy --network localhost`."
  const AbiMismatchMessage: string := "ABI mismatch between localhost and sepolia. Please redeploy to keep ABI in sync."
  const MismatchWarning: string :=
    "[genabi] ABI mismatch detected. Proceeding with localhost ABI due to GENABI_ALLOW_MISMATCH=1."

  /** A mismatch is allowed only through `GENABI_ALLOW_MISMATCH`. */
  predicate AllowMismatch(env: Option<string>) {
    MismatchFlagSet(env)
  }

  /** What the top-level handler prints for a failure. */
  function Message(f: Failure): string {
    match f
    case NoLocalhost => NoLocalhostMessage
    case Unparsable(e) => e
    case AbiMismatch => AbiMismatchMessage
  }

  /**
   * `run()` with its handler: on success both modules are written (the ABI
   * module first) and a mismatch that was allowed is warned about; on failure
   * nothing is written, the error is printed and the exit status is 1.
   */
  method Run(out: OutputDir, files: map<string, Outcome<Deployment, string>>, allowEnv: Option<string>,
             codec: JsonCodec, pretty: Json -> string)
    returns (exitCode: nat, stderr: seq<string>)
    modifies out
    ensures var r := Plan(ReadDeployment(files, DeploymentsDir, "localhost"), ReadDeployment(files, DeploymentsDir, "sepolia"),
                          old(out.AddressFile()), AllowMismatch(allowEnv), codec, pretty);
            && (r.Ok? ==> exitCode == 0
                          && out.files == old(out.files)[AbiFileName := r.value.abiText][AddressesFileName := r.value.addressesText]
                          && stderr == (if r.value.mismatchAllowed then [MismatchWarning] else []))
            && (r.Threw? ==> exitCode == 1 && out.files == old(out.files) && stderr == [Message(r.error)])
  {
    var allowMismatch := AllowMismatch(allowEnv);
    var local := ReadDeployment(files, DeploymentsDir, "localhost");
    if local.None? {
      return 1, [NoLocalhostMessage];
    }
    if local.value.Threw? {
      return 1, [local.value.error];
    }
    var l := local.value.value;
    var sepoliaDeployed := ReadDeployment(files, DeploymentsDir, "sepolia");
    if sepoliaDeployed.Some? && sepoliaDeployed.value.Threw? {
      return 1, [sepoliaDeployed.value.error];
    }
    var sepolia := if sepoliaDeployed.Some? then sepoliaDeployed.value.value
                   else SepoliaOrFallback(None, l, ReadPreviousAddress(out.AddressFile(), SepoliaChainId));
    stderr := [];
    if HasMismatch(codec, l, sepolia) {
      if !allowMismatch {
        return 1, [AbiMismatchMessage];
      }
      stderr := [MismatchWarning];
    }
    out.Write(AbiFileName, AbiText(pretty, l.abi));
    out.Write(AddressesFileName, AddressesText(sepolia.address, l.address));
    exitCode := 0;
  }
}
