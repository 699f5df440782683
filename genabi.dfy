/**
 * The frontend's generator script: the same decision as the repository-level
 * generator, run as top-level steps. It looks for the deployments directory
 * among several relative locations, allows an ABI mismatch outside
 * production, retries the localhost read after a (no-op) auto-deploy, and
 * exits with status 1 instead of throwing.
 */
module GenAbi {
  import opened Wrappers
  import opened Json
  import opened AddressTable

  /** The candidate locations of the deployments directory, resolved against the working directory. */
  const CandidateDirs: seq<string> := ["../deployments", "../../deployments", "../deployments", "../../deployments"]
  const DefaultDeploymentsDir: string := "../deployments"

  const MismatchMessage: string := "Deployments on localhost and Sepolia differ. Consider re-deploying to keep ABI in sync."
  const MismatchHint: string := "Set GENABI_ALLOW_MISMATCH=1 to proceed with localhost ABI."
  const MismatchWarning: string :=
    "[genabi] ABI mismatch detected. Proceeding with localhost ABI (development mode or GENABI_ALLOW_MISMATCH=1)."

  /** `candidates.find(exists)`: the first candidate that exists. */
  function FirstExisting(candidates: seq<string>, existing: set<string>): (r: Option<string>)
    ensures r.Some? <==> exists i | 0 <= i < |candidates| :: candidates[i] in existing
    ensures r.Some? ==> r.value in existing
    ensures r.Some? ==>
      exists i | 0 <= i < |candidates| :: candidates[i] == r.value && forall j | 0 <= j < i :: candidates[j] !in existing
  {
    if |candidates| == 0 then None
    else if candidates[0] in existing then Some(candidates[0])
    else
      var r := FirstExisting(candidates[1..], existing);
      assert forall i | 1 <= i < |candidates| :: candidates[i] == candidates[1..][i - 1];
      if r.Some? then
        var k :| 0 <= k < |candidates[1..]| && candidates[1..][k] == r.value
                 && forall j | 0 <= j < k :: candidates[1..][j] !in existing;
        assert candidates[k + 1] == r.value;
        r
      else r
  }

  /** `deploymentsDir`: the first existing candidate, else `../deployments`. */
  function DeploymentsDirectory(existing: set<string>): string {
    var found := FirstExisting(CandidateDirs, existing);
    if found.Some? then found.value else DefaultDeploymentsDir
  }

  /**
   * The directory is `../deployments` when it exists, else `../../deployments`
   * when that exists, else `../deployments`: the repeated candidates are never
   * reached.
   */
  lemma DeploymentsDirectoryChoice(existing: set<string>)
    ensures "../deployments" in existing ==> DeploymentsDirectory(existing) == "../deployments"
    ensures "../deployments" !in existing && "../../deployments" in existing ==>
      DeploymentsDirectory(existing) == "../../deployments"
    ensures "../deployments" !in existing && "../../deployments" !in existing ==>
      DeploymentsDirectory(existing) == "../deployments"
  {
    var found := FirstExisting(CandidateDirs, existing);
    if "../../deployments" in existing {
      assert CandidateDirs[1] in existing;
    }
    if found.Some? {
      var i :| 0 <= i < |CandidateDirs| && CandidateDirs[i] == found.value
               && forall j | 0 <= j < i :: CandidateDirs[j] !in existing;
      if "../deployments" in existing {
        assert CandidateDirs[0] in existing;
        assert i == 0;
      } else if "../../deployments" in existing {
        assert CandidateDirs[0] !in existing;
        assert i != 0;
      }
    }
  }

  /** Outside production (an unset `NODE_ENV` included) a mismatch is always allowed. */
  predicate AllowMismatch(nodeEnv: Option<string>, allowEnv: Option<string>) {
    nodeEnv != Some("production") || MismatchFlagSet(allowEnv)
  }

  /** What the script prints to standard error when it stops. */
  function Messages(dir: string, f: Failure): seq<string> {
    match f
    case NoLocalhost => ["Unable to locate " + DeploymentFile(dir, "localhost") + ". Run `npm run deploy` first."]
    case Unparsable(e) => [e]
    case AbiMismatch => [MismatchMessage, MismatchHint]
  }

  /** `deployOnHardhatNode`: on every platform it does nothing. */
  method DeployOnHardhatNode(platform: string)
  {
  }

  /**
   * The script's top-level steps. The localhost read is retried after the
   * auto-deploy; since that changes nothing, the outcome is the decision over
   * a single read: on success both modules are written and an allowed
   * mismatch is warned about, on failure nothing is written and the exit
   * status is 1.
   */
  method Run(out: OutputDir, existingDirs: set<string>, files: map<string, Outcome<Deployment, string>>,
             platform: string, nodeEnv: Option<string>, allowEnv: Option<string>,
             codec: JsonCodec, pretty: Json -> string)
    returns (exitCode: nat, stderr: seq<string>)
    modifies out
    ensures var dir := DeploymentsDirectory(existingDirs);
            var r := Plan(ReadDeployment(files, dir, "localhost"), ReadDeployment(files, dir, "sepolia"),
                          old(out.AddressFile()), AllowMismatch(nodeEnv, allowEnv), codec, pretty);
            && (r.Ok? ==> exitCode == 0
                          && out.files == old(out.files)[AbiFileName := r.value.abiText][AddressesFileName := r.value.addressesText]
                          && stderr == (if r.value.mismatchAllowed then [MismatchWarning] else []))
            && (r.Threw? ==> exitCode == 1 && out.files == old(out.files) && stderr == Messages(dir, r.error))
  {
    var dir := DeploymentsDirectory(existingDirs);
    var allowMismatch := AllowMismatch(nodeEnv, allowEnv);
    var local := ReadDeployment(files, dir, "localhost");
    if local.None? {
      DeployOnHardhatNode(platform);
      local := ReadDeployment(files, dir, "localhost");
    }
    if local.None? {
      return 1, Messages(dir, NoLocalhost);
    }
    if local.value.Threw? {
      return 1, [local.value.error];
    }
    var l := local.value.value;
    var sepoliaDeployed := ReadDeployment(files, dir, "sepolia");
    if sepoliaDeployed.Some? && sepoliaDeployed.value.Threw? {
      return 1, [sepoliaDeployed.value.error];
    }
    var sepolia := if sepoliaDeployed.Some? then sepoliaDeployed.value.value
                   else SepoliaOrFallback(None, l, ReadPreviousAddress(out.AddressFile(), SepoliaChainId));
    stderr := [];
    if HasMismatch(codec, l, sepolia) {
      if !allowMismatch {
        return 1, [MismatchMessage, MismatchHint];
      }
      stderr := [MismatchWarning];
    }
    out.Write(AbiFileName, AbiText(pretty, l.abi));
    out.Write(AddressesFileName, AddressesText(sepolia.address, l.address));
    exitCode := 0;
  }

  /** Outside production the script never stops on a mismatch: it stops only without a parsable localhost or Sepolia record. */
  lemma DevelopmentNeverRejectsMismatch(local: Option<Outcome<Deployment, string>>,
                                        sepolia: Option<Outcome<Deployment, string>>, previousFile: Option<string>,
                                        nodeEnv: Option<string>, allowEnv: Option<string>,
                                        codec: JsonCodec, pretty: Json -> string)
    requires nodeEnv != Some("production")
    ensures Plan(local, sepolia, previousFile, AllowMismatch(nodeEnv, allowEnv), codec, pretty) != Threw(AbiMismatch)
  {
  }
}
