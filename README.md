# FHE voting dApp frontend core, modelled in Dafny

This project models the client-side core of a confidential voting application
built on fully homomorphic encryption (FHE). Ballots are encrypted in the
browser, tallies are kept encrypted on chain, and a user decrypts them only
after signing an EIP-712 authorisation. The model covers these parts:

- **Creating an FHE instance** (`FhevmInstance`). The provider's chain id is
  read: `getNetwork` for an RPC URL, `eth_chainId` parsed as hex for a wallet.
  The mock table then gives an RPC URL, probed for a Hardhat node that
  publishes relayer metadata, and such a node gets a mock instance. Every
  other case goes through the relayer SDK. The SDK is loaded when the page has
  none and initialised when not yet initialised. The ACL address is checked,
  the cached public key and parameters are read, the instance is created, the
  cache is refreshed, and the abort signal is checked once, at the end. Status
  notifications are emitted along the way.
- **The `useFhevm` hook** (`UseFhevm`): a class whose `refresh` aborts the
  request in flight, clears the state and starts a new creation. The hook's
  `.then`/`.catch` handlers settle the outcome.
- **The public-key cache** (`PublicKeyStorage`): two IndexedDB object stores
  keyed by ACL address.
- **Namespaced string storage** (`StringStorage`): a view of `localStorage`
  under `ns:key`.
- **Decryption signatures** (`DecryptionSignature`): a 365-day validity
  window, JSON serialisation, and load and save through the string storage.
- **The `useFHEVoteApp` hook** (`VoteApp`): poll creation and deletion with
  gas estimation plus a 20% margin and a fixed fallback, one-hot encrypted
  ballots, the public-decryption grant, and decryption of results with a
  signature cached per contract, user and poll.
- **The two ABI generator scripts** (`AddressTable`, `GenerateAbi`, `GenAbi`).
  They read the localhost and Sepolia deployment records, refuse (or, when
  allowed, warn about) an ABI mismatch, and fall back to the Sepolia address
  recorded in the previous address table. They then write the ABI module and
  the address table.

Calls to the outside world are parameters of the model:

- the wallet, the chain, the SDK, the mock module and IndexedDB;
- `JSON.stringify`/`JSON.parse` and the pretty-printer;
- the clock.

Each such call returns a value or throws, as an `Outcome`. State that the
source mutates becomes a class with `modifies` clauses:

- the hook's refs and React state;
- `window.relayerSDK`;
- `localStorage`;
- the IndexedDB stores;
- the output directory.

## Model

Source paths are relative to the repository root.

| member | source | states |
|---|---|---|
| JsText.TrimIsPadding | scripts/generate-abi.ts:10 | `trim()` returns `t` (a text with no whitespace at either end) exactly when the input is `t` with JavaScript whitespace on both sides |
| JsText.DecimalStringInjective | frontend/src/hooks/useFHEVoteApp.tsx:177 | two non-negative integers render to the same decimal text only when they are equal |
| StringStorage.GenericStringStorage.constructor | frontend/src/fhevm/GenericStringStorage.ts:2 | the storage keeps its namespace and the page's localStorage (null without a window) |
| StringStorage.GenericStringStorage.GetItem | frontend/src/fhevm/GenericStringStorage.ts:3-6 | without a window the result is null; otherwise it is what localStorage holds under `ns:key` |
| StringStorage.GenericStringStorage.SetItem | frontend/src/fhevm/GenericStringStorage.ts:7-10 | without a window nothing changes; otherwise exactly the slot `ns:key` is set to the value |
| StringStorage.GetAfterSet | frontend/src/fhevm/GenericStringStorage.ts:3-10 | a set item reads back, and a second set of the same item overwrites the first |
| StringStorage.SetChangesOnlyItsSlot | frontend/src/fhevm/GenericStringStorage.ts:3-10 | for every (namespace, key) pair that did not already hold the value, a set becomes visible through it exactly when the two share a physical key; a pair with a different physical key reads as before |
| StringStorage.NamespacesCanCollide | frontend/src/fhevm/GenericStringStorage.ts:5 | namespaces are not escaped: for every namespace `ns` and strings `a`, `b`, key `a:b` under `ns` and key `b` under the different namespace `ns:a` share a slot |
| StringStorage.ColonFreeNamespacesAreSeparate | frontend/src/fhevm/GenericStringStorage.ts:5 | with colon-free namespaces, two items share a slot if and only if namespace and key both agree |
| StringStorage.SameNamespaceSeparate | frontend/src/fhevm/GenericStringStorage.ts:5 | within one namespace, distinct keys never share a slot |
| StringStorage.OnlyOwnSlotChanges | frontend/src/fhevm/GenericStringStorage.ts:7-10 | after at most one set of item `key`, every other item of the namespace reads as before |
| StringStorage.ApplicationNamespacesDisjoint | frontend/src/fhevm/GenericStringStorage.ts:2 | the default namespace `fhevm` and the vote app's `fhevm-vote` never share a slot |
| PublicKeyStorage.KeyDatabase.constructor | frontend/src/fhevm/internal/PublicKeyStorage.ts:13-25 | a new database has both object stores, empty |
| PublicKeyStorage.Get | frontend/src/fhevm/internal/PublicKeyStorage.ts:27-44 | without a database the result has no key and null parameters; otherwise the key appears exactly when cached for the ACL address, and so do the parameters |
| PublicKeyStorage.Set | frontend/src/fhevm/internal/PublicKeyStorage.ts:46-55 | without a database nothing changes; otherwise each non-null argument is put into its own store under the ACL address, and a null one leaves its store unchanged |
| PublicKeyStorage.GetAfterSet | frontend/src/fhevm/internal/PublicKeyStorage.ts:27-55 | a read after a set returns each value that was set, keeps what was cached for a null argument, and is unchanged for every other address |
| PublicKeyStorage.UnknownAddress | frontend/src/fhevm/internal/PublicKeyStorage.ts:37-43 | an address cached in neither store reads as no key and null parameters |
| PublicKeyStorage.StoresAreIndependent | frontend/src/fhevm/internal/PublicKeyStorage.ts:53-54 | for all store contents, the key read for an address depends only on the key store and the parameters only on the parameter store |
| DecryptionSignature.IsValidInSeconds | frontend/src/fhevm/FhevmDecryptionSignature.ts:33-35 | the integer validity test agrees with the source's real-valued `Date.now() / 1000 < start + days * 86400` |
| DecryptionSignature.ValidUntilExpiry | frontend/src/fhevm/FhevmDecryptionSignature.ts:33-35 | a signature is valid up to the last millisecond before its expiry second, and invalid from then on |
| DecryptionSignature.New | frontend/src/fhevm/FhevmDecryptionSignature.ts:37-68 | a signature exists exactly when the wallet signs; it covers 365 days from the current second, keeps the keys, the user and the contracts, holds the wallet's signature over the SDK's EIP-712 request, and is valid when created |
| DecryptionSignature.AddressesRoundTrip | frontend/src/fhevm/FhevmDecryptionSignature.ts:70-85 | the contract list survives serialisation as a JSON array |
| DecryptionSignature.JsonRoundTrip | frontend/src/fhevm/FhevmDecryptionSignature.ts:70-85 | `fromJSON(toJSON(s))` gives back all eight fields of `s` |
| DecryptionSignature.Decode | frontend/src/fhevm/FhevmDecryptionSignature.ts:91-100 | a decoded signature is valid now, and comes from a present, non-empty item that parses to it; conversely, such an item whose signature is valid now is returned |
| DecryptionSignature.Save | frontend/src/fhevm/FhevmDecryptionSignature.ts:87-89 | with a window, the item `key` holds the JSON text of the record, and nothing else changes |
| DecryptionSignature.Load | frontend/src/fhevm/FhevmDecryptionSignature.ts:91-100 | null without a window; otherwise the decoding of the stored item |
| DecryptionSignature.SaveThenLoad | frontend/src/fhevm/FhevmDecryptionSignature.ts:87-100 | `load` after `save` returns the saved signature while it is valid and null afterwards, for a codec that reads back what it writes |
| DecryptionSignature.NewSignatureReloads | frontend/src/fhevm/FhevmDecryptionSignature.ts:37-100 | a new signature, once saved, loads again until 365 days after the second it was created in, and never afterwards |
| FhevmInstance.AbortController.constructor | frontend/src/fhevm/useFhevm.tsx:33 | a new controller is not aborted |
| FhevmInstance.AbortController.Abort | frontend/src/fhevm/useFhevm.tsx:22-24 | the controller is aborted afterwards |
| FhevmInstance.ParseHexInt | frontend/src/fhevm/internal/fhevm.ts:17 | NaN exactly when no hex digit follows the whitespace, sign and `0x`; the value is non-negative without a minus sign |
| FhevmInstance.ChainIdHexRoundTrip | frontend/src/fhevm/internal/fhevm.ts:16-17 | a chain id that a wallet reports as `0x` plus its hex digits is read back exactly |
| FhevmInstance.MockTable | frontend/src/fhevm/internal/fhevm.ts:53 | the table holds 31337 and exactly the caller's chains; the caller's URLs win, and 31337 maps to `http://localhost:8545` unless the caller overrides it |
| FhevmInstance.MockRpcUrl | frontend/src/fhevm/internal/fhevm.ts:54 | a URL provider is probed at its own URL; a wallet is probed at the mock table's URL for its chain, and not at all when the chain is unlisted or NaN |
| FhevmInstance.HardhatTestFindsAnyCase | frontend/src/fhevm/internal/fhevm.ts:31 | a client version is recognised exactly when it is a string containing `hardhat` in any mix of upper and lower case at some position; a non-string reply is never recognised |
| FhevmInstance.TryFetchMetadata | frontend/src/fhevm/internal/fhevm.ts:29-40 | a failing client-version call propagates; metadata is returned exactly when the client is Hardhat and the metadata call succeeds, and it is that call's result |
| FhevmInstance.MockPath | frontend/src/fhevm/internal/fhevm.ts:52-67 | a mock instance is returned exactly when the chain has a non-empty mock RPC URL, the node reports a Hardhat client version, relayer metadata is truthy and the mock module builds one; the path throws exactly when the chain id fails, or the node is probed and `web3_clientVersion` fails, and then with that error; a failing mock module never stops creation |
| FhevmInstance.UnlistedChainSkipsMock | frontend/src/fhevm/internal/fhevm.ts:52-56 | a wallet whose chain is NaN or not in the mock table goes straight to the SDK path |
| FhevmInstance.SdkNotificationsInOrder | frontend/src/fhevm/internal/fhevm.ts:69-96 | notifications come in declaration order without repeats, each completion after its start; loading is announced exactly when the page had no SDK, initialising exactly when initSDK runs, creating exactly when the SDK is ready and the ACL address valid |
| FhevmInstance.SdkResult | frontend/src/fhevm/internal/fhevm.ts:69-103 | the SDK path succeeds exactly when loading and initialising succeed, the ACL address is valid, the SDK creates an instance and the signal is not aborted; each failure is reported as the first failing step's error, and a `createInstance` failure is returned as itself |
| FhevmInstance.LoadAndInitSdk | frontend/src/fhevm/internal/fhevm.ts:69-82 | the script is loaded only when absent, initSDK runs once exactly when the SDK is not initialised, the flags record what succeeded, and the failure (if any) is the first one |
| FhevmInstance.NotificationsAfterReady | frontend/src/fhevm/internal/fhevm.ts:84-96 | once the SDK is ready, a valid ACL address adds exactly the final `creating` notification |
| FhevmInstance.CreateAndCache | frontend/src/fhevm/internal/fhevm.ts:87-103 | `creating` is announced, the SDK gets the cached key material, the cache is refreshed whenever an instance was created (aborted or not), and an abort after creation discards the instance |
| FhevmInstance.CreateWithSdk | frontend/src/fhevm/internal/fhevm.ts:69-103 | outside a browser, the first test of `window` throws with nothing announced or changed; otherwise the whole SDK path: notifications, initSDK calls, window flags, the result, and the cache refreshed exactly when the SDK created an instance |
| FhevmInstance.CreateFhevmInstance | frontend/src/fhevm/internal/fhevm.ts:42-104 | a mock-path failure or mock instance ends creation with the window and cache untouched; otherwise, outside a browser, creation throws at the test of `window` with the window untouched, and in a browser it has the SDK path's effect |
| UseFhevm.FhevmHook.constructor | frontend/src/fhevm/useFhevm.tsx:15-19 | the hook starts idle with no instance, no error and no controller |
| UseFhevm.FhevmHook.Refresh | frontend/src/fhevm/useFhevm.tsx:21-40 | the previous controller is aborted and dropped, instance and error are cleared; the status is `loading` with a fresh controller exactly when there is a truthy provider and the hook is enabled, and `idle` otherwise |
| UseFhevm.FhevmHook.SettleAsWritten | frontend/src/fhevm/useFhevm.tsx:41-50 | as written: an outcome is dropped only if the controller held now is aborted, so a hook that has kept its invariant applies every outcome |
| UseFhevm.FhevmHook.Settle | frontend/src/fhevm/useFhevm.tsx:41-50 | with the request's own controller checked: the outcome of an aborted request is dropped, any other applied |
| UseFhevm.FhevmHook.Apply | frontend/src/fhevm/useFhevm.tsx:43-49 | an instance makes the hook ready with that instance; a failure makes it fail with that error |
| UseFhevm.StaleRejectionAsWritten | frontend/src/fhevm/useFhevm.tsx:21-50 | a superseded creation's abort rejection, arriving after the current creation succeeded, leaves the hook in `error` |
| UseFhevm.StaleRejectionDropped | frontend/src/fhevm/useFhevm.tsx:21-50 | with the corrected guard the same sequence leaves the hook ready |
| UseFhevm.StaleInstanceAsWritten | frontend/src/fhevm/useFhevm.tsx:21-50 | a superseded creation's instance (built for the previous provider) is installed as ready |
| UseFhevm.StaleInstanceDropped | frontend/src/fhevm/useFhevm.tsx:21-50 | with the corrected guard that instance is dropped and the hook keeps loading |
| VoteApp.Reason | frontend/src/hooks/useFHEVoteApp.tsx:73 | the reason is never empty: the short message if present, else the message, else exactly `Transaction failed` |
| VoteApp.GasWithMargin | frontend/src/hooks/useFHEVoteApp.tsx:63 | the limit is at least the estimate and is the floor of 1.2 times it |
| VoteApp.GasWithMarginIsFloor | frontend/src/hooks/useFHEVoteApp.tsx:63 | no other number meets the floor bounds: the margin is uniquely determined |
| VoteApp.EstimateAsWritten | frontend/src/hooks/useFHEVoteApp.tsx:62 | reached through `(c as any).estimateGas`, every estimate throws; sending, waiting and reads are unchanged |
| VoteApp.GasAsWrittenIsFallback | frontend/src/hooks/useFHEVoteApp.tsx:60-68 | as written, the only limit tried is the fallback, so the single submission carries it |
| VoteApp.GasTried | frontend/src/hooks/useFHEVoteApp.tsx:60-68 | the first limit is the estimate plus 20%, or the fallback when estimation throws; a second send with the fallback happens exactly when estimation succeeded and the first send threw |
| VoteApp.OneHotShape | frontend/src/hooks/useFHEVoteApp.tsx:92-94 | a ballot has one value per option, 1 at the chosen option and 0 elsewhere |
| VoteApp.OneHotSum | frontend/src/hooks/useFHEVoteApp.tsx:92-94 | a ballot carries exactly one vote when the choice is in range, and none otherwise |
| VoteApp.StorageKeySeparatesPolls | frontend/src/hooks/useFHEVoteApp.tsx:177 | for one contract and user, the signature keys of two polls are equal if and only if the polls are |
| VoteApp.ResultsFor | frontend/src/hooks/useFHEVoteApp.tsx:202 | one result per handle, in order: the decrypted value, or 0 where nothing was decrypted |
| VoteApp.RequestFor | frontend/src/hooks/useFHEVoteApp.tsx:191-200 | the request pairs every handle, in order, with the contract address, and carries the signature's keys, signature, contract list, user, start time and duration unchanged |
| VoteApp.DecryptHandles | frontend/src/hooks/useFHEVoteApp.tsx:191-202 | when `userDecrypt` of the request replies, the results are that reply read per handle; when it throws, its error is returned |
| VoteApp.TallyPerOption | frontend/src/hooks/useFHEVoteApp.tsx:171-202 | option `j`'s result is the decrypted value of the handle `getEncryptedCount(pollId, j)` returned, or 0 when the reply lacks it |
| VoteApp.EncryptedInput.constructor | frontend/src/hooks/useFHEVoteApp.tsx:91 | the input is bound to the contract and user and holds no values |
| VoteApp.EncryptedInput.Add32 | frontend/src/hooks/useFHEVoteApp.tsx:93 | the value is appended |
| VoteApp.VoteHook.constructor | frontend/src/hooks/useFHEVoteApp.tsx:16-22 | idle, no message, no cached signer; the storage uses the `fhevm-vote` namespace |
| VoteApp.VoteHook.GetSigner | frontend/src/hooks/useFHEVoteApp.tsx:24-29 | undefined without a provider; the cached signer when there is one; otherwise exactly one wallet request, whose signer is cached and whose failure propagates |
| VoteApp.VoteHook.GetContract | frontend/src/hooks/useFHEVoteApp.tsx:31-38 | undefined without a contract address or provider; otherwise a contract, fetching the signer only when asked to |
| VoteApp.VoteHook.SendWithGasFallback | frontend/src/hooks/useFHEVoteApp.tsx:58-69 | the transactions sent are those of the gas plan, and the outcome is the last one's confirmation or error |
| VoteApp.VoteHook.CreatePoll | frontend/src/hooks/useFHEVoteApp.tsx:40-81 | the guards set their messages and send nothing; otherwise the gas plan is sent, the result is true exactly when the transaction was mined, the message reports success or the reason, and the busy flag is cleared; the no-signer message is never shown; the signer is fetched exactly as `getSigner` does (one wallet request unless one is cached, and the cache then holds it) once the guards pass, and untouched before |
| VoteApp.VoteHook.Vote | frontend/src/hooks/useFHEVoteApp.tsx:83-107 | without an instance nothing happens; otherwise the one-hot ballot over the options is encrypted for the contract and user, and only an encrypted ballot is sent; the message reports success or the reason, and the busy flag is cleared; with an instance and a provider the signer is fetched once (the second `getSigner` hits the cache), otherwise the cache is untouched |
| VoteApp.VoteHook.CastBallot | frontend/src/hooks/useFHEVoteApp.tsx:89-104 | the ballot has `optionCount` values with 1 exactly at the chosen option, is encrypted for the contract and user, and is sent without a gas limit exactly when encryption succeeds; the message reports the outcome, the busy flag is cleared, and the signer cache is untouched |
| VoteApp.VoteHook.RequestPublicResultsAccess | frontend/src/hooks/useFHEVoteApp.tsx:109-123 | without a contract nothing happens; otherwise one grant is sent, a failure (of the signer or of the grant) propagates with the message unchanged, and success sets its message; the signer is fetched exactly as `getSigner` does (one wallet request unless one is cached, and the cache then holds it) once the guards pass, and untouched before |
| VoteApp.VoteHook.DeletePoll | frontend/src/hooks/useFHEVoteApp.tsx:125-162 | missing address, missing provider and an ABI without `deletePoll` each set their message and send nothing; otherwise the gas plan with a 300000 fallback, as for poll creation; the signer is fetched exactly as `getSigner` does (one wallet request unless one is cached, and the cache then holds it) once the guards pass, and untouched before |
| VoteApp.VoteHook.ReadHandles | frontend/src/hooks/useFHEVoteApp.tsx:171-175 | succeeds exactly when every option's handle is read, giving them in option order; otherwise some read failed |
| VoteApp.EntriesAfterSigning | frontend/src/hooks/useFHEVoteApp.tsx:177-189 | the storage after obtaining a signature: the poll's slot holds an item whenever a signature was obtained, and nothing changes when none was |
| VoteApp.SignatureReused | frontend/src/hooks/useFHEVoteApp.tsx:177-189 | a signature obtained for a poll is loaded back by a later decryption while it stays valid, whether it was stored before or newly signed and saved (for a codec that reads back what it wrote) |
| VoteApp.SignatureFor | frontend/src/hooks/useFHEVoteApp.tsx:178-189 | the signature decryption uses, the stored one if it loads or else a newly signed one, is valid now |
| VoteApp.VoteHook.ObtainSignature | frontend/src/hooks/useFHEVoteApp.tsx:178-189 | a stored valid signature is reused with storage untouched; otherwise a new one is signed and saved under the key, or the refusal propagates with storage untouched; the result is always valid now, and it is the signature `SignatureFor` names for the item stored under the key (a refusal exactly when that is none); the storage afterwards is `EntriesAfterSigning` of the storage before |
| VoteApp.VoteHook.DecryptFor | frontend/src/hooks/useFHEVoteApp.tsx:171-202 | decryption succeeds exactly when every handle read succeeds, a signature is obtained and `userDecrypt` replies; the results are then that reply read per handle, one per option; only the poll's own signature slot can change, it is untouched after a failed read and otherwise left as obtaining the signature leaves it, and it holds an item after a success |
| VoteApp.VoteHook.DecryptResults | frontend/src/hooks/useFHEVoteApp.tsx:164-205 | `[]` without an instance, address or contract; a signer failure propagates; with a signer, decryption succeeds exactly when every handle read succeeds, a signature for that signer is obtained and `userDecrypt` replies, and the results are that reply read per handle, one per option; no transaction is sent; only the poll's own signature slot for that signer's address can change, as for DecryptFor, and nothing changes on the other paths; the signer is fetched as `getSigner` does once the guards pass |
| AddressTable.SepoliaOrFallback | scripts/generate-abi.ts:38 | the Sepolia record when there is one; otherwise the localhost ABI with the previously recorded address, or else the zero address |
| AddressTable.FallbackNeverMismatches | scripts/generate-abi.ts:38-40 | without a Sepolia record the ABIs never disagree |
| AddressTable.Expect | scripts/generate-abi.ts:19 | what remains after a literal is the text minus that literal |
| AddressTable.MatchHere | scripts/generate-abi.ts:19 | a match is the quoted chain id followed by `:` and optional spaces, then a quoted `0x` plus 40-hex-digit address, closing quote included; the captured address is those 42 characters |
| AddressTable.Search | scripts/generate-abi.ts:19-21 | the result is the capture at the leftmost position where the pattern matches, None exactly when it matches nowhere, and always a hex address |
| AddressTable.LeftmostShift | scripts/generate-abi.ts:19-21 | with no match at the first character, the leftmost match of the rest is the leftmost match of the whole |
| AddressTable.ReadPreviousAddress | scripts/generate-abi.ts:14-25 | nothing from a missing file; otherwise the capture of the leftmost match for the chain id in the file, nothing exactly when there is none; anything read is a hex address |
| AddressTable.EntryMatches | scripts/generate-abi.ts:19 | the pattern for a chain id matches a generated entry for that id and captures its address |
| AddressTable.ReadsBackSepolia | scripts/generate-abi.ts:14-25 | reading Sepolia's address from a generated table gives the address written, when it is a hex address |
| AddressTable.ReadsBackHardhat | scripts/generate-abi.ts:14-25 | reading the Hardhat node's address from a generated table gives the address written, when both are hex addresses |
| AddressTable.OutputDir.Write | scripts/generate-abi.ts:54-55 | the named file holds the text and every other file is unchanged |
| AddressTable.ReadDeployment | scripts/generate-abi.ts:27-32 | a record is read exactly when its file exists |
| AddressTable.MismatchFlagIsPaddedOne | scripts/generate-abi.ts:10 | the mismatch flag is set exactly when the variable is `1` with whitespace around it |
| AddressTable.Plan | scripts/generate-abi.ts:34-52 | fails without a localhost record or on an unparsable one; fails on a mismatch exactly when both records exist, their ABIs differ and a mismatch is not allowed; otherwise emits the localhost ABI and both addresses, flagging the allowed mismatch |
| AddressTable.SepoliaEntry | scripts/generate-abi.ts:37-38 | the parsed Sepolia record, or the fallback when there is no file |
| AddressTable.Compare | scripts/generate-abi.ts:40-52 | refuses exactly a mismatch that is not allowed; otherwise emits the localhost ABI and both addresses |
| AddressTable.RegenerationKeepsSepoliaAddress | scripts/generate-abi.ts:37-38 | regenerating without a Sepolia record keeps the previous table's Sepolia address, and a first run records the zero address |
| GenerateAbi.Run | scripts/generate-abi.ts:6-62 | on success both modules are written and an allowed mismatch is warned about; on failure nothing is written, the error is printed and the exit status is 1 |
| GenAbi.FirstExisting | frontend/scripts/genabi.mjs:30 | the first existing candidate, found exactly when some candidate exists |
| GenAbi.DeploymentsDirectoryChoice | frontend/scripts/genabi.mjs:24-30 | `../deployments` when it exists, else `../../deployments` when that exists, else `../deployments` |
| GenAbi.Run | frontend/scripts/genabi.mjs:30-74 | the same decision in the chosen directory with the development-mode allowance; failures exit with status 1 and their messages, and nothing is written |
| GenAbi.DevelopmentNeverRejectsMismatch | frontend/scripts/genabi.mjs:31-67 | outside production an ABI mismatch never stops the script |

## Left out

- Files, the console and `process.exit` are modelled only as far as their
  effects: the output directory's file map, the lines printed to standard
  error, and the exit status. `mkdirSync` and the success log line are left
  out.
- JSON text is not modelled. `JSON.stringify` and `JSON.parse` are a codec
  passed in, and so is the pretty-printer of the ABI module. JSON numbers are
  integers.
- A deployment record is read as an ABI and an address. A record lacking
  either field is treated as parsed all the same, since only the parser's
  error (as a string) matters to the scripts.
- GenAbi.Run: an unparsable deployment record ends the script through an
  uncaught exception, modelled as exit status 1 with the error message.
- `deployOnHardhatNode` does nothing on every platform, so
  the platform check and the failure log are not modelled.
- The four candidate directories resolve to only two distinct paths, because
  `path.resolve(p)` and `path.resolve(process.cwd(), p)` agree.
- Lower-casing is ASCII-only, which is all the
  `hardhat` test needs.
- RelayerSDKLoader internals, the SDK's `initSDK` and `createInstance`, the
  mock module and `isAddress` are inputs to the model.
- A freshly loaded SDK is assumed uninitialised.
- LoadAndInitSdk: each creation is modelled
  as one atomic call. Overlapping creations (a refresh while one is in
  flight) can both load the script and both run `initSDK` before
  `__initialized__` is set, and their notifications can interleave. "initSDK
  at most once" holds only for creations that do not overlap.
- The mock path never checks the abort signal; the model keeps that
  behaviour rather than adding a check.
- `onStatusChange` logging is recorded as the list of notifications.
- React rendering and the `useEffect` that calls `refresh` are left out.
  Asynchronous settling is a separate method call.
- `getDB`'s upgrade handler and the database versioning are not modelled. An
  open database always holds both stores.
- DecryptionSignature.FromJson: it builds a record only from an object that
  has all eight fields with the right JSON types. Objects lacking fields,
  which the source would turn into a record with undefined fields, are
  treated as unreadable.
- The EIP-712 `types` object keeps only `UserDecryptRequestVerification`.
- In `createPoll` the no-signer guard cannot fire, because a
  provider always yields a signer or an error. The model proves that its
  message is never shown.
- Gas estimation, sending, waiting, encryption and `userDecrypt` are inputs
  to the model (`Chain`, `FheInstance`). Poll ids are non-negative integers.
- `signerRef` is not reset when the provider changes, as in the source.
- In `vote`, an `optionCount` below 0 builds an empty ballot, as the
  source's loop does.
- In `parseInt`, JavaScript's `Number` precision limits are not
  modelled. Integers are unbounded.

## Findings

| source | as written | input that shows it | evidently intended | confidence | as-written member | corrected member |
|---|---|---|---|---|---|---|
| frontend/src/fhevm/useFhevm.tsx:47 | The `.catch` handler drops a rejection only if `abortRef.current` is aborted. `refresh` (lines 22-25, 33) never leaves an aborted controller there, so a superseded creation's rejection is always applied. | The provider changes while a creation is in flight. The new creation succeeds, then the old one rejects with its abort error. The hook ends in `error` although its instance is ready. | The handler checks its own request's signal and ignores the rejection of a superseded request. | not executed | UseFhevm.StaleRejectionAsWritten | UseFhevm.StaleRejectionDropped |
| frontend/src/fhevm/useFhevm.tsx:42 | The `.then` handler has the same guard on the current controller. | The provider changes while a creation is in flight, and the old creation then resolves on the mock path, which never checks its signal. The hook becomes ready with the instance built for the previous provider. | The handler checks its own request's signal, so a superseded instance is dropped. | not executed | UseFhevm.StaleInstanceAsWritten | UseFhevm.StaleInstanceDropped |
| frontend/src/hooks/useFHEVoteApp.tsx:62 | `createPoll` estimates gas through `(c as any).estimateGas.createPoll(...)`, and `deletePoll` (line 144) through `.estimateGas.deletePoll(...)`. An ethers v6 `Contract` has no `estimateGas` member, so the read yields `undefined` and the call throws a TypeError. | Any poll creation or deletion: the first and only send always carries the fallback limit, 800000 or 300000. | `c.createPoll.estimateGas(...)` and `c.deletePoll.estimateGas(...)`, so the estimate plus 20% is tried first. | not executed (depends on ethers v6 `Contract` yielding `undefined` for `estimateGas`) | VoteApp.GasAsWrittenIsFallback | VoteApp.GasTried |
