# molt host: message admission and release trust

This project models the parts of the molt host (`host/`) that decide which
messages are accepted and which releases are trusted. It proves properties of
that model in Dafny. The modelled parts are:

- **Envelope codec** (`host/src/envelope.js`):
  - the fixed-shape envelope builder;
  - the canonical form (drop `sig`, sort the keys);
  - the hex wire codec;
  - the Ed25519 sign and verify guards (RFC 8032, section 5.1).
- **Proof-of-work gate** (`host/src/pow.js`): the salted digest of the
  canonical form, the leading-zero test, the nonce search and the verifier.
- **Listener** (`host/src/index.js`): the `transaction` handler of
  `handleListen`. It is a fixed chain of gates:
  1. decode;
  2. the attestation session cache;
  3. the presence bypass;
  4. proof of work;
  5. registration payment and hash;
  6. signature;
  7. chunk reassembly;
  8. payload reference;
  9. append to the log.
  The attestation cache and the chunk buffer are updated in place, and the
  chunk buffer is swept every minute.
- **Outbound builder** (`host/src/index.js`): `buildEnvelopes`,
  `splitPayload`, `applyEnvelopePow` and `applyEnvelopeSignature`. A payload
  goes out in one of three ways:
  - as an IPFS reference;
  - as one envelope;
  - as a numbered series of byte-bounded chunks.
- **Attestation** (`host/src/attestation.js`, `host/tee/gramine/pin-attestation.js`):
  - the verifier command normalisation;
  - the allowlist checks on the verifier's claims;
  - the script that pins a machine's measurements into the allowlists.
- **Release trust** (`host/src/release.js`, `host/src/integrity.js`,
  `host/src/update.js`):
  - choosing the latest signed release among the publisher's ledger
    transactions;
  - the startup integrity guard;
  - the update flow, which downloads an artifact, checks its digest and
    stages it with its manifest.

Time, hashing, signatures and network replies all enter as parameters, so
every part is deterministic:

- SHA-256 (FIPS 180-4), Ed25519, `JSON.parse` and `xrpl.xrpToDrops` are
  function parameters;
- the IPFS store and fetch, the ledger's `account_tx` and `tx` replies, and
  the attestation verifier process are function parameters or given lists;
- `Date.now()` is an integer argument.

Values are JSON values (`Json.Json`). An object is a sequence of fields in
insertion order, so spreads, `delete` and key sorting follow JavaScript for
every key that is not an integer index (see "## Left out").
The message log is a sequence to which the storage layer prepends. The file
system is a map from path to bytes, held in the `Update.Disk` class.

Module layout:

| module | what it holds |
|---|---|
| `Wrappers` | `Option`, `Result` and `Outcome` |
| `Seqs` | the concatenation of a sequence of sequences |
| `Json` | JSON values, `JSON.stringify`, object spread and `delete` |
| `JsValue` | JavaScript truthiness, `Number(...)`, `String(...)`, `trim` and `===` |
| `StringOrder` | the string order of `sort()` |
| `Canonical` | the canonical form and the stable sort |
| `HexCodec` | the hex wire codec |
| `Envelope` | the envelope builder, codec and signatures |
| `Pow` | the proof-of-work gate |
| `HostConfig` | the configuration defaults the host applies |
| `Registration` | the registration predicates over ledger data |
| `Outbound` | the sending side |
| `Dispatcher` | the listener: pure step functions and the `Listener` class that updates its maps in place |
| `Attestation` | command normalisation and allowlist checks |
| `PinAttestation` | the pin script, with its `AttestationSection` class |
| `Release` | release selection |
| `Update` | the update flow |
| `Integrity` | the startup guard and the automatic update |

## Model

| member | source | states |
|---|---|---|
| Envelope.BuildEnvelopeKeys | host/src/envelope.js:3-38 | A built envelope has the same sixteen keys, each exactly once, in a fixed order, and never a `sig`. |
| Envelope.BuildEnvelopeRequired | host/src/envelope.js:20-25 | `v` is 1, and `type`, `from`, `channel` and `payload` hold the given arguments. |
| Envelope.BuildEnvelopeOptional | host/src/envelope.js:8-18 | Each optional field holds its argument, or null when the argument was not passed. |
| HexCodec.StringToHexShape | host/src/envelope.js:75-80 | A Latin-1 string encodes to exactly two upper-case hex digits per character, so the output is twice as long as the input. |
| HexCodec.WideCharTakesMoreDigits | host/src/envelope.js:77 | A character whose code is above 255 takes three or four hex digits, which breaks the two-digit framing. |
| HexCodec.GroupsOfPairs | host/src/envelope.js:83 | On text without line terminators, `match(/.{2}/g)` yields the consecutive pairs and nothing else. |
| HexCodec.ParseUpperPair | host/src/envelope.js:84 | `parseInt` of two upper-case hex digits gives the byte they spell. |
| HexCodec.HexRoundTrip | host/src/envelope.js:75-85 | `hexToString(stringToHex(s)) == s` for every Latin-1 string `s`. |
| HexCodec.DecodeDropsOddDigit | host/src/envelope.js:82-85 | A trailing odd hex digit is dropped silently, and the decoded text has half as many characters as there are digits. |
| Json.StringifyLatin1 | host/src/envelope.js:41 | `JSON.stringify` of a value whose strings are all Latin-1 is Latin-1, so the hex codec can carry it. |
| Envelope.EncodeDecodeRoundTrip | host/src/envelope.js:40-48 | Decoding undoes encoding for every Latin-1 envelope, given that `JSON.parse` reads back what `JSON.stringify` wrote. |
| Json.Put | host/src/index.js:824 | An object spread sets the given key and leaves every other key's value unchanged. |
| Json.PutKeys | host/src/pow.js:19 | An object spread keeps the key order: an existing key stays where it was, and a new key goes last. |
| Json.Remove | host/src/envelope.js:52 | `delete` removes exactly the fields with that key and keeps every other field. |
| Canonical.SortByKey | host/src/envelope.js:53-55 | The sort orders the fields by key and is a permutation of them. |
| Canonical.Canonicalize | host/src/envelope.js:50-57 | The canonical object has no `sig`, its keys are in ascending order, and it holds exactly the other fields. |
| Canonical.CanonicalIgnoresSig | host/src/envelope.js:51-56 | Setting, changing or adding `sig` leaves the canonical form unchanged, so a signature never covers itself. |
| Canonical.CanonicalOfUnsigned | host/src/envelope.js:52 | Deleting `sig` beforehand changes nothing. |
| Canonical.CanonicalOrderIndependent | host/src/envelope.js:53-56 | Two objects with the same properties, inserted in any order, have the same canonical form and text. |
| StringOrder.LessTransitive | host/src/envelope.js:53 | The key order is transitive. |
| StringOrder.LessTotal | host/src/envelope.js:53 | Any two distinct keys are ordered one way or the other. |
| Envelope.Sign | host/src/envelope.js:59-65 | With no key there is no signature. A key that does not decode to 64 bytes throws. Otherwise the signature is tweetnacl's over the canonical text. |
| Envelope.NaclSign | host/src/envelope.js:63 | Signing throws exactly when the secret key does not decode to 64 bytes. |
| Envelope.NaclVerify | host/src/envelope.js:72 | Verification throws exactly when the signature is not 64 bytes or the public key is not 32; otherwise it is Ed25519's verdict. |
| Envelope.VerifySignature | host/src/envelope.js:67-73 | A missing key or a falsy `sig` gives false, not an error. A truthy `sig` that is not a string throws. A string `sig` gives exactly tweetnacl's verdict over the canonical text, which throws for a signature that is not 64 bytes or a key that is not 32. |
| Envelope.SignThenVerify | host/src/envelope.js:59-73 | With a 64-byte secret key, signing succeeds, and verifying the signed envelope checks the signature against exactly the text that was signed. |
| Pow.HashInput | host/src/pow.js:4-8 | The hashed text is the canonical form, followed by `\|salt` only when the salt is non-empty. |
| Pow.LeadingZerosMeaning | host/src/pow.js:10-13 | A difficulty `<= 0` always holds; a positive one holds exactly when that many leading digits are `0`. |
| Pow.LeadingZerosMonotone | host/src/pow.js:10-13 | A digest that meets a difficulty meets every lower one. |
| Pow.SolvePow | host/src/pow.js:15-26 | The search returns the envelope with only `powNonce` changed, set to the decimal text of the least nonce that works; every smaller nonce fails. |
| Pow.LeastIsUnique | host/src/pow.js:15-26 | A working nonce with no smaller working nonce is the one the search stops at. |
| Pow.SolveKeepsKeyOrder | host/src/pow.js:19 | Solving keeps every key where it was; `powNonce` is the only key that can be new, and then it is last. |
| Pow.VerifyPow | host/src/pow.js:28-32 | An envelope with a missing or empty `powNonce` is rejected at every difficulty. |
| Pow.SolveThenVerify | host/src/pow.js:15-32 | The verifier accepts what the solver found, under the same difficulty and salt. |
| Pow.VerifyPowMonotone | host/src/pow.js:28-32 | A verifier at a lower difficulty accepts what one at a higher difficulty accepted. |
| Pow.PowIgnoresSig | host/src/pow.js:5 | Adding or changing `sig` never changes the proof-of-work verdict. |
| Release.CanonicalizeReleaseShape | host/src/release.js:5-12 | The release's canonical text has no `sig`, sorted keys, and the same value whatever `sig` holds. |
| Release.VerifyReleaseSignature | host/src/release.js:14-20 | A missing publisher key or a falsy `sig` gives false. A truthy non-string `sig` throws. A string `sig` gives exactly tweetnacl's verdict over the canonical text, size errors included. |
| Release.ScanEntry | host/src/release.js:43-54 | An entry is kept only if all three hold: its first memo has `MemoData`; its `MemoType` matches the configured type, ignoring case, when one is configured; the data decodes to a `RELEASE`. A decode failure is skipped, not raised. |
| Release.Candidates | host/src/release.js:42-55 | Every collected candidate is a `RELEASE`, there are no more candidates than entries, and the scan succeeds exactly when no entry's scan throws. |
| Release.CandidatesInOrder | host/src/release.js:42-55 | The candidates are the releases of exactly the entries the scan keeps, one each, in ledger order. |
| Release.KeptIsCandidate | host/src/release.js:43-54 | Every release an entry's scan keeps is among the candidates. |
| Release.CandidatesErrSticks | host/src/release.js:43-55 | Once the scan throws, later entries cannot undo the failure. |
| Release.CandidatesErrStep | host/src/release.js:43-55 | Scanning one more entry after a throw gives back the same error. |
| Release.FilterVerified | host/src/release.js:57-59 | The filter keeps exactly the candidates whose signature verifies; a check that throws makes the whole filter throw. |
| Release.FilterVerifiedAppend | host/src/release.js:57-59 | The filter keeps candidate order and repeats: filtering `a + b` gives the filtered `a` followed by the filtered `b`, and the first check that throws decides the error. |
| Release.FilterVerifiedCons | host/src/release.js:57-59 | Filtering a non-empty list gives its first candidate's outcome followed by the rest's, the first throw winning. |
| Release.FilterVerifiedSingle | host/src/release.js:57-59 | One candidate is kept exactly when its check gives true, and its throw is the filter's throw. |
| Release.LatestOf | host/src/release.js:61-62 | No verified release gives null and one gives that release without a comparison. With two or more, the sort throws exactly when some `publishedAt` is truthy but not a string, since `localeCompare` is then called on a value without it. Otherwise the result is one of the verified releases. |
| Release.LatestRelease | host/src/release.js:22-26 | A missing publisher address, or one starting with `rREPLACE`, throws. |
| Release.FetchLatestRelease | host/src/release.js:22-63 | The scanning loop, filter, sort and choice of the last release compute `LatestRelease`. |
| Release.LatestIsVerifiedCandidate | host/src/release.js:57-62 | When the lookup does not throw, the result is a signature-verified `RELEASE` candidate whose `publishedAt` is at least every other verified release's, or null exactly when no candidate verifies. Two or more verified releases then all have string or falsy timestamps. |
| Release.UncomparableTimestampFailsLookup | host/src/release.js:61 | Two distinct verified candidates, one with a truthy non-string `publishedAt` such as a number, make the lookup throw. |
| Release.UncomparableTimestampThrows | host/src/release.js:61 | Two distinct releases, one with an uncomparable `publishedAt`, make the sort throw. |
| Release.MalformedSignatureFailsLookup | host/src/release.js:16-19 | One candidate whose `sig` does not decode to 64 bytes makes the whole lookup throw, whatever the other candidates hold. |
| Release.SortedLastIsLatest | host/src/release.js:61-62 | When the sort does not throw, the chosen release has the greatest `publishedAt` (a falsy one counts as `''`), and every verified release listed after it has a strictly smaller one, so among equal timestamps the later one wins. |
| Canonical.SortLast | host/src/release.js:61-62 | The stable sort puts last the field with the greatest key, and among equal greatest keys the one listed last. |
| Canonical.LatestIndexIsGreatest | host/src/release.js:61 | No key beats the chosen one, and every later key is strictly smaller. |
| Integrity.ResolveManifestPath | host/src/integrity.js:14-18 | The configured path is used when it is set, otherwise `releases/<fallback>`. |
| Integrity.LoadReleaseManifest | host/src/integrity.js:20-27 | A missing manifest fails with its path; a loaded manifest is the parse of the file's bytes. |
| Integrity.VerifyReleaseObject | host/src/integrity.js:29-40 | The checks fail in this order: missing publisher key, then bad signature, then missing `sha256`. A signature check that throws fails the object with its error. The object passes exactly when all three hold. |
| Integrity.VerifyRuntimeIntegrity | host/src/integrity.js:74-95 | With `requireSignedRelease` off it passes. An unpackaged process passes exactly when `allowUnsignedDev` is set. A packaged one passes exactly when the manifest loads and verifies and the executable's digest equals its `sha256`. |
| Integrity.StageIntoPending | host/src/integrity.js:65-66 | Staging for the automatic update writes only through `runUpdate` with the pending path, and writes nothing when it fails. |
| Integrity.AutoUpdateStep | host/src/integrity.js:42-72 | The result is null with nothing written when any of these holds: auto-update is off; the lookup throws; there is no release; the pinned manifest already has the release's `sha256`. Conversely, with auto-update on, a found release that is not already current is staged into the pending manifest slot by `runUpdate`. |
| Integrity.UnreadableManifestStages | host/src/integrity.js:55-66 | A pinned manifest that is missing or does not parse counts as no current release, so a release that was found is staged. |
| Integrity.AutoUpdateStagesPending | host/src/integrity.js:42-72 | Whatever the automatic update writes is a staged release: the artifact, the pending manifest, and nothing else. |
| Integrity.OutputIsBin | host/src/update.js:55 | The artifact path always ends in `.bin`. |
| Integrity.LatestNeverOverwritten | host/src/integrity.js:65-66 | The automatic update never creates, removes or changes the latest manifest, as long as its path is neither the pending path nor a `.bin` file. |
| Integrity.MaybeAutoUpdate | host/src/integrity.js:42-72 | The method's result and the files it leaves are those of `AutoUpdateStep`. |
| Update.StripTrailingSlash | host/src/update.js:41 | One trailing `/` is removed and nothing else is changed. |
| Update.DownloadUrl | host/src/update.js:40-41 | The URL is the gateway (by default `https://ipfs.io/ipfs`) without one trailing slash, then `/`, then the CID. |
| Update.DownloadStep | host/src/update.js:40-70 | A rejected fetch fails with its error, a non-ok response with `Failed to download CID from gateway (<status>)`, and a digest mismatch with `SHA256 mismatch for release artifact.`; none of them writes. Success returns the release and the artifact path, and the artifact holds exactly the downloaded bytes (unless the manifest path is that same path), with the manifest written only when a path is given. |
| Update.UpdateStep | host/src/update.js:16-71 | A lookup that throws fails with its error and writes nothing. No release, or a release without `cid` or `sha256`, returns that release and no path and writes nothing. A complete release goes through the download exactly as `DownloadStep` says. |
| Update.UpdateFound | host/src/update.js:38-70 | A found release without a CID or a digest is reported and nothing is written; a complete one is downloaded, and a staged one is written as `Staged` says. |
| Update.RunUpdate | host/src/update.js:16-71 | The method's result and the files it leaves are those of `UpdateStep`. A failure to pin the UI CID does not change either. |
| Update.DownloadRelease | host/src/update.js:40-70 | The download, digest check and writes for a complete release leave the result and files of `DownloadStep`. |
| Update.Disk.constructor | host/src/update.js:53-56 | The disk starts with the given files. |
| Attestation.SplitKeepsText | host/src/attestation.js:27 | Splitting on whitespace loses only whitespace: the pieces, concatenated, are the input's non-whitespace characters in order. |
| Attestation.TrimmedSplitHasNoEmptyWord | host/src/attestation.js:27 | A trimmed, non-blank string splits into non-empty words only. |
| Attestation.NormalizeCommand | host/src/attestation.js:24-29 | Absent or falsy input gives null, an array is kept as it is, a string becomes a non-empty list of words, and anything else gives null. |
| Attestation.CommandWords | host/src/attestation.js:27 | A command string becomes its whitespace-free words; none is empty unless the string is blank, which gives `[""]`. |
| Attestation.CheckAllowlist | host/src/attestation.js:44-63 | The checks run in order and the first failure is reported with its own message: MRENCLAVE, MRSIGNER, ISVSVN below minimum, too old. A claim passes exactly when it is in every non-empty allowlist, is not below the minimum `isvsvn`, and is no older than the maximum age. |
| Attestation.MissingFieldsPassNumericChecks | host/src/attestation.js:56-62 | A claim without a numeric `isvsvn` (NaN) is never below the minimum, and a claim without a timestamp is never too old. |
| Attestation.VerifierEnv | host/src/attestation.js:70-75 | The verifier gets the `ATT_ALLOWED_*` hints only for a list with exactly one entry, and the PCCS URL when one is set; nothing else changes. |
| Attestation.VerifyAttestation | host/src/attestation.js:65-82 | No command is an error. Returned claims came from the verifier, have a truthy `ok` and passed `checkAllowlist`. Conversely, a verifier error is passed on, a falsy `ok` gives "Attestation verification failed", an allowlist failure gives its message, and claims that pass are returned. |
| Attestation.JudgeClaims | host/src/attestation.js:76-81 | Claims are returned only when they are the verifier's own reply, carry a truthy `ok` and pass `checkAllowlist`; a verifier error is passed on, a falsy `ok` gives "Attestation verification failed", and an allowlist failure gives its own message. |
| Attestation.LoadAttestationEvidence | host/src/attestation.js:9-22 | No path gives null. A missing file is the only error. Text that parses gives the parsed value, and text that does not parse is wrapped as `{ raw }`. |
| PinAttestation.PinClaims | host/tee/gramine/pin-attestation.js:33-49 | A missing evidence path, a missing command, a missing evidence file or an unparsable one is an error, raised in that order before verification. The call succeeds exactly when the verifier returns claims with a truthy `ok`, and then it returns those claims. |
| PinAttestation.PinEnv | host/tee/gramine/pin-attestation.js:45-46 | The script's verifier gets only the PCCS URL added to its environment. |
| PinAttestation.AppendIfAbsent | host/tee/gramine/pin-attestation.js:59-64 | A value is appended only when it is non-empty and not yet present, and existing entries keep their order. |
| PinAttestation.AppendIfAbsentIdempotent | host/tee/gramine/pin-attestation.js:59-64 | Appending the same value again changes nothing. |
| PinAttestation.Pinned | host/tee/gramine/pin-attestation.js:51-67 | Both allowlists are written back. Each gains the claimed value at its end exactly when that value is truthy and not already included, and is otherwise unchanged. Nothing else in the section changes. |
| PinAttestation.PinnedIncludesClaims | host/tee/gramine/pin-attestation.js:51-67 | After pinning, a truthy claimed measurement that is not an object or array is in its allowlist, so the host's allowlist check passes it. |
| PinAttestation.PinIdempotent | host/tee/gramine/pin-attestation.js:51-67 | Pinning the same claims twice gives the same section as pinning once. |
| PinAttestation.AttestationSection.Pin | host/tee/gramine/pin-attestation.js:33-71 | Any failure, a falsy `claims.ok` included, leaves the section unchanged; otherwise the section becomes `Pinned` of the claims. |
| PinAttestation.AttestationSection.constructor | host/tee/gramine/pin-attestation.js:54-55 | The section starts as the configuration's. |
| Registration.GetRegistrationConfig | host/src/index.js:32-37 | Registration is on unless switched off, the address defaults to `''`, and the amount defaults to `0.1`. |
| Registration.FindMatch | host/src/index.js:850-856 | A found payment is the first entry that matches, after all earlier entries were passed over. None means no entry matches. An error means a null entry was reached before any match. |
| Registration.FindRegistrationPayment | host/src/index.js:837-862 | An amount `xrpToDrops` cannot read throws even for an empty list; otherwise the result is the first match. |
| Registration.EnsureRegistrationForAddress | host/src/index.js:711-717 | Everyone may send while registration is off and a falsy address may not. Otherwise an address may send exactly when a matching payment is on its ledger with no null entry before it, and is refused exactly when every entry is passed over. |
| Registration.VerifyRegistrationHash | host/src/index.js:719-735 | This is true exactly when registration is on, the address and hash are given, and the looked-up transaction is a Payment from the address to the registration address for exactly the configured drops. |
| Registration.FoundPaymentVerifies | host/src/index.js:719-735 | The payment `findRegistrationPayment` finds, when looked up again by its hash, passes `verifyRegistrationHash`. |
| Registration.GetNextSequence | host/src/index.js:154-167 | While transactions are queued and the highest queued sequence is a number, the result is one past it. Otherwise it is the account's `Sequence`, and a reply without account data throws. |
| HostConfig.Difficulty | host/src/index.js:242 | An absent or null difficulty is 0, and a numeric one is taken as it is. |
| JsValue.NumberOfDecimal | host/src/index.js:277 | `Number` of an integer's decimal text gives back the integer. |
| JsValue.NumberOfRadixLiteral | host/src/index.js:242 | `Number` of `0x`, `0o` or `0b` (either case) followed by digits of that radix is their value, so a difficulty of `"0x10"` is 16. |
| HostConfig.PublicKey | host/src/index.js:260 | A key is found exactly when one is listed under `String(from)`. |
| Outbound.Utf8Append | host/src/index.js:811 | Encoding a concatenation concatenates the UTF-8 encodings. |
| Outbound.ChunksMeaning | host/src/index.js:810-817 | The chunks concatenate back to the bytes. Each holds 1 to `max` bytes and all but the last hold exactly `max`. More than `max` bytes give at least two chunks. |
| Outbound.SplitPayload | host/src/index.js:810-817 | The loop yields one text per byte chunk, in order, each decoded from its chunk. |
| Outbound.ApplyEnvelopePow | host/src/index.js:827-835 | The result is the envelope itself when the gate is off or the difficulty is a number `<= 0`, and otherwise the envelope with the least working nonce. |
| Outbound.PowAppliedMeaning | host/src/index.js:827-835 | A solved envelope passes the receiver's proof-of-work check under the same settings, and only `powNonce` differs. |
| Outbound.ApplyEnvelopeSignature | host/src/index.js:819-825 | A signing key that does not decode to 64 bytes throws, and only that. Without a key, or with an empty signature, the envelope is unchanged. Otherwise `sig` is the signature of the envelope's own canonical text. Only `sig` changes. |
| Outbound.SignedEnvelopeChecks | host/src/index.js:819-825 | With a 64-byte signing key, the receiver checks a signed envelope against the very text that was signed, and signing keeps the proof of work valid. |
| Outbound.Budget | host/src/index.js:766-767 | The per-chunk budget is the byte limit minus the overhead of the empty-payload envelope, or 1 when that is smaller. |
| Outbound.PostEnvelopeFields | host/src/index.js:758-765 | A built envelope carries the given payload, reference and chunk fields unless `extraFields` overrides them, and has no `sig`. |
| Outbound.PlannedChunks | host/src/index.js:769-787 | A payload over the budget goes out as `n >= 2` chunks. They are numbered `0..n-1`, each has `chunkTotal = n` and the shared id, and each carries its piece's text. The pieces concatenate back to the payload's bytes. |
| Outbound.PlannedSingle | host/src/index.js:791-807 | A payload within the budget goes out as one envelope carrying it inline, with null reference and chunk fields. |
| Outbound.PlannedOffload | host/src/index.js:747-754 | A payload sent to IPFS goes out as one envelope with an empty payload and the CID as `payloadRef`; a failing store fails the call. |
| Outbound.PlannedNonEmpty | host/src/index.js:746-808 | Every plan holds at least one envelope. |
| Outbound.FinishedMeaning | host/src/index.js:785-786 | With a usable signing key, finishing changes only `powNonce` and `sig`, meets the proof of work it was solved for, and signs its own canonical text. |
| Outbound.FinishAll | host/src/index.js:772-787 | Each envelope is solved, then signed, in order. A bad signing key fails the call exactly when there is an envelope to sign. |
| Outbound.BuildEnvelopes | host/src/index.js:746-808 | The method returns exactly the planned envelopes, each finished, or the store's error, or the signing error of a bad key. |
| Dispatcher.Intercept | host/src/index.js:200-208 | An envelope comes only from a truthy string memo that decodes. |
| Dispatcher.HandleEffects | host/src/index.js:198-322 | Each step is one of these: a drop or a crash changes nothing; an attestation touches only the cache; buffering touches only the buffer; a delivery prepends one entry. A memo that does not decode is ignored. |
| Dispatcher.AttestationGateRule | host/src/index.js:210-229 | With the gate on, delivery needs a valid session. Without one, an `ATTEST` only updates the cache, with the claims exactly when verification succeeds, and anything else is dropped. |
| Dispatcher.SessionLifetime | host/src/index.js:212-214 | A cached session is valid exactly when the maximum age is unset or 0, or `now - at <= maxAgeSeconds * 1000`. |
| Dispatcher.PresenceBypass | host/src/index.js:231-238 | Past the attestation gate, a presence envelope is appended unchanged, whatever the proof-of-work, registration and signature settings. |
| Dispatcher.RegistrationGate | host/src/index.js:250-257 | With registration on, passing needs a matching payment on the sender's ledger and a `registrationHash` that verifies. Conversely, for a named sender, a throwing ledger query or payment scan throws, no payment or no hash rejects, and otherwise the hash verification decides, so a registered sender with a verifying hash passes. |
| Dispatcher.SignatureGate | host/src/index.js:259-269 | Under enforcement, the envelope passes exactly when a key is pinned and the signature verifies. Without enforcement it is never dropped as invalid, and an envelope without `sig` or without a pinned key passes. Whether enforced or not, the handler throws exactly when a check runs and throws. |
| Dispatcher.DeliveryPassedGates | host/src/index.js:210-297 | Every other delivered or buffered envelope passed every gate that is on: session, proof of work, registration payment and hash, and signature. |
| Dispatcher.ChunkStepRule | host/src/index.js:271-297 | The first fragment fixes the total. Each fragment lands at its index, overwriting. The series merges exactly when the count of distinct indices reaches a positive total, and then its entry is deleted. Nothing is appended before the merge. |
| Dispatcher.MergedFields | host/src/index.js:287 | The merged envelope carries the joined payload and null chunk fields; every other field comes from the last fragment. |
| Dispatcher.MergeOfTexts | host/src/index.js:281-286 | A series holding a text at each index `0..n-1`, in whatever order they arrived, is complete and merges into those texts joined in index order. |
| Dispatcher.SeriesReassembles | host/src/index.js:271-297 | The `n` fragments of a series, arriving in any order of the indices `0..n-1`, each in its own transaction at its own time, are delivered on the last arrival as one envelope carrying the texts joined in index order, logged with the last transaction's hash, and its entry is gone. The arrival times do not affect the merged envelope. |
| Dispatcher.PartialSeriesWaits | host/src/index.js:271-297 | A series of which fewer than `n` distinct fragments arrived never merges: nothing is appended, the cache is untouched, and the entry waits incomplete holding exactly the texts that arrived, stamped with the latest arrival's time. |
| Dispatcher.SweepLaws | host/src/index.js:189-196 | Sweeping twice is the same as sweeping once, and a later sweep removes at least what an earlier one did. |
| Dispatcher.SweepKeepsFresh | host/src/index.js:191-194 | An entry survives exactly while `now - updatedAt <= 300000`, and it is unchanged while it survives. |
| Dispatcher.Listener.constructor | host/src/index.js:185-188 | The listener starts with an empty cache and buffer over the existing log. |
| Dispatcher.Listener.HandleTransaction | host/src/index.js:198-323 | The handler's verdict and the listener's new maps and log are those of `Handle`. |
| Dispatcher.Listener.Receive | host/src/index.js:210-319 | From the decoded envelope on, the handler follows `Intake`. |
| Dispatcher.Listener.AddChunk | host/src/index.js:271-297 | Storing a fragment updates the buffer, and the log on merge, as `ChunkStep` says. |
| Dispatcher.Listener.MergeChunks | host/src/index.js:282-287 | The merge loop joins the texts of indices `0..total-1` and spreads them into the last fragment with the chunk fields nulled. |
| Dispatcher.Listener.Deliver | host/src/index.js:299-319 | A payload reference with IPFS on is fetched and spliced in, and a failed fetch drops the envelope. Anything else is appended as it is. |
| Dispatcher.Listener.Sweep | host/src/index.js:189-196 | The sweep deletes exactly the entries idle for more than five minutes and leaves the cache and log untouched. |

## Left out

- Character codes: JavaScript strings are UTF-16 code units, but the model's strings are sequences of code points. `charCodeAt` and the key sort agree with the model on the Basic Multilingual Plane only.
- Integer-index keys: JavaScript lists keys such as `"9"` and `"10"` before all other keys, in ascending numeric order, whatever their insertion order. The model keeps every key in insertion order, so `Canonical.CanonicalString`, `Json.Put` and `Json.PutKeys` differ from the source for an object with such keys: `{"10":…, "9":…}` canonicalises with `"10"` first here and with `"9"` first in the source.
- Envelope.VerifySignature: a `sig` that is an array is read by `Buffer.from` as its bytes, and a non-string object may be read through its `length`; the model treats every truthy non-string `sig` as throwing. Release.VerifyReleaseSignature reads `sig` the same way.
- `localeCompare` on `publishedAt` is modelled as lexicographic comparison by character code.
- Release.LatestOf: the sort is taken to throw whenever two or more verified releases include a truthy non-string `publishedAt`. Which comparator calls a sort makes is left to the engine, so an engine that never passes that release as the receiver of `localeCompare` returns a release where the model throws.
- Numbers are integers or NaN. Floating point, `Infinity` and `Number.isFinite` on non-integers are not modelled; an integer is always finite.
- JsValue.StringToNumber: reads blank text, signed decimal digits and the unsigned `0x`, `0o` and `0b` forms. Decimal points and exponents give NaN, also where they denote an integer (`"2.0"`, `"1e3"`).
- Property reads (`publicKeys[from]` and the like) see only the object's own keys, not the prototype chain.
- `path.resolve` normalisation: paths are kept relative to the host's directory as given.
- `toUpperCase` is modelled on ASCII letters only. It is applied only to hex text and memo types.
- Pretty-printing of the release manifest: `JSON.stringify(release, null, 2)` is a function parameter.
- Outbound.SplitPayload: the UTF-8 decoding of a byte chunk (`toString('utf8')`, which replaces a cut multi-byte sequence) is a function parameter, so a chunk's text is stated only through that function.
- The file system, IPFS client, XRPL client, attestation verifier process and `process` are represented by the function parameters and maps they return.
- Whether an IPFS client exists in `handleListen` is modelled by `ipfs.enabled`: the client starts exactly when IPFS is enabled.
- Map keys for chunk ids and cached senders compare by value. The source's `Map` compares object and array keys by identity, and such keys cannot repeat across separately parsed messages.
- `receivedAt`, the log levels and the lines written to stdout are not modelled.
- `Date.now()` is one `now` per transaction: the handler's several reads of the clock within one event are taken to agree.
- The `setInterval` timer is left out; `Dispatcher.Listener.Sweep` is the timer's body, called with `now`.
- Dispatcher.SeriesReassembles and Dispatcher.PartialSeriesWaits follow the chunk steps of one series only. A sweep between two arrivals more than five minutes apart would drop the entry, and is not part of these lemmas.
- Pow.SolvePow: the source loops for ever when no nonce works. The method requires that some nonce works, which is what every caller relies on.
- Update.RunUpdate: the UI pin is attempted, but its outcome is only logged, so it has no effect on the model.
- `assertConfig`, the other `index.js` commands (`handlePost`, `handleRegister`, `sendEnvelope`, the API server) and `getRegistrationHash` are not part of this model. They are command-line and network plumbing around the modelled core.
- `verifyWithCommand` (spawning the verifier) is a function parameter returning the parsed claims or the error.
- `host/src/storage.js`, `host/src/ipfs.js` and `host/src/pin.js` are not part of this model. The log is a sequence to which `appendMessage` prepends, and the payload fetch and store are fallible functions.
