/**
 * `host/src/integrity.js`: the startup guard that refuses to run a binary
 * whose digest is not the signed manifest's, and the automatic update that
 * stages a newer release into the pending manifest slot.
 */
module Integrity {
  import opened Wrappers
  import opened Json
  import opened JsValue
  import Envelope
  import Release
  import Update

  /** `resolveManifestPath(config, key, fallback)`, relative to the host's
      directory: the configured path when it is set, else `releases/<fallback>`. */
  function ResolveManifestPath(configured: Option<string>, fallback: string): (p: string)
    ensures Release.KeyGivenStr(configured) ==> p == configured.value
    ensures !Release.KeyGivenStr(configured) ==> p == "releases/" + fallback
  {
    if Release.KeyGivenStr(configured) then configured.value else "releases/" + fallback
  }

  function LatestPath(cfg: Release.ReleaseConfig): string {
    ResolveManifestPath(cfg.manifestPath, "latest.json")
  }

  function PendingPath(cfg: Release.ReleaseConfig): string {
    ResolveManifestPath(cfg.pendingManifestPath, "pending.json")
  }

  /** `loadReleaseManifest`: the latest manifest, parsed. */
  function LoadReleaseManifest(cfg: Release.ReleaseConfig, files: map<string, seq<bv8>>, io: Update.Io): (r: Result<Json>)
    ensures LatestPath(cfg) !in files ==> r == Err("Missing release manifest at " + LatestPath(cfg))
    ensures r.Ok? ==> LatestPath(cfg) in files && io.readJson(files[LatestPath(cfg)]) == Some(r.value)
  {
    var path := LatestPath(cfg);
    if path !in files then Err("Missing release manifest at " + path)
    else match io.readJson(files[path])
      case None => Err("Unexpected token in JSON")
      case Some(j) => Ok(j)
  }

  /** `verifyReleaseObject`: the publisher key must be configured, the
      signature must verify, and the manifest must name a digest, checked
      in that order. */
  function VerifyReleaseObject(cfg: Release.ReleaseConfig, release: Json, ed: Envelope.Ed25519): (r: Outcome)
    ensures !Envelope.KeyGiven(cfg.publisherPublicKey) ==>
              r == Fail("config.release.publisherPublicKey required for release verification")
    ensures Envelope.KeyGiven(cfg.publisherPublicKey) &&
            Release.VerifyReleaseSignature(release, cfg.publisherPublicKey, ed).Err? ==>
              r == Fail(Release.VerifyReleaseSignature(release, cfg.publisherPublicKey, ed).error)
    ensures Envelope.KeyGiven(cfg.publisherPublicKey) &&
            Release.VerifyReleaseSignature(release, cfg.publisherPublicKey, ed) == Ok(false) ==>
              r == Fail("Release signature verification failed")
    ensures Envelope.KeyGiven(cfg.publisherPublicKey) &&
            Release.VerifyReleaseSignature(release, cfg.publisherPublicKey, ed) == Ok(true) &&
            !TruthyOpt(Prop(release, "sha256")) ==>
              r == Fail("Release missing sha256")
    ensures r == Pass <==>
              Envelope.KeyGiven(cfg.publisherPublicKey) &&
              Release.VerifyReleaseSignature(release, cfg.publisherPublicKey, ed) == Ok(true) &&
              TruthyOpt(Prop(release, "sha256"))
  {
    if !Envelope.KeyGiven(cfg.publisherPublicKey) then
      Fail("config.release.publisherPublicKey required for release verification")
    else match Release.VerifyReleaseSignature(release, cfg.publisherPublicKey, ed)
      case Err(e) => Fail(e)
      case Ok(false) => Fail("Release signature verification failed")
      case Ok(true) => if !TruthyOpt(Prop(release, "sha256")) then Fail("Release missing sha256") else Pass
  }

  /** `verifyRuntimeIntegrity`; `packaged` is `process.pkg`, `execPath` is
      `process.execPath`. */
  function VerifyRuntimeIntegrity(cfg: Release.ReleaseConfig, packaged: bool, execPath: string,
                                  files: map<string, seq<bv8>>, io: Update.Io): (r: Outcome)
    ensures cfg.requireSignedRelease == Some(false) ==> r == Pass
    ensures cfg.requireSignedRelease != Some(false) && !packaged ==>
              (r == Pass <==> cfg.allowUnsignedDev == Some(true))
    ensures cfg.requireSignedRelease != Some(false) && packaged ==>
              var manifest := LoadReleaseManifest(cfg, files, io);
              (r == Pass <==>
                 manifest.Ok? &&
                 VerifyReleaseObject(cfg, manifest.value, io.ed) == Pass &&
                 execPath in files &&
                 Update.DigestMatches(manifest.value, io.sha256(files[execPath])))
  {
    var requireSigned := cfg.requireSignedRelease.GetOr(true);
    if !requireSigned then Pass
    else
      var allowUnsignedDev := cfg.allowUnsignedDev.GetOr(false);
      if !packaged && allowUnsignedDev then Pass
      else if !packaged then
        Fail("Refusing to run: not a signed binary (set release.allowUnsignedDev to true to bypass)")
      else PackagedIntegrity(cfg, execPath, files, io)
  }

  /** The packaged branch: the manifest must load and verify, and the
      executable's digest must be its `sha256`. */
  function PackagedIntegrity(cfg: Release.ReleaseConfig, execPath: string, files: map<string, seq<bv8>>,
                             io: Update.Io): (r: Outcome)
    ensures var manifest := LoadReleaseManifest(cfg, files, io);
            (r == Pass <==>
               manifest.Ok? &&
               VerifyReleaseObject(cfg, manifest.value, io.ed) == Pass &&
               execPath in files &&
               Update.DigestMatches(manifest.value, io.sha256(files[execPath])))
  {
    match LoadReleaseManifest(cfg, files, io)
    case Err(e) => Fail(e)
    case Ok(release) =>
      match VerifyReleaseObject(cfg, release, io.ed)
      case Fail(e) => Fail(e)
      case Pass =>
        if execPath !in files then Fail("Executable not found at " + execPath)
        else if !Update.DigestMatches(release, io.sha256(files[execPath])) then
          Fail("Executable hash does not match release manifest")
        else Pass
  }

  // ---------------------------------------------------------------------
  // Automatic update

  /** The outcome of `maybeAutoUpdate` (None for its `null`) and the files
      afterwards. */
  datatype AutoStep = AutoStep(result: Result<Option<Update.UpdateResult>>, files: map<string, seq<bv8>>)

  /** The currently pinned release, or None when the manifest is missing or
      does not parse. */
  function CurrentRelease(cfg: Release.ReleaseConfig, files: map<string, seq<bv8>>, io: Update.Io): Option<Json> {
    match LoadReleaseManifest(cfg, files, io)
    case Ok(j) => Some(j)
    case Err(_) => None
  }

  /** The pinned manifest already describes the latest release. */
  predicate AlreadyCurrent(current: Option<Json>, latest: Json) {
    current.Some? && Truthy(current.value) && StrictEquals(Prop(current.value, "sha256"), Prop(latest, "sha256"))
  }

  /** `runUpdate(config, { silent: true, writeManifestPath: pendingPath })`,
      whose failures `maybeAutoUpdate` lets through. */
  function StageIntoPending(cfg: Release.ReleaseConfig, second: seq<Json>, io: Update.Io,
                            files: map<string, seq<bv8>>): (step: AutoStep)
    ensures step.result.Ok? ==> step.result.value.Some?
    ensures step.result.Ok? && step.result.value.value.outputPath.Some? ==>
              step.result.value.value.release.Some? &&
              Update.Staged(step.result.value.value.release.value, io, Some(PendingPath(cfg)), files, step.files)
    ensures step.files != files ==> step.result.Ok? && step.result.value.value.outputPath.Some?
  {
    var step := Update.UpdateStep(cfg, second, io, Some(PendingPath(cfg)), files);
    match step.result
    case Err(e) => AutoStep(Err(e), step.files)
    case Ok(u) => AutoStep(Ok(Some(u)), step.files)
  }

  /** `maybeAutoUpdate`. It looks the latest release up twice, once itself
      and once inside `runUpdate`: `first` and `second` are the ledger's
      answers to the two queries. */
  function AutoUpdateStep(cfg: Release.ReleaseConfig, first: seq<Json>, second: seq<Json>, io: Update.Io,
                          files: map<string, seq<bv8>>): (step: AutoStep)
    ensures cfg.autoUpdate == Some(false) ==> step == AutoStep(Ok(None), files)
    ensures Release.LatestRelease(cfg, first, io.parse, io.ed).Err? ==> step.result == Ok(None) && step.files == files
    ensures Release.LatestRelease(cfg, first, io.parse, io.ed) == Ok(None) ==> step == AutoStep(Ok(None), files)
    ensures cfg.autoUpdate != Some(false) && Release.LatestRelease(cfg, first, io.parse, io.ed).Ok? &&
            Release.LatestRelease(cfg, first, io.parse, io.ed).value.Some? &&
            AlreadyCurrent(CurrentRelease(cfg, files, io), Release.LatestRelease(cfg, first, io.parse, io.ed).value.value)
            ==> step == AutoStep(Ok(None), files)
    ensures step.result.Ok? && step.result.value.Some? ==>
              cfg.autoUpdate != Some(false) &&
              Release.LatestRelease(cfg, first, io.parse, io.ed).Ok? &&
              Release.LatestRelease(cfg, first, io.parse, io.ed).value.Some? &&
              !AlreadyCurrent(CurrentRelease(cfg, files, io), Release.LatestRelease(cfg, first, io.parse, io.ed).value.value)
    // and conversely, a release that is found and not already current is staged
    ensures var latest := Release.LatestRelease(cfg, first, io.parse, io.ed);
            cfg.autoUpdate != Some(false) && latest.Ok? && latest.value.Some? &&
            !AlreadyCurrent(CurrentRelease(cfg, files, io), latest.value.value) ==>
              step == StageIntoPending(cfg, second, io, files)
  {
    var autoUpdate := cfg.autoUpdate.GetOr(true);
    if !autoUpdate then AutoStep(Ok(None), files)
    else match Release.LatestRelease(cfg, first, io.parse, io.ed)
      case Err(_) => AutoStep(Ok(None), files)
      case Ok(None) => AutoStep(Ok(None), files)
      case Ok(Some(latest)) =>
        if AlreadyCurrent(CurrentRelease(cfg, files, io), latest) then AutoStep(Ok(None), files)
        else
          StageIntoPending(cfg, second, io, files)
  }

  /** A pinned manifest that is missing or does not parse counts as no
      current release, so a release that was found is staged. */
  lemma UnreadableManifestStages(cfg: Release.ReleaseConfig, first: seq<Json>, second: seq<Json>, io: Update.Io,
                                 files: map<string, seq<bv8>>)
    requires cfg.autoUpdate != Some(false)
    requires Release.LatestRelease(cfg, first, io.parse, io.ed).Ok?
    requires Release.LatestRelease(cfg, first, io.parse, io.ed).value.Some?
    requires LoadReleaseManifest(cfg, files, io).Err?
    ensures AutoUpdateStep(cfg, first, second, io, files) == StageIntoPending(cfg, second, io, files)
  {
    assert CurrentRelease(cfg, files, io) == None;
  }

  /** Whatever the automatic update writes, it writes by staging a release
      into the pending manifest slot: the artifact, the pending manifest,
      and nothing else. */
  lemma AutoUpdateStagesPending(cfg: Release.ReleaseConfig, first: seq<Json>, second: seq<Json>, io: Update.Io,
                                files: map<string, seq<bv8>>)
    ensures var step := AutoUpdateStep(cfg, first, second, io, files);
            step.files != files ==>
              step.result.Ok? && step.result.value.Some? && step.result.value.value.outputPath.Some? &&
              step.result.value.value.release.Some? &&
              Update.Staged(step.result.value.value.release.value, io, Some(PendingPath(cfg)), files, step.files)
  {
    var step := AutoUpdateStep(cfg, first, second, io, files);
    if step.files != files {
      assert step == StageIntoPending(cfg, second, io, files);
    }
  }

  method MaybeAutoUpdate(disk: Update.Disk, cfg: Release.ReleaseConfig, first: seq<Json>, second: seq<Json>,
                         io: Update.Io) returns (r: Result<Option<Update.UpdateResult>>)
    modifies disk
    ensures var step := AutoUpdateStep(cfg, first, second, io, old(disk.files));
            r == step.result && disk.files == step.files
  {
    var autoUpdate := cfg.autoUpdate.GetOr(true);
    if !autoUpdate {
      return Ok(None);
    }
    var latest := Release.FetchLatestRelease(cfg, first, io.parse, io.ed);
    if latest.Err? {
      return Ok(None);
    }
    if latest.value.None? {
      return Ok(None);
    }
    var current := CurrentRelease(cfg, disk.files, io);
    if AlreadyCurrent(current, latest.value.value) {
      return Ok(None);
    }
    var pendingPath := PendingPath(cfg);
    var result := Update.RunUpdate(disk, cfg, second, io, Some(pendingPath));
    if result.Err? {
      return Err(result.error);
    }
    r := Ok(Some(result.value));
  }

  /** The artifact an update writes is a `.bin` file. */
  lemma OutputIsBin(r: Json)
    ensures var p := Update.OutputPath(r); |p| >= 4 && p[|p| - 4..] == ".bin"
  {
  }

  /** The automatic update never writes the latest manifest: it stages only
      into the pending slot and the `.bin` artifact, so a latest manifest
      at a different path that is not a `.bin` file is left as it was. */
  lemma LatestNeverOverwritten(cfg: Release.ReleaseConfig, first: seq<Json>, second: seq<Json>, io: Update.Io,
                               files: map<string, seq<bv8>>)
    requires LatestPath(cfg) != PendingPath(cfg)
    requires !(|LatestPath(cfg)| >= 4 && LatestPath(cfg)[|LatestPath(cfg)| - 4..] == ".bin")
    ensures var after := AutoUpdateStep(cfg, first, second, io, files).files;
            (LatestPath(cfg) in after <==> LatestPath(cfg) in files) &&
            (LatestPath(cfg) in files ==> after[LatestPath(cfg)] == files[LatestPath(cfg)])
  {
    var step := AutoUpdateStep(cfg, first, second, io, files);
    AutoUpdateStagesPending(cfg, first, second, io, files);
    if step.files != files {
      OutputIsBin(step.result.value.value.release.value);
    }
  }
}
