/**
 * `host/src/update.js`: staging a new release. The latest release is looked
 * up, its artifact is downloaded from an IPFS gateway, checked against the
 * manifest's SHA-256, written under `releases/`, and, when asked, the
 * manifest is written to a given path. The file system is the `Disk`.
 */
module Update {
  import opened Wrappers
  import opened Json
  import opened JsValue
  import Envelope
  import Release

  /** The files under the host's directory, by path relative to it. */
  class Disk {
    var files: map<string, seq<bv8>>

    constructor(files: map<string, seq<bv8>>)
      ensures this.files == files
    {
      this.files := files;
    }
  }

  /** An HTTP response as far as the update reads it. */
  datatype Response = Response(ok: bool, status: int, body: seq<bv8>)

  /** What the host cannot compute itself: JSON.parse on memo text, Ed25519,
      SHA-256 of a byte string as lower-case hex, the gateway download (Err
      when `fetch` rejects), pinning a CID, the bytes of
      `JSON.stringify(release, null, 2)`, and `JSON.parse` of a file read
      as UTF-8 (None where it throws). */
  datatype Io = Io(
    parse: string -> Option<Json>,
    ed: Envelope.Ed25519,
    sha256: seq<bv8> -> string,
    download: string -> Result<Response>,
    pinCid: string -> Outcome,
    render: Json -> seq<bv8>,
    readJson: seq<bv8> -> Option<Json>)

  /** `{ release, outputPath }`; an absent `outputPath` is None. */
  datatype UpdateResult = UpdateResult(release: Option<Json>, outputPath: Option<string>)

  const DefaultGateway: string := "https://ipfs.io/ipfs"

  /** `gateway.replace(/\/$/, '')`: one trailing slash goes. */
  function StripTrailingSlash(g: string): (r: string)
    ensures g != [] && g[|g| - 1] == '/' ==> r + "/" == g
    ensures g == [] || g[|g| - 1] != '/' ==> r == g
  {
    if g != [] && g[|g| - 1] == '/' then g[..|g| - 1] else g
  }

  /** The download URL: the gateway (or the public one), one trailing slash
      removed, then `/` and the CID. */
  function DownloadUrl(cfg: Release.ReleaseConfig, cid: Json): (url: string)
    ensures var g := StrOr(cfg.gateway, DefaultGateway);
            url == StripTrailingSlash(g) + "/" + ToStr(cid)
    ensures !Release.KeyGivenStr(cfg.gateway) ==> url == DefaultGateway + "/" + ToStr(cid)
  {
    var g := StrOr(cfg.gateway, DefaultGateway);
    StripTrailingSlash(g) + "/" + ToStr(cid)
  }

  /** `releases/${release.name || 'moltbot-host'}-${release.version || release.cid}.bin`. */
  function OutputPath(r: Json): (p: string)
    ensures p == "releases/" + ToStr(OrElse(Prop(r, "name"), JStr("moltbot-host"))) + "-"
                 + ToStr(OrElse(Prop(r, "version"), OrElse(Prop(r, "cid"), JNull))) + ".bin"
  {
    "releases/" + ToStr(OrElse(Prop(r, "name"), JStr("moltbot-host"))) + "-"
      + ToStr(OrElse(Prop(r, "version"), OrElse(Prop(r, "cid"), JNull))) + ".bin"
  }

  /** The manifest's `sha256` is exactly the downloaded digest (`===`). */
  predicate DigestMatches(r: Json, digest: string) {
    StrictEquals(Some(JStr(digest)), Prop(r, "sha256"))
  }

  /** The outcome of `runUpdate` and the files afterwards. */
  datatype Step = Step(result: Result<UpdateResult>, files: map<string, seq<bv8>>)

  /** Only the files at `out` and, when given, `manifest` differ. */
  ghost predicate OnlyWritten(before: map<string, seq<bv8>>, after: map<string, seq<bv8>>,
                        out: string, manifest: Option<string>) {
    forall p :: p != out && (!Release.KeyGivenStr(manifest) || p != manifest.value) ==>
      (p in after <==> p in before) && (p in before ==> after[p] == before[p])
  }

  /** What a staged release leaves behind: the artifact at its output path,
      holding bytes whose digest is the manifest's `sha256` (unless the
      manifest was asked to be written over it), the manifest at
      `manifest` when one is given, and nothing else. */
  ghost predicate Staged(r: Json, io: Io, manifest: Option<string>, before: map<string, seq<bv8>>,
                   after: map<string, seq<bv8>>) {
    var out := OutputPath(r);
    OnlyWritten(before, after, out, manifest) &&
    (Release.KeyGivenStr(manifest) ==> manifest.value in after && after[manifest.value] == io.render(r)) &&
    (!Release.KeyGivenStr(manifest) || manifest.value != out ==>
       out in after && DigestMatches(r, io.sha256(after[out])))
  }

  /** The part of `runUpdate` after a complete release was found. */
  function DownloadStep(cfg: Release.ReleaseConfig, r: Json, io: Io, manifest: Option<string>,
                        files: map<string, seq<bv8>>): (step: Step)
    requires TruthyOpt(Prop(r, "cid")) && TruthyOpt(Prop(r, "sha256"))
    // a rejected fetch, a failed response and a digest mismatch each fail
    // and write nothing
    ensures var got := io.download(DownloadUrl(cfg, Prop(r, "cid").value));
            got.Err? ==> step == Step(Err(got.error), files)
    ensures var got := io.download(DownloadUrl(cfg, Prop(r, "cid").value));
            got.Ok? && !got.value.ok ==>
              step == Step(Err("Failed to download CID from gateway (" + IntToDecimal(got.value.status) + ")"), files)
    ensures var got := io.download(DownloadUrl(cfg, Prop(r, "cid").value));
            got.Ok? && got.value.ok && !DigestMatches(r, io.sha256(got.value.body)) ==>
              step == Step(Err("SHA256 mismatch for release artifact."), files)
    // a verified download is staged: the artifact holds the downloaded
    // bytes unless the manifest is written over it
    ensures var got := io.download(DownloadUrl(cfg, Prop(r, "cid").value));
            got.Ok? && got.value.ok && DigestMatches(r, io.sha256(got.value.body)) ==>
              && step.result == Ok(UpdateResult(Some(r), Some(OutputPath(r))))
              && Staged(r, io, manifest, files, step.files)
              && (!Release.KeyGivenStr(manifest) || manifest.value != OutputPath(r) ==>
                    step.files[OutputPath(r)] == got.value.body)
    ensures step.result.Err? ==> step.files == files
  {
    match io.download(DownloadUrl(cfg, Prop(r, "cid").value))
    case Err(e) => Step(Err(e), files)
    case Ok(res) =>
      if !res.ok then
        Step(Err("Failed to download CID from gateway (" + IntToDecimal(res.status) + ")"), files)
      else if !DigestMatches(r, io.sha256(res.body)) then
        Step(Err("SHA256 mismatch for release artifact."), files)
      else
        var out := OutputPath(r);
        var withArtifact := files[out := res.body];
        var after := if Release.KeyGivenStr(manifest)
                     then withArtifact[manifest.value := io.render(r)]
                     else withArtifact;
        Step(Ok(UpdateResult(Some(r), Some(out))), after)
  }

  /** `runUpdate` as a function of the ledger's answer and the files. */
  function UpdateStep(cfg: Release.ReleaseConfig, entries: seq<Json>, io: Io,
                      manifest: Option<string>, files: map<string, seq<bv8>>): (step: Step)
    // no release found: no download, nothing written
    ensures var latest := Release.LatestRelease(cfg, entries, io.parse, io.ed);
            latest.Err? ==> step == Step(Err(latest.error), files)
    ensures var latest := Release.LatestRelease(cfg, entries, io.parse, io.ed);
            latest == Ok(None) ==> step == Step(Ok(UpdateResult(None, None)), files)
    // a release without a CID or a digest is reported, not downloaded
    ensures var latest := Release.LatestRelease(cfg, entries, io.parse, io.ed);
            latest.Ok? && latest.value.Some? &&
            (!TruthyOpt(Prop(latest.value.value, "cid")) || !TruthyOpt(Prop(latest.value.value, "sha256"))) ==>
              step == Step(Ok(UpdateResult(latest.value, None)), files)
    // a complete release is downloaded
    ensures var latest := Release.LatestRelease(cfg, entries, io.parse, io.ed);
            latest.Ok? && latest.value.Some? &&
            TruthyOpt(Prop(latest.value.value, "cid")) && TruthyOpt(Prop(latest.value.value, "sha256")) ==>
              step == DownloadStep(cfg, latest.value.value, io, manifest, files)
    // every failure, a digest mismatch among them, and every run that
    // stages nothing leaves the files as they were
    ensures step.result.Err? || step.result.value.outputPath.None? ==> step.files == files
    // a staged update writes the artifact and, only when asked, the manifest
    ensures step.result.Ok? && step.result.value.outputPath.Some? ==>
              step.result.value.release.Some? &&
              step.result.value.outputPath == Some(OutputPath(step.result.value.release.value)) &&
              Staged(step.result.value.release.value, io, manifest, files, step.files)
  {
    match Release.LatestRelease(cfg, entries, io.parse, io.ed)
    case Err(e) => Step(Err(e), files)
    case Ok(None) => Step(Ok(UpdateResult(None, None)), files)
    case Ok(Some(r)) => UpdateFound(cfg, r, io, manifest, files)
  }

  /** The part of `runUpdate` after a release was found: one without a CID
      or a digest is reported, a complete one is downloaded. */
  function UpdateFound(cfg: Release.ReleaseConfig, r: Json, io: Io, manifest: Option<string>,
                       files: map<string, seq<bv8>>): (step: Step)
    ensures !TruthyOpt(Prop(r, "cid")) || !TruthyOpt(Prop(r, "sha256")) ==>
              step == Step(Ok(UpdateResult(Some(r), None)), files)
    ensures TruthyOpt(Prop(r, "cid")) && TruthyOpt(Prop(r, "sha256")) ==>
              step == DownloadStep(cfg, r, io, manifest, files)
    ensures step.result.Err? || step.result.value.outputPath.None? ==> step.files == files
    ensures step.result.Ok? && step.result.value.outputPath.Some? ==>
              step.result.value.release == Some(r) &&
              step.result.value.outputPath == Some(OutputPath(r)) &&
              Staged(r, io, manifest, files, step.files)
  {
    if !TruthyOpt(Prop(r, "cid")) || !TruthyOpt(Prop(r, "sha256")) then
      Step(Ok(UpdateResult(Some(r), None)), files)
    else
      DownloadStep(cfg, r, io, manifest, files)
  }

  /** `runUpdate(config, { writeManifestPath })`. A failure to pin the UI
      CID is only logged. */
  method RunUpdate(disk: Disk, cfg: Release.ReleaseConfig, entries: seq<Json>, io: Io,
                   writeManifestPath: Option<string>) returns (r: Result<UpdateResult>)
    modifies disk
    ensures var step := UpdateStep(cfg, entries, io, writeManifestPath, old(disk.files));
            r == step.result && disk.files == step.files
  {
    var latest := Release.FetchLatestRelease(cfg, entries, io.parse, io.ed);
    if latest.Err? {
      return Err(latest.error);
    }
    if latest.value.None? {
      return Ok(UpdateResult(None, None));
    }
    var release := latest.value.value;
    if !TruthyOpt(Prop(release, "cid")) || !TruthyOpt(Prop(release, "sha256")) {
      return Ok(UpdateResult(Some(release), None));
    }
    r := DownloadRelease(disk, cfg, release, io, writeManifestPath);
  }

  /** The download, digest check and writes of `runUpdate` for a complete
      release. */
  method DownloadRelease(disk: Disk, cfg: Release.ReleaseConfig, release: Json, io: Io,
                         writeManifestPath: Option<string>) returns (r: Result<UpdateResult>)
    requires TruthyOpt(Prop(release, "cid")) && TruthyOpt(Prop(release, "sha256"))
    modifies disk
    ensures var step := DownloadStep(cfg, release, io, writeManifestPath, old(disk.files));
            r == step.result && disk.files == step.files
  {
    var url := DownloadUrl(cfg, Prop(release, "cid").value);
    var res := io.download(url);
    if res.Err? {
      return Err(res.error);
    }
    if !res.value.ok {
      return Err("Failed to download CID from gateway (" + IntToDecimal(res.value.status) + ")");
    }
    var data := res.value.body;
    var digest := io.sha256(data);
    if !DigestMatches(release, digest) {
      return Err("SHA256 mismatch for release artifact.");
    }
    var outFile := OutputPath(release);
    disk.files := disk.files[outFile := data];
    if TruthyOpt(Prop(release, "uiCid")) && cfg.pinUiOnUpdate == Some(true) {
      var pinned := io.pinCid(ToStr(Prop(release, "uiCid").value));
    }
    if Release.KeyGivenStr(writeManifestPath) {
      disk.files := disk.files[writeManifestPath.value := io.render(release)];
    }
    r := Ok(UpdateResult(Some(release), Some(outFile)));
  }
}
