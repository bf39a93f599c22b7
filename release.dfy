/**
 * `host/src/release.js`: the release manifest's canonical form and
 * signature guards, and the choice of the latest signed release among the
 * publisher's ledger transactions. The ledger query is replaced by the list
 * of transaction entries it returns.
 */
module Release {
  import opened Wrappers
  import opened Json
  import opened JsValue
  import StringOrder
  import Canonical
  import HexCodec
  import Envelope

  /** The `release` section of the host's configuration. A setting that is
      absent (or null) is None. */
  datatype ReleaseConfig = ReleaseConfig(
    publisherAddress: Option<string>,
    publisherPublicKey: Option<string>,
    memoTypeHex: Option<string>,
    gateway: Option<string>,
    manifestPath: Option<string>,
    pendingManifestPath: Option<string>,
    autoUpdate: Option<bool>,
    requireSignedRelease: Option<bool>,
    allowUnsignedDev: Option<bool>,
    pinUiOnUpdate: Option<bool>)

  /** `canonicalizeRelease`: the same construction as envelopes use. */
  function CanonicalizeRelease(r: seq<Field>): (s: string)
    ensures s == Stringify(JObj(Canonical.Canonicalize(r)))
  {
    Canonical.CanonicalString(r)
  }

  /** The canonical text never mentions `sig`, lists keys in ascending
      order, and is the same whatever `sig` holds. */
  lemma CanonicalizeReleaseShape(r: seq<Field>, sig: Json)
    ensures "sig" !in Keys(Canonical.Canonicalize(r))
    ensures Canonical.SortedByKey(Canonical.Canonicalize(r))
    ensures CanonicalizeRelease(Put(r, "sig", sig)) == CanonicalizeRelease(r)
  {
    Canonical.CanonicalIgnoresSig(r, sig);
  }

  /** `verifyReleaseSignature`: the guards and the check are those of
      envelopes, so a `sig` that is not a string, or does not decode to 64
      bytes, throws. */
  function VerifyReleaseSignature(r: Json, publicKey: Option<string>, ed: Envelope.Ed25519): (v: Result<bool>)
    ensures !Envelope.KeyGiven(publicKey) || !TruthyOpt(Prop(r, "sig")) ==> v == Ok(false)
    ensures Envelope.KeyGiven(publicKey) && TruthyOpt(Prop(r, "sig")) && !Prop(r, "sig").value.JStr? ==> v.Err?
    ensures Envelope.KeyGiven(publicKey) && TruthyOpt(Prop(r, "sig")) && Prop(r, "sig").value.JStr? ==>
              r.JObj? &&
              v == Envelope.NaclVerify(ed, publicKey.value, CanonicalizeRelease(r.fields), Prop(r, "sig").value.s)
  {
    Envelope.VerifySignature(r, publicKey, ed)
  }

  // ---------------------------------------------------------------------
  // Scanning the publisher's transactions

  /** `x?.[0]`: the first element of an array, the property "0" of an
      object; a string's first character has no `Memo`, so it is left as
      undefined too. */
  function First(j: Json): Option<Json> {
    match j
    case JArr(items) => if items == [] then None else Some(items[0])
    case JObj(fs) => Get(fs, "0")
    case _ => None
  }

  /** `tx.Memos?.[0]?.Memo`, where `tx` is `entry.tx || entry.transaction || {}`. */
  function FirstMemo(entry: Json): Option<Json> {
    var tx := OrElse(Prop(entry, "tx"), OrElse(Prop(entry, "transaction"), JObj([])));
    match Prop(tx, "Memos")
    case None => None
    case Some(memos) =>
      match First(memos)
      case None => None
      case Some(m) => Prop(m, "Memo")
  }

  datatype Scan = Skip | Keep(release: Json)

  /** The memo's `MemoType` is a string whose upper case is `hex`. */
  predicate MemoTypeIs(memo: Option<Json>, hex: string) {
    memo.Some? &&
    match Prop(memo.value, "MemoType")
    case Some(JStr(t)) => HexCodec.ToUpper(t) == hex
    case _ => false
  }

  /** One turn of the scanning loop. Only a null entry, or a `MemoType`
      that is neither absent nor a string while a memo type is configured,
      throws; a memo that does not decode is skipped. */
  function ScanEntry(entry: Json, memoTypeHex: string, parse: string -> Option<Json>): (r: Result<Scan>)
    ensures r.Ok? && r.value.Keep? ==> Prop(r.value.release, "type") == Some(JStr("RELEASE"))
    ensures r.Ok? && r.value.Keep? ==>
              FirstMemo(entry).Some? && TruthyOpt(Prop(FirstMemo(entry).value, "MemoData"))
    ensures r.Ok? && r.value.Keep? && memoTypeHex != "" ==> MemoTypeIs(FirstMemo(entry), memoTypeHex)
    ensures memoTypeHex == "" ==> (r.Err? <==> entry.JNull?)
  {
    if entry.JNull? then Err("Cannot read properties of null (reading 'tx')")
    else
      var memo := FirstMemo(entry);
      if memo.None? || !TruthyOpt(Prop(memo.value, "MemoData")) then Ok(Skip)
      else
        var memoType := Prop(memo.value, "MemoType");
        if memoTypeHex != "" && memoType.Some? && !memoType.value.JNull? && !memoType.value.JStr? then
          Err("memo.MemoType?.toUpperCase is not a function")
        else if memoTypeHex != "" && (memoType.None? || memoType.value.JNull? ||
                                      HexCodec.ToUpper(memoType.value.s) != memoTypeHex) then
          Ok(Skip)
        else
          match Prop(memo.value, "MemoData").value
          case JStr(hex) =>
            var decoded := Envelope.Decode(hex, parse);
            if decoded.Some? && Prop(decoded.value, "type") == Some(JStr("RELEASE")) then Ok(Keep(decoded.value))
            else Ok(Skip)
          case _ => Ok(Skip)
  }

  /** The `releases` array after the loop has seen `entries`. */
  function Candidates(entries: seq<Json>, memoTypeHex: string, parse: string -> Option<Json>): (r: Result<seq<Json>>)
    ensures r.Ok? <==> forall entry :: entry in entries ==> ScanEntry(entry, memoTypeHex, parse).Ok?
    ensures r.Ok? ==> forall x :: x in r.value ==> Prop(x, "type") == Some(JStr("RELEASE"))
    ensures r.Ok? ==> |r.value| <= |entries|
  {
    if entries == [] then Ok([])
    else
      match Candidates(entries[..|entries| - 1], memoTypeHex, parse)
      case Err(e) => Err(e)
      case Ok(rs) =>
        match ScanEntry(entries[|entries| - 1], memoTypeHex, parse)
        case Err(e) => Err(e)
        case Ok(Skip) => Ok(rs)
        case Ok(Keep(d)) => Ok(rs + [d])
  }

  /** The scan keeps entry `i`. */
  predicate KeptAt(entries: seq<Json>, i: int, memoTypeHex: string, parse: string -> Option<Json>)
    requires 0 <= i < |entries|
  {
    ScanEntry(entries[i], memoTypeHex, parse).Ok? && ScanEntry(entries[i], memoTypeHex, parse).value.Keep?
  }

  /** The outcome of each turn of the scanning loop. */
  ghost function Scans(entries: seq<Json>, memoTypeHex: string, parse: string -> Option<Json>)
    : (scans: seq<Result<Scan>>)
    ensures |scans| == |entries|
    ensures forall i :: 0 <= i < |entries| ==> scans[i] == ScanEntry(entries[i], memoTypeHex, parse)
  {
    seq(|entries|, i requires 0 <= i < |entries| => ScanEntry(entries[i], memoTypeHex, parse))
  }

  predicate Keeps(scan: Result<Scan>) {
    scan.Ok? && scan.value.Keep?
  }

  /** The indices below `n` of the turns that keep a release, in
      increasing order. */
  ghost function KeptBelow(scans: seq<Result<Scan>>, n: nat): (idx: seq<int>)
    requires n <= |scans|
    ensures forall j :: 0 <= j < |idx| ==> 0 <= idx[j] < n && Keeps(scans[idx[j]])
    ensures forall j, k :: 0 <= j < k < |idx| ==> idx[j] < idx[k]
    ensures forall i :: 0 <= i < n && Keeps(scans[i]) ==> i in idx
  {
    if n == 0 then []
    else KeptBelow(scans, n - 1) + (if Keeps(scans[n - 1]) then [n - 1] else [])
  }

  /** The releases the turns below `n` keep, in order. */
  ghost function KeptReleases(scans: seq<Result<Scan>>, n: nat): seq<Json>
    requires n <= |scans|
  {
    if n == 0 then []
    else KeptReleases(scans, n - 1) + (if Keeps(scans[n - 1]) then [scans[n - 1].value.release] else [])
  }

  /** The `j`-th kept release comes from the `j`-th keeping turn. */
  lemma {:induction false} KeptReleasesPaired(scans: seq<Result<Scan>>, n: nat)
    requires n <= |scans|
    ensures var rs := KeptReleases(scans, n);
            var idx := KeptBelow(scans, n);
            |idx| == |rs| && forall j :: 0 <= j < |idx| ==> scans[idx[j]] == Ok(Keep(rs[j]))
  {
    if n > 0 {
      KeptReleasesPaired(scans, n - 1);
    }
  }

  /** The releases the loop has collected after `n` entries are those
      the first `n` turns keep, in ledger order. */
  lemma {:induction false} CandidatesPrefixInOrder(entries: seq<Json>, n: nat, memoTypeHex: string,
                                                    parse: string -> Option<Json>)
    requires n <= |entries|
    requires Candidates(entries[..n], memoTypeHex, parse).Ok?
    ensures Candidates(entries[..n], memoTypeHex, parse).value
            == KeptReleases(Scans(entries, memoTypeHex, parse), n)
  {
    if n > 0 {
      CandidatesStep(entries, n, memoTypeHex, parse);
      CandidatesPrefixInOrder(entries, n - 1, memoTypeHex, parse);
    }
  }

  /** One more entry: the scan of `entries[..n]` is that of
      `entries[..n - 1]`, with the entry's release appended when it is
      kept. */
  lemma CandidatesStep(entries: seq<Json>, n: nat, memoTypeHex: string, parse: string -> Option<Json>)
    requires 0 < n <= |entries|
    requires Candidates(entries[..n], memoTypeHex, parse).Ok?
    ensures Candidates(entries[..n - 1], memoTypeHex, parse).Ok?
    ensures var scan := Scans(entries, memoTypeHex, parse)[n - 1];
            Candidates(entries[..n], memoTypeHex, parse).value
              == Candidates(entries[..n - 1], memoTypeHex, parse).value
                 + (if Keeps(scan) then [scan.value.release] else [])
  {
    assert entries[..n][..n - 1] == entries[..n - 1];
    assert entries[..n][n - 1] == entries[n - 1];
  }

  /** The collected releases are the decoded memos of exactly the entries
      the scan keeps, in ledger order: `KeptBelow` lists every kept index,
      increasing, and the `j`-th release comes from the `j`-th of them. */
  lemma CandidatesInOrder(entries: seq<Json>, memoTypeHex: string, parse: string -> Option<Json>)
    requires Candidates(entries, memoTypeHex, parse).Ok?
    ensures var rs := Candidates(entries, memoTypeHex, parse).value;
            var idx := KeptBelow(Scans(entries, memoTypeHex, parse), |entries|);
            && |idx| == |rs|
            && (forall j :: 0 <= j < |idx| ==>
                  0 <= idx[j] < |entries| && ScanEntry(entries[idx[j]], memoTypeHex, parse) == Ok(Keep(rs[j])))
            && (forall j, k :: 0 <= j < k < |idx| ==> idx[j] < idx[k])
            && (forall i :: 0 <= i < |entries| && KeptAt(entries, i, memoTypeHex, parse) ==> i in idx)
  {
    var scans := Scans(entries, memoTypeHex, parse);
    assert entries[..|entries|] == entries;
    CandidatesPrefixInOrder(entries, |entries|, memoTypeHex, parse);
    KeptReleasesPaired(scans, |entries|);
  }

  /** `releases.filter(verifyReleaseSignature)`; a signature check that
      throws makes the whole filter throw. */
  function FilterVerified(rs: seq<Json>, publicKey: Option<string>, ed: Envelope.Ed25519): (r: Result<seq<Json>>)
    ensures r.Ok? <==> forall x :: x in rs ==> VerifyReleaseSignature(x, publicKey, ed).Ok?
    ensures r.Ok? ==> forall x :: x in r.value <==> x in rs && VerifyReleaseSignature(x, publicKey, ed) == Ok(true)
  {
    if rs == [] then Ok([])
    else
      var rest := FilterVerified(rs[1..], publicKey, ed);
      assert forall x :: x in rs <==> x == rs[0] || x in rs[1..];
      match VerifyReleaseSignature(rs[0], publicKey, ed)
      case Err(e) => Err(e)
      case Ok(keep) =>
        if rest.Err? then rest
        else if keep then Ok([rs[0]] + rest.value)
        else rest
  }

  /** The first error of two filter outcomes, else their concatenation. */
  function Combine(x: Result<seq<Json>>, y: Result<seq<Json>>): Result<seq<Json>> {
    match x
    case Err(e) => Err(e)
    case Ok(u) =>
      match y
      case Err(e) => Err(e)
      case Ok(v) => Ok(u + v)
  }

  /** The filter's outcome for one candidate on its own. */
  function FilterOne(x: Json, publicKey: Option<string>, ed: Envelope.Ed25519): Result<seq<Json>> {
    match VerifyReleaseSignature(x, publicKey, ed)
    case Err(e) => Err(e)
    case Ok(keep) => Ok(if keep then [x] else [])
  }

  /** The filter keeps the candidates' order and their repeats: filtering
      a concatenation concatenates the filtered parts, the first check that
      throws deciding the error. */
  lemma {:induction false} FilterVerifiedAppend(a: seq<Json>, b: seq<Json>, publicKey: Option<string>,
                                                ed: Envelope.Ed25519)
    ensures FilterVerified(a + b, publicKey, ed) ==
              Combine(FilterVerified(a, publicKey, ed), FilterVerified(b, publicKey, ed))
  {
    if a == [] {
      assert a + b == b;
      var tail := FilterVerified(b, publicKey, ed);
      if tail.Ok? {
        assert [] + tail.value == tail.value;
      }
    } else {
      var ab := a + b;
      assert ab[0] == a[0];
      assert ab[1..] == a[1..] + b;
      var head := FilterOne(a[0], publicKey, ed);
      FilterVerifiedCons(ab, publicKey, ed);
      FilterVerifiedAppend(a[1..], b, publicKey, ed);
      CombineAssociative(head, FilterVerified(a[1..], publicKey, ed), FilterVerified(b, publicKey, ed));
      FilterVerifiedCons(a, publicKey, ed);
    }
  }

  /** Filtering a non-empty list: its first candidate, then the rest. */
  lemma FilterVerifiedCons(rs: seq<Json>, publicKey: Option<string>, ed: Envelope.Ed25519)
    requires rs != []
    ensures FilterVerified(rs, publicKey, ed) ==
              Combine(FilterOne(rs[0], publicKey, ed), FilterVerified(rs[1..], publicKey, ed))
  {
    var rest := FilterVerified(rs[1..], publicKey, ed);
    if rest.Ok? {
      assert [] + rest.value == rest.value;
    }
  }

  lemma CombineAssociative(x: Result<seq<Json>>, y: Result<seq<Json>>, z: Result<seq<Json>>)
    ensures Combine(Combine(x, y), z) == Combine(x, Combine(y, z))
  {
    if x.Ok? && y.Ok? && z.Ok? {
      assert (x.value + y.value) + z.value == x.value + (y.value + z.value);
    }
  }

  /** One candidate is kept exactly when its check gives true. */
  lemma FilterVerifiedSingle(x: Json, publicKey: Option<string>, ed: Envelope.Ed25519)
    ensures var check := VerifyReleaseSignature(x, publicKey, ed);
            FilterVerified([x], publicKey, ed) == if check.Err? then Err(check.error)
                                                  else Ok(if check.value then [x] else [])
  {
    assert [x][1..] == [];
    FilterVerifiedCons([x], publicKey, ed);
    assert FilterVerified([], publicKey, ed) == Ok([]);
    assert [x] + [] == [x];
  }

  // ---------------------------------------------------------------------
  // Choosing the latest

  /** `a.publishedAt || ''` is the receiver of `localeCompare`: a truthy
      value that is not a string has no such method. */
  predicate UncomparableTimestamp(r: Json) {
    TruthyOpt(Prop(r, "publishedAt")) && !Prop(r, "publishedAt").value.JStr?
  }

  /** Some release's `publishedAt` cannot be the comparator's receiver. */
  predicate AnyUncomparable(vs: seq<Json>) {
    exists x :: x in vs && UncomparableTimestamp(x)
  }

  /** `a.publishedAt || ''`, as the text the comparator compares. */
  function PublishedKey(r: Json): string {
    var p := Prop(r, "publishedAt");
    if TruthyOpt(p) && p.value.JStr? then p.value.s else ""
  }

  /** Each release paired with its sort key. */
  function Keyed(rs: seq<Json>): (fs: seq<Field>)
    ensures |fs| == |rs|
    ensures forall i :: 0 <= i < |rs| ==> fs[i] == Field(PublishedKey(rs[i]), rs[i])
  {
    seq(|rs|, i requires 0 <= i < |rs| => Field(PublishedKey(rs[i]), rs[i]))
  }

  /** The stable sort by `publishedAt`, then the last one. */
  function SortedLast(vs: seq<Json>): Option<Json> {
    var sorted := Canonical.SortByKey(Keyed(vs));
    if sorted == [] then None else Some(sorted[|sorted| - 1].value)
  }

  /** `verified.sort(...)` then `verified[verified.length - 1] || null`.
      The comparator runs only when there are two or more releases, and
      then a release with an uncomparable `publishedAt` makes it throw. */
  function LatestOf(vs: seq<Json>): (r: Result<Option<Json>>)
    ensures r.Err? <==> |vs| >= 2 && AnyUncomparable(vs)
    ensures r == Ok(None) <==> vs == []
    ensures r.Ok? && r.value.Some? ==> r.value.value in vs
    ensures |vs| == 1 ==> r == Ok(Some(vs[0]))
  {
    if |vs| >= 2 && AnyUncomparable(vs) then
      Err("(a.publishedAt || \"\").localeCompare is not a function")
    else
      SortedLastIn(vs);
      Ok(SortedLast(vs))
  }

  /** The stable sort's last element is one of the releases. */
  lemma SortedLastIn(vs: seq<Json>)
    ensures SortedLast(vs).None? <==> vs == []
    ensures SortedLast(vs).Some? ==> SortedLast(vs).value in vs
    ensures |vs| == 1 ==> SortedLast(vs) == Some(vs[0])
  {
    var fs := Keyed(vs);
    var sorted := Canonical.SortByKey(fs);
    if sorted != [] {
      assert sorted[|sorted| - 1] in fs;
    }
    if |vs| == 1 {
      assert sorted[0] in fs;
    }
  }

  /** The outcome `fetchLatestRelease` reaches for the given entries. */
  function LatestRelease(cfg: ReleaseConfig, entries: seq<Json>, parse: string -> Option<Json>,
                         ed: Envelope.Ed25519): (r: Result<Option<Json>>)
    ensures !KeyGivenStr(cfg.publisherAddress) ==> r.Err?
    ensures KeyGivenStr(cfg.publisherAddress) && StartsWith(cfg.publisherAddress.value, "rREPLACE") ==> r.Err?
  {
    if !KeyGivenStr(cfg.publisherAddress) || StartsWith(cfg.publisherAddress.value, "rREPLACE") then
      Err("Set release.publisherAddress in config.json to a valid XRPL address.")
    else
      var memoTypeHex := HexCodec.ToUpper(StrOr(cfg.memoTypeHex, ""));
      match Candidates(entries, memoTypeHex, parse)
      case Err(e) => Err(e)
      case Ok(cands) =>
        match FilterVerified(cands, cfg.publisherPublicKey, ed)
        case Err(e) => Err(e)
        case Ok(verified) => LatestOf(verified)
  }

  predicate KeyGivenStr(o: Option<string>) {
    o.Some? && o.value != ""
  }

  /** `fetchLatestRelease`: the loop that collects candidates, then the
      filter, the sort and the choice of the last one. */
  method FetchLatestRelease(cfg: ReleaseConfig, entries: seq<Json>, parse: string -> Option<Json>,
                            ed: Envelope.Ed25519) returns (r: Result<Option<Json>>)
    ensures r == LatestRelease(cfg, entries, parse, ed)
  {
    var publisher := cfg.publisherAddress;
    if !KeyGivenStr(publisher) || StartsWith(publisher.value, "rREPLACE") {
      return Err("Set release.publisherAddress in config.json to a valid XRPL address.");
    }
    var memoTypeHex := HexCodec.ToUpper(StrOr(cfg.memoTypeHex, ""));
    var releases: seq<Json> := [];
    var i := 0;
    while i < |entries|
      invariant 0 <= i <= |entries|
      invariant Candidates(entries[..i], memoTypeHex, parse) == Ok(releases)
    {
      assert entries[..i + 1][..i] == entries[..i];
      var scan := ScanEntry(entries[i], memoTypeHex, parse);
      if scan.Err? {
        assert Candidates(entries[..i + 1], memoTypeHex, parse).Err?;
        CandidatesErrSticks(entries, i + 1, memoTypeHex, parse);
        return Err(scan.error);
      }
      if scan.value.Keep? {
        releases := releases + [scan.value.release];
      }
      i := i + 1;
    }
    assert entries[..i] == entries;
    var verified := FilterVerified(releases, cfg.publisherPublicKey, ed);
    if verified.Err? {
      return Err(verified.error);
    }
    r := LatestOf(verified.value);
  }

  /** Once the scan throws, it has thrown: later entries cannot undo it. */
  lemma {:induction false} CandidatesErrSticks(entries: seq<Json>, n: nat, memoTypeHex: string,
                                                parse: string -> Option<Json>)
    requires n <= |entries|
    requires Candidates(entries[..n], memoTypeHex, parse).Err?
    ensures Candidates(entries, memoTypeHex, parse) == Candidates(entries[..n], memoTypeHex, parse)
    decreases |entries| - n
  {
    if n < |entries| {
      CandidatesErrStep(entries, n, memoTypeHex, parse);
      CandidatesErrSticks(entries, n + 1, memoTypeHex, parse);
    } else {
      assert entries[..n] == entries;
    }
  }

  /** One more entry after a throw keeps the same error. */
  lemma CandidatesErrStep(entries: seq<Json>, n: nat, memoTypeHex: string, parse: string -> Option<Json>)
    requires n < |entries|
    requires Candidates(entries[..n], memoTypeHex, parse).Err?
    ensures Candidates(entries[..n + 1], memoTypeHex, parse) == Candidates(entries[..n], memoTypeHex, parse)
  {
    var longer := entries[..n + 1];
    assert longer != [] && longer[..|longer| - 1] == entries[..n];
  }

  /** The result is a release that was published by this host's publisher
      key: a verified candidate of type RELEASE with the greatest
      `publishedAt` among the verified ones, or null when none verifies.
      Two or more verified releases all have comparable timestamps. */
  lemma LatestIsVerifiedCandidate(cfg: ReleaseConfig, entries: seq<Json>, parse: string -> Option<Json>,
                                  ed: Envelope.Ed25519)
    requires LatestRelease(cfg, entries, parse, ed).Ok?
    ensures var cands := Candidates(entries, HexCodec.ToUpper(StrOr(cfg.memoTypeHex, "")), parse).value;
            var verified := FilterVerified(cands, cfg.publisherPublicKey, ed).value;
            && (|verified| >= 2 ==> !AnyUncomparable(verified))
            && match LatestRelease(cfg, entries, parse, ed).value
               case None => verified == []
               case Some(x) =>
                 x in cands && x in verified && Prop(x, "type") == Some(JStr("RELEASE")) &&
                 VerifyReleaseSignature(x, cfg.publisherPublicKey, ed) == Ok(true) &&
                 forall v :: v in verified ==> StringOrder.Leq(PublishedKey(v), PublishedKey(x))
  {
    var cands := Candidates(entries, HexCodec.ToUpper(StrOr(cfg.memoTypeHex, "")), parse).value;
    var verified := FilterVerified(cands, cfg.publisherPublicKey, ed).value;
    assert LatestRelease(cfg, entries, parse, ed) == LatestOf(verified);
    if verified != [] {
      SortedLastIsLatest(verified);
      var x := LatestOf(verified).value.value;
      forall v | v in verified ensures StringOrder.Leq(PublishedKey(v), PublishedKey(x)) {
        var i :| 0 <= i < |verified| && verified[i] == v;
      }
    }
  }

  /** Two distinct verified candidates, one with a truthy `publishedAt`
      that is not a string (a number, say), make the lookup throw: the
      sort calls the comparator, and the comparator calls a method the
      value does not have. */
  lemma UncomparableTimestampFailsLookup(cfg: ReleaseConfig, entries: seq<Json>, parse: string -> Option<Json>,
                                         ed: Envelope.Ed25519, x: Json, y: Json)
    requires KeyGivenStr(cfg.publisherAddress) && !StartsWith(cfg.publisherAddress.value, "rREPLACE")
    requires var cands := Candidates(entries, HexCodec.ToUpper(StrOr(cfg.memoTypeHex, "")), parse);
             cands.Ok? && x in cands.value && y in cands.value && FilterVerified(cands.value, cfg.publisherPublicKey, ed).Ok?
    requires x != y
    requires VerifyReleaseSignature(x, cfg.publisherPublicKey, ed) == Ok(true)
    requires VerifyReleaseSignature(y, cfg.publisherPublicKey, ed) == Ok(true)
    requires UncomparableTimestamp(x)
    ensures LatestRelease(cfg, entries, parse, ed).Err?
  {
    var cands := Candidates(entries, HexCodec.ToUpper(StrOr(cfg.memoTypeHex, "")), parse).value;
    var verified := FilterVerified(cands, cfg.publisherPublicKey, ed).value;
    assert x in verified && y in verified;
    UncomparableTimestampThrows(verified, x, y);
    assert LatestRelease(cfg, entries, parse, ed) == LatestOf(verified);
  }

  /** Two distinct releases, one of them uncomparable, make the sort throw. */
  lemma UncomparableTimestampThrows(vs: seq<Json>, x: Json, y: Json)
    requires x in vs && y in vs && x != y
    requires UncomparableTimestamp(x)
    ensures LatestOf(vs).Err?
  {
    var i :| 0 <= i < |vs| && vs[i] == x;
    var k :| 0 <= k < |vs| && vs[k] == y;
    assert i != k;
    assert AnyUncomparable(vs);
  }

  /** A single RELEASE memo whose `sig` does not decode to a 64-byte
      signature makes the whole lookup throw, whatever the other releases
      are: with a publisher key configured, no release is chosen. Any memo
      the scan keeps is such a candidate (`KeptIsCandidate`). */
  lemma MalformedSignatureFailsLookup(cfg: ReleaseConfig, entries: seq<Json>, parse: string -> Option<Json>,
                                      ed: Envelope.Ed25519, x: Json)
    requires KeyGivenStr(cfg.publisherAddress) && !StartsWith(cfg.publisherAddress.value, "rREPLACE")
    requires Envelope.KeyGiven(cfg.publisherPublicKey)
    requires Candidates(entries, HexCodec.ToUpper(StrOr(cfg.memoTypeHex, "")), parse).Ok?
    requires x in Candidates(entries, HexCodec.ToUpper(StrOr(cfg.memoTypeHex, "")), parse).value
    requires Prop(x, "sig").Some? && Prop(x, "sig").value.JStr? && Prop(x, "sig").value.s != ""
    requires |ed.base64(Prop(x, "sig").value.s)| != Envelope.SignatureBytes
    ensures LatestRelease(cfg, entries, parse, ed).Err?
  {
    MalformedSignatureThrows(x, cfg.publisherPublicKey, ed);
    ThrowingCheckFailsLookup(cfg, entries, parse, ed, x);
  }

  /** tweetnacl refuses a signature of the wrong size. */
  lemma MalformedSignatureThrows(x: Json, publicKey: Option<string>, ed: Envelope.Ed25519)
    requires Envelope.KeyGiven(publicKey)
    requires Prop(x, "sig").Some? && Prop(x, "sig").value.JStr? && Prop(x, "sig").value.s != ""
    requires |ed.base64(Prop(x, "sig").value.s)| != Envelope.SignatureBytes
    ensures VerifyReleaseSignature(x, publicKey, ed).Err?
  {
  }

  /** Every release the scan keeps is among the candidates. */
  lemma KeptIsCandidate(entries: seq<Json>, memoTypeHex: string, parse: string -> Option<Json>, i: int)
    requires Candidates(entries, memoTypeHex, parse).Ok?
    requires 0 <= i < |entries| && KeptAt(entries, i, memoTypeHex, parse)
    ensures ScanEntry(entries[i], memoTypeHex, parse).value.release in Candidates(entries, memoTypeHex, parse).value
  {
    CandidatesInOrder(entries, memoTypeHex, parse);
    var idx := KeptBelow(Scans(entries, memoTypeHex, parse), |entries|);
    var j :| 0 <= j < |idx| && idx[j] == i;
    assert ScanEntry(entries[idx[j]], memoTypeHex, parse) == Ok(Keep(Candidates(entries, memoTypeHex, parse).value[j]));
  }

  /** One candidate whose signature check throws fails the lookup. */
  lemma ThrowingCheckFailsLookup(cfg: ReleaseConfig, entries: seq<Json>, parse: string -> Option<Json>,
                                 ed: Envelope.Ed25519, x: Json)
    requires KeyGivenStr(cfg.publisherAddress) && !StartsWith(cfg.publisherAddress.value, "rREPLACE")
    requires Candidates(entries, HexCodec.ToUpper(StrOr(cfg.memoTypeHex, "")), parse).Ok?
    requires x in Candidates(entries, HexCodec.ToUpper(StrOr(cfg.memoTypeHex, "")), parse).value
    requires VerifyReleaseSignature(x, cfg.publisherPublicKey, ed).Err?
    ensures LatestRelease(cfg, entries, parse, ed).Err?
  {
  }

  /** Selection: when the sort does not throw, the chosen release has the
      greatest `publishedAt` (missing counts as ""), and every release
      listed after it has a strictly smaller one, so the later of two equal
      timestamps wins. */
  lemma SortedLastIsLatest(vs: seq<Json>)
    requires vs != []
    requires LatestOf(vs).Ok?
    ensures exists j :: 0 <= j < |vs| && LatestOf(vs) == Ok(Some(vs[j])) &&
              (forall i :: 0 <= i < |vs| ==> StringOrder.Leq(PublishedKey(vs[i]), PublishedKey(vs[j]))) &&
              (forall i :: j < i < |vs| ==> StringOrder.Less(PublishedKey(vs[i]), PublishedKey(vs[j])))
  {
    var fs := Keyed(vs);
    Canonical.SortLast(fs);
    Canonical.LatestIndexIsGreatest(fs);
    var j := Canonical.LatestIndex(fs);
    assert forall i :: 0 <= i < |vs| ==> fs[i].key == PublishedKey(vs[i]);
    assert LatestOf(vs) == Ok(SortedLast(vs));
  }
}
