/**
 * `host/src/attestation.js`: reading the attestation evidence, normalising
 * the verifier command, the allowlist checks on the verifier's claims, and
 * the decision structure of `verifyAttestation`. The verifier process, the
 * clock and `new Date(...)` parsing are parameters.
 */
module Attestation {
  import opened Wrappers
  import opened Seqs
  import opened Json
  import opened JsValue

  /** `security.attestation` of the configuration; an absent (or null)
      setting is None. */
  datatype AttestationConfig = AttestationConfig(
    enabled: Option<bool>,
    evidencePath: Option<string>,
    verifyCommand: Option<Json>,
    allowedMrenclaves: Option<seq<Json>>,
    allowedMrsigners: Option<seq<Json>>,
    minIsvSvn: Option<Json>,
    maxAgeSeconds: Option<Json>,
    pccsUrl: Option<Json>)

  // ---------------------------------------------------------------------
  // normalizeCommand

  /** The length of the leading run of non-whitespace characters. */
  function WordLength(s: string): (n: nat)
    ensures n <= |s|
    ensures forall i :: 0 <= i < n ==> !IsSpace(s[i])
    ensures n < |s| ==> IsSpace(s[n])
  {
    if s == [] || IsSpace(s[0]) then 0 else 1 + WordLength(s[1..])
  }

  /** `s.split(/\s+/)`: the pieces between maximal runs of whitespace; a
      leading or trailing run gives an empty first or last piece. */
  function SplitWhitespace(s: string): (words: seq<string>)
    ensures |words| >= 1
    ensures forall i :: 0 <= i < |words| ==> forall j :: 0 <= j < |words[i]| ==> !IsSpace(words[i][j])
    decreases |s|
  {
    var n := WordLength(s);
    if n == |s| then [s]
    else [s[..n]] + SplitWhitespace(TrimStart(s[n..]))
  }

  /** The characters of `s` that are not whitespace, in order. */
  function NonSpace(s: string): string {
    if s == [] then "" else (if IsSpace(s[0]) then "" else [s[0]]) + NonSpace(s[1..])
  }


  lemma {:induction false} NonSpaceAppend(a: string, b: string)
    ensures NonSpace(a + b) == NonSpace(a) + NonSpace(b)
  {
    if a == [] {
      assert a + b == b;
    } else {
      assert (a + b)[0] == a[0] && (a + b)[1..] == a[1..] + b;
      NonSpaceAppend(a[1..], b);
    }
  }

  lemma {:induction false} NonSpaceOfWord(s: string)
    requires forall i :: 0 <= i < |s| ==> !IsSpace(s[i])
    ensures NonSpace(s) == s
  {
    if s != [] {
      NonSpaceOfWord(s[1..]);
    }
  }

  /** Splitting loses nothing but whitespace: the pieces, put back
      together, are the non-whitespace characters of the input in order. */
  lemma {:induction false} SplitKeepsText(s: string)
    ensures Concat(SplitWhitespace(s)) == NonSpace(s)
    decreases |s|
  {
    var n := WordLength(s);
    if n == |s| {
      NonSpaceOfWord(s);
    } else {
      var rest := TrimStart(s[n..]);
      SplitKeepsText(rest);
      SplitStep(s, n, rest);
      assert SplitWhitespace(s) == [s[..n]] + SplitWhitespace(rest);
    }
  }

  lemma SplitStep(s: string, n: nat, rest: string)
    requires n == WordLength(s) < |s| && rest == TrimStart(s[n..])
    ensures NonSpace(s) == s[..n] + NonSpace(rest)
  {
    NonSpaceOfWordPrefix(s, n);
    NonSpaceOfTrim(s[n..], rest);
  }

  /** The leading word is kept whole. */
  lemma NonSpaceOfWordPrefix(s: string, n: nat)
    requires n == WordLength(s)
    ensures NonSpace(s) == s[..n] + NonSpace(s[n..])
  {
    assert s == s[..n] + s[n..];
    NonSpaceAppend(s[..n], s[n..]);
    assert forall i :: 0 <= i < n ==> !IsSpace(s[..n][i]);
    NonSpaceOfWord(s[..n]);
  }

  /** Leading whitespace is dropped. */
  lemma NonSpaceOfTrim(t: string, rest: string)
    requires rest == TrimStart(t)
    ensures NonSpace(t) == NonSpace(rest)
  {
    NonSpaceDropSpaces(t, |t| - |rest|);
  }

  lemma {:induction false} NonSpaceDropSpaces(t: string, k: nat)
    requires k <= |t| && forall i :: 0 <= i < k ==> IsSpace(t[i])
    ensures NonSpace(t) == NonSpace(t[k..])
  {
    if k > 0 {
      assert IsSpace(t[0]);
      assert "" + NonSpace(t[1..]) == NonSpace(t[1..]);
      assert t[1..][k - 1..] == t[k..];
      NonSpaceDropSpaces(t[1..], k - 1);
    }
  }

  /** A string without leading or trailing whitespace splits into
      non-empty words only. */
  lemma {:induction false} TrimmedSplitHasNoEmptyWord(s: string)
    requires s != [] && !IsSpace(s[0]) && !IsSpace(s[|s| - 1])
    ensures forall i :: 0 <= i < |SplitWhitespace(s)| ==> SplitWhitespace(s)[i] != ""
    decreases |s|
  {
    var n := WordLength(s);
    if n < |s| {
      var rest := TrimStart(s[n..]);
      assert rest != [] && rest[|rest| - 1] == s[|s| - 1];
      TrimmedSplitHasNoEmptyWord(rest);
    }
  }

  /** The words as JSON strings. */
  function Strings(words: seq<string>): (r: seq<Json>)
    ensures |r| == |words| && forall i :: 0 <= i < |words| ==> r[i] == JStr(words[i])
  {
    if words == [] then [] else [JStr(words[0])] + Strings(words[1..])
  }

  /** `normalizeCommand`: absent or falsy gives null, an array is taken as
      it is, a string is trimmed and split on whitespace, anything else
      gives null. */
  function NormalizeCommand(cmd: Option<Json>): (r: Option<seq<Json>>)
    ensures !TruthyOpt(cmd) ==> r.None?
    ensures TruthyOpt(cmd) && cmd.value.JArr? ==> r == Some(cmd.value.items)
    ensures TruthyOpt(cmd) && !cmd.value.JArr? && !cmd.value.JStr? ==> r.None?
    ensures TruthyOpt(cmd) && cmd.value.JStr? ==>
              r.Some? && |r.value| >= 1 && forall i :: 0 <= i < |r.value| ==> r.value[i].JStr?
  {
    if !TruthyOpt(cmd) then None
    else match cmd.value
      case JArr(items) => Some(items)
      case JStr(s) =>
        Some(Strings(SplitWhitespace(Trim(s))))
      case _ => None
  }

  /** A command string becomes its words: none empty unless the string is
      blank (then `[""]`), none holding whitespace, and together they are
      the command's non-whitespace text. */
  lemma CommandWords(s: string)
    requires s != ""
    ensures var r := NormalizeCommand(Some(JStr(s))).value;
            var words := SplitWhitespace(Trim(s));
            r == Strings(words) &&
            Concat(words) == NonSpace(Trim(s)) &&
            (Trim(s) == "" ==> r == [JStr("")]) &&
            (Trim(s) != "" ==> forall i :: 0 <= i < |words| ==> words[i] != "")
  {
    var t := Trim(s);
    SplitKeepsText(t);
    if t != "" {
      TrimmedSplitHasNoEmptyWord(t);
    }
  }

  // ---------------------------------------------------------------------
  // checkAllowlist

  /** `list || []`. */
  function Allowlist(o: Option<seq<Json>>): seq<Json> {
    o.GetOr([])
  }

  /** `list.includes(x)`, for values from separately parsed documents. */
  predicate Includes(list: seq<Json>, x: Option<Json>) {
    exists i :: 0 <= i < |list| && StrictEquals(Some(list[i]), x)
  }

  /** `Number(x ?? 0)`. */
  function NumberOrZero(o: Option<Json>): Num {
    if o.None? || o.value.JNull? then Int(0) else ToNumber(o)
  }

  /** `a < b` between numbers; a comparison with NaN is false. */
  predicate NumLess(a: Num, b: Num) {
    a.Int? && b.Int? && a.i < b.i
  }

  /** `Math.floor((now - t) / 1000)`. */
  function AgeSeconds(now: int, t: int): int {
    (now - t) / 1000
  }

  /** The claim's `mrenclave` is allowed: the list is empty or holds it. */
  predicate EnclaveAllowed(att: AttestationConfig, claims: Json) {
    Allowlist(att.allowedMrenclaves) == [] || Includes(Allowlist(att.allowedMrenclaves), Prop(claims, "mrenclave"))
  }

  /** The claim's `mrsigner` is allowed: the list is empty or holds it. */
  predicate SignerAllowed(att: AttestationConfig, claims: Json) {
    Allowlist(att.allowedMrsigners) == [] || Includes(Allowlist(att.allowedMrsigners), Prop(claims, "mrsigner"))
  }

  /** A finite minimum is set and the claim's `isvsvn` is below it. */
  predicate SvnBelowMinimum(att: AttestationConfig, claims: Json) {
    NumberOrZero(att.minIsvSvn).Int? && NumLess(ToNumber(Prop(claims, "isvsvn")), NumberOrZero(att.minIsvSvn))
  }

  /** A positive maximum age is set and the claim carries a timestamp
      further in the past than that. */
  predicate TooOld(att: AttestationConfig, claims: Json, now: int, parseDate: Json -> Num) {
    var maxAge := NumberOrZero(att.maxAgeSeconds);
    maxAge.Int? && maxAge.i > 0 && TruthyOpt(Prop(claims, "timestamp")) &&
    var t := parseDate(Prop(claims, "timestamp").value);
    t.Int? && AgeSeconds(now, t.i) > maxAge.i
  }

  /** `checkAllowlist`; `parseDate` is `new Date(x).getTime()`. */
  function CheckAllowlist(att: AttestationConfig, claims: Json, now: int, parseDate: Json -> Num): (r: Outcome)
    // the checks run in order and the first failure is reported
    ensures !EnclaveAllowed(att, claims) ==> r == Fail("MRENCLAVE not allowed")
    ensures EnclaveAllowed(att, claims) && !SignerAllowed(att, claims) ==> r == Fail("MRSIGNER not allowed")
    ensures EnclaveAllowed(att, claims) && SignerAllowed(att, claims) && SvnBelowMinimum(att, claims) ==>
              r == Fail("ISVSVN below minimum")
    ensures EnclaveAllowed(att, claims) && SignerAllowed(att, claims) && !SvnBelowMinimum(att, claims) &&
            TooOld(att, claims, now, parseDate) ==>
              r == Fail("Attestation is too old")
    // a claim passes exactly when it meets every configured check
    ensures r == Pass <==>
              EnclaveAllowed(att, claims) && SignerAllowed(att, claims) && !SvnBelowMinimum(att, claims) &&
              !TooOld(att, claims, now, parseDate)
    // read on the claim's own values: a passing claim is in every
    // non-empty allowlist, meets the minimum security version, and is not
    // older than the maximum age
    ensures r == Pass ==>
              (Allowlist(att.allowedMrenclaves) == [] || Includes(Allowlist(att.allowedMrenclaves), Prop(claims, "mrenclave"))) &&
              (Allowlist(att.allowedMrsigners) == [] || Includes(Allowlist(att.allowedMrsigners), Prop(claims, "mrsigner")))
    ensures r == Pass && NumberOrZero(att.minIsvSvn).Int? && ToNumber(Prop(claims, "isvsvn")).Int? ==>
              ToNumber(Prop(claims, "isvsvn")).i >= NumberOrZero(att.minIsvSvn).i
    ensures r == Pass && NumberOrZero(att.maxAgeSeconds).Int? && NumberOrZero(att.maxAgeSeconds).i > 0 &&
            TruthyOpt(Prop(claims, "timestamp")) && parseDate(Prop(claims, "timestamp").value).Int? ==>
              AgeSeconds(now, parseDate(Prop(claims, "timestamp").value).i) <= NumberOrZero(att.maxAgeSeconds).i
    // with nothing configured every claim passes but one whose `isvsvn`
    // is negative (the minimum defaults to 0)
    ensures att.allowedMrenclaves.None? && att.allowedMrsigners.None? && att.minIsvSvn.None? &&
            att.maxAgeSeconds.None? ==>
              (r == Pass <==> !NumLess(ToNumber(Prop(claims, "isvsvn")), Int(0)))
  {
    if !EnclaveAllowed(att, claims) then Fail("MRENCLAVE not allowed")
    else if !SignerAllowed(att, claims) then Fail("MRSIGNER not allowed")
    else if SvnBelowMinimum(att, claims) then Fail("ISVSVN below minimum")
    else if TooOld(att, claims, now, parseDate) then Fail("Attestation is too old")
    else Pass
  }

  /** A claim without a usable `isvsvn` compares as NaN and is never below
      the minimum; a claim without a timestamp is never too old. */
  lemma MissingFieldsPassNumericChecks(att: AttestationConfig, claims: Json, now: int, parseDate: Json -> Num)
    requires att.allowedMrenclaves.None? && att.allowedMrsigners.None?
    requires ToNumber(Prop(claims, "isvsvn")) == NaN
    requires !TruthyOpt(Prop(claims, "timestamp"))
    ensures CheckAllowlist(att, claims, now, parseDate) == Pass
  {
  }

  // ---------------------------------------------------------------------
  // verifyAttestation

  /** The environment handed to the verifier: an allowlist with exactly one
      entry is passed on as a hint, and a configured PCCS URL is passed on. */
  function VerifierEnv(att: AttestationConfig, base: map<string, string>): (env: map<string, string>)
    ensures |Allowlist(att.allowedMrenclaves)| == 1 ==>
              "ATT_ALLOWED_MRENCLAVE" in env && env["ATT_ALLOWED_MRENCLAVE"] == ToStr(Allowlist(att.allowedMrenclaves)[0])
    ensures |Allowlist(att.allowedMrsigners)| == 1 ==>
              "ATT_ALLOWED_MRSIGNER" in env && env["ATT_ALLOWED_MRSIGNER"] == ToStr(Allowlist(att.allowedMrsigners)[0])
    ensures TruthyOpt(att.pccsUrl) ==> "PCCS_URL" in env && env["PCCS_URL"] == ToStr(att.pccsUrl.value)
    ensures forall k :: k in base ==> k in env
    ensures forall k :: k in env && !(k in base && env[k] == base[k]) ==>
              (k == "ATT_ALLOWED_MRENCLAVE" && |Allowlist(att.allowedMrenclaves)| == 1) ||
              (k == "ATT_ALLOWED_MRSIGNER" && |Allowlist(att.allowedMrsigners)| == 1) ||
              (k == "PCCS_URL" && TruthyOpt(att.pccsUrl))
  {
    var enclaves := Allowlist(att.allowedMrenclaves);
    var signers := Allowlist(att.allowedMrsigners);
    var e1 := if |enclaves| == 1 then base["ATT_ALLOWED_MRENCLAVE" := ToStr(enclaves[0])] else base;
    var e2 := if |signers| == 1 then e1["ATT_ALLOWED_MRSIGNER" := ToStr(signers[0])] else e1;
    if TruthyOpt(att.pccsUrl) then e2["PCCS_URL" := ToStr(att.pccsUrl.value)] else e2
  }

  /** `verifyAttestation`. `verifier(command, evidence, env)` runs the
      verifier process and parses its output; Err where that throws. */
  function VerifyAttestation(att: AttestationConfig, evidence: Json, base: map<string, string>,
                             verifier: (seq<Json>, Json, map<string, string>) -> Result<Json>,
                             now: int, parseDate: Json -> Num): (r: Result<Json>)
    ensures NormalizeCommand(att.verifyCommand).None? ==>
              r == Err("security.attestation.verifyCommand is required when attestation is enabled")
    ensures r.Ok? ==>
              NormalizeCommand(att.verifyCommand).Some? &&
              verifier(NormalizeCommand(att.verifyCommand).value, evidence, VerifierEnv(att, base)) == Ok(r.value) &&
              TruthyOpt(Prop(r.value, "ok")) &&
              CheckAllowlist(att, r.value, now, parseDate) == Pass
    // and conversely, each outcome of the verifier run decides the result
    ensures var command := NormalizeCommand(att.verifyCommand);
            command.Some? ==>
              var out := verifier(command.value, evidence, VerifierEnv(att, base));
              && (out.Err? ==> r == Err(out.error))
              && (out.Ok? && !TruthyOpt(Prop(out.value, "ok")) ==> r == Err("Attestation verification failed"))
              && (out.Ok? && TruthyOpt(Prop(out.value, "ok")) ==>
                    match CheckAllowlist(att, out.value, now, parseDate)
                    case Fail(e) => r == Err(e)
                    case Pass => r == Ok(out.value))
  {
    match NormalizeCommand(att.verifyCommand)
    case None => Err("security.attestation.verifyCommand is required when attestation is enabled")
    case Some(command) => JudgeClaims(att, verifier(command, evidence, VerifierEnv(att, base)), now, parseDate)
  }

  /** What the verifier run gives decides the outcome: its own error, a
      reply without a truthy `ok`, or the allowlist's verdict on the claims. */
  function JudgeClaims(att: AttestationConfig, out: Result<Json>, now: int, parseDate: Json -> Num): (r: Result<Json>)
    ensures r.Ok? ==> out == Ok(r.value) && TruthyOpt(Prop(r.value, "ok")) && CheckAllowlist(att, r.value, now, parseDate) == Pass
    ensures out.Err? ==> r == Err(out.error)
    ensures out.Ok? && !TruthyOpt(Prop(out.value, "ok")) ==> r == Err("Attestation verification failed")
    ensures out.Ok? && TruthyOpt(Prop(out.value, "ok")) ==>
              match CheckAllowlist(att, out.value, now, parseDate)
              case Fail(e) => r == Err(e)
              case Pass => r == Ok(out.value)
  {
    match out
    case Err(e) => Err(e)
    case Ok(claims) =>
      if !TruthyOpt(Prop(claims, "ok")) then Err("Attestation verification failed")
      else match CheckAllowlist(att, claims, now, parseDate)
        case Fail(e) => Err(e)
        case Pass => Ok(claims)
  }

  /** `loadAttestationEvidence`: no path gives null; text that does not
      parse is wrapped as `{ raw }`. `files` maps paths to their text. */
  function LoadAttestationEvidence(att: AttestationConfig, files: map<string, string>,
                                   parse: string -> Option<Json>): (r: Result<Option<Json>>)
    ensures !TruthyOpt(if att.evidencePath.Some? then Some(JStr(att.evidencePath.value)) else None) ==> r == Ok(None)
    ensures r.Err? <==> att.evidencePath.Some? && att.evidencePath.value != "" && att.evidencePath.value !in files
    ensures r.Ok? && r.value.Some? && parse(files[att.evidencePath.value]).None? ==>
              r.value.value == JObj([Field("raw", JStr(files[att.evidencePath.value]))])
    ensures r.Ok? && r.value.Some? && parse(files[att.evidencePath.value]).Some? ==>
              r.value == parse(files[att.evidencePath.value])
    ensures r.Ok? ==> (r.value.Some? <==> att.evidencePath.Some? && att.evidencePath.value != "")
  {
    if att.evidencePath.None? || att.evidencePath.value == "" then Ok(None)
    else
      var path := att.evidencePath.value;
      if path !in files then Err("Attestation evidence not found at " + path)
      else match parse(files[path])
        case Some(j) => Ok(Some(j))
        case None => Ok(Some(JObj([Field("raw", JStr(files[path]))])))
  }
}
