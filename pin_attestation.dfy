/**
 * `host/tee/gramine/pin-attestation.js`: run the attestation verifier on
 * this machine's evidence once and pin the reported MRENCLAVE and MRSIGNER
 * into the configuration's allowlists. The configuration's attestation
 * section is the object the script updates in place; reading and saving the
 * file around it are left to the caller.
 */
module PinAttestation {
  import opened Wrappers
  import opened Json
  import opened JsValue
  import opened Attestation

  /** `if (x && !list.includes(x)) list.push(x)`. */
  function AppendIfAbsent(list: seq<Json>, x: Json): (r: seq<Json>)
    ensures |list| <= |r| <= |list| + 1 && r[..|list|] == list
    ensures |r| == |list| + 1 <==> Truthy(x) && !Includes(list, Some(x))
    ensures |r| == |list| + 1 ==> r[|list|] == x
  {
    if Truthy(x) && !Includes(list, Some(x)) then list + [x] else list
  }

  /** Pinning a value a second time changes nothing, for any value that is
      not an object or array (those are never `includes`-equal to a copy). */
  lemma AppendIfAbsentIdempotent(list: seq<Json>, x: Json)
    requires !x.JArr? && !x.JObj?
    ensures AppendIfAbsent(AppendIfAbsent(list, x), x) == AppendIfAbsent(list, x)
  {
    var once := AppendIfAbsent(list, x);
    if |once| == |list| + 1 {
      assert StrictEquals(Some(once[|list|]), Some(x));
      assert Includes(once, Some(x));
    }
  }

  /** The section after pinning `claims`: both allowlists are written back,
      each with the claimed value appended when it is new; nothing else in
      the section changes. */
  function Pinned(att: AttestationConfig, claims: Json): (r: AttestationConfig)
    ensures r == att.(allowedMrenclaves := r.allowedMrenclaves, allowedMrsigners := r.allowedMrsigners)
    ensures r.allowedMrenclaves.Some? && r.allowedMrsigners.Some?
    ensures var before := Allowlist(att.allowedMrenclaves);
            var m := OrElse(Prop(claims, "mrenclave"), JStr(""));
            r.allowedMrenclaves.value == if Truthy(m) && !Includes(before, Some(m)) then before + [m] else before
    ensures var before := Allowlist(att.allowedMrsigners);
            var m := OrElse(Prop(claims, "mrsigner"), JStr(""));
            r.allowedMrsigners.value == if Truthy(m) && !Includes(before, Some(m)) then before + [m] else before
  {
    var mrenclave := OrElse(Prop(claims, "mrenclave"), JStr(""));
    var mrsigner := OrElse(Prop(claims, "mrsigner"), JStr(""));
    att.(allowedMrenclaves := Some(AppendIfAbsent(Allowlist(att.allowedMrenclaves), mrenclave)),
         allowedMrsigners := Some(AppendIfAbsent(Allowlist(att.allowedMrsigners), mrsigner)))
  }

  /** After pinning, a truthy claimed measurement that is not an object or
      array is in its allowlist, so the host's allowlist check of the same
      claims passes it. */
  lemma PinnedIncludesClaims(att: AttestationConfig, claims: Json)
    ensures var m := OrElse(Prop(claims, "mrenclave"), JStr(""));
            Truthy(m) && !m.JArr? && !m.JObj? ==>
              Includes(Pinned(att, claims).allowedMrenclaves.value, Some(m)) && EnclaveAllowed(Pinned(att, claims), claims)
    ensures var m := OrElse(Prop(claims, "mrsigner"), JStr(""));
            Truthy(m) && !m.JArr? && !m.JObj? ==>
              Includes(Pinned(att, claims).allowedMrsigners.value, Some(m)) && SignerAllowed(Pinned(att, claims), claims)
  {
    var r := Pinned(att, claims);
    var e := OrElse(Prop(claims, "mrenclave"), JStr(""));
    var before := Allowlist(att.allowedMrenclaves);
    if Truthy(e) && !e.JArr? && !e.JObj? && !Includes(before, Some(e)) {
      assert r.allowedMrenclaves.value[|before|] == e;
      assert StrictEquals(Some(r.allowedMrenclaves.value[|before|]), Some(e));
    }
    var g := OrElse(Prop(claims, "mrsigner"), JStr(""));
    var beforeSigners := Allowlist(att.allowedMrsigners);
    if Truthy(g) && !g.JArr? && !g.JObj? && !Includes(beforeSigners, Some(g)) {
      assert r.allowedMrsigners.value[|beforeSigners|] == g;
      assert StrictEquals(Some(r.allowedMrsigners.value[|beforeSigners|]), Some(g));
    }
  }

  /** Pinning the same claims twice gives the same section as pinning once. */
  lemma PinIdempotent(att: AttestationConfig, claims: Json)
    requires var e := Prop(claims, "mrenclave"); e.None? || (!e.value.JArr? && !e.value.JObj?)
    requires var s := Prop(claims, "mrsigner"); s.None? || (!s.value.JArr? && !s.value.JObj?)
    ensures Pinned(Pinned(att, claims), claims) == Pinned(att, claims)
  {
    AppendIfAbsentIdempotent(Allowlist(att.allowedMrenclaves), OrElse(Prop(claims, "mrenclave"), JStr("")));
    AppendIfAbsentIdempotent(Allowlist(att.allowedMrsigners), OrElse(Prop(claims, "mrsigner"), JStr("")));
  }

  /** The verifier's environment in this script: only the PCCS URL. */
  function PinEnv(att: AttestationConfig, base: map<string, string>): (env: map<string, string>)
    ensures TruthyOpt(att.pccsUrl) ==> env == base["PCCS_URL" := ToStr(att.pccsUrl.value)]
    ensures !TruthyOpt(att.pccsUrl) ==> env == base
  {
    if TruthyOpt(att.pccsUrl) then base["PCCS_URL" := ToStr(att.pccsUrl.value)] else base
  }

  /** The claims the script pins, or the error it stops with. `files` maps
      paths to their text; `parse` is `JSON.parse`. */
  function PinClaims(att: AttestationConfig, files: map<string, string>, parse: string -> Option<Json>,
                     verifier: (seq<Json>, Json, map<string, string>) -> Result<Json>,
                     base: map<string, string>): (r: Result<Json>)
    ensures !PathGiven(att.evidencePath) ==> r == Err("security.attestation.evidencePath not set")
    ensures PathGiven(att.evidencePath) && NormalizeCommand(att.verifyCommand).None? ==>
              r == Err("security.attestation.verifyCommand not set")
    ensures PathGiven(att.evidencePath) && NormalizeCommand(att.verifyCommand).Some? &&
            att.evidencePath.value !in files ==>
              r == Err("Evidence not found at " + att.evidencePath.value)
    // the evidence file is parsed, handed to the verifier with the PCCS
    // environment, and the verifier's claims are kept only when `ok`
    ensures PathGiven(att.evidencePath) && NormalizeCommand(att.verifyCommand).Some? &&
            att.evidencePath.value in files && parse(files[att.evidencePath.value]).None? ==>
              r.Err?
    ensures r.Ok? ==>
              PathGiven(att.evidencePath) && NormalizeCommand(att.verifyCommand).Some? &&
              att.evidencePath.value in files && parse(files[att.evidencePath.value]).Some? &&
              verifier(NormalizeCommand(att.verifyCommand).value, parse(files[att.evidencePath.value]).value,
                       PinEnv(att, base)) == Ok(r.value) &&
              TruthyOpt(Prop(r.value, "ok"))
    ensures PathGiven(att.evidencePath) && NormalizeCommand(att.verifyCommand).Some? &&
            att.evidencePath.value in files && parse(files[att.evidencePath.value]).Some? ==>
              var out := verifier(NormalizeCommand(att.verifyCommand).value, parse(files[att.evidencePath.value]).value,
                                  PinEnv(att, base));
              (r.Ok? <==> out.Ok? && TruthyOpt(Prop(out.value, "ok")))
  {
    var command := NormalizeCommand(att.verifyCommand);
    if !PathGiven(att.evidencePath) then Err("security.attestation.evidencePath not set")
    else if command.None? then Err("security.attestation.verifyCommand not set")
    else if att.evidencePath.value !in files then Err("Evidence not found at " + att.evidencePath.value)
    else match parse(files[att.evidencePath.value])
      case None => Err("Unexpected token in JSON")
      case Some(evidence) =>
        match verifier(command.value, evidence, PinEnv(att, base))
        case Err(e) => Err(e)
        case Ok(claims) =>
          if !TruthyOpt(Prop(claims, "ok")) then Err("Attestation verification failed") else Ok(claims)
  }

  predicate PathGiven(o: Option<string>) {
    o.Some? && o.value != ""
  }

  /** The configuration's `security.attestation` section. */
  class AttestationSection {
    var attestation: AttestationConfig

    constructor(attestation: AttestationConfig)
      ensures this.attestation == attestation
    {
      this.attestation := attestation;
    }

    /** `main`: on any failure the section is left as it was; otherwise the
        claimed measurements are pushed onto the allowlists. */
    method Pin(files: map<string, string>, parse: string -> Option<Json>,
               verifier: (seq<Json>, Json, map<string, string>) -> Result<Json>,
               base: map<string, string>) returns (r: Outcome)
      modifies this
      ensures var claims := PinClaims(old(attestation), files, parse, verifier, base);
              if claims.Err? then r == Fail(claims.error) && attestation == old(attestation)
              else r == Pass && attestation == Pinned(old(attestation), claims.value)
    {
      var att := attestation;
      var verifyCommand := NormalizeCommand(att.verifyCommand);
      if !PathGiven(att.evidencePath) {
        return Fail("security.attestation.evidencePath not set");
      }
      if verifyCommand.None? {
        return Fail("security.attestation.verifyCommand not set");
      }
      var evidencePath := att.evidencePath.value;
      if evidencePath !in files {
        return Fail("Evidence not found at " + evidencePath);
      }
      var evidence := parse(files[evidencePath]);
      if evidence.None? {
        return Fail("Unexpected token in JSON");
      }
      var env := PinEnv(att, base);
      var claims := verifier(verifyCommand.value, evidence.value, env);
      if claims.Err? {
        return Fail(claims.error);
      }
      if !TruthyOpt(Prop(claims.value, "ok")) {
        return Fail("Attestation verification failed");
      }
      var mrenclave := OrElse(Prop(claims.value, "mrenclave"), JStr(""));
      var mrsigner := OrElse(Prop(claims.value, "mrsigner"), JStr(""));
      var allowedMrenclaves := att.allowedMrenclaves.GetOr([]);
      var allowedMrsigners := att.allowedMrsigners.GetOr([]);
      if Truthy(mrenclave) && !Includes(allowedMrenclaves, Some(mrenclave)) {
        allowedMrenclaves := allowedMrenclaves + [mrenclave];
      }
      if Truthy(mrsigner) && !Includes(allowedMrsigners, Some(mrsigner)) {
        allowedMrsigners := allowedMrsigners + [mrsigner];
      }
      attestation := attestation.(allowedMrenclaves := Some(allowedMrenclaves));
      attestation := attestation.(allowedMrsigners := Some(allowedMrsigners));
      r := Pass;
    }
  }
}
