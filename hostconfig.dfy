/**
 * The settings `host/src/index.js` reads from its configuration for sending
 * and admitting envelopes, and the defaults it applies to them. An absent
 * (or null) setting is None.
 */
module HostConfig {
  import opened Wrappers
  import opened Json
  import opened JsValue
  import Attestation
  import Registration

  /** `security.pow`. */
  datatype PowSection = PowSection(enabled: Option<bool>, difficulty: Option<Json>, salt: Option<string>)

  /** `security`. `publicKeys` maps a sender address to its base64 key. */
  datatype SecuritySection = SecuritySection(
    enforceSignatures: Option<bool>,
    publicKeys: map<string, string>,
    signingKeyBase64: Option<string>,
    pow: PowSection,
    attestation: Attestation.AttestationConfig)

  /** `ipfs`. */
  datatype IpfsSection = IpfsSection(enabled: Option<bool>, minBytes: Option<int>)

  datatype Config = Config(
    security: SecuritySection,
    registration: Registration.RegistrationSection,
    ipfs: IpfsSection,
    maxPayloadBytes: Option<int>)

  /** `pow.enabled ?? true`. */
  predicate PowEnabled(p: PowSection) {
    p.enabled != Some(false)
  }

  /** `Number(pow.difficulty ?? 0)`. */
  function Difficulty(p: PowSection): (d: Num)
    ensures p.difficulty.None? || p.difficulty == Some(JNull) ==> d == Int(0)
    ensures p.difficulty.Some? && p.difficulty.value.JNum? ==> d == Int(p.difficulty.value.n)
  {
    if p.difficulty.None? || p.difficulty.value.JNull? then Int(0) else ToNumber(p.difficulty)
  }

  /** The number of zeros `hasLeadingZeros` asks for given a difficulty:
      NaN is not `<= 0`, but `'0'.repeat(NaN)` is empty, so NaN asks for
      none. */
  function Zeros(d: Num): (z: int)
    ensures d.Int? ==> z == d.i
    ensures d.NaN? ==> z == 0
  {
    if d.NaN? then 0 else d.i
  }

  /** `pow.salt || ''`. */
  function Salt(p: PowSection): string {
    StrOr(p.salt, "")
  }

  /** `applyEnvelopePow` searches for a nonce: the gate is on and the
      difficulty is not a number `<= 0` (NaN is not). */
  predicate PowSolves(p: PowSection) {
    PowEnabled(p) && !(Difficulty(p).Int? && Difficulty(p).i <= 0)
  }

  /** `security.enforceSignatures ?? true`. */
  predicate EnforceSignatures(s: SecuritySection) {
    s.enforceSignatures != Some(false)
  }

  /** `security.attestation.enabled ?? true`. */
  predicate AttestationEnabled(s: SecuritySection) {
    s.attestation.enabled != Some(false)
  }

  /** `security.publicKeys?.[from]`: the key under `String(from)`. */
  function PublicKey(s: SecuritySection, from: Option<Json>): (k: Option<string>)
    ensures k.Some? <==> PropertyKey(from) in s.publicKeys
  {
    var name := PropertyKey(from);
    if name in s.publicKeys then Some(s.publicKeys[name]) else None
  }
}
