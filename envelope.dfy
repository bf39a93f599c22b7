/**
 * `host/src/envelope.js`: the fixed-shape envelope builder, the hex wire
 * encoding of its JSON text, and the Ed25519 (RFC 8032, section 5.1)
 * signing guards around the canonical form.
 */
module Envelope {
  import opened Wrappers
  import opened Json
  import opened JsValue
  import Canonical
  import HexCodec

  /** The named arguments of `buildEnvelope`. The first four have no
      default; an optional one that is not passed is None. */
  datatype EnvelopeArgs = EnvelopeArgs(
    msgType: Json, from: Json, channel: Json, payload: Json,
    payloadRef: Option<Json>, registrationHash: Option<Json>, attestation: Option<Json>,
    replyTo: Option<Json>, targetHash: Option<Json>, reaction: Option<Json>, vote: Option<Json>,
    powNonce: Option<Json>, chunkId: Option<Json>, chunkIndex: Option<Json>, chunkTotal: Option<Json>)

  /** The keys of a built envelope, in insertion order. */
  const EnvelopeKeys: seq<string> :=
    ["v", "type", "from", "channel", "payload", "payloadRef", "registrationHash", "attestation",
     "replyTo", "targetHash", "reaction", "vote", "powNonce", "chunkId", "chunkIndex", "chunkTotal"]

  /** `buildEnvelope`. */
  function BuildEnvelope(a: EnvelopeArgs): (e: Json)
    ensures e.JObj?
  {
    JObj([Field("v", JNum(1)), Field("type", a.msgType), Field("from", a.from),
          Field("channel", a.channel), Field("payload", a.payload),
          Field("payloadRef", a.payloadRef.GetOr(JNull)),
          Field("registrationHash", a.registrationHash.GetOr(JNull)),
          Field("attestation", a.attestation.GetOr(JNull)),
          Field("replyTo", a.replyTo.GetOr(JNull)),
          Field("targetHash", a.targetHash.GetOr(JNull)),
          Field("reaction", a.reaction.GetOr(JNull)),
          Field("vote", a.vote.GetOr(JNull)),
          Field("powNonce", a.powNonce.GetOr(JNull)),
          Field("chunkId", a.chunkId.GetOr(JNull)),
          Field("chunkIndex", a.chunkIndex.GetOr(JNull)),
          Field("chunkTotal", a.chunkTotal.GetOr(JNull))])
  }

  /** A built envelope always has the same sixteen keys, each once, in the
      same order. */
  lemma BuildEnvelopeKeys(a: EnvelopeArgs)
    ensures Keys(BuildEnvelope(a).fields) == EnvelopeKeys
    ensures DistinctKeys(BuildEnvelope(a).fields)
    ensures "sig" !in Keys(BuildEnvelope(a).fields)
  {
    var fs := BuildEnvelope(a).fields;
    assert forall i :: 0 <= i < |fs| ==> fs[i].key == EnvelopeKeys[i];
    EnvelopeKeysDistinct();
  }

  lemma EnvelopeKeysDistinct()
    ensures forall i, j :: 0 <= i < j < |EnvelopeKeys| ==> EnvelopeKeys[i] != EnvelopeKeys[j]
    ensures "sig" !in EnvelopeKeys
  {
    forall i, j | 0 <= i < j < |EnvelopeKeys| ensures EnvelopeKeys[i] != EnvelopeKeys[j] {
      if i == 0 {} else if i == 1 {} else if i == 2 {} else if i == 3 {} else if i == 4 {}
      else if i == 5 {} else if i == 6 {} else if i == 7 {} else if i == 8 {} else if i == 9 {}
      else if i == 10 {} else if i == 11 {} else if i == 12 {} else if i == 13 {} else {}
    }
  }

  /** `v` is 1 and the required fields hold their arguments. */
  lemma BuildEnvelopeRequired(a: EnvelopeArgs)
    ensures Prop(BuildEnvelope(a), "v") == Some(JNum(1))
    ensures Prop(BuildEnvelope(a), "type") == Some(a.msgType)
    ensures Prop(BuildEnvelope(a), "from") == Some(a.from)
    ensures Prop(BuildEnvelope(a), "channel") == Some(a.channel)
    ensures Prop(BuildEnvelope(a), "payload") == Some(a.payload)
  {
    var fs := BuildEnvelope(a).fields;
    BuildEnvelopeKeys(a);
    GetDistinct(fs, "v", JNum(1));
    GetDistinct(fs, "type", a.msgType);
    GetDistinct(fs, "from", a.from);
    GetDistinct(fs, "channel", a.channel);
    GetDistinct(fs, "payload", a.payload);
  }

  /** Each optional field holds its argument, or null when none was passed. */
  lemma BuildEnvelopeOptional(a: EnvelopeArgs)
    ensures Prop(BuildEnvelope(a), "payloadRef") == Some(a.payloadRef.GetOr(JNull))
    ensures Prop(BuildEnvelope(a), "registrationHash") == Some(a.registrationHash.GetOr(JNull))
    ensures Prop(BuildEnvelope(a), "attestation") == Some(a.attestation.GetOr(JNull))
    ensures Prop(BuildEnvelope(a), "replyTo") == Some(a.replyTo.GetOr(JNull))
    ensures Prop(BuildEnvelope(a), "targetHash") == Some(a.targetHash.GetOr(JNull))
    ensures Prop(BuildEnvelope(a), "reaction") == Some(a.reaction.GetOr(JNull))
    ensures Prop(BuildEnvelope(a), "vote") == Some(a.vote.GetOr(JNull))
    ensures Prop(BuildEnvelope(a), "powNonce") == Some(a.powNonce.GetOr(JNull))
    ensures Prop(BuildEnvelope(a), "chunkId") == Some(a.chunkId.GetOr(JNull))
    ensures Prop(BuildEnvelope(a), "chunkIndex") == Some(a.chunkIndex.GetOr(JNull))
    ensures Prop(BuildEnvelope(a), "chunkTotal") == Some(a.chunkTotal.GetOr(JNull))
  {
    var fs := BuildEnvelope(a).fields;
    BuildEnvelopeKeys(a);
    GetDistinct(fs, "payloadRef", a.payloadRef.GetOr(JNull));
    GetDistinct(fs, "registrationHash", a.registrationHash.GetOr(JNull));
    GetDistinct(fs, "attestation", a.attestation.GetOr(JNull));
    GetDistinct(fs, "replyTo", a.replyTo.GetOr(JNull));
    GetDistinct(fs, "targetHash", a.targetHash.GetOr(JNull));
    GetDistinct(fs, "reaction", a.reaction.GetOr(JNull));
    GetDistinct(fs, "vote", a.vote.GetOr(JNull));
    GetDistinct(fs, "powNonce", a.powNonce.GetOr(JNull));
    GetDistinct(fs, "chunkId", a.chunkId.GetOr(JNull));
    GetDistinct(fs, "chunkIndex", a.chunkIndex.GetOr(JNull));
    GetDistinct(fs, "chunkTotal", a.chunkTotal.GetOr(JNull));
  }

  // ---------------------------------------------------------------------
  // Wire codec

  /** `encodeEnvelope`: the hex of `JSON.stringify(envelope)`. */
  function Encode(e: Json): string {
    HexCodec.StringToHex(Stringify(e))
  }

  /** `decodeEnvelope`; `parse` is `JSON.parse`, None where it throws. */
  function Decode(hex: string, parse: string -> Option<Json>): Option<Json> {
    parse(HexCodec.HexToString(hex))
  }

  /** Decoding undoes encoding for every envelope whose strings are Latin-1,
      given that `JSON.parse` reads back what `JSON.stringify` wrote. */
  lemma EncodeDecodeRoundTrip(e: Json, parse: string -> Option<Json>)
    requires Latin1Json(e)
    requires parse(Stringify(e)) == Some(e)
    ensures Decode(Encode(e), parse) == Some(e)
  {
    StringifyLatin1(e);
    HexCodec.HexRoundTrip(Stringify(e));
  }

  // ---------------------------------------------------------------------
  // Signatures

  /** Detached Ed25519 as tweetnacl offers it, over base64 text:
      `base64(s)` is `Buffer.from(s, 'base64')`, `sign(secretKey, message)`
      the base64 of the signature and `verify(publicKey, message,
      signature)` the check, both for keys and signatures of the right
      size. */
  datatype Ed25519 = Ed25519(base64: string -> seq<bv8>, sign: (string, string) -> string,
                             verify: (string, string, string) -> bool)

  /** The sizes tweetnacl insists on (RFC 8032, section 5.1.5 and 5.1.6). */
  const SignatureBytes: nat := 64
  const PublicKeyBytes: nat := 32
  const SecretKeyBytes: nat := 64

  /** `nacl.sign.detached`: a secret key of the wrong size throws. */
  function NaclSign(ed: Ed25519, secretKey: string, message: string): (r: Result<string>)
    ensures r.Err? <==> |ed.base64(secretKey)| != SecretKeyBytes
    ensures r.Ok? ==> r.value == ed.sign(secretKey, message)
  {
    if |ed.base64(secretKey)| != SecretKeyBytes then Err("bad secret key size")
    else Ok(ed.sign(secretKey, message))
  }

  /** `nacl.sign.detached.verify`: a signature or a public key of the
      wrong size throws; the signature size is checked first. */
  function NaclVerify(ed: Ed25519, publicKey: string, message: string, sig: string): (r: Result<bool>)
    ensures r.Err? <==> |ed.base64(sig)| != SignatureBytes || |ed.base64(publicKey)| != PublicKeyBytes
    ensures r.Ok? ==> r.value == ed.verify(publicKey, message, sig)
  {
    if |ed.base64(sig)| != SignatureBytes then Err("bad signature size")
    else if |ed.base64(publicKey)| != PublicKeyBytes then Err("bad public key size")
    else Ok(ed.verify(publicKey, message, sig))
  }

  function KeyGiven(key: Option<string>): bool {
    key.Some? && key.value != ""
  }

  /** `signEnvelope`: no key, no signature; a key that does not decode to
      64 bytes throws; otherwise the signature of the canonical form. */
  function Sign(e: seq<Field>, key: Option<string>, ed: Ed25519): (r: Result<Option<string>>)
    ensures !KeyGiven(key) ==> r == Ok(None)
    ensures KeyGiven(key) ==> (r.Err? <==> |ed.base64(key.value)| != SecretKeyBytes)
    ensures r.Ok? && KeyGiven(key) ==> r.value == Some(ed.sign(key.value, Canonical.CanonicalString(e)))
  {
    if !KeyGiven(key) then Ok(None)
    else
      var sig :- NaclSign(ed, key.value, Canonical.CanonicalString(e));
      Ok(Some(sig))
  }

  /** `verifyEnvelopeSignature`. A missing key or a falsy `sig` gives false;
      a truthy `sig` that is not a string makes `Buffer.from` throw; a
      string `sig` is checked by tweetnacl over the canonical form, which
      throws for a signature or key of the wrong size. */
  function VerifySignature(e: Json, publicKey: Option<string>, ed: Ed25519): (r: Result<bool>)
    ensures !KeyGiven(publicKey) || !TruthyOpt(Prop(e, "sig")) ==> r == Ok(false)
    ensures KeyGiven(publicKey) && TruthyOpt(Prop(e, "sig")) && !Prop(e, "sig").value.JStr? ==> r.Err?
    ensures KeyGiven(publicKey) && TruthyOpt(Prop(e, "sig")) && Prop(e, "sig").value.JStr? ==>
              e.JObj? &&
              r == NaclVerify(ed, publicKey.value, Canonical.CanonicalString(e.fields), Prop(e, "sig").value.s)
  {
    if !KeyGiven(publicKey) || !TruthyOpt(Prop(e, "sig")) then Ok(false)
    else
      match Prop(e, "sig").value
      case JStr(sig) => NaclVerify(ed, publicKey.value, Canonical.CanonicalString(e.fields), sig)
      case _ => Err("The first argument must be of type string")
  }

  /** Verifying a signed envelope checks the signature against exactly the
      message that was signed: attaching `sig` does not change the
      canonical form. */
  lemma SignThenVerify(e: seq<Field>, secretKey: string, publicKey: string, ed: Ed25519)
    requires secretKey != "" && publicKey != ""
    requires |ed.base64(secretKey)| == SecretKeyBytes
    requires ed.sign(secretKey, Canonical.CanonicalString(e)) != ""
    ensures Sign(e, Some(secretKey), ed).Ok? && Sign(e, Some(secretKey), ed).value.Some?
    ensures var sig := Sign(e, Some(secretKey), ed).value.value;
            VerifySignature(JObj(Put(e, "sig", JStr(sig))), Some(publicKey), ed)
              == NaclVerify(ed, publicKey, Canonical.CanonicalString(e), sig)
  {
    var sig := Sign(e, Some(secretKey), ed).value.value;
    Canonical.CanonicalIgnoresSig(e, JStr(sig));
  }
}
