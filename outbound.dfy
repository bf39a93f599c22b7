/**
 * The sending side of `host/src/index.js`: `buildEnvelopes` decides between
 * an IPFS reference, one envelope and a numbered series of chunks whose
 * UTF-8 bytes fit a per-envelope budget; `splitPayload` cuts the bytes;
 * `applyEnvelopePow` and `applyEnvelopeSignature` finish each envelope.
 * SHA-256, Ed25519, the IPFS store and the UTF-8 decoder are passed in.
 */
module Outbound {
  import opened Wrappers
  import opened Seqs
  import opened Json
  import opened JsValue
  import opened Envelope
  import Canonical
  import Pow
  import HostConfig

  // ---------------------------------------------------------------------
  // UTF-8 (RFC 3629), what `Buffer.from(s, 'utf8')` produces

  /** An octet. */
  type Byte = b: int | 0 <= b < 256

  /** The encoding of one code point. */
  function Utf8Char(c: char): (r: seq<Byte>)
    ensures 1 <= |r| <= 4
    ensures |r| == 1 <==> (c as int) < 0x80
    ensures |r| == 1 ==> r[0] as int == c as int
  {
    var n := c as int;
    if n < 0x80 then [n]
    else if n < 0x800 then [(0xC0 + n / 64), (0x80 + n % 64)]
    else if n < 0x10000 then [(0xE0 + n / 4096), (0x80 + (n / 64) % 64), (0x80 + n % 64)]
    else [(0xF0 + n / 262144), (0x80 + (n / 4096) % 64),
          (0x80 + (n / 64) % 64), (0x80 + n % 64)]
  }

  function Utf8(s: string): (r: seq<Byte>)
    ensures |r| >= |s|
  {
    if s == [] then [] else Utf8Char(s[0]) + Utf8(s[1..])
  }

  /** Encoding a concatenation concatenates the encodings. */
  lemma {:induction false} Utf8Append(a: string, b: string)
    ensures Utf8(a + b) == Utf8(a) + Utf8(b)
  {
    if a == [] {
      assert a + b == b;
    } else {
      var ab := a + b;
      assert ab[0] == a[0];
      assert ab[1..] == a[1..] + b;
      Utf8Append(a[1..], b);
      calc {
        Utf8(ab);
        Utf8Char(ab[0]) + Utf8(ab[1..]);
        Utf8Char(a[0]) + (Utf8(a[1..]) + Utf8(b));
        (Utf8Char(a[0]) + Utf8(a[1..])) + Utf8(b);
        Utf8(a) + Utf8(b);
      }
    }
  }

  /** `Buffer.byteLength(s, 'utf8')`. */
  function ByteLength(s: string): nat {
    |Utf8(s)|
  }

  // ---------------------------------------------------------------------
  // splitPayload

  /** The slices `bytes.slice(i, i + max)` for `i = start, start + max, ...`
      while `i < bytes.length`. */
  function ChunksFrom(bytes: seq<Byte>, max: nat, start: nat): seq<seq<Byte>>
    requires max >= 1
    decreases |bytes| - start
  {
    if start >= |bytes| then []
    else
      var end := if start + max < |bytes| then start + max else |bytes|;
      [bytes[start..end]] + ChunksFrom(bytes, max, start + max)
  }

  function Chunks(bytes: seq<Byte>, max: nat): seq<seq<Byte>>
    requires max >= 1
  {
    ChunksFrom(bytes, max, 0)
  }


  lemma {:induction false} ChunksFromConcat(bytes: seq<Byte>, max: nat, start: nat)
    requires max >= 1 && start <= |bytes|
    ensures Concat(ChunksFrom(bytes, max, start)) == bytes[start..]
    decreases |bytes| - start
  {
    if start < |bytes| {
      var end := if start + max < |bytes| then start + max else |bytes|;
      var rest := ChunksFrom(bytes, max, start + max);
      assert ChunksFrom(bytes, max, start) == [bytes[start..end]] + rest;
      if start + max < |bytes| {
        ChunksFromConcat(bytes, max, start + max);
      } else {
        assert rest == [];
      }
      assert bytes[start..] == bytes[start..end] + bytes[end..];
    }
  }

  /** Each piece holds at least one and at most `max` bytes, every one but
      the last exactly `max`. */
  predicate FullPieces(cs: seq<seq<Byte>>, max: nat) {
    forall k :: 0 <= k < |cs| ==> 1 <= |cs[k]| <= max && (k < |cs| - 1 ==> |cs[k]| == max)
  }

  lemma {:induction false} ChunksFromSizes(bytes: seq<Byte>, max: nat, start: nat)
    requires max >= 1
    ensures FullPieces(ChunksFrom(bytes, max, start), max)
    decreases |bytes| - start
  {
    if start < |bytes| {
      var end := if start + max < |bytes| then start + max else |bytes|;
      var rest := ChunksFrom(bytes, max, start + max);
      ChunksFromSizes(bytes, max, start + max);
      var cs := [bytes[start..end]] + rest;
      assert ChunksFrom(bytes, max, start) == cs;
      assert 1 <= |cs[0]| <= max;
      assert rest != [] ==> |cs[0]| == max;
      forall k | 1 <= k < |cs| ensures 1 <= |cs[k]| <= max && (k < |cs| - 1 ==> |cs[k]| == max) {
        assert cs[k] == rest[k - 1];
        assert 1 <= |rest[k - 1]| <= max && (k - 1 < |rest| - 1 ==> |rest[k - 1]| == max);
      }
    }
  }

  lemma {:induction false} ChunksFromMany(bytes: seq<Byte>, max: nat, start: nat)
    requires max >= 1 && start + max < |bytes|
    ensures |ChunksFrom(bytes, max, start)| >= 2
  {
    assert ChunksFrom(bytes, max, start) == [bytes[start..start + max]] + ChunksFrom(bytes, max, start + max);
  }

  /** The chunks concatenate back to the bytes, are full pieces, and more
      than `max` bytes give at least two of them. */
  lemma ChunksMeaning(bytes: seq<Byte>, max: nat)
    requires max >= 1
    ensures Concat(Chunks(bytes, max)) == bytes
    ensures FullPieces(Chunks(bytes, max), max)
    ensures |bytes| > max ==> |Chunks(bytes, max)| >= 2
  {
    ChunksFromConcat(bytes, max, 0);
    ChunksFromSizes(bytes, max, 0);
    if |bytes| > max {
      ChunksFromMany(bytes, max, 0);
    }
  }

  /** `splitPayload`: the payload's UTF-8 bytes cut every `maxBytes` bytes,
      each piece decoded back to text by `utf8Decode`. */
  method SplitPayload(payload: string, maxBytes: nat, utf8Decode: seq<Byte> -> string) returns (chunks: seq<string>)
    requires maxBytes >= 1
    ensures |chunks| == |Chunks(Utf8(payload), maxBytes)|
    ensures forall k :: 0 <= k < |chunks| ==> chunks[k] == utf8Decode(Chunks(Utf8(payload), maxBytes)[k])
  {
    var bytes := Utf8(payload);
    ghost var all := Chunks(bytes, maxBytes);
    ghost var cut: seq<seq<Byte>> := [];
    chunks := [];
    var i := 0;
    while i < |bytes|
      invariant cut + ChunksFrom(bytes, maxBytes, i) == all
      invariant |chunks| == |cut|
      invariant forall k :: 0 <= k < |chunks| ==> chunks[k] == utf8Decode(cut[k])
      decreases |bytes| - i
    {
      var end := if i + maxBytes < |bytes| then i + maxBytes else |bytes|;
      var piece := bytes[i..end];
      ghost var rest := ChunksFrom(bytes, maxBytes, i + maxBytes);
      assert ChunksFrom(bytes, maxBytes, i) == [piece] + rest;
      assert (cut + [piece]) + rest == cut + ([piece] + rest);
      cut := cut + [piece];
      chunks := chunks + [utf8Decode(piece)];
      i := i + maxBytes;
    }
    assert ChunksFrom(bytes, maxBytes, i) == [];
  }

  // ---------------------------------------------------------------------
  // applyEnvelopePow

  /** The nonce search of `applyEnvelopePow` ends: when it runs, some nonce
      meets the difficulty. */
  ghost predicate Solvable(p: HostConfig.PowSection, e: seq<Field>, sha256: string -> string) {
    HostConfig.PowSolves(p) ==>
      exists n: nat :: Pow.Works(e, n, HostConfig.Zeros(HostConfig.Difficulty(p)), HostConfig.Salt(p), sha256)
  }

  /** What `applyEnvelopePow` returns: the envelope itself when the gate is
      off or the difficulty is a number `<= 0`, otherwise the envelope with
      the least working nonce. */
  ghost function PowApplied(p: HostConfig.PowSection, e: seq<Field>, sha256: string -> string): seq<Field>
    requires Solvable(p, e, sha256)
  {
    if !HostConfig.PowSolves(p) then e
    else Pow.WithNonce(e, Pow.LeastNonce(e, HostConfig.Zeros(HostConfig.Difficulty(p)), HostConfig.Salt(p), sha256))
  }

  /** `applyEnvelopePow`. */
  method ApplyEnvelopePow(p: HostConfig.PowSection, e: seq<Field>, sha256: string -> string) returns (r: seq<Field>)
    requires Solvable(p, e, sha256)
    ensures r == PowApplied(p, e, sha256)
  {
    if !HostConfig.PowEnabled(p) {
      return e;
    }
    var difficulty := HostConfig.Difficulty(p);
    var salt := HostConfig.Salt(p);
    if difficulty.Int? && difficulty.i <= 0 {
      return e;
    }
    var digest;
    ghost var nonce;
    r, digest, nonce := Pow.SolvePow(e, HostConfig.Zeros(difficulty), salt, sha256);
  }

  /** A solved envelope passes the same proof-of-work settings on the
      receiving side, and only `powNonce` differs from what was built. */
  lemma PowAppliedMeaning(p: HostConfig.PowSection, e: seq<Field>, sha256: string -> string)
    requires Solvable(p, e, sha256)
    ensures !HostConfig.PowSolves(p) ==> PowApplied(p, e, sha256) == e
    ensures HostConfig.PowSolves(p) ==>
              Pow.VerifyPow(JObj(PowApplied(p, e, sha256)), HostConfig.Zeros(HostConfig.Difficulty(p)),
                            HostConfig.Salt(p), sha256)
    ensures forall k :: k != "powNonce" ==> Get(PowApplied(p, e, sha256), k) == Get(e, k)
  {
    if HostConfig.PowSolves(p) {
      var z, salt := HostConfig.Zeros(HostConfig.Difficulty(p)), HostConfig.Salt(p);
      Pow.SolveThenVerify(e, Pow.LeastNonce(e, z, salt, sha256), z, salt, sha256);
    }
  }

  // ---------------------------------------------------------------------
  // applyEnvelopeSignature

  /** A signing key is configured but does not decode to a 64-byte
      secret key, so signing throws. */
  predicate SigningKeyBad(signingKey: Option<string>, ed: Ed25519) {
    KeyGiven(signingKey) && |ed.base64(signingKey.value)| != SecretKeyBytes
  }

  /** `applyEnvelopeSignature`: with a signing key, `sig` is set to the
      signature of the canonical form, unless that comes back empty; a key
      of the wrong size throws. */
  function ApplyEnvelopeSignature(signingKey: Option<string>, e: seq<Field>, ed: Ed25519): (r: Result<seq<Field>>)
    ensures r.Err? <==> SigningKeyBad(signingKey, ed)
    ensures !KeyGiven(signingKey) ==> r == Ok(e)
    ensures r.Ok? && KeyGiven(signingKey) && ed.sign(signingKey.value, Canonical.CanonicalString(e)) == "" ==>
              r.value == e
    ensures r.Ok? && KeyGiven(signingKey) && ed.sign(signingKey.value, Canonical.CanonicalString(e)) != "" ==>
              r.value == Put(e, "sig", JStr(ed.sign(signingKey.value, Canonical.CanonicalString(e))))
    ensures r.Ok? && KeyGiven(signingKey) && ed.sign(signingKey.value, Canonical.CanonicalString(e)) != "" ==>
              Get(r.value, "sig") == Some(JStr(ed.sign(signingKey.value, Canonical.CanonicalString(r.value))))
    ensures r.Ok? ==> forall k :: k != "sig" ==> Get(r.value, k) == Get(e, k)
    ensures r.Ok? ==> Canonical.CanonicalString(r.value) == Canonical.CanonicalString(e)
  {
    var sig :- Sign(e, signingKey, ed);
    match sig
    case None => Ok(e)
    case Some(s) =>
      if s == "" then Ok(e)
      else
        Canonical.CanonicalIgnoresSig(e, JStr(s));
        Ok(Put(e, "sig", JStr(s)))
  }

  /** A signed envelope carries a signature the receiver checks against
      the very text that was signed, and signing leaves the proof of work
      valid. */
  lemma SignedEnvelopeChecks(signingKey: string, publicKey: string, e: seq<Field>, ed: Ed25519,
                             difficulty: int, salt: string, sha256: string -> string)
    requires signingKey != "" && publicKey != ""
    requires |ed.base64(signingKey)| == SecretKeyBytes
    requires ed.sign(signingKey, Canonical.CanonicalString(e)) != ""
    ensures ApplyEnvelopeSignature(Some(signingKey), e, ed).Ok?
    ensures var sig := ed.sign(signingKey, Canonical.CanonicalString(e));
            VerifySignature(JObj(ApplyEnvelopeSignature(Some(signingKey), e, ed).value), Some(publicKey), ed)
              == NaclVerify(ed, publicKey, Canonical.CanonicalString(e), sig)
    ensures Pow.VerifyPow(JObj(ApplyEnvelopeSignature(Some(signingKey), e, ed).value), difficulty, salt, sha256)
            == Pow.VerifyPow(JObj(e), difficulty, salt, sha256)
  {
    var sig := ed.sign(signingKey, Canonical.CanonicalString(e));
    SignThenVerify(e, signingKey, publicKey, ed);
    Pow.PowIgnoresSig(e, JStr(sig), difficulty, salt, sha256);
  }

  // ---------------------------------------------------------------------
  // buildEnvelopes

  /** One message to send: its type, the sender's address, the channel,
      the text, the registration payment hash (null when none) and the
      `extraFields` object (`{}` when none). */
  datatype Post = Post(msgType: string, from: string, channel: string, payload: string,
                       registrationHash: Json, extras: seq<Field>)

  /** The functions `buildEnvelopes` reaches outside the host: SHA-256 as
      lower-case hex, Ed25519, storing a payload on IPFS (its CID, or the
      error), and `toString('utf8')` of a byte slice. */
  datatype Services = Services(sha256: string -> string, ed: Ed25519,
                               storePayload: string -> Result<string>, utf8Decode: seq<Byte> -> string)

  /** An argument spread in from `extraFields` replaces the named one. */
  function Over(extras: seq<Field>, k: string, o: Option<Json>): Option<Json> {
    if Get(extras, k).Some? then Get(extras, k) else o
  }

  /** `buildEnvelope({ ...named, ...(extraFields || {}) })`: keys of the
      extras that are not arguments of `buildEnvelope` are dropped. */
  function WithExtras(a: EnvelopeArgs, extras: seq<Field>): EnvelopeArgs {
    EnvelopeArgs(
      Get(extras, "type").GetOr(a.msgType), Get(extras, "from").GetOr(a.from),
      Get(extras, "channel").GetOr(a.channel), Get(extras, "payload").GetOr(a.payload),
      Over(extras, "payloadRef", a.payloadRef), Over(extras, "registrationHash", a.registrationHash),
      Over(extras, "attestation", a.attestation), Over(extras, "replyTo", a.replyTo),
      Over(extras, "targetHash", a.targetHash), Over(extras, "reaction", a.reaction),
      Over(extras, "vote", a.vote), Over(extras, "powNonce", a.powNonce),
      Over(extras, "chunkId", a.chunkId), Over(extras, "chunkIndex", a.chunkIndex),
      Over(extras, "chunkTotal", a.chunkTotal))
  }

  /** The envelope `buildEnvelopes` builds for `post` with the given payload,
      `payloadRef` and chunk fields. */
  function PostEnvelope(post: Post, payload: string, payloadRef: Option<Json>,
                        chunkId: Option<Json>, chunkIndex: Option<Json>, chunkTotal: Option<Json>): Json
  {
    BuildEnvelope(WithExtras(
      EnvelopeArgs(JStr(post.msgType), JStr(post.from), JStr(post.channel), JStr(payload),
                   payloadRef, Some(post.registrationHash), None, None, None, None, None, None,
                   chunkId, chunkIndex, chunkTotal),
      post.extras))
  }

  /** `config.ipfs?.minBytes || 0`. */
  function MinBytes(cfg: HostConfig.Config): int {
    cfg.ipfs.minBytes.GetOr(0)
  }

  /** The payload goes to IPFS: IPFS is on and the payload is at least
      `minBytes` long in UTF-8. */
  predicate Offloads(cfg: HostConfig.Config, post: Post) {
    cfg.ipfs.enabled == Some(true) && ByteLength(post.payload) >= MinBytes(cfg)
  }

  /** `config.network?.maxPayloadBytes || 900`. */
  function MaxBytes(cfg: HostConfig.Config): int {
    if cfg.maxPayloadBytes.None? || cfg.maxPayloadBytes.value == 0 then 900 else cfg.maxPayloadBytes.value
  }

  /** `Math.max(1, maxBytes - overheadBytes)`, the overhead being the UTF-8
      length of the envelope with an empty payload. */
  function Budget(cfg: HostConfig.Config, post: Post): (b: nat)
    // the larger of 1 and what the envelope leaves of the maximum
    ensures var room := MaxBytes(cfg) - ByteLength(Stringify(PostEnvelope(post, "", None, None, None, None)));
            b >= 1 && b >= room && (b == 1 || b == room)
  {
    var overhead := ByteLength(Stringify(PostEnvelope(post, "", None, None, None, None)));
    if MaxBytes(cfg) - overhead > 1 then MaxBytes(cfg) - overhead else 1
  }

  /** The payload is sent in chunks: it stays inline and is longer than the
      budget. */
  predicate Chunked(cfg: HostConfig.Config, post: Post) {
    !Offloads(cfg, post) && ByteLength(post.payload) > Budget(cfg, post)
  }

  /** `${identity.address}-${Date.now()}`. */
  function ChunkId(post: Post, now: int): string {
    post.from + "-" + IntToDecimal(now)
  }

  /** The pieces of a chunked payload. */
  function Pieces(cfg: HostConfig.Config, post: Post): seq<seq<Byte>> {
    Chunks(Utf8(post.payload), Budget(cfg, post))
  }

  /** Each piece decoded as `toString('utf8')` does. */
  function Texts(pieces: seq<seq<Byte>>, utf8Decode: seq<Byte> -> string): (ts: seq<string>)
    ensures |ts| == |pieces| && forall i :: 0 <= i < |pieces| ==> ts[i] == utf8Decode(pieces[i])
  {
    seq(|pieces|, i requires 0 <= i < |pieces| => utf8Decode(pieces[i]))
  }

  /** The chunk envelopes: chunk `i` of `n` carries the `i`-th text, all
      under one chunk id. */
  function ChunkEnvelopes(post: Post, texts: seq<string>, now: int): (es: seq<seq<Field>>)
    ensures |es| == |texts|
  {
    seq(|texts|, i requires 0 <= i < |texts| =>
          PostEnvelope(post, texts[i], Some(JNull), Some(JStr(ChunkId(post, now))),
                       Some(JNum(i)), Some(JNum(|texts|))).fields)
  }

  /** The envelopes `buildEnvelopes` builds, before proof of work and
      signing: an IPFS reference with an empty payload, a numbered series of
      chunks, or one envelope carrying the payload. */
  function Planned(cfg: HostConfig.Config, post: Post, now: int, svc: Services): Result<seq<seq<Field>>> {
    if Offloads(cfg, post) then
      match svc.storePayload(post.payload)
      case Err(e) => Err(e)
      case Ok(ref) => Ok([PostEnvelope(post, "", Some(JStr(ref)), None, None, None).fields])
    else if Chunked(cfg, post) then Ok(ChunkEnvelopes(post, Texts(Pieces(cfg, post), svc.utf8Decode), now))
    else Ok([PostEnvelope(post, post.payload, Some(JNull), None, None, None).fields])
  }

  /** The fields of one built envelope: the payload, the reference and the
      chunk fields it was given, unless `extraFields` names them. */
  lemma PostEnvelopeFields(post: Post, payload: string, payloadRef: Option<Json>,
                           chunkId: Option<Json>, chunkIndex: Option<Json>, chunkTotal: Option<Json>)
    ensures var e := PostEnvelope(post, payload, payloadRef, chunkId, chunkIndex, chunkTotal);
            && Prop(e, "v") == Some(JNum(1))
            && Prop(e, "from") == Some(Get(post.extras, "from").GetOr(JStr(post.from)))
            && Prop(e, "payload") == Some(Get(post.extras, "payload").GetOr(JStr(payload)))
            && Prop(e, "payloadRef") == Some(Over(post.extras, "payloadRef", payloadRef).GetOr(JNull))
            && Prop(e, "chunkId") == Some(Over(post.extras, "chunkId", chunkId).GetOr(JNull))
            && Prop(e, "chunkIndex") == Some(Over(post.extras, "chunkIndex", chunkIndex).GetOr(JNull))
            && Prop(e, "chunkTotal") == Some(Over(post.extras, "chunkTotal", chunkTotal).GetOr(JNull))
            && "sig" !in Keys(e.fields)
  {
    var a := WithExtras(
      EnvelopeArgs(JStr(post.msgType), JStr(post.from), JStr(post.channel), JStr(payload),
                   payloadRef, Some(post.registrationHash), None, None, None, None, None, None,
                   chunkId, chunkIndex, chunkTotal),
      post.extras);
    BuildEnvelopeKeys(a);
    BuildEnvelopeRequired(a);
    BuildEnvelopeOptional(a);
  }

  /** A payload longer than the budget goes out as `n >= 2` chunks numbered
      `0..n-1`, each carrying `chunkTotal = n`, the shared chunk id and the
      text of its piece; the pieces concatenate back to the payload's UTF-8
      bytes and all but the last fill the budget exactly. */
  lemma PlannedChunks(cfg: HostConfig.Config, post: Post, now: int, svc: Services)
    requires Chunked(cfg, post)
    requires forall k :: k in ["payload", "payloadRef", "chunkId", "chunkIndex", "chunkTotal"] ==> Get(post.extras, k).None?
    ensures Planned(cfg, post, now, svc).Ok?
    ensures var es := Planned(cfg, post, now, svc).value;
            var pieces := Pieces(cfg, post);
            && |es| == |pieces| >= 2
            && Concat(pieces) == Utf8(post.payload)
            && FullPieces(pieces, Budget(cfg, post))
            && forall i :: 0 <= i < |es| ==>
                 && Get(es[i], "chunkIndex") == Some(JNum(i))
                 && Get(es[i], "chunkTotal") == Some(JNum(|es|))
                 && Get(es[i], "chunkId") == Some(JStr(ChunkId(post, now)))
                 && Get(es[i], "payload") == Some(JStr(svc.utf8Decode(pieces[i])))
                 && Get(es[i], "payloadRef") == Some(JNull)
  {
    var pieces := Pieces(cfg, post);
    ChunksMeaning(Utf8(post.payload), Budget(cfg, post));
    var texts := Texts(pieces, svc.utf8Decode);
    var es := ChunkEnvelopes(post, texts, now);
    forall i | 0 <= i < |es|
      ensures && Get(es[i], "chunkIndex") == Some(JNum(i))
              && Get(es[i], "chunkTotal") == Some(JNum(|es|))
              && Get(es[i], "chunkId") == Some(JStr(ChunkId(post, now)))
              && Get(es[i], "payload") == Some(JStr(svc.utf8Decode(pieces[i])))
              && Get(es[i], "payloadRef") == Some(JNull)
    {
      PostEnvelopeFields(post, texts[i], Some(JNull), Some(JStr(ChunkId(post, now))), Some(JNum(i)), Some(JNum(|texts|)));
    }
  }

  /** A payload within the budget goes out as one envelope carrying it
      inline, with no reference and no chunk fields. */
  lemma PlannedSingle(cfg: HostConfig.Config, post: Post, now: int, svc: Services)
    requires !Offloads(cfg, post) && !Chunked(cfg, post)
    requires forall k :: k in ["payload", "payloadRef", "chunkId", "chunkIndex", "chunkTotal"] ==> Get(post.extras, k).None?
    ensures Planned(cfg, post, now, svc).Ok?
    ensures var es := Planned(cfg, post, now, svc).value;
            && |es| == 1
            && Get(es[0], "payload") == Some(JStr(post.payload))
            && ByteLength(post.payload) <= Budget(cfg, post)
            && Get(es[0], "payloadRef") == Some(JNull)
            && Get(es[0], "chunkId") == Some(JNull)
            && Get(es[0], "chunkIndex") == Some(JNull)
            && Get(es[0], "chunkTotal") == Some(JNull)
  {
    PostEnvelopeFields(post, post.payload, Some(JNull), None, None, None);
  }

  /** A payload sent to IPFS goes out as one envelope whose payload is
      empty and whose `payloadRef` is the stored CID; a failing store fails
      the whole call. */
  lemma PlannedOffload(cfg: HostConfig.Config, post: Post, now: int, svc: Services)
    requires Offloads(cfg, post)
    requires forall k :: k in ["payload", "payloadRef", "chunkId", "chunkIndex", "chunkTotal"] ==> Get(post.extras, k).None?
    ensures svc.storePayload(post.payload).Err? <==> Planned(cfg, post, now, svc).Err?
    ensures svc.storePayload(post.payload).Ok? ==>
              var es := Planned(cfg, post, now, svc).value;
              && |es| == 1
              && Get(es[0], "payload") == Some(JStr(""))
              && Get(es[0], "payloadRef") == Some(JStr(svc.storePayload(post.payload).value))
              && Get(es[0], "chunkId") == Some(JNull)
  {
    if svc.storePayload(post.payload).Ok? {
      PostEnvelopeFields(post, "", Some(JStr(svc.storePayload(post.payload).value)), None, None, None);
    }
  }

  /** Every plan holds at least one envelope: a chunked payload is longer
      than the budget, so it makes at least two pieces. */
  lemma PlannedNonEmpty(cfg: HostConfig.Config, post: Post, now: int, svc: Services)
    requires Planned(cfg, post, now, svc).Ok?
    ensures |Planned(cfg, post, now, svc).value| >= 1
  {
    if !Offloads(cfg, post) && Chunked(cfg, post) {
      ChunksMeaning(Utf8(post.payload), Budget(cfg, post));
    }
  }

  /** One envelope after `applyEnvelopePow` and `applyEnvelopeSignature`. */
  ghost function Finished(cfg: HostConfig.Config, e: seq<Field>, svc: Services): (r: Result<seq<Field>>)
    requires Solvable(cfg.security.pow, e, svc.sha256)
    ensures r.Err? <==> SigningKeyBad(cfg.security.signingKeyBase64, svc.ed)
  {
    ApplyEnvelopeSignature(cfg.security.signingKeyBase64, PowApplied(cfg.security.pow, e, svc.sha256), svc.ed)
  }

  ghost predicate AllSolvable(cfg: HostConfig.Config, es: seq<seq<Field>>, sha256: string -> string) {
    forall i :: 0 <= i < |es| ==> Solvable(cfg.security.pow, es[i], sha256)
  }

  /** Finishing an envelope changes only `powNonce` and `sig`; the result
      meets the proof-of-work settings it was solved for, and its signature,
      when one was made, is over its own canonical form. */
  lemma FinishedMeaning(cfg: HostConfig.Config, e: seq<Field>, svc: Services)
    requires Solvable(cfg.security.pow, e, svc.sha256)
    requires !SigningKeyBad(cfg.security.signingKeyBase64, svc.ed)
    ensures Finished(cfg, e, svc).Ok?
    ensures forall k :: k != "powNonce" && k != "sig" ==> Get(Finished(cfg, e, svc).value, k) == Get(e, k)
    ensures HostConfig.PowSolves(cfg.security.pow) ==>
              Pow.VerifyPow(JObj(Finished(cfg, e, svc).value), HostConfig.Zeros(HostConfig.Difficulty(cfg.security.pow)),
                            HostConfig.Salt(cfg.security.pow), svc.sha256)
    ensures var key := cfg.security.signingKeyBase64;
            var f := Finished(cfg, e, svc).value;
            KeyGiven(key) && svc.ed.sign(key.value, Canonical.CanonicalString(f)) != "" ==>
              Get(f, "sig") == Some(JStr(svc.ed.sign(key.value, Canonical.CanonicalString(f))))
  {
    var p := cfg.security.pow;
    var solved := PowApplied(p, e, svc.sha256);
    PowAppliedMeaning(p, e, svc.sha256);
    var key := cfg.security.signingKeyBase64;
    assert Finished(cfg, e, svc) == ApplyEnvelopeSignature(key, solved, svc.ed);
    if KeyGiven(key) && svc.ed.sign(key.value, Canonical.CanonicalString(solved)) != "" {
      var sig := svc.ed.sign(key.value, Canonical.CanonicalString(solved));
      assert Finished(cfg, e, svc).value == Put(solved, "sig", JStr(sig));
      if HostConfig.PowSolves(p) {
        Pow.PowIgnoresSig(solved, JStr(sig), HostConfig.Zeros(HostConfig.Difficulty(p)), HostConfig.Salt(p), svc.sha256);
      }
    } else {
      assert Finished(cfg, e, svc).value == solved;
    }
  }

  /** `applyEnvelopePow` then `applyEnvelopeSignature` on one envelope. */
  method FinishOne(cfg: HostConfig.Config, e: seq<Field>, svc: Services) returns (r: Result<seq<Field>>)
    requires Solvable(cfg.security.pow, e, svc.sha256)
    ensures r == Finished(cfg, e, svc)
  {
    var withPow := ApplyEnvelopePow(cfg.security.pow, e, svc.sha256);
    r := ApplyEnvelopeSignature(cfg.security.signingKeyBase64, withPow, svc.ed);
  }

  /** One more finished envelope extends the finished prefix. */
  lemma FinishedExtend(cfg: HostConfig.Config, es: seq<seq<Field>>, done: seq<seq<Field>>, v: seq<Field>,
                       svc: Services)
    requires AllSolvable(cfg, es, svc.sha256) && |done| < |es|
    requires forall i :: 0 <= i < |done| ==> Finished(cfg, es[i], svc) == Ok(done[i])
    requires Finished(cfg, es[|done|], svc) == Ok(v)
    ensures forall i :: 0 <= i < |done| + 1 ==> Finished(cfg, es[i], svc) == Ok((done + [v])[i])
  {
    forall i | 0 <= i < |done| + 1
      ensures Finished(cfg, es[i], svc) == Ok((done + [v])[i])
    {
      if i < |done| {
        assert (done + [v])[i] == done[i];
      }
    }
  }

  /** `applyEnvelopePow` then `applyEnvelopeSignature` on each envelope,
      in order; the first signature that throws ends the map. */
  method FinishAll(cfg: HostConfig.Config, es: seq<seq<Field>>, svc: Services) returns (out: Result<seq<seq<Field>>>)
    requires AllSolvable(cfg, es, svc.sha256)
    ensures out.Err? <==> |es| > 0 && SigningKeyBad(cfg.security.signingKeyBase64, svc.ed)
    ensures out.Ok? ==>
              |out.value| == |es| && forall i :: 0 <= i < |es| ==> Finished(cfg, es[i], svc) == Ok(out.value[i])
  {
    var done: seq<seq<Field>> := [];
    for index := 0 to |es|
      invariant |done| == index
      invariant index > 0 ==> !SigningKeyBad(cfg.security.signingKeyBase64, svc.ed)
      invariant forall i :: 0 <= i < index ==> Finished(cfg, es[i], svc) == Ok(done[i])
    {
      var signed := FinishOne(cfg, es[index], svc);
      if signed.Err? {
        return Err(signed.error);
      }
      FinishedExtend(cfg, es, done, signed.value, svc);
      done := done + [signed.value];
    }
    out := Ok(done);
  }

  /** `buildEnvelopes`. `now` is `Date.now()`. */
  method BuildEnvelopes(cfg: HostConfig.Config, post: Post, now: int, svc: Services)
    returns (r: Result<seq<seq<Field>>>)
    requires Planned(cfg, post, now, svc).Ok? ==> AllSolvable(cfg, Planned(cfg, post, now, svc).value, svc.sha256)
    ensures Planned(cfg, post, now, svc).Err? ==> r == Planned(cfg, post, now, svc)
    ensures Planned(cfg, post, now, svc).Ok? ==> (r.Err? <==> SigningKeyBad(cfg.security.signingKeyBase64, svc.ed))
    ensures r.Ok? ==>
              Planned(cfg, post, now, svc).Ok? &&
              |r.value| == |Planned(cfg, post, now, svc).value| &&
              forall i :: 0 <= i < |r.value| ==> Finished(cfg, Planned(cfg, post, now, svc).value[i], svc) == Ok(r.value[i])
  {
    var payloadRef := JNull;
    var finalPayload := post.payload;
    if cfg.ipfs.enabled == Some(true) && ByteLength(post.payload) >= MinBytes(cfg) {
      var stored := svc.storePayload(post.payload);
      if stored.Err? {
        return Err(stored.error);
      }
      payloadRef := JStr(stored.value);
      finalPayload := "";
    }
    if !Truthy(payloadRef) {
      var maxBytes := MaxBytes(cfg);
      var baseEnvelope := PostEnvelope(post, "", None, None, None, None);
      var overheadBytes := ByteLength(Stringify(baseEnvelope));
      var maxPayloadBytes := if maxBytes - overheadBytes > 1 then maxBytes - overheadBytes else 1;
      if ByteLength(finalPayload) > maxPayloadBytes {
        assert finalPayload == post.payload;
        assert maxPayloadBytes == Budget(cfg, post);
        assert Chunked(cfg, post);
        var chunks := SplitPayload(finalPayload, maxPayloadBytes, svc.utf8Decode);
        ghost var pieces := Pieces(cfg, post);
        assert pieces == Chunks(Utf8(finalPayload), maxPayloadBytes);
        assert chunks == Texts(pieces, svc.utf8Decode) by {
          var ts := Texts(pieces, svc.utf8Decode);
          assert |chunks| == |ts|;
          forall k | 0 <= k < |chunks| ensures chunks[k] == ts[k] {
          }
        }
        assert Planned(cfg, post, now, svc) == Ok(ChunkEnvelopes(post, chunks, now));
        PlannedNonEmpty(cfg, post, now, svc);
        r := FinishAll(cfg, ChunkEnvelopes(post, chunks, now), svc);
        return;
      }
    }
    var envelope := PostEnvelope(post, finalPayload, Some(payloadRef), None, None, None).fields;
    assert Planned(cfg, post, now, svc) == Ok([envelope]);
    r := FinishAll(cfg, [envelope], svc);
  }
}
