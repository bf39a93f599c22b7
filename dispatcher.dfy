/**
 * The intake side of `host/src/index.js` (`handleListen`): every ledger
 * transaction passes a fixed chain of gates (decode, attestation, presence
 * bypass, proof of work, registration, signature, chunk reassembly,
 * payload reference, append). The handler keeps two maps it updates in
 * place, the attestation cache and the chunk buffer, and a sweep drops
 * stale chunk entries. The message log stands for `storage.appendMessage`,
 * which puts the newest message first. Clocks, the ledger, the verifier
 * process, IPFS and the cryptography are parameters.
 */
module Dispatcher {
  import opened Wrappers
  import opened Seqs
  import opened Json
  import opened JsValue
  import Envelope
  import Pow
  import Release
  import Attestation
  import Registration
  import HostConfig

  /** An attestation accepted for a sender, and when. */
  datatype Session = Session(claims: Json, at: int)

  /** The chunks received so far under one chunk id: the announced total,
      the payload of each index, and the time of the last fragment. */
  datatype ChunkEntry = ChunkEntry(total: Num, chunks: map<Num, Json>, updatedAt: int)

  /** One appended message: the envelope and the transaction hash. */
  datatype LogEntry = LogEntry(envelope: Json, txHash: Option<Json>)

  /** What became of one transaction. */
  datatype Verdict =
    | Crashed(error: string)  // the handler threw; the error is only logged
    | Ignored                 // no memo, or the memo does not decode
    | Attested                // an ATTEST envelope, consumed by the attestation gate
    | Rejected                // a gate dropped the envelope
    | Buffered                // a chunk was stored, the series is not complete
    | Delivered               // a message was appended to the log

  datatype State = State(cache: map<Option<Json>, Session>, buffer: map<Json, ChunkEntry>, log: seq<LogEntry>)

  datatype Step = Step(verdict: Verdict, state: State)

  /** The services the handler reaches: `JSON.parse`, SHA-256, Ed25519, the
      attestation verifier process with the host's environment, `Date`
      parsing, the ledger's `account_tx` and `tx` queries, `xrpToDrops`,
      and the IPFS fetch. */
  datatype Services = Services(
    parse: string -> Option<Json>,
    sha256: string -> string,
    ed: Envelope.Ed25519,
    verifier: (seq<Json>, Json, map<string, string>) -> Result<Json>,
    processEnv: map<string, string>,
    parseDate: Json -> Num,
    accountTx: Json -> Result<seq<Json>>,
    lookupTx: Json -> Result<Option<Json>>,
    xrpToDrops: Registration.XrpToDrops,
    fetchPayload: Json -> Result<string>)

  /** Chunk entries older than five minutes are dropped by the sweep. */
  const ChunkTtlMs := 5 * 60 * 1000

  // ---------------------------------------------------------------------
  // Decoding

  /** `tx.transaction?.Memos?.[0]?.Memo?.MemoData`. */
  function MemoData(tx: Json): Option<Json> {
    match Prop(tx, "transaction")
    case None => None
    case Some(t) =>
      match Prop(t, "Memos")
      case None => None
      case Some(memos) =>
        match Release.First(memos)
        case None => None
        case Some(m) =>
          match Prop(m, "Memo")
          case None => None
          case Some(memo) => Prop(memo, "MemoData")
  }

  /** The envelope carried by a transaction: None when there is no memo or
      it does not decode (a memo that is not a string makes the decoder
      throw, which is caught the same way). */
  function Intercept(tx: Json, parse: string -> Option<Json>): (r: Option<Json>)
    ensures r.Some? ==> TruthyOpt(MemoData(tx)) && MemoData(tx).value.JStr?
                        && Envelope.Decode(MemoData(tx).value.s, parse) == r
  {
    var memo := MemoData(tx);
    if !TruthyOpt(memo) then None
    else match memo.value
      case JStr(hex) => Envelope.Decode(hex, parse)
      case _ => None
  }

  /** `tx.transaction.hash`. */
  function TxHash(tx: Json): Option<Json> {
    match Prop(tx, "transaction")
    case None => None
    case Some(t) => Prop(t, "hash")
  }

  // ---------------------------------------------------------------------
  // Attestation gate

  /** `Number(attestation.maxAgeSeconds ?? 0)`. */
  function MaxAge(cfg: HostConfig.Config): Num {
    var m := cfg.security.attestation.maxAgeSeconds;
    if m.None? || m.value.JNull? then Int(0) else ToNumber(m)
  }

  /** `cached && (!maxAgeSeconds || now - cached.at <= maxAgeSeconds * 1000)`:
      a session never expires when the maximum age is 0 or not a number. */
  predicate SessionValid(cfg: HostConfig.Config, cached: Option<Session>, now: int) {
    cached.Some? &&
    (MaxAge(cfg) == Int(0) || MaxAge(cfg).NaN? || now - cached.value.at <= MaxAge(cfg).i * 1000)
  }

  /** `attestationCache.get(envelope.from)`. */
  function Cached(cache: map<Option<Json>, Session>, from: Option<Json>): Option<Session> {
    if from in cache then Some(cache[from]) else None
  }

  /** `envelope.type === 'ATTEST' && envelope.attestation`. */
  predicate IsAttest(e: Json) {
    StrictEquals(Prop(e, "type"), Some(JStr("ATTEST"))) && TruthyOpt(Prop(e, "attestation"))
  }

  /** The cache after an ATTEST envelope: its sender is cached with the
      claims when verification succeeds, and nothing changes otherwise. */
  function Attest(cfg: HostConfig.Config, cache: map<Option<Json>, Session>, e: Json, now: int, io: Services)
    : (c: map<Option<Json>, Session>)
    requires IsAttest(e)
  {
    match Attestation.VerifyAttestation(cfg.security.attestation, Prop(e, "attestation").value, io.processEnv,
                                        io.verifier, now, io.parseDate)
    case Ok(claims) => cache[Prop(e, "from") := Session(claims, now)]
    case Err(_) => cache
  }

  /** `envelope.type === 'PRESENCE' || envelope.channel === 'system/presence'`. */
  predicate IsPresence(e: Json) {
    StrictEquals(Prop(e, "type"), Some(JStr("PRESENCE")))
    || StrictEquals(Prop(e, "channel"), Some(JStr("system/presence")))
  }

  // ---------------------------------------------------------------------
  // Admission gates

  /** The proof-of-work gate, with the same settings the sender uses. */
  predicate PowGate(cfg: HostConfig.Config, e: Json, sha256: string -> string) {
    var p := cfg.security.pow;
    !HostConfig.PowEnabled(p) ||
    Pow.VerifyPow(e, HostConfig.Zeros(HostConfig.Difficulty(p)), HostConfig.Salt(p), sha256)
  }

  /** Some transaction on the sender's ledger is its registration payment. */
  predicate Registered(reg: Registration.RegistrationConfig, from: Json, entries: seq<Json>,
                       xrpToDrops: Registration.XrpToDrops) {
    xrpToDrops(reg.xrp).Ok? &&
    exists i :: 0 <= i < |entries| && !entries[i].JNull? &&
                Registration.Matches(entries[i], from, reg, xrpToDrops(reg.xrp).value)
  }

  /** The registration gate: with registration on, the sender has paid,
      the envelope names a payment hash, and that payment checks out. A
      ledger query that throws makes the handler throw. */
  function RegistrationGate(cfg: HostConfig.Config, e: Json, io: Services): (r: Result<bool>)
    ensures !Registration.GetRegistrationConfig(cfg.registration).enabled ==> r == Ok(true)
    ensures r == Ok(true) && Registration.GetRegistrationConfig(cfg.registration).enabled ==>
              TruthyOpt(Prop(e, "from")) && TruthyOpt(Prop(e, "registrationHash")) &&
              io.accountTx(Prop(e, "from").value).Ok? &&
              Registered(Registration.GetRegistrationConfig(cfg.registration), Prop(e, "from").value,
                         io.accountTx(Prop(e, "from").value).value, io.xrpToDrops) &&
              Registration.VerifyRegistrationHash(Registration.GetRegistrationConfig(cfg.registration),
                                                  Prop(e, "from"), Prop(e, "registrationHash"),
                                                  io.lookupTx, io.xrpToDrops) == Ok(true)
    // and conversely, with registration on and a sender named, the ledger
    // query, the payment scan and the hash check decide the gate in turn
    ensures var reg := Registration.GetRegistrationConfig(cfg.registration);
            var from := Prop(e, "from");
            reg.enabled && TruthyOpt(from) ==>
              var tx := io.accountTx(from.value);
              && (tx.Err? ==> r == Err(tx.error))
              && (tx.Ok? ==>
                    var ensured := Registration.EnsureRegistrationForAddress(reg, from, tx.value, io.xrpToDrops);
                    && (ensured.Err? ==> r == Err(ensured.error))
                    && (ensured == Ok(false) ==> r == Ok(false))
                    && (ensured == Ok(true) && !TruthyOpt(Prop(e, "registrationHash")) ==> r == Ok(false))
                    && (ensured == Ok(true) && TruthyOpt(Prop(e, "registrationHash")) ==>
                          r == Registration.VerifyRegistrationHash(reg, from, Prop(e, "registrationHash"),
                                                                   io.lookupTx, io.xrpToDrops)))
  {
    var reg := Registration.GetRegistrationConfig(cfg.registration);
    var from := Prop(e, "from");
    if !reg.enabled then Ok(true)
    else
      var entries :- if TruthyOpt(from) then io.accountTx(from.value) else Ok([]);
      var registered :- Registration.EnsureRegistrationForAddress(reg, from, entries, io.xrpToDrops);
      if !registered then Ok(false)
      else if !TruthyOpt(Prop(e, "registrationHash")) then Ok(false)
      else Registration.VerifyRegistrationHash(reg, from, Prop(e, "registrationHash"), io.lookupTx, io.xrpToDrops)
  }

  /** The signature gate. An envelope with a `sig`, or any envelope while
      signatures are enforced, is checked against the sender's pinned key;
      a missing key or a bad signature drops it only under enforcement,
      while a check that throws ends the handler either way. */
  function SignatureGate(cfg: HostConfig.Config, e: Json, ed: Envelope.Ed25519): (r: Result<bool>)
    ensures !HostConfig.EnforceSignatures(cfg.security) ==> r != Ok(false)
    ensures !HostConfig.EnforceSignatures(cfg.security) &&
            (!TruthyOpt(Prop(e, "sig")) || !Envelope.KeyGiven(HostConfig.PublicKey(cfg.security, Prop(e, "from")))) ==>
              r == Ok(true)
    // a check that throws (a `sig` that is not a string, or a signature or
    // key of the wrong size) drops the envelope even without enforcement
    ensures var key := HostConfig.PublicKey(cfg.security, Prop(e, "from"));
            r.Err? <==>
              (TruthyOpt(Prop(e, "sig")) || HostConfig.EnforceSignatures(cfg.security)) &&
              Envelope.KeyGiven(key) && Envelope.VerifySignature(e, key, ed).Err?
    ensures HostConfig.EnforceSignatures(cfg.security) ==>
              var key := HostConfig.PublicKey(cfg.security, Prop(e, "from"));
              (r == Ok(true) <==> Envelope.KeyGiven(key) && Envelope.VerifySignature(e, key, ed) == Ok(true))
  {
    var enforce := HostConfig.EnforceSignatures(cfg.security);
    var key := HostConfig.PublicKey(cfg.security, Prop(e, "from"));
    if !TruthyOpt(Prop(e, "sig")) && !enforce then Ok(true)
    else if !Envelope.KeyGiven(key) then Ok(!enforce)
    else
      var valid :- Envelope.VerifySignature(e, key, ed);
      Ok(valid || !enforce)
  }

  /** Proof of work, then registration, then signature. */
  function Admit(cfg: HostConfig.Config, e: Json, io: Services): Result<bool> {
    if !PowGate(cfg, e, io.sha256) then Ok(false)
    else
      var registered :- RegistrationGate(cfg, e, io);
      if !registered then Ok(false) else SignatureGate(cfg, e, io.ed)
  }

  // ---------------------------------------------------------------------
  // Chunk reassembly

  /** The entry a fragment lands in: the buffered one, or a fresh one whose
      total is `Number(chunkTotal || 0)`. */
  function EntryFor(buffer: map<Json, ChunkEntry>, key: Json, e: Json, now: int): ChunkEntry {
    if key in buffer then buffer[key]
    else ChunkEntry(ToNumber(Some(OrElse(Prop(e, "chunkTotal"), JNum(0)))), map[], now)
  }

  /** The entry after the fragment is stored: its payload (or `''`) under
      `Number(chunkIndex)`, replacing any earlier one there. */
  function Store(entry: ChunkEntry, e: Json, now: int): ChunkEntry
  {
    entry.(chunks := entry.chunks[ToNumber(Prop(e, "chunkIndex")) := OrElse(Prop(e, "payload"), JStr(""))],
           updatedAt := now)
  }

  /** `entry.total > 0 && entry.chunks.size === entry.total`. */
  predicate Complete(entry: ChunkEntry) {
    entry.total.Int? && entry.total.i > 0 && |entry.chunks| == entry.total.i
  }

  /** `entry.chunks.get(i) || ''`, as `join` writes it. */
  function PieceText(entry: ChunkEntry, i: nat): string {
    ToStr(OrElse(if Int(i) in entry.chunks then Some(entry.chunks[Int(i)]) else None, JStr("")))
  }


  /** The texts of indices `0..n-1`. */
  function PieceTexts(entry: ChunkEntry, n: nat): (ts: seq<string>)
    ensures |ts| == n && forall i :: 0 <= i < n ==> ts[i] == PieceText(entry, i)
  {
    seq(n, i requires 0 <= i < n => PieceText(entry, i))
  }

  /** The merged payload: the texts of indices `0..total-1` in order. */
  function MergedPayload(entry: ChunkEntry): string
    requires Complete(entry)
  {
    Concat(PieceTexts(entry, entry.total.i))
  }

  /** `{ ...obj, k1: v1, k2: v2, ... }`: the overrides spread in order. */
  function PutAll(fs: seq<Field>, overrides: seq<Field>): seq<Field>
    decreases |overrides|
  {
    if overrides == [] then fs else PutAll(Put(fs, overrides[0].key, overrides[0].value), overrides[1..])
  }

  /** The fields the merge overrides. */
  function MergeOverrides(payload: string): seq<Field> {
    [Field("payload", JStr(payload)), Field("chunkId", JNull), Field("chunkIndex", JNull), Field("chunkTotal", JNull)]
  }

  /** `{ ...envelope, payload, chunkId: null, chunkIndex: null, chunkTotal: null }`. */
  function Merged(e: seq<Field>, payload: string): seq<Field> {
    PutAll(e, MergeOverrides(payload))
  }

  /** One fragment of a chunk series. The entry is stored back; once it is
      complete it is deleted and the merged envelope appended. */
  function ChunkStep(s: State, e: Json, hash: Option<Json>, now: int): Step
    requires e.JObj? && TruthyOpt(Prop(e, "chunkId"))
  {
    var key := Prop(e, "chunkId").value;
    var entry := Store(EntryFor(s.buffer, key, e, now), e, now);
    if Complete(entry) then
      Step(Delivered, s.(buffer := s.buffer[key := entry] - {key},
                         log := [LogEntry(JObj(Merged(e.fields, MergedPayload(entry))), hash)] + s.log))
    else Step(Buffered, s.(buffer := s.buffer[key := entry]))
  }

  // ---------------------------------------------------------------------
  // Payload reference and delivery

  /** An envelope that needs no reassembly: with IPFS on and a
      `payloadRef`, the payload is fetched and spliced in (a failed fetch
      drops the envelope); otherwise it is appended as it is. */
  function DeliverStep(cfg: HostConfig.Config, s: State, e: Json, hash: Option<Json>, io: Services): Step {
    if TruthyOpt(Prop(e, "payloadRef")) && cfg.ipfs.enabled == Some(true) then
      match io.fetchPayload(Prop(e, "payloadRef").value)
      case Err(_) => Step(Rejected, s)
      case Ok(payload) => Step(Delivered, s.(log := [LogEntry(JObj(Put(e.fields, "payload", JStr(payload))), hash)] + s.log))
    else Step(Delivered, s.(log := [LogEntry(e, hash)] + s.log))
  }

  /** An envelope past the attestation gate: presence announcements are
      appended at once; anything else must pass the admission gates and is
      then reassembled or delivered. */
  function Admitted(cfg: HostConfig.Config, s: State, e: Json, hash: Option<Json>, now: int, io: Services): Step {
    if IsPresence(e) then Step(Delivered, s.(log := [LogEntry(e, hash)] + s.log))
    else match Admit(cfg, e, io)
      case Err(error) => Step(Crashed(error), s)
      case Ok(false) => Step(Rejected, s)
      case Ok(true) =>
        if TruthyOpt(Prop(e, "chunkId")) then ChunkStep(s, e, hash, now)
        else DeliverStep(cfg, s, e, hash, io)
  }

  /** A decoded envelope: a null one makes the handler throw; with the
      attestation gate on, a sender without a valid session may only
      attest. */
  function Intake(cfg: HostConfig.Config, s: State, e: Json, hash: Option<Json>, now: int, io: Services): Step {
    if e.JNull? then Step(Crashed("Cannot read properties of null (reading 'from')"), s)
    else if HostConfig.AttestationEnabled(cfg.security) && !SessionValid(cfg, Cached(s.cache, Prop(e, "from")), now) then
      if IsAttest(e) then Step(Attested, s.(cache := Attest(cfg, s.cache, e, now, io)))
      else Step(Rejected, s)
    else Admitted(cfg, s, e, hash, now, io)
  }

  /** The whole handler for one transaction; `now` is `Date.now()`. */
  function Handle(cfg: HostConfig.Config, s: State, tx: Json, now: int, io: Services): Step {
    if tx.JNull? then Step(Crashed("Cannot read properties of null (reading 'transaction')"), s)
    else match Intercept(tx, io.parse)
      case None => Step(Ignored, s)
      case Some(e) => Intake(cfg, s, e, TxHash(tx), now, io)
  }

  /** The chunk buffer after the sweep: the entries updated within the
      last five minutes. */
  function Swept(buffer: map<Json, ChunkEntry>, now: int): map<Json, ChunkEntry> {
    map k | k in buffer && now - buffer[k].updatedAt <= ChunkTtlMs :: buffer[k]
  }

  // ---------------------------------------------------------------------
  // Properties of the handler

  /** What a step may change: dropping or crashing changes nothing, only
      a delivery appends, and it puts one entry in front; only attesting
      touches the cache, and only the chunk step the buffer. */
  predicate Effects(s: State, r: Step) {
    (r.verdict.Crashed? || r.verdict == Ignored || r.verdict == Rejected ==> r.state == s)
    && (r.verdict == Attested ==> r.state.buffer == s.buffer && r.state.log == s.log)
    && (r.verdict == Buffered ==> r.state.cache == s.cache && r.state.log == s.log)
    && (r.verdict == Delivered ==> r.state.cache == s.cache && |r.state.log| == |s.log| + 1 && r.state.log[1..] == s.log)
  }

  /** The chunk step: the total is fixed by the first fragment, each
      fragment lands at its index, and the series merges exactly when the
      count of distinct indices reaches a positive total, deleting its
      entry; before that nothing is appended. */
  lemma ChunkStepRule(s: State, e: Json, hash: Option<Json>, now: int)
    requires e.JObj? && TruthyOpt(Prop(e, "chunkId"))
    ensures var key := Prop(e, "chunkId").value;
            var entry := Store(EntryFor(s.buffer, key, e, now), e, now);
            (key in s.buffer ==> entry.total == s.buffer[key].total
                                 && entry.chunks.Keys == s.buffer[key].chunks.Keys + {ToNumber(Prop(e, "chunkIndex"))})
            && (key !in s.buffer ==>
                  entry.total == ToNumber(Some(OrElse(Prop(e, "chunkTotal"), JNum(0))))
                  && entry.chunks == map[ToNumber(Prop(e, "chunkIndex")) := OrElse(Prop(e, "payload"), JStr(""))])
    ensures var key := Prop(e, "chunkId").value;
            var entry := Store(EntryFor(s.buffer, key, e, now), e, now);
            var r := ChunkStep(s, e, hash, now);
            (r.verdict == Delivered <==> entry.total.Int? && entry.total.i > 0 && |entry.chunks| == entry.total.i)
            && (r.verdict != Delivered ==> r.verdict == Buffered && r.state.buffer[key] == entry)
            && (r.verdict == Delivered ==> key !in r.state.buffer
                                           && r.state.log[0].envelope == JObj(Merged(e.fields, MergedPayload(entry))))
            && Effects(s, r)
  {
  }

  lemma DeliverEffects(cfg: HostConfig.Config, s: State, e: Json, hash: Option<Json>, io: Services)
    ensures var r := DeliverStep(cfg, s, e, hash, io);
            Effects(s, r) && (r.verdict == Delivered || r.verdict == Rejected)
            && (r.verdict == Rejected <==>
                  TruthyOpt(Prop(e, "payloadRef")) && cfg.ipfs.enabled == Some(true)
                  && io.fetchPayload(Prop(e, "payloadRef").value).Err?)
  {
  }

  lemma {:induction false} AdmittedEffects(cfg: HostConfig.Config, s: State, e: Json, hash: Option<Json>, now: int,
                                           io: Services)
    ensures var r := Admitted(cfg, s, e, hash, now, io);
            Effects(s, r) && r.verdict != Attested && r.verdict != Ignored
  {
    if !IsPresence(e) && Admit(cfg, e, io) == Ok(true) {
      if TruthyOpt(Prop(e, "chunkId")) {
        ChunkStepRule(s, e, hash, now);
      } else {
        DeliverEffects(cfg, s, e, hash, io);
      }
    }
  }

  lemma {:induction false} IntakeEffects(cfg: HostConfig.Config, s: State, e: Json, hash: Option<Json>, now: int,
                                         io: Services)
    ensures Effects(s, Intake(cfg, s, e, hash, now, io))
  {
    AdmittedEffects(cfg, s, e, hash, now, io);
  }

  /** The transaction's memo decodes to `e`. */
  predicate Carries(tx: Json, e: Json, parse: string -> Option<Json>) {
    !tx.JNull? && Intercept(tx, parse) == Some(e)
  }

  /** A transaction is either ignored, for want of a decodable memo, or
      handled from its envelope on; either way the step keeps to
      `Effects`. */
  lemma {:induction false} HandleEffects(cfg: HostConfig.Config, s: State, tx: Json, now: int, io: Services)
    ensures Effects(s, Handle(cfg, s, tx, now, io))
    ensures !tx.JNull? && Intercept(tx, io.parse).None? ==> Handle(cfg, s, tx, now, io) == Step(Ignored, s)
    ensures forall e :: Carries(tx, e, io.parse) ==> Handle(cfg, s, tx, now, io) == Intake(cfg, s, e, TxHash(tx), now, io)
  {
    if !tx.JNull? && Intercept(tx, io.parse).Some? {
      IntakeEffects(cfg, s, Intercept(tx, io.parse).value, TxHash(tx), now, io);
    }
  }

  /** With the attestation gate on, a sender without a valid session gets
      through only by attesting, which never delivers anything; a valid
      session is needed for any delivery. */
  lemma {:induction false} AttestationGateRule(cfg: HostConfig.Config, s: State, e: Json, hash: Option<Json>, now: int,
                                               io: Services)
    requires !e.JNull? && HostConfig.AttestationEnabled(cfg.security)
    ensures var r := Intake(cfg, s, e, hash, now, io);
            var valid := SessionValid(cfg, Cached(s.cache, Prop(e, "from")), now);
            (r.verdict == Delivered || r.verdict == Buffered ==> valid)
            && (!valid && !IsAttest(e) ==> r == Step(Rejected, s))
            && (!valid && IsAttest(e) ==>
                  r.verdict == Attested && r.state.log == s.log && r.state.buffer == s.buffer &&
                  match Attestation.VerifyAttestation(cfg.security.attestation, Prop(e, "attestation").value,
                                                      io.processEnv, io.verifier, now, io.parseDate)
                  case Ok(claims) => r.state.cache == s.cache[Prop(e, "from") := Session(claims, now)]
                  case Err(_) => r.state.cache == s.cache)
            && (valid ==> r.verdict != Attested)
  {
    AdmittedEffects(cfg, s, e, hash, now, io);
  }

  /** A session lasts for the configured number of seconds; without a
      maximum age (unset, 0 or not a number) it lasts for ever. */
  lemma SessionLifetime(cfg: HostConfig.Config, sess: Session, now: int)
    ensures !SessionValid(cfg, None, now)
    ensures cfg.security.attestation.maxAgeSeconds.None? ==> SessionValid(cfg, Some(sess), now)
    ensures MaxAge(cfg).Int? && MaxAge(cfg).i > 0 ==>
              (SessionValid(cfg, Some(sess), now) <==> now <= sess.at + MaxAge(cfg).i * 1000)
    ensures MaxAge(cfg).Int? && MaxAge(cfg).i >= 0 && now == sess.at ==> SessionValid(cfg, Some(sess), now)
  {
  }

  /** Past the attestation gate, presence announcements are appended as
      they are, whatever proof of work, registration and signatures say. */
  lemma PresenceBypass(cfg: HostConfig.Config, s: State, e: Json, hash: Option<Json>, now: int, io: Services)
    requires !e.JNull? && IsPresence(e)
    requires !HostConfig.AttestationEnabled(cfg.security) || SessionValid(cfg, Cached(s.cache, Prop(e, "from")), now)
    ensures Intake(cfg, s, e, hash, now, io) == Step(Delivered, s.(log := [LogEntry(e, hash)] + s.log))
  {
  }

  /** Every other envelope that is delivered or buffered has passed every
      gate that is switched on: a valid session, the proof of work, a
      registration payment with its hash, and a signature under
      enforcement. */
  lemma {:induction false} DeliveryPassedGates(cfg: HostConfig.Config, s: State, e: Json, hash: Option<Json>, now: int,
                                               io: Services)
    requires !e.JNull? && !IsPresence(e)
    requires Intake(cfg, s, e, hash, now, io).verdict in {Delivered, Buffered}
    ensures HostConfig.AttestationEnabled(cfg.security) ==> SessionValid(cfg, Cached(s.cache, Prop(e, "from")), now)
    ensures var p := cfg.security.pow;
            HostConfig.PowEnabled(p) ==>
              Pow.VerifyPow(e, HostConfig.Zeros(HostConfig.Difficulty(p)), HostConfig.Salt(p), io.sha256)
    ensures var reg := Registration.GetRegistrationConfig(cfg.registration);
            var from := Prop(e, "from");
            reg.enabled ==>
              TruthyOpt(from) && TruthyOpt(Prop(e, "registrationHash")) &&
              io.accountTx(from.value).Ok? && Registered(reg, from.value, io.accountTx(from.value).value, io.xrpToDrops) &&
              Registration.VerifyRegistrationHash(reg, from, Prop(e, "registrationHash"), io.lookupTx, io.xrpToDrops) == Ok(true)
    ensures var key := HostConfig.PublicKey(cfg.security, Prop(e, "from"));
            HostConfig.EnforceSignatures(cfg.security) ==>
              Envelope.KeyGiven(key) && Envelope.VerifySignature(e, key, io.ed) == Ok(true)
  {
    AdmittedEffects(cfg, s, e, hash, now, io);
    assert Admit(cfg, e, io) == Ok(true);
    assert RegistrationGate(cfg, e, io) == Ok(true);
  }

  /** The merge spreads its four overrides one after the other. */
  lemma MergedIsPuts(e: seq<Field>, payload: string)
    ensures Merged(e, payload)
            == Put(Put(Put(Put(e, "payload", JStr(payload)), "chunkId", JNull), "chunkIndex", JNull), "chunkTotal", JNull)
  {
    var os := MergeOverrides(payload);
    calc {
      PutAll(e, os);
      PutAll(Put(e, "payload", JStr(payload)), os[1..]);
      { assert os[1..][0] == os[1]; }
      PutAll(Put(Put(e, "payload", JStr(payload)), "chunkId", JNull), os[1..][1..]);
      { assert os[1..][1..][0] == os[2]; }
      PutAll(Put(Put(Put(e, "payload", JStr(payload)), "chunkId", JNull), "chunkIndex", JNull), os[1..][1..][1..]);
      { assert os[1..][1..][1..][0] == os[3]; assert os[1..][1..][1..][1..] == []; }
      Put(Put(Put(Put(e, "payload", JStr(payload)), "chunkId", JNull), "chunkIndex", JNull), "chunkTotal", JNull);
    }
  }

  /** The merged envelope carries the joined payload and null chunk
      fields; every other field is the last fragment's. */
  lemma MergedFields(e: seq<Field>, payload: string)
    ensures var m := Merged(e, payload);
            Get(m, "payload") == Some(JStr(payload)) && Get(m, "chunkId") == Some(JNull)
            && Get(m, "chunkIndex") == Some(JNull) && Get(m, "chunkTotal") == Some(JNull)
            && forall k :: k != "payload" && k != "chunkId" && k != "chunkIndex" && k != "chunkTotal"
                           ==> Get(m, k) == Get(e, k)
  {
    MergedIsPuts(e, payload);
  }

  /** A missing index contributes nothing to the merged payload, and a
      string fragment contributes exactly its text. */
  lemma PieceTextMeaning(entry: ChunkEntry, i: nat)
    ensures Int(i) !in entry.chunks ==> PieceText(entry, i) == ""
    ensures Int(i) in entry.chunks && entry.chunks[Int(i)].JStr? ==> PieceText(entry, i) == entry.chunks[Int(i)].s
  {
  }

  /** Indices below `n`, no two alike. */
  predicate DistinctIndices(order: seq<nat>, n: nat) {
    (forall j :: 0 <= j < |order| ==> order[j] < n)
    && (forall j, l :: 0 <= j < l < |order| ==> order[j] != order[l])
  }

  /** `order` lists each index `0..n-1` exactly once: the order in which
      the fragments of a series of `n` arrive. */
  predicate ArrivalOrder(order: seq<nat>, n: nat) {
    |order| == n && DistinctIndices(order, n) && forall i :: 0 <= i < n ==> i in order
  }

  /** The chunks map once the first `k` fragments in `order` have
      arrived: each text at its own index. */
  function Arrived(texts: seq<string>, order: seq<nat>, k: nat): (m: map<Num, Json>)
    requires k <= |order| && DistinctIndices(order, |texts|)
    ensures forall x :: x in m ==> x.Int? && 0 <= x.i < |texts| && m[x] == JStr(texts[x.i])
    ensures forall i :: 0 <= i < |texts| ==> (Int(i) in m <==> i in order[..k])
  {
    if k == 0 then map[]
    else
      var prev := Arrived(texts, order, k - 1);
      var o := order[k - 1];
      ArrivedNew(order, |texts|, k - 1);
      var m := prev[Int(o) := JStr(texts[o])];
      assert forall i :: 0 <= i < |texts| ==> (Int(i) in m <==> i in order[..k]) by {
        forall i | 0 <= i < |texts| ensures Int(i) in m <==> i in order[..k] {
          assert order[..k] == order[..k - 1] + [o];
          assert i in order[..k] <==> i in order[..k - 1] || i == o;
        }
      }
      m
  }

  /** Each arrival adds one index: `k` arrivals hold `k` distinct
      indices. */
  lemma {:induction false} ArrivedSize(texts: seq<string>, order: seq<nat>, k: nat)
    requires k <= |order| && DistinctIndices(order, |texts|)
    ensures |Arrived(texts, order, k)| == k
  {
    if k > 0 {
      ArrivedSize(texts, order, k - 1);
      ArrivedNew(order, |texts|, k - 1);
      var prev := Arrived(texts, order, k - 1);
      assert Int(order[k - 1]) !in prev;
      assert Arrived(texts, order, k) == prev[Int(order[k - 1]) := JStr(texts[order[k - 1]])];
    }
  }

  /** The next arrival brings an index not seen before. */
  lemma ArrivedNew(order: seq<nat>, n: nat, j: nat)
    requires j < |order| && DistinctIndices(order, n)
    ensures order[j] !in order[..j]
  {
  }

  lemma ArrivedStep(texts: seq<string>, order: seq<nat>, j: nat, k: nat)
    requires k == j + 1 && k <= |order| && DistinctIndices(order, |texts|)
    ensures Arrived(texts, order, k) == Arrived(texts, order, j)[Int(order[j]) := JStr(texts[order[j]])]
  {
    assert k - 1 == j;
  }

  /** Fragment `i` of a series of `n` under `key` with text `t`. */
  predicate Fragment(e: Json, key: Json, i: nat, n: nat, t: string) {
    e.JObj? && Prop(e, "chunkId") == Some(key) && Prop(e, "chunkIndex") == Some(JNum(i))
    && Prop(e, "chunkTotal") == Some(JNum(n)) && Prop(e, "payload") == Some(JStr(t))
  }

  /** `es` are fragments of the series `texts` under `key`, arriving in
      `order`: the `j`-th to arrive carries index `order[j]`. */
  predicate FragmentsInOrder(es: seq<Json>, key: Json, texts: seq<string>, order: seq<nat>) {
    |es| <= |order| && DistinctIndices(order, |texts|) &&
    forall j :: 0 <= j < |es| ==> Fragment(es[j], key, order[j], |texts|, texts[order[j]])
  }

  /** `states` is a run of the chunk step over the fragments `es`:
      `states[i + 1]` is the state after fragment `i`, which arrived in its
      own transaction with hash `hashes[i]` at time `nows[i]`. */
  predicate Run(states: seq<State>, es: seq<Json>, hashes: seq<Option<Json>>, nows: seq<int>) {
    |states| == |es| + 1 && |hashes| == |es| && |nows| == |es| &&
    forall i {:trigger es[i]} :: 0 <= i < |es| ==>
      es[i].JObj? && TruthyOpt(Prop(es[i], "chunkId")) &&
      states[i + 1] == ChunkStep(states[i], es[i], hashes[i], nows[i]).state
  }

  lemma RunAt(states: seq<State>, es: seq<Json>, hashes: seq<Option<Json>>, nows: seq<int>, i: nat, k: nat)
    requires Run(states, es, hashes, nows) && k == i + 1 && i < |es|
    ensures es[i].JObj? && TruthyOpt(Prop(es[i], "chunkId"))
    ensures states[k] == ChunkStep(states[i], es[i], hashes[i], nows[i]).state
  {
  }

  /** What the chunk step reads from a fragment. */
  lemma FragmentReads(e: Json, key: Json, i: nat, n: nat, t: string)
    requires Truthy(key) && Fragment(e, key, i, n, t) && n > 0
    ensures e.JObj? && TruthyOpt(Prop(e, "chunkId"))
    ensures ToNumber(Prop(e, "chunkIndex")) == Int(i)
    ensures ToNumber(Some(OrElse(Prop(e, "chunkTotal"), JNum(0)))) == Int(n)
    ensures OrElse(Prop(e, "payload"), JStr("")) == JStr(t)
  {
    assert TruthyOpt(Prop(e, "chunkTotal")) by {
      assert Prop(e, "chunkTotal") == Some(JNum(n));
    }
    assert t == "" || TruthyOpt(Prop(e, "payload"));
  }

  /** Storing the `j`-th fragment to arrive, at time `now`: the entry then
      holds the texts of the first `j + 1` arrivals and was last touched
      now, whenever the earlier ones came. */
  lemma StoreFragment(buffer: map<Json, ChunkEntry>, e: Json, key: Json, texts: seq<string>, order: seq<nat>,
                      j: nat, k: nat, before: int, now: int)
    requires k == j + 1 && k <= |order| && DistinctIndices(order, |texts|) && Truthy(key)
    requires Fragment(e, key, order[j], |texts|, texts[order[j]])
    requires j == 0 ==> key !in buffer
    requires j > 0 ==> key in buffer && buffer[key] == ChunkEntry(Int(|texts|), Arrived(texts, order, j), before)
    ensures Store(EntryFor(buffer, key, e, now), e, now) == ChunkEntry(Int(|texts|), Arrived(texts, order, k), now)
  {
    FragmentReads(e, key, order[j], |texts|, texts[order[j]]);
    ArrivedStep(texts, order, j, k);
    if j == 0 {
      assert Arrived(texts, order, 0) == map[];
    }
  }

  /** The series' state after the first `k` arrivals: its entry holds
      their texts and was last touched at the `k`-th arrival's time. */
  function Pending(s: State, key: Json, texts: seq<string>, order: seq<nat>, k: nat, nows: seq<int>): State
    requires k <= |order| && k <= |nows| && DistinctIndices(order, |texts|)
  {
    if k == 0 then s
    else s.(buffer := s.buffer[key := ChunkEntry(Int(|texts|), Arrived(texts, order, k), nows[k - 1])])
  }

  lemma AddThenRemove(m: map<Json, ChunkEntry>, k: Json, v: ChunkEntry)
    requires k !in m
    ensures m[k := v] - {k} == m
  {
  }

  lemma OverwriteTwice(m: map<Json, ChunkEntry>, k: Json, v: ChunkEntry, w: ChunkEntry)
    ensures m[k := v][k := w] == m[k := w]
  {
  }

  /** The `j`-th arrival, not the last: it is stored and the series waits
      for the rest, since fewer than `n` distinct indices are held. */
  lemma StoreEarlyFragment(s: State, t: State, e: Json, key: Json, texts: seq<string>, order: seq<nat>,
                           j: nat, k: nat, hash: Option<Json>, nows: seq<int>)
    requires k == j + 1 && k < |texts| && k <= |order| && k <= |nows| && DistinctIndices(order, |texts|)
    requires Truthy(key) && key !in s.buffer
    requires Fragment(e, key, order[j], |texts|, texts[order[j]])
    requires t == Pending(s, key, texts, order, j, nows)
    ensures e.JObj? && TruthyOpt(Prop(e, "chunkId"))
    ensures ChunkStep(t, e, hash, nows[j]) == Step(Buffered, Pending(s, key, texts, order, k, nows))
  {
    FragmentReads(e, key, order[j], |texts|, texts[order[j]]);
    var entry := ChunkEntry(Int(|texts|), Arrived(texts, order, k), nows[j]);
    var before := if j > 0 then nows[j - 1] else 0;
    StoreFragment(t.buffer, e, key, texts, order, j, k, before, nows[j]);
    ArrivedSize(texts, order, k);
    assert !Complete(entry);
    if j > 0 {
      OverwriteTwice(s.buffer, key, ChunkEntry(Int(|texts|), Arrived(texts, order, j), before), entry);
    }
  }

  /** A series holding a text at each index `0..n-1`, whatever order they
      arrived in, is complete, and it merges into the texts joined in
      index order. */
  lemma MergeOfTexts(texts: seq<string>, order: seq<nat>, now: int)
    requires |texts| >= 1 && ArrivalOrder(order, |texts|)
    ensures Complete(ChunkEntry(Int(|texts|), Arrived(texts, order, |texts|), now))
    ensures MergedPayload(ChunkEntry(Int(|texts|), Arrived(texts, order, |texts|), now)) == Concat(texts)
  {
    var entry := ChunkEntry(Int(|texts|), Arrived(texts, order, |texts|), now);
    ArrivedSize(texts, order, |texts|);
    assert order[..|texts|] == order;
    assert PieceTexts(entry, |texts|) == texts by {
      forall i | 0 <= i < |texts| ensures PieceText(entry, i) == texts[i] {
        assert i in order;
        PieceTextMeaning(entry, i);
      }
    }
  }

  /** Fragments arriving in any order and at any times: until the last of
      them the series sits in the buffer holding the texts so far, and
      nothing is appended. */
  lemma {:induction false} RunPrefix(states: seq<State>, es: seq<Json>, key: Json, texts: seq<string>,
                                     order: seq<nat>, k: nat, hashes: seq<Option<Json>>, nows: seq<int>)
    requires Run(states, es, hashes, nows)
    requires Truthy(key) && key !in states[0].buffer
    requires FragmentsInOrder(es, key, texts, order)
    requires k <= |es| && k < |texts|
    ensures states[k] == Pending(states[0], key, texts, order, k, nows)
  {
    if k > 0 {
      var j: nat := k - 1;
      RunPrefix(states, es, key, texts, order, j, hashes, nows);
      assert Fragment(es[j], key, order[j], |texts|, texts[order[j]]);
      StoreEarlyFragment(states[0], states[j], es[j], key, texts, order, j, k, hashes[j], nows);
      RunAt(states, es, hashes, nows, j, k);
    }
  }

  /** The last arrival completes the series: the merged envelope is
      appended with the last transaction's hash, and the entry is gone. */
  lemma StoreLastFragment(s: State, e: Json, key: Json, texts: seq<string>, order: seq<nat>, j: nat,
                          hash: Option<Json>, nows: seq<int>, last: seq<Field>)
    requires |texts| == j + 1 && |nows| == |texts| && ArrivalOrder(order, |texts|)
    requires Truthy(key) && key !in s.buffer && e == JObj(last)
    requires Fragment(e, key, order[j], |texts|, texts[order[j]])
    ensures e.JObj? && TruthyOpt(Prop(e, "chunkId"))
    ensures ChunkStep(Pending(s, key, texts, order, j, nows), e, hash, nows[j])
            == Step(Delivered, s.(log := [LogEntry(JObj(Merged(last, Concat(texts))), hash)] + s.log))
  {
    var t := Pending(s, key, texts, order, j, nows);
    var before := if j > 0 then nows[j - 1] else 0;
    FragmentReads(e, key, order[j], |texts|, texts[order[j]]);
    StoreFragment(t.buffer, e, key, texts, order, j, |texts|, before, nows[j]);
    MergeOfTexts(texts, order, nows[j]);
    var entry := ChunkEntry(Int(|texts|), Arrived(texts, order, |texts|), nows[j]);
    if j > 0 {
      OverwriteTwice(s.buffer, key, ChunkEntry(Int(|texts|), Arrived(texts, order, j), before), entry);
    }
    AddThenRemove(s.buffer, key, entry);
  }

  /** The reassembly end to end: the `n` fragments of a series, arriving
      in any order, each in its own transaction at its own time, are
      delivered on the last arrival as one envelope (the last arrival's
      fields, logged with the last transaction's hash) whose payload is the
      texts joined in index order, and the series' buffer entry is gone.
      The merged envelope does not depend on the arrival times. */
  lemma SeriesReassembles(states: seq<State>, es: seq<Json>, key: Json, texts: seq<string>, order: seq<nat>,
                          hashes: seq<Option<Json>>, nows: seq<int>, j: nat, last: seq<Field>)
    requires Run(states, es, hashes, nows)
    requires Truthy(key) && key !in states[0].buffer
    requires |es| == |texts| == j + 1 && es[j] == JObj(last)
    requires ArrivalOrder(order, |texts|) && FragmentsInOrder(es, key, texts, order)
    ensures states[j + 1] == states[0].(log := [LogEntry(JObj(Merged(last, Concat(texts))), hashes[j])] + states[0].log)
  {
    RunPrefix(states, es, key, texts, order, j, hashes, nows);
    assert Fragment(es[j], key, order[j], |texts|, texts[order[j]]);
    StoreLastFragment(states[0], es[j], key, texts, order, j, hashes[j], nows, last);
    RunAt(states, es, hashes, nows, j, j + 1);
  }

  /** A series missing a fragment never merges: after fewer than `n`
      distinct fragments nothing has been appended and the series' entry
      waits in the buffer, incomplete, holding the texts that arrived and
      stamped with the latest arrival's time. */
  lemma PartialSeriesWaits(states: seq<State>, es: seq<Json>, key: Json, texts: seq<string>, order: seq<nat>,
                           hashes: seq<Option<Json>>, nows: seq<int>)
    requires Run(states, es, hashes, nows)
    requires Truthy(key) && key !in states[0].buffer
    requires 0 < |es| < |texts| && FragmentsInOrder(es, key, texts, order)
    ensures states[|es|].log == states[0].log && states[|es|].cache == states[0].cache
    ensures key in states[|es|].buffer && !Complete(states[|es|].buffer[key])
    ensures states[|es|].buffer[key].chunks == Arrived(texts, order, |es|)
    ensures states[|es|].buffer[key].updatedAt == nows[|es| - 1]
  {
    RunPrefix(states, es, key, texts, order, |es|, hashes, nows);
    ArrivedSize(texts, order, |es|);
  }

  /** Sweeping twice is sweeping once, and a later sweep removes at least
      what an earlier one did. */
  lemma SweepLaws(buffer: map<Json, ChunkEntry>, t1: int, t2: int)
    requires t1 <= t2
    ensures Swept(Swept(buffer, t1), t1) == Swept(buffer, t1)
    ensures Swept(Swept(buffer, t1), t2) == Swept(buffer, t2)
    ensures Swept(buffer, t2).Keys <= Swept(buffer, t1).Keys
  {
  }

  /** An entry touched at `updatedAt` survives every sweep within the next
      five minutes and none after, unchanged while it survives. */
  lemma SweepKeepsFresh(buffer: map<Json, ChunkEntry>, key: Json, now: int)
    requires key in buffer
    ensures key in Swept(buffer, now) <==> now <= buffer[key].updatedAt + ChunkTtlMs
    ensures key in Swept(buffer, now) ==> Swept(buffer, now)[key] == buffer[key]
  {
  }

  // ---------------------------------------------------------------------
  // The listener

  class Listener {
    const cfg: HostConfig.Config
    var attestationCache: map<Option<Json>, Session>
    var chunkBuffer: map<Json, ChunkEntry>
    var log: seq<LogEntry>

    /** The listener starts with empty maps over the existing log. */
    constructor(cfg: HostConfig.Config, log: seq<LogEntry>)
      ensures this.cfg == cfg && attestationCache == map[] && chunkBuffer == map[] && this.log == log
    {
      this.cfg := cfg;
      attestationCache := map[];
      chunkBuffer := map[];
      this.log := log;
    }

    function Current(): State
      reads this
    {
      State(attestationCache, chunkBuffer, log)
    }

    /** The merge loop: the texts of indices `0..total-1`, joined, spread
        into the last fragment with the chunk fields cleared. */
    static method MergeChunks(envelope: seq<Field>, entry: ChunkEntry) returns (merged: seq<Field>)
      requires Complete(entry)
      ensures merged == Merged(envelope, MergedPayload(entry))
    {
      var ordered: seq<string> := [];
      for i := 0 to entry.total.i
        invariant ordered == PieceTexts(entry, i)
      {
        ordered := ordered + [PieceText(entry, i)];
      }
      var payload := Concat(ordered);
      merged := Merged(envelope, payload);
    }

    /** The `transaction` handler. */
    method HandleTransaction(tx: Json, now: int, io: Services) returns (verdict: Verdict)
      modifies this
      ensures Step(verdict, Current()) == Handle(cfg, old(Current()), tx, now, io)
    {
      if tx.JNull? {
        return Crashed("Cannot read properties of null (reading 'transaction')");
      }
      var decoded := Intercept(tx, io.parse);
      if decoded.None? {
        return Ignored;
      }
      verdict := Receive(decoded.value, TxHash(tx), now, io);
    }

    /** The handler from the decoded envelope on. */
    method Receive(envelope: Json, hash: Option<Json>, now: int, io: Services) returns (verdict: Verdict)
      modifies this
      ensures Step(verdict, Current()) == Intake(cfg, old(Current()), envelope, hash, now, io)
    {
      if envelope.JNull? {
        return Crashed("Cannot read properties of null (reading 'from')");
      }
      if HostConfig.AttestationEnabled(cfg.security) {
        var cached := Cached(attestationCache, Prop(envelope, "from"));
        if !SessionValid(cfg, cached, now) {
          if IsAttest(envelope) {
            attestationCache := Attest(cfg, attestationCache, envelope, now, io);
            return Attested;
          }
          return Rejected;
        }
      }
      if IsPresence(envelope) {
        log := [LogEntry(envelope, hash)] + log;
        return Delivered;
      }
      var admitted := Admit(cfg, envelope, io);
      if admitted.Err? {
        return Crashed(admitted.error);
      }
      if !admitted.value {
        return Rejected;
      }
      if TruthyOpt(Prop(envelope, "chunkId")) {
        verdict := AddChunk(envelope, hash, now);
      } else {
        verdict := Deliver(envelope, hash, io);
      }
    }

    /** Stores one admitted fragment and merges the series once complete. */
    method AddChunk(envelope: Json, hash: Option<Json>, now: int) returns (verdict: Verdict)
      requires envelope.JObj? && TruthyOpt(Prop(envelope, "chunkId"))
      modifies this
      ensures var step := ChunkStep(State(old(attestationCache), old(chunkBuffer), old(log)), envelope, hash, now);
              verdict == step.verdict && attestationCache == step.state.cache
              && chunkBuffer == step.state.buffer && log == step.state.log
    {
      var key := Prop(envelope, "chunkId").value;
      var entry := Store(EntryFor(chunkBuffer, key, envelope, now), envelope, now);
      chunkBuffer := chunkBuffer[key := entry];
      if Complete(entry) {
        var merged := MergeChunks(envelope.fields, entry);
        chunkBuffer := chunkBuffer - {key};
        log := [LogEntry(JObj(merged), hash)] + log;
        return Delivered;
      }
      return Buffered;
    }

    /** Appends an admitted envelope, fetching its payload by reference. */
    method Deliver(envelope: Json, hash: Option<Json>, io: Services) returns (verdict: Verdict)
      modifies this
      ensures Step(verdict, Current()) == DeliverStep(cfg, old(Current()), envelope, hash, io)
    {
      if TruthyOpt(Prop(envelope, "payloadRef")) && cfg.ipfs.enabled == Some(true) {
        var fetched := io.fetchPayload(Prop(envelope, "payloadRef").value);
        if fetched.Err? {
          return Rejected;
        }
        log := [LogEntry(JObj(Put(envelope.fields, "payload", JStr(fetched.value))), hash)] + log;
        return Delivered;
      }
      log := [LogEntry(envelope, hash)] + log;
      verdict := Delivered;
    }

    /** The sweep timer's body: every entry idle for more than five
      minutes is deleted. */
    method Sweep(now: int)
      modifies this
      ensures chunkBuffer == Swept(old(chunkBuffer), now)
      ensures attestationCache == old(attestationCache) && log == old(log)
    {
      var pending := chunkBuffer.Keys;
      ghost var start := chunkBuffer;
      while pending != {}
        invariant pending <= start.Keys
        invariant forall k :: k in chunkBuffer <==> k in start && (k in pending || now - start[k].updatedAt <= ChunkTtlMs)
        invariant forall k :: k in chunkBuffer ==> chunkBuffer[k] == start[k]
        invariant attestationCache == old(attestationCache) && log == old(log)
        decreases pending
      {
        var chunkId :| chunkId in pending;
        if now - chunkBuffer[chunkId].updatedAt > ChunkTtlMs {
          chunkBuffer := chunkBuffer - {chunkId};
        }
        pending := pending - {chunkId};
      }
    }
  }
}
