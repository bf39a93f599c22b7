/**
 * The registration rules of `host/src/index.js`: a sender may post once the
 * ledger holds a Payment from it to the registration address for exactly
 * the configured amount, and each envelope names that payment's hash. The
 * ledger queries are replaced by the transaction list `account_tx` returns
 * and by a lookup function for the `tx` query; `xrpl.xrpToDrops` is passed
 * in as well.
 */
module Registration {
  import opened Wrappers
  import opened Json
  import opened JsValue

  /** The `registration` section of the configuration. */
  datatype RegistrationSection = RegistrationSection(
    enabled: Option<bool>, address: Option<string>, xrp: Option<Json>)

  /** What `getRegistrationConfig` returns. */
  datatype RegistrationConfig = RegistrationConfig(enabled: bool, address: string, xrp: string)

  /** `getRegistrationConfig`: registration is on unless switched off, and
      the amount defaults to 0.1 XRP. */
  function GetRegistrationConfig(sec: RegistrationSection): (r: RegistrationConfig)
    ensures r.enabled <==> sec.enabled != Some(false)
    ensures r.address == "" <==> (sec.address.None? || sec.address.value == "")
    ensures sec.address.Some? && sec.address.value != "" ==> r.address == sec.address.value
    ensures !TruthyOpt(sec.xrp) ==> r.xrp == "0.1"
    ensures TruthyOpt(sec.xrp) && sec.xrp.value.JStr? ==> r.xrp == sec.xrp.value.s
  {
    RegistrationConfig(sec.enabled.GetOr(true), StrOr(sec.address, ""),
                       ToStr(OrElse(sec.xrp, JStr("0.1"))))
  }

  /** `xrpl.xrpToDrops`: the amount in drops as a decimal string, or the
      error it throws for an amount it cannot read. */
  type XrpToDrops = string -> Result<string>

  /** The four conditions a registration payment meets, in the order the
      source tests them when it verifies a hash. */
  predicate IsRegistrationPayment(t: Json, from: Json, reg: RegistrationConfig, drops: string) {
    StrictEquals(Prop(t, "TransactionType"), Some(JStr("Payment")))
    && StrictEquals(Prop(t, "Account"), Some(from))
    && StrictEquals(Prop(t, "Destination"), Some(JStr(reg.address)))
    && StrictEquals(Prop(t, "Amount"), Some(JStr(drops)))
  }

  /** `tx.tx || tx.transaction || {}` for an entry of `account_tx`; None
      where the property read throws (a null entry). */
  function TxOf(entry: Json): (t: Option<Json>)
    ensures t.None? <==> entry.JNull?
  {
    if entry.JNull? then None
    else Some(OrElse(Prop(entry, "tx"), OrElse(Prop(entry, "transaction"), JObj([]))))
  }

  /** The `find` callback of `findRegistrationPayment`. */
  predicate Matches(entry: Json, from: Json, reg: RegistrationConfig, drops: string)
    requires !entry.JNull?
  {
    IsRegistrationPayment(TxOf(entry).value, from, reg, drops)
  }

  /** The entry is read without throwing and is not a match. */
  predicate Passed(entry: Json, from: Json, reg: RegistrationConfig, drops: string) {
    !entry.JNull? && !Matches(entry, from, reg, drops)
  }

  /** Every entry before index `i` is read and passed over. */
  predicate PassedBefore(entries: seq<Json>, i: int, from: Json, reg: RegistrationConfig, drops: string)
    requires i <= |entries|
  {
    forall j :: 0 <= j < i ==> Passed(entries[j], from, reg, drops)
  }

  /** `transactions.find(...)` from index `k` on, once the entries before
      `k` have been passed over. */
  function FindFrom(entries: seq<Json>, k: nat, from: Json, reg: RegistrationConfig, drops: string)
    : (r: Result<Option<Json>>)
    requires k <= |entries| && PassedBefore(entries, k, from, reg, drops)
    ensures r.Ok? && r.value.Some? ==>
              exists i :: k <= i < |entries| && entries[i] == r.value.value
                          && !entries[i].JNull? && Matches(entries[i], from, reg, drops)
                          && PassedBefore(entries, i, from, reg, drops)
    ensures r == Ok(None) <==> PassedBefore(entries, |entries|, from, reg, drops)
    ensures r.Err? ==>
              exists i :: k <= i < |entries| && entries[i].JNull? && PassedBefore(entries, i, from, reg, drops)
    decreases |entries| - k
  {
    if k == |entries| then Ok(None)
    else if entries[k].JNull? then Err("Cannot read properties of null (reading 'tx')")
    else if Matches(entries[k], from, reg, drops) then Ok(Some(entries[k]))
    else
      assert PassedBefore(entries, k + 1, from, reg, drops);
      FindFrom(entries, k + 1, from, reg, drops)
  }

  /** `transactions.find(...)`: the first matching entry, or an error when a
      null entry is reached before any match. */
  function FindMatch(entries: seq<Json>, from: Json, reg: RegistrationConfig, drops: string)
    : (r: Result<Option<Json>>)
    ensures r.Ok? && r.value.Some? ==>
              exists i :: 0 <= i < |entries| && entries[i] == r.value.value
                          && !entries[i].JNull? && Matches(entries[i], from, reg, drops)
                          && PassedBefore(entries, i, from, reg, drops)
    ensures r == Ok(None) <==> PassedBefore(entries, |entries|, from, reg, drops)
    ensures r.Err? ==>
              exists i :: 0 <= i < |entries| && entries[i].JNull? && PassedBefore(entries, i, from, reg, drops)
  {
    FindFrom(entries, 0, from, reg, drops)
  }

  /** `findRegistrationPayment` over the entries `account_tx` returned: the
      required drops are computed first, so an unreadable amount throws even
      for an empty list. */
  function FindRegistrationPayment(reg: RegistrationConfig, from: Json, entries: seq<Json>, xrpToDrops: XrpToDrops)
    : (r: Result<Option<Json>>)
    ensures xrpToDrops(reg.xrp).Err? ==> r.Err?
    ensures xrpToDrops(reg.xrp).Ok? ==> r == FindMatch(entries, from, reg, xrpToDrops(reg.xrp).value)
  {
    var drops :- xrpToDrops(reg.xrp);
    FindMatch(entries, from, reg, drops)
  }

  /** `ensureRegistrationForAddress`: everyone may send while registration
      is off; otherwise a falsy address may not, and any other may send
      exactly when a matching payment is on its ledger. */
  function EnsureRegistrationForAddress(reg: RegistrationConfig, address: Option<Json>, entries: seq<Json>,
                                        xrpToDrops: XrpToDrops): (r: Result<bool>)
    ensures !reg.enabled ==> r == Ok(true)
    ensures reg.enabled && !TruthyOpt(address) ==> r == Ok(false)
    // with registration on, a truthy address may send exactly when a
    // matching payment comes before any entry the scan cannot read
    ensures reg.enabled && TruthyOpt(address) ==>
              (r == Ok(true) <==>
                 xrpToDrops(reg.xrp).Ok? &&
                 exists i :: 0 <= i < |entries| && !entries[i].JNull? &&
                             Matches(entries[i], address.value, reg, xrpToDrops(reg.xrp).value) &&
                             PassedBefore(entries, i, address.value, reg, xrpToDrops(reg.xrp).value))
    // it may not when every entry is read and none matches
    ensures reg.enabled && TruthyOpt(address) ==>
              (r == Ok(false) <==>
                 xrpToDrops(reg.xrp).Ok? &&
                 PassedBefore(entries, |entries|, address.value, reg, xrpToDrops(reg.xrp).value))
  {
    if !reg.enabled then Ok(true)
    else if !TruthyOpt(address) then Ok(false)
    else
      var found :- FindRegistrationPayment(reg, address.value, entries, xrpToDrops);
      Ok(found.Some?)
  }

  /** `verifyRegistrationHash`, where `lookupTx(hash)` is the `result` of the
      ledger's `tx` query (None when the response has none) or the error the
      query throws. The amount is converted only once the first three
      conditions hold. */
  function VerifyRegistrationHash(reg: RegistrationConfig, address: Option<Json>, hash: Option<Json>,
                                  lookupTx: Json -> Result<Option<Json>>, xrpToDrops: XrpToDrops)
    : (r: Result<bool>)
    ensures !reg.enabled || !TruthyOpt(address) || !TruthyOpt(hash) ==> r == Ok(false)
    ensures r == Ok(true) <==>
              reg.enabled && TruthyOpt(address) && TruthyOpt(hash) &&
              lookupTx(hash.value).Ok? && xrpToDrops(reg.xrp).Ok? &&
              IsRegistrationPayment(OrElse(lookupTx(hash.value).value, JObj([])), address.value, reg,
                                    xrpToDrops(reg.xrp).value)
  {
    if !reg.enabled then Ok(false)
    else if !TruthyOpt(address) || !TruthyOpt(hash) then Ok(false)
    else
      var result :- lookupTx(hash.value);
      var tx := OrElse(result, JObj([]));
      if !StrictEquals(Prop(tx, "TransactionType"), Some(JStr("Payment"))) then Ok(false)
      else if !StrictEquals(Prop(tx, "Account"), address) then Ok(false)
      else if !StrictEquals(Prop(tx, "Destination"), Some(JStr(reg.address))) then Ok(false)
      else
        var drops :- xrpToDrops(reg.xrp);
        Ok(StrictEquals(Prop(tx, "Amount"), Some(JStr(drops))))
  }

  /** The two ledger checks agree: the payment `findRegistrationPayment`
      finds, looked up again by its hash, passes `verifyRegistrationHash`. */
  lemma FoundPaymentVerifies(reg: RegistrationConfig, address: Json, entries: seq<Json>, hash: Json,
                             lookupTx: Json -> Result<Option<Json>>, xrpToDrops: XrpToDrops)
    requires reg.enabled && Truthy(address) && Truthy(hash)
    requires FindRegistrationPayment(reg, address, entries, xrpToDrops).Ok?
    requires FindRegistrationPayment(reg, address, entries, xrpToDrops).value.Some?
    requires lookupTx(hash) == Ok(TxOf(FindRegistrationPayment(reg, address, entries, xrpToDrops).value.value))
    ensures VerifyRegistrationHash(reg, Some(address), Some(hash), lookupTx, xrpToDrops) == Ok(true)
  {
    var m := FindRegistrationPayment(reg, address, entries, xrpToDrops).value.value;
    var t := TxOf(m).value;
    assert Truthy(t) by {
      assert Prop(t, "TransactionType").Some?;
    }
  }

  /** `getNextSequence` over the `account_info` response: one past the
      highest queued sequence while transactions are queued, otherwise the
      account's own `Sequence`; a response without `account_data` throws. */
  function GetNextSequence(accountData: Option<Json>, queueData: Option<Json>): (r: Result<Option<Json>>)
    ensures var busy := queueData.Some? && TruthyOpt(Prop(queueData.value, "txn_count"));
            var highest := if queueData.Some? then Prop(queueData.value, "highest_sequence") else None;
            var queued := busy && highest.Some? && highest.value.JNum?;
            && (queued ==> r == Ok(Some(JNum(highest.value.n + 1))) && r.value.value.n > highest.value.n)
            && (!queued ==> (r.Err? <==> accountData.None? || accountData.value.JNull?))
            && (!queued && r.Ok? ==> accountData.Some? && r.value == Prop(accountData.value, "Sequence"))
  {
    var queued := if queueData.Some? then Prop(queueData.value, "highest_sequence") else None;
    if queueData.Some? && TruthyOpt(Prop(queueData.value, "txn_count")) && queued.Some? && queued.value.JNum? then
      Ok(Some(JNum(queued.value.n + 1)))
    else if accountData.None? || accountData.value.JNull? then
      Err("Cannot read properties of undefined (reading 'Sequence')")
    else Ok(Prop(accountData.value, "Sequence"))
  }
}
