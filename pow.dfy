/**
 * `host/src/pow.js`: the proof-of-work gate. The digest is SHA-256
 * (FIPS 180-4) of the canonical envelope text, passed in as `sha256`, a
 * function from text to lower-case hex.
 */
module Pow {
  import opened Wrappers
  import opened Json
  import opened JsValue
  import Canonical

  /** The text that is hashed: the canonical form, then `|salt` when a salt
      is set. An unset salt is the empty string. */
  function HashInput(e: seq<Field>, salt: string): (r: string)
    ensures salt == "" ==> r == Canonical.CanonicalString(e)
    ensures salt != "" ==> r == Canonical.CanonicalString(e) + "|" + salt
  {
    var canonical := Canonical.CanonicalString(e);
    if salt != "" then canonical + "|" + salt else canonical
  }

  /** `hashEnvelope`. */
  function HashEnvelope(e: seq<Field>, salt: string, sha256: string -> string): string {
    sha256(HashInput(e, salt))
  }

  function Repeat(c: char, n: nat): (r: string)
    ensures |r| == n && forall i :: 0 <= i < n ==> r[i] == c
  {
    if n == 0 then "" else [c] + Repeat(c, n - 1)
  }

  /** `hasLeadingZeros`. */
  predicate HasLeadingZeros(hex: string, zeros: int) {
    zeros <= 0 || StartsWith(hex, Repeat('0', zeros))
  }

  /** A positive difficulty holds exactly when the first `zeros` digits are '0'. */
  lemma LeadingZerosMeaning(hex: string, zeros: int)
    ensures zeros <= 0 ==> HasLeadingZeros(hex, zeros)
    ensures zeros > 0 ==>
              (HasLeadingZeros(hex, zeros) <==> zeros <= |hex| && forall i :: 0 <= i < zeros ==> hex[i] == '0')
  {
    if zeros > 0 && zeros <= |hex| && forall i :: 0 <= i < zeros ==> hex[i] == '0' {
      assert hex[..zeros] == Repeat('0', zeros);
    }
  }

  /** A digest that meets a difficulty meets every lower one. */
  lemma LeadingZerosMonotone(hex: string, zeros: int, lower: int)
    requires HasLeadingZeros(hex, zeros)
    requires lower <= zeros
    ensures HasLeadingZeros(hex, lower)
  {
    LeadingZerosMeaning(hex, zeros);
    LeadingZerosMeaning(hex, lower);
  }

  /** `{ ...envelope, powNonce: String(n) }`. */
  function WithNonce(e: seq<Field>, n: nat): seq<Field> {
    Put(e, "powNonce", JStr(NatToDecimal(n)))
  }

  predicate Works(e: seq<Field>, n: nat, difficulty: int, salt: string, sha256: string -> string) {
    HasLeadingZeros(HashEnvelope(WithNonce(e, n), salt, sha256), difficulty)
  }

  /** `solvePow`: tries nonces 0, 1, 2, ... and returns the first candidate
      whose digest meets the difficulty. The search only ends when some
      nonce works, which is what the caller relies on. */
  method SolvePow(e: seq<Field>, difficulty: int, salt: string, sha256: string -> string)
    returns (solved: seq<Field>, digest: string, ghost nonce: nat)
    requires exists n: nat :: Works(e, n, difficulty, salt, sha256)
    ensures solved == WithNonce(e, nonce)
    ensures digest == HashEnvelope(solved, salt, sha256)
    ensures HasLeadingZeros(digest, difficulty)
    ensures forall m: nat :: m < nonce ==> !Works(e, m, difficulty, salt, sha256)
    ensures nonce == LeastNonce(e, difficulty, salt, sha256)
    ensures Get(solved, "powNonce") == Some(JStr(NatToDecimal(nonce)))
    ensures forall k :: k != "powNonce" ==> Get(solved, k) == Get(e, k)
  {
    ghost var w: nat :| Works(e, w, difficulty, salt, sha256);
    var n: nat := 0;
    while true
      invariant n <= w
      invariant forall m: nat :: m < n ==> !Works(e, m, difficulty, salt, sha256)
      decreases w - n
    {
      var candidate := Put(e, "powNonce", JStr(NatToDecimal(n)));
      var d := HashEnvelope(candidate, salt, sha256);
      if HasLeadingZeros(d, difficulty) {
        LeastIsUnique(e, n, difficulty, salt, sha256);
        solved, digest, nonce := candidate, d, n;
        return;
      }
      assert n != w;
      forall m: nat | m < n + 1 ensures !Works(e, m, difficulty, salt, sha256) {
        if m == n {
          assert HashEnvelope(WithNonce(e, m), salt, sha256) == d;
        }
      }
      n := n + 1;
    }
  }

  /** When some nonce works, a least one does. */
  lemma {:induction false} LeastWorkingExists(e: seq<Field>, w: nat, difficulty: int, salt: string,
                                             sha256: string -> string)
    requires Works(e, w, difficulty, salt, sha256)
    ensures exists n: nat :: Works(e, n, difficulty, salt, sha256) &&
                             forall m: nat :: m < n ==> !Works(e, m, difficulty, salt, sha256)
    decreases w
  {
    if exists m: nat :: m < w && Works(e, m, difficulty, salt, sha256) {
      var m: nat :| m < w && Works(e, m, difficulty, salt, sha256);
      LeastWorkingExists(e, m, difficulty, salt, sha256);
    }
  }

  /** The nonce the search stops at: the least one that works. */
  ghost function LeastNonce(e: seq<Field>, difficulty: int, salt: string, sha256: string -> string): (n: nat)
    requires exists w: nat :: Works(e, w, difficulty, salt, sha256)
    ensures Works(e, n, difficulty, salt, sha256)
    ensures forall m: nat :: m < n ==> !Works(e, m, difficulty, salt, sha256)
  {
    var w: nat :| Works(e, w, difficulty, salt, sha256);
    LeastWorkingExists(e, w, difficulty, salt, sha256);
    var n: nat :| Works(e, n, difficulty, salt, sha256) &&
                  forall m: nat :: m < n ==> !Works(e, m, difficulty, salt, sha256);
    n
  }

  /** A working nonce with no smaller working one is the least nonce. */
  lemma LeastIsUnique(e: seq<Field>, n: nat, difficulty: int, salt: string, sha256: string -> string)
    requires Works(e, n, difficulty, salt, sha256)
    requires forall m: nat :: m < n ==> !Works(e, m, difficulty, salt, sha256)
    ensures n == LeastNonce(e, difficulty, salt, sha256)
  {
  }

  /** The solved envelope keeps every key where it was; `powNonce` is the
      only key that can be new, and then it is last. */
  lemma SolveKeepsKeyOrder(e: seq<Field>, n: nat)
    ensures "powNonce" in Keys(e) ==> Keys(WithNonce(e, n)) == Keys(e)
    ensures "powNonce" !in Keys(e) ==> Keys(WithNonce(e, n)) == Keys(e) + ["powNonce"]
  {
    PutKeys(e, "powNonce", JStr(NatToDecimal(n)));
  }

  /** `verifyPow`. */
  predicate VerifyPow(e: Json, difficulty: int, salt: string, sha256: string -> string)
    ensures !TruthyOpt(Prop(e, "powNonce")) ==> !VerifyPow(e, difficulty, salt, sha256)
  {
    TruthyOpt(Prop(e, "powNonce")) && HasLeadingZeros(HashEnvelope(e.fields, salt, sha256), difficulty)
  }

  /** The verifier accepts what the solver found, under the same difficulty
      and salt. */
  lemma SolveThenVerify(e: seq<Field>, n: nat, difficulty: int, salt: string, sha256: string -> string)
    requires Works(e, n, difficulty, salt, sha256)
    ensures VerifyPow(JObj(WithNonce(e, n)), difficulty, salt, sha256)
  {
    assert NatToDecimal(n) != "";
  }

  /** A verifier at a lower difficulty accepts what a higher one did. */
  lemma VerifyPowMonotone(e: Json, difficulty: int, lower: int, salt: string, sha256: string -> string)
    requires VerifyPow(e, difficulty, salt, sha256)
    requires lower <= difficulty
    ensures VerifyPow(e, lower, salt, sha256)
  {
    LeadingZerosMonotone(HashEnvelope(e.fields, salt, sha256), difficulty, lower);
  }

  /** Attaching or replacing `sig` never changes the proof-of-work verdict,
      so an envelope solved first still verifies after it is signed. */
  lemma PowIgnoresSig(e: seq<Field>, sig: Json, difficulty: int, salt: string, sha256: string -> string)
    ensures VerifyPow(JObj(Put(e, "sig", sig)), difficulty, salt, sha256)
            == VerifyPow(JObj(e), difficulty, salt, sha256)
  {
    Canonical.CanonicalIgnoresSig(e, sig);
  }
}
