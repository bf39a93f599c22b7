/**
 * The canonical form shared by envelopes and release manifests
 * (`canonicalizeEnvelope`, `canonicalizeRelease`): copy the object, delete
 * `sig`, re-insert the remaining keys in ascending order, serialise.
 */
module Canonical {
  import opened Json
  import StringOrder

  predicate SortedByKey(fs: seq<Field>) {
    forall i, j :: 0 <= i < j < |fs| ==> StringOrder.Leq(fs[i].key, fs[j].key)
  }

  predicate StrictlySortedByKey(fs: seq<Field>) {
    forall i, j :: 0 <= i < j < |fs| ==> StringOrder.Less(fs[i].key, fs[j].key)
  }

  /** One step of the stable sort: `f` goes before the first key not below it. */
  function Insert(f: Field, fs: seq<Field>): (r: seq<Field>)
    requires SortedByKey(fs)
    ensures SortedByKey(r)
    ensures |r| == |fs| + 1
    ensures multiset(r) == multiset(fs) + multiset{f}
    ensures forall g :: g in r <==> g == f || g in fs
  {
    if fs == [] then [f]
    else if StringOrder.Leq(f.key, fs[0].key) then
      InsertFrontSorted(f, fs);
      [f] + fs
    else
      var rest := Insert(f, fs[1..]);
      InsertAfterHead(f, fs, rest);
      assert fs == [fs[0]] + fs[1..];
      [fs[0]] + rest
  }

  /** The head of `fs` stays in front when `f` goes further in. */
  lemma InsertAfterHead(f: Field, fs: seq<Field>, rest: seq<Field>)
    requires SortedByKey(fs) && fs != [] && !StringOrder.Leq(f.key, fs[0].key)
    requires SortedByKey(rest) && forall g :: g in rest <==> g == f || g in fs[1..]
    ensures SortedByKey([fs[0]] + rest)
  {
    StringOrder.NotLessIsLeq(f.key, fs[0].key);
    forall j | 0 <= j < |rest| ensures StringOrder.Leq(fs[0].key, rest[j].key) {
      assert rest[j] in rest;
      if rest[j] != f {
        assert rest[j] in fs[1..];
        var m :| 0 <= m < |fs| - 1 && fs[1..][m] == rest[j];
        assert fs[m + 1] == rest[j];
      }
    }
    var r := [fs[0]] + rest;
    forall i, j | 0 <= i < j < |r| ensures StringOrder.Leq(r[i].key, r[j].key) {
      if i > 0 {
        assert r[i] == rest[i - 1] && r[j] == rest[j - 1];
      }
    }
  }

  lemma InsertFrontSorted(f: Field, fs: seq<Field>)
    requires SortedByKey(fs) && fs != [] && StringOrder.Leq(f.key, fs[0].key)
    ensures SortedByKey([f] + fs)
  {
    var r := [f] + fs;
    forall i, j | 0 <= i < j < |r| ensures StringOrder.Leq(r[i].key, r[j].key) {
      if i == 0 && j > 1 {
        StringOrder.LeqTransitive(f.key, fs[0].key, fs[j - 1].key);
      }
    }
  }

  /** `Object.keys(clone).sort()` followed by re-insertion: a stable sort of
      the fields by key. */
  function SortByKey(fs: seq<Field>): (r: seq<Field>)
    ensures SortedByKey(r)
    ensures |r| == |fs|
    ensures multiset(r) == multiset(fs)
    ensures forall g :: g in r <==> g in fs
  {
    if fs == [] then []
    else
      assert fs == [fs[0]] + fs[1..];
      Insert(fs[0], SortByKey(fs[1..]))
  }

  /** The fields of the canonical object. */
  function Canonicalize(fs: seq<Field>): (r: seq<Field>)
    ensures "sig" !in Keys(r)
    ensures SortedByKey(r)
    ensures forall f :: f in r <==> f in fs && f.key != "sig"
    ensures multiset(r) == multiset(Remove(fs, "sig"))
  {
    SortByKey(Remove(fs, "sig"))
  }

  /** The canonical string that is signed and hashed. */
  function CanonicalString(fs: seq<Field>): string {
    Stringify(JObj(Canonicalize(fs)))
  }

  // ---------------------------------------------------------------------
  // Independence from `sig`

  lemma {:induction false} RemovePut(fs: seq<Field>, k: string, v: Json)
    ensures Remove(Put(fs, k, v), k) == Remove(fs, k)
  {
    if fs != [] && fs[0].key != k {
      RemovePut(fs[1..], k, v);
    }
  }

  lemma {:induction false} RemoveTwice(fs: seq<Field>, k: string)
    ensures Remove(Remove(fs, k), k) == Remove(fs, k)
  {
    if fs != [] {
      RemoveTwice(fs[1..], k);
    }
  }

  /** Setting, changing or adding `sig` leaves the canonical form as it was,
      so a signature never covers itself. */
  lemma CanonicalIgnoresSig(fs: seq<Field>, sig: Json)
    ensures Canonicalize(Put(fs, "sig", sig)) == Canonicalize(fs)
    ensures CanonicalString(Put(fs, "sig", sig)) == CanonicalString(fs)
  {
    RemovePut(fs, "sig", sig);
  }

  /** Deleting `sig` first changes nothing either. */
  lemma CanonicalOfUnsigned(fs: seq<Field>)
    ensures Canonicalize(Remove(fs, "sig")) == Canonicalize(fs)
  {
    RemoveTwice(fs, "sig");
  }

  // ---------------------------------------------------------------------
  // Independence from insertion order

  lemma {:induction false} InsertDistinct(f: Field, fs: seq<Field>)
    requires SortedByKey(fs) && DistinctKeys(fs)
    requires forall g :: g in fs ==> g.key != f.key
    ensures DistinctKeys(Insert(f, fs))
  {
    if fs != [] && !StringOrder.Leq(f.key, fs[0].key) {
      InsertDistinct(f, fs[1..]);
      var rest := Insert(f, fs[1..]);
      forall g | g in rest ensures g.key != fs[0].key {
        if g != f {
          var m :| 1 <= m < |fs| && fs[m] == g;
        }
      }
    }
  }

  lemma {:induction false} SortDistinct(fs: seq<Field>)
    requires DistinctKeys(fs)
    ensures DistinctKeys(SortByKey(fs))
  {
    if fs != [] {
      SortDistinct(fs[1..]);
      forall g | g in SortByKey(fs[1..]) ensures g.key != fs[0].key {
        var m :| 1 <= m < |fs| && fs[m] == g;
      }
      InsertDistinct(fs[0], SortByKey(fs[1..]));
    }
  }

  /** Sorting a JavaScript object's fields orders its keys strictly. */
  lemma SortStrict(fs: seq<Field>)
    requires DistinctKeys(fs)
    ensures StrictlySortedByKey(SortByKey(fs))
  {
    SortDistinct(fs);
  }

  /** The smallest key comes first, so both lists start with the same field. */
  lemma SameHead(a: seq<Field>, b: seq<Field>)
    requires StrictlySortedByKey(a) && StrictlySortedByKey(b)
    requires multiset(a) == multiset(b) && a != [] && b != []
    ensures a[0] == b[0]
  {
    assert a[0] in multiset(b) && b[0] in multiset(a);
    var ia :| 0 <= ia < |b| && b[ia] == a[0];
    var ib :| 0 <= ib < |a| && a[ib] == b[0];
    if ia != 0 && ib != 0 {
      StringOrder.LessAsymmetric(b[0].key, a[0].key);
    } else if ia != 0 {
      StringOrder.LessIrreflexive(a[0].key);
    } else if ib != 0 {
      StringOrder.LessIrreflexive(a[0].key);
    }
  }

  lemma SameTail(a: seq<Field>, b: seq<Field>)
    requires multiset(a) == multiset(b) && a != [] && b != [] && a[0] == b[0]
    ensures multiset(a[1..]) == multiset(b[1..])
  {
    assert a == [a[0]] + a[1..] && b == [b[0]] + b[1..];
    assert multiset(a) == multiset{a[0]} + multiset(a[1..]);
    assert multiset(b) == multiset{b[0]} + multiset(b[1..]);
    forall g ensures multiset(a[1..])[g] == multiset(b[1..])[g] {
      assert multiset(a)[g] == multiset(b)[g];
    }
  }

  /** Two strictly sorted lists with the same fields are the same list. */
  lemma {:induction false} StrictSortedUnique(a: seq<Field>, b: seq<Field>)
    requires StrictlySortedByKey(a) && StrictlySortedByKey(b)
    requires multiset(a) == multiset(b)
    ensures a == b
  {
    if a != [] && b != [] {
      SameHead(a, b);
      SameTail(a, b);
      StrictSortedUnique(a[1..], b[1..]);
      assert a == [a[0]] + a[1..] && b == [b[0]] + b[1..];
    }
  }

  lemma {:induction false} RemoveMultiset(a: seq<Field>, b: seq<Field>, k: string)
    requires multiset(a) == multiset(b)
    ensures multiset(Remove(a, k)) == multiset(Remove(b, k))
  {
    RemoveCount(a, k);
    RemoveCount(b, k);
    forall f ensures multiset(Remove(a, k))[f] == multiset(Remove(b, k))[f] {
      assert multiset(a)[f] == multiset(b)[f];
    }
  }

  lemma {:induction false} RemoveCount(fs: seq<Field>, k: string)
    ensures forall f :: multiset(Remove(fs, k))[f] == if f.key == k then 0 else multiset(fs)[f]
  {
    if fs != [] {
      RemoveCount(fs[1..], k);
      assert fs == [fs[0]] + fs[1..];
    }
  }

  /** Two JavaScript objects with the same properties, inserted in any
      order, have the same canonical form. */
  lemma CanonicalOrderIndependent(a: seq<Field>, b: seq<Field>)
    requires DistinctKeys(a) && DistinctKeys(b)
    requires multiset(a) == multiset(b)
    ensures Canonicalize(a) == Canonicalize(b)
    ensures CanonicalString(a) == CanonicalString(b)
  {
    RemoveMultiset(a, b, "sig");
    SortStrict(Remove(a, "sig"));
    SortStrict(Remove(b, "sig"));
    StrictSortedUnique(Canonicalize(a), Canonicalize(b));
  }

  // ---------------------------------------------------------------------
  // The last element of the stable sort

  /** The position of the greatest key, the later one among equals. */
  function LatestIndex(fs: seq<Field>): (i: nat)
    requires fs != []
    ensures i < |fs|
  {
    if |fs| == 1 then 0
    else
      var j := 1 + LatestIndex(fs[1..]);
      if StringOrder.Less(fs[j].key, fs[0].key) then 0 else j
  }

  /** No key beats the one at `LatestIndex`, and every field after it has a
      strictly smaller key. */
  lemma {:induction false} LatestIndexIsGreatest(fs: seq<Field>)
    requires fs != []
    ensures forall i :: 0 <= i < |fs| ==> StringOrder.Leq(fs[i].key, fs[LatestIndex(fs)].key)
    ensures forall i :: LatestIndex(fs) < i < |fs| ==> StringOrder.Less(fs[i].key, fs[LatestIndex(fs)].key)
  {
    if |fs| > 1 {
      LatestIndexIsGreatest(fs[1..]);
      var j := 1 + LatestIndex(fs[1..]);
      if StringOrder.Less(fs[j].key, fs[0].key) {
        forall i | 0 < i < |fs| ensures StringOrder.Less(fs[i].key, fs[0].key) {
          assert fs[i] == fs[1..][i - 1];
          if fs[i].key != fs[j].key {
            StringOrder.LessTransitive(fs[i].key, fs[j].key, fs[0].key);
          }
        }
        StringOrder.LessIrreflexive(fs[0].key);
      } else {
        StringOrder.NotLessIsLeq(fs[j].key, fs[0].key);
        forall i | 0 < i < |fs|
          ensures StringOrder.Leq(fs[i].key, fs[j].key)
          ensures j < i ==> StringOrder.Less(fs[i].key, fs[j].key)
        {
          assert fs[i] == fs[1..][i - 1];
        }
      }
    }
  }

  /** `LatestIndex` of a longer list compares its head with the latest of
      the tail. */
  lemma LatestIndexStep(fs: seq<Field>)
    requires |fs| > 1
    ensures var j := 1 + LatestIndex(fs[1..]);
            fs[1..][j - 1] == fs[j] &&
            fs[LatestIndex(fs)] == if StringOrder.Less(fs[j].key, fs[0].key) then fs[0] else fs[j]
  {
  }

  lemma {:induction false} InsertLast(f: Field, fs: seq<Field>)
    requires SortedByKey(fs) && fs != []
    ensures var r := Insert(f, fs);
            r[|r| - 1] == if StringOrder.Less(fs[|fs| - 1].key, f.key) then f else fs[|fs| - 1]
  {
    var r := Insert(f, fs);
    var last := fs[|fs| - 1];
    if StringOrder.Leq(f.key, fs[0].key) {
      assert r == [f] + fs;
      assert r[|r| - 1] == last;
      StringOrder.LeqTransitive(f.key, fs[0].key, last.key);
      if f.key != last.key {
        StringOrder.LessAsymmetric(f.key, last.key);
      } else {
        StringOrder.LessIrreflexive(f.key);
      }
      assert !StringOrder.Less(last.key, f.key);
    } else if |fs| == 1 {
      assert fs[1..] == [];
      assert Insert(f, fs[1..]) == [f];
      assert r == [fs[0]] + [f];
      StringOrder.NotLessIsLeq(f.key, fs[0].key);
      assert StringOrder.Less(last.key, f.key);
    } else {
      var rest := Insert(f, fs[1..]);
      assert r == [fs[0]] + rest;
      assert r[|r| - 1] == rest[|rest| - 1];
      assert fs[1..][|fs| - 2] == last;
      InsertLast(f, fs[1..]);
    }
  }

  /** The stable sort puts last the field with the greatest key, and among
      equal greatest keys the one listed last. */
  lemma {:induction false} SortLast(fs: seq<Field>)
    requires fs != []
    ensures var r := SortByKey(fs); r[|r| - 1] == fs[LatestIndex(fs)]
  {
    var rest := SortByKey(fs[1..]);
    assert SortByKey(fs) == Insert(fs[0], rest);
    if |fs| == 1 {
      assert rest == [];
      assert Insert(fs[0], rest) == [fs[0]];
    } else {
      var tail := fs[1..];
      var k := LatestIndex(tail);
      SortLast(tail);
      var latest := tail[k];
      assert rest[|rest| - 1] == latest;
      LatestIndexStep(fs);
      assert latest == fs[1 + k];
      InsertLast(fs[0], rest);
      assert fs[LatestIndex(fs)] == if StringOrder.Less(latest.key, fs[0].key) then fs[0] else latest;
    }
  }
}
