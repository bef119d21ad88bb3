/**
 * Grouping files by a key in the order the keys are first met, the way
 * src/fileUpload.js and src/config/messages.js fill a JavaScript `Map`
 * (whose iteration order is insertion order) and then walk it. The
 * functions are generic in the file and key types.
 */
module Grouping {
  /** The keys in the order they are first met: the insertion order of the source's `Map`. */
  function Dedupe<K(==)>(keys: seq<K>): seq<K>
  {
    if |keys| == 0 then []
    else
      var d := Dedupe(keys[..|keys| - 1]);
      if keys[|keys| - 1] in d then d else d + [keys[|keys| - 1]]
  }

  /** The files with key `k`, in input order: one group of the `Map`. */
  function Members<T, K(==)>(files: seq<T>, keys: seq<K>, k: K): seq<T>
    requires |files| == |keys|
  {
    if |files| == 0 then []
    else
      var n := |files| - 1;
      Members(files[..n], keys[..n], k) + (if keys[n] == k then [files[n]] else [])
  }

  /** The groups listed in `order`, concatenated. */
  function Flatten<T, K(==)>(order: seq<K>, files: seq<T>, keys: seq<K>): seq<T>
    requires |files| == |keys|
  {
    if |order| == 0 then []
    else
      var n := |order| - 1;
      Flatten(order[..n], files, keys) + Members(files, keys, order[n])
  }

  predicate Distinct<K(==)>(s: seq<K>)
  {
    forall p, q :: 0 <= p < q < |s| ==> s[p] != s[q]
  }

  /** Each key once, and exactly the keys that occur. */
  lemma {:induction false} DedupeElements<K>(keys: seq<K>)
    ensures Distinct(Dedupe(keys))
    ensures forall x :: x in Dedupe(keys) <==> x in keys
  {
    if |keys| > 0 {
      var n := |keys| - 1;
      DedupeElements(keys[..n]);
      assert keys == keys[..n] + [keys[n]];
    }
  }

  /** The position where `x` first occurs in `keys`. */
  function FirstIndex<K(==)>(keys: seq<K>, x: K): (i: nat)
    requires x in keys
    ensures i < |keys| && keys[i] == x && x !in keys[..i]
  {
    var n := |keys| - 1;
    assert keys == keys[..n] + [keys[n]];
    if x in keys[..n] then
      var i := FirstIndex(keys[..n], x);
      assert keys[..n][..i] == keys[..i];
      i
    else n
  }

  /** The groups come in the order in which their keys first occur. */
  lemma {:induction false} DedupeKeepsFirstAppearanceOrder<K>(keys: seq<K>)
    ensures forall x :: x in Dedupe(keys) ==> x in keys
    ensures forall p, q :: 0 <= p < q < |Dedupe(keys)| ==>
              FirstIndex(keys, Dedupe(keys)[p]) < FirstIndex(keys, Dedupe(keys)[q])
  {
    DedupeElements(keys);
    if |keys| > 0 {
      var n := |keys| - 1;
      var prefix := keys[..n];
      DedupeKeepsFirstAppearanceOrder(prefix);
      DedupeElements(prefix);
      var d := Dedupe(keys);
      forall p, q | 0 <= p < q < |d|
        ensures FirstIndex(keys, d[p]) < FirstIndex(keys, d[q])
      {
        assert d[p] in prefix;
        assert FirstIndex(keys, d[p]) == FirstIndex(prefix, d[p]);
        if q < |Dedupe(prefix)| {
          assert FirstIndex(keys, d[q]) == FirstIndex(prefix, d[q]);
        } else {
          assert d[q] == keys[n] && keys[n] !in prefix;
        }
      }
    }
  }

  /** Every file belongs to the group of its own key. */
  lemma {:induction false} MembersContainFile<T, K>(files: seq<T>, keys: seq<K>, i: nat)
    requires |files| == |keys| && i < |files|
    ensures files[i] in Members(files, keys, keys[i])
  {
    var n := |files| - 1;
    if i < n {
      MembersContainFile(files[..n], keys[..n], i);
    }
  }

  /** The files whose key is listed in `order`, in upload order. */
  function Listed<T, K(==)>(files: seq<T>, keys: seq<K>, order: seq<K>): seq<T>
    requires |files| == |keys|
  {
    if |files| == 0 then []
    else
      var n := |files| - 1;
      Listed(files[..n], keys[..n], order) + (if keys[n] in order then [files[n]] else [])
  }

  /** With no key listed, no file is. */
  lemma {:induction false} ListedNothing<T, K>(files: seq<T>, keys: seq<K>)
    requires |files| == |keys|
    ensures Listed(files, keys, []) == []
  {
    if |files| > 0 {
      ListedNothing(files[..|files| - 1], keys[..|keys| - 1]);
    }
  }

  /** Multiset union distributes over concatenation. */
  lemma MultisetConcat<T>(a: seq<T>, b: seq<T>, c: seq<T>, x: seq<T>, y: seq<T>, z: seq<T>)
    requires multiset(a) == multiset(b) + multiset(c)
    requires multiset(x) == multiset(y) + multiset(z)
    ensures multiset(a + x) == multiset(b + y) + multiset(c + z)
  {
  }

  /** Listing one more key adds exactly that key's group. */
  lemma {:induction false} ListedExtend<T, K>(files: seq<T>, keys: seq<K>, order: seq<K>, o: K)
    requires |files| == |keys| && o !in order
    ensures multiset(Listed(files, keys, order + [o]))
            == multiset(Listed(files, keys, order)) + multiset(Members(files, keys, o))
  {
    if |files| > 0 {
      var n := |files| - 1;
      var fs, ks, f, k := files[..n], keys[..n], files[n], keys[n];
      ListedExtend(fs, ks, order, o);
      var tail := if k in order + [o] then [f] else [];
      var kept := if k in order then [f] else [];
      var own := if k == o then [f] else [];
      assert k in order + [o] <==> k in order || k == o;
      assert multiset(tail) == multiset(kept) + multiset(own);
      MultisetConcat(Listed(fs, ks, order + [o]), Listed(fs, ks, order), Members(fs, ks, o), tail, kept, own);
    }
  }

  /** With every key listed, no file is left out. */
  lemma {:induction false} ListedAll<T, K>(files: seq<T>, keys: seq<K>, order: seq<K>)
    requires |files| == |keys|
    requires forall i :: 0 <= i < |keys| ==> keys[i] in order
    ensures Listed(files, keys, order) == files
  {
    if |files| > 0 {
      var n := |files| - 1;
      ListedAll(files[..n], keys[..n], order);
      assert files == files[..n] + [files[n]];
    }
  }

  /** The groups of distinct keys hold, between them, exactly the listed files. */
  lemma {:induction false} FlattenListed<T, K>(order: seq<K>, files: seq<T>, keys: seq<K>)
    requires |files| == |keys| && Distinct(order)
    ensures multiset(Flatten(order, files, keys)) == multiset(Listed(files, keys, order))
  {
    if |order| == 0 {
      ListedNothing(files, keys);
    } else {
      var n := |order| - 1;
      FlattenListed(order[..n], files, keys);
      assert order == order[..n] + [order[n]];
      assert order[n] !in order[..n];
      ListedExtend(files, keys, order[..n], order[n]);
    }
  }

  /**
   * The groups, taken in order, are a permutation of the files:
   * each is listed exactly once, whatever the keys.
   */
  lemma GroupsArePermutation<T, K>(files: seq<T>, keys: seq<K>)
    requires |files| == |keys|
    ensures multiset(Flatten(Dedupe(keys), files, keys)) == multiset(files)
  {
    DedupeElements(keys);
    var order := Dedupe(keys);
    FlattenListed(order, files, keys);
    ListedAll(files, keys, order);
  }
}
