/** Lookup and removal by id over the game's two lists.

    Both the grill (seaweed units) and the queue (customers) are arrays of
    records carrying a string `id`; the game container looks entries up with
    `Array.prototype.find` and drops them with `Array.prototype.filter`.
    Those two operations are written here once, for any element type, with
    the id read through a `key` function. */
module Lists {

  datatype Option<+T> = None | Some(value: T)

  /** Some element of `s` has key `id`. */
  predicate HasKey<T>(s: seq<T>, key: T -> string, id: string) {
    exists i :: 0 <= i < |s| && key(s[i]) == id
  }

  /** No two elements of `s` share a key. */
  predicate UniqueKeys<T>(s: seq<T>, key: T -> string) {
    forall i, j :: 0 <= i < j < |s| ==> key(s[i]) != key(s[j])
  }

  /** Position of the first element whose key is `id`, or `|s|` when there is none. */
  function IndexOf<T>(s: seq<T>, key: T -> string, id: string): (k: nat)
    ensures k <= |s|
    ensures k < |s| ==> key(s[k]) == id
    ensures forall j :: 0 <= j < k ==> key(s[j]) != id
    decreases |s|
  {
    if |s| == 0 then 0
    else if key(s[0]) == id then 0
    else 1 + IndexOf(s[1..], key, id)
  }

  /** `find(x => x.id === id)`: the first element with key `id`, if any. */
  function Find<T>(s: seq<T>, key: T -> string, id: string): (r: Option<T>)
    ensures r.Some? <==> HasKey(s, key, id)
    ensures r.Some? ==> exists k :: 0 <= k < |s| && s[k] == r.value && key(s[k]) == id
                                    && forall j :: 0 <= j < k ==> key(s[j]) != id
  {
    var k := IndexOf(s, key, id);
    if k < |s| then Some(s[k]) else None
  }

  /** `filter(x => x.id !== id)`: every element whose key is not `id`, in order. */
  function RemoveKey<T(==)>(s: seq<T>, key: T -> string, id: string): (r: seq<T>)
    ensures |r| <= |s|
    ensures forall x :: x in r ==> x in s && key(x) != id
    ensures forall x :: x in s && key(x) != id ==> x in r
    ensures !HasKey(s, key, id) ==> r == s
    decreases |s|
  {
    if |s| == 0 then []
    else if key(s[0]) == id then RemoveKey(s[1..], key, id)
    else [s[0]] + RemoveKey(s[1..], key, id)
  }

  /** `filter` on one element keeps it exactly when its key is not `id`. */
  lemma RemoveKeySingleton<T>(x: T, key: T -> string, id: string)
    ensures RemoveKey([x], key, id) == if key(x) == id then [] else [x]
  {
    assert [x][1..] == [];
  }

  /** `filter` on a sequence with first element `x` decides `x` first. */
  lemma RemoveKeyCons<T>(x: T, t: seq<T>, key: T -> string, id: string)
    ensures RemoveKey([x] + t, key, id) == (if key(x) == id then [] else [x]) + RemoveKey(t, key, id)
  {
    var s := [x] + t;
    assert s[0] == x && s[1..] == t;
  }

  /** Concatenation is associative. */
  lemma ConcatAssoc<T>(a: seq<T>, b: seq<T>, c: seq<T>)
    ensures a + b + c == a + (b + c)
  {
  }

  /** One step of `RemoveKeyAppend`: distribution over `rest + b` carries
      over to `[x] + rest + b`. */
  lemma RemoveKeyAppendCons<T>(x: T, rest: seq<T>, b: seq<T>, key: T -> string, id: string)
    requires RemoveKey(rest + b, key, id) == RemoveKey(rest, key, id) + RemoveKey(b, key, id)
    ensures RemoveKey([x] + rest + b, key, id) == RemoveKey([x] + rest, key, id) + RemoveKey(b, key, id)
  {
    var kept := if key(x) == id then [] else [x];
    calc {
      RemoveKey([x] + rest + b, key, id);
    == { ConcatAssoc([x], rest, b); }
      RemoveKey([x] + (rest + b), key, id);
    == { RemoveKeyCons(x, rest + b, key, id); }
      kept + (RemoveKey(rest, key, id) + RemoveKey(b, key, id));
    == { ConcatAssoc(kept, RemoveKey(rest, key, id), RemoveKey(b, key, id)); }
      (kept + RemoveKey(rest, key, id)) + RemoveKey(b, key, id);
    == { RemoveKeyCons(x, rest, key, id); }
      RemoveKey([x] + rest, key, id) + RemoveKey(b, key, id);
    }
  }

  /** `filter` distributes over concatenation, so it keeps the surviving
      elements in their input order. */
  lemma {:induction false} RemoveKeyAppend<T>(a: seq<T>, b: seq<T>, key: T -> string, id: string)
    ensures RemoveKey(a + b, key, id) == RemoveKey(a, key, id) + RemoveKey(b, key, id)
    decreases |a|
  {
    if |a| == 0 {
      assert a + b == b && RemoveKey(a, key, id) == [];
      assert [] + RemoveKey(b, key, id) == RemoveKey(b, key, id);
    } else {
      RemoveKeyAppend(a[1..], b, key, id);
      RemoveKeyAppendCons(a[0], a[1..], b, key, id);
      assert [a[0]] + a[1..] == a;
    }
  }

  /** With unique keys, removing the key found at position `k` drops exactly
      that element and keeps the others in their order. */
  lemma {:induction false} RemoveUniqueKey<T>(s: seq<T>, key: T -> string, k: nat)
    requires k < |s| && UniqueKeys(s, key)
    ensures RemoveKey(s, key, key(s[k])) == s[..k] + s[k + 1..]
    ensures |RemoveKey(s, key, key(s[k]))| == |s| - 1
  {
    var id := key(s[k]);
    var before, after := s[..k], s[k + 1..];
    assert s == before + ([s[k]] + after);
    assert !HasKey(before, key, id) by {
      forall i | 0 <= i < |before| ensures key(before[i]) != id {
        assert before[i] == s[i];
      }
    }
    assert !HasKey(after, key, id) by {
      forall i | 0 <= i < |after| ensures key(after[i]) != id {
        assert after[i] == s[k + 1 + i];
      }
    }
    RemoveKeyAppend(before, [s[k]] + after, key, id);
    RemoveKeyAppend([s[k]], after, key, id);
    RemoveKeySingleton(s[k], key, id);
  }

  /** The first element's key is not among the keys that survive removal
      from the rest of a uniquely keyed sequence. */
  lemma HeadKeyNotKept<T>(s: seq<T>, key: T -> string, id: string)
    requires |s| > 0 && UniqueKeys(s, key)
    ensures forall m :: 0 <= m < |RemoveKey(s[1..], key, id)| ==>
              key(RemoveKey(s[1..], key, id)[m]) != key(s[0])
  {
    var rest := RemoveKey(s[1..], key, id);
    forall m | 0 <= m < |rest| ensures key(rest[m]) != key(s[0]) {
      assert rest[m] in s[1..];
      var i :| 0 <= i < |s[1..]| && s[1..][i] == rest[m];
      assert s[1..][i] == s[i + 1];
    }
  }

  /** Prepending an element whose key is not yet present keeps the keys unique. */
  lemma PrependFreshKeepsUnique<T>(x: T, s: seq<T>, key: T -> string)
    requires UniqueKeys(s, key) && forall m :: 0 <= m < |s| ==> key(s[m]) != key(x)
    ensures UniqueKeys([x] + s, key)
  {
    var r := [x] + s;
    forall i, j | 0 <= i < j < |r| ensures key(r[i]) != key(r[j]) {
      assert r[j] == s[j - 1];
      if i > 0 { assert r[i] == s[i - 1]; }
    }
  }

  /** Dropping the first element keeps the keys unique. */
  lemma TailKeepsUnique<T>(s: seq<T>, key: T -> string)
    requires |s| > 0 && UniqueKeys(s, key)
    ensures UniqueKeys(s[1..], key)
  {
    forall i, j | 0 <= i < j < |s[1..]| ensures key(s[1..][i]) != key(s[1..][j]) {
      assert s[1..][i] == s[i + 1] && s[1..][j] == s[j + 1];
    }
  }

  /** Removal keeps the keys unique. */
  lemma {:induction false} RemoveKeepsUnique<T>(s: seq<T>, key: T -> string, id: string)
    requires UniqueKeys(s, key)
    ensures UniqueKeys(RemoveKey(s, key, id), key)
    decreases |s|
  {
    if |s| > 0 {
      TailKeepsUnique(s, key);
      RemoveKeepsUnique(s[1..], key, id);
      if key(s[0]) != id {
        HeadKeyNotKept(s, key, id);
        PrependFreshKeepsUnique(s[0], RemoveKey(s[1..], key, id), key);
      }
    }
  }

  /** Appending an element whose key is not yet present keeps the keys unique. */
  lemma AppendFreshKeepsUnique<T>(s: seq<T>, key: T -> string, x: T)
    requires UniqueKeys(s, key) && !HasKey(s, key, key(x))
    ensures UniqueKeys(s + [x], key)
  {}
}
