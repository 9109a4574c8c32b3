/** Small vocabulary shared by the models: options, table lookup, and Erlang's
    list and key-set operations on sequences. */
module Collections {

  datatype Option<+T> = None | Some(value: T)

  /** maps:find */
  function Lookup<K, V>(m: map<K, V>, k: K): Option<V> {
    if k in m then Some(m[k]) else None
  }

  /** maps:get with an empty list as default */
  function ListAt<K, V>(m: map<K, seq<V>>, k: K): seq<V> {
    if k in m then m[k] else []
  }

  predicate Sorted(s: seq<int>) {
    forall i, j :: 0 <= i < j < |s| ==> s[i] < s[j]
  }

  /** Insert a key into the ordered key list of an Erlang map. */
  function AddKey(s: seq<int>, x: int): (r: seq<int>)
    ensures forall y :: y in r <==> y == x || y in s
    ensures Sorted(s) ==> Sorted(r)
  {
    if s == [] then [x]
    else if x < s[0] then [x] + s
    else if x == s[0] then s
    else
      var t := AddKey(s[1..], x);
      assert forall y :: y in s <==> y == s[0] || y in s[1..];
      assert Sorted(s) ==> Sorted(s[1..]) && forall y :: y in s[1..] ==> s[0] < y;
      assert Sorted(s) ==> forall i :: 0 <= i < |t| ==> s[0] < t[i] by {
        if Sorted(s) {
          forall i | 0 <= i < |t| ensures s[0] < t[i] { assert t[i] in t; }
        }
      }
      [s[0]] + t
  }

  /** Fold a list of keys into an ordered key list. */
  function AddKeys(s: seq<int>, ks: seq<int>): (r: seq<int>)
    ensures forall y :: y in r <==> y in s || y in ks
    ensures Sorted(s) ==> Sorted(r)
  {
    if ks == [] then s else AddKey(AddKeys(s, ks[1..]), ks[0])
  }

  /** The distinct members of a list, in term order. */
  function Keys(ks: seq<int>): (r: seq<int>)
    ensures forall y :: y in r <==> y in ks
    ensures Sorted(r)
  {
    AddKeys([], ks)
  }

  /** How often x occurs in a list. */
  function Occurs<T(==)>(s: seq<T>, x: T): nat {
    if s == [] then 0 else (if s[0] == x then 1 else 0) + Occurs(s[1..], x)
  }

  lemma OccursMember<T>(s: seq<T>, x: T)
    ensures x in s <==> Occurs(s, x) > 0
  {
  }

  /** lists:delete: drop the first occurrence. */
  function Delete<T(==)>(s: seq<T>, x: T): seq<T> {
    if s == [] then [] else if s[0] == x then s[1..] else [s[0]] + Delete(s[1..], x)
  }

  lemma {:induction false} DeleteOccurs<T>(s: seq<T>, x: T, y: T)
    ensures Occurs(Delete(s, x), y) == if x == y && x in s then Occurs(s, y) - 1 else Occurs(s, y)
  {
    OccursMember(s, x);
    if s != [] && s[0] != x {
      DeleteOccurs(s[1..], x, y);
    }
  }

  /** lists:subtract: drop one occurrence for each member of t. */
  function Subtract<T(==)>(s: seq<T>, t: seq<T>): seq<T>
    decreases t
  {
    if t == [] then s else Subtract(Delete(s, t[0]), t[1..])
  }

  lemma {:induction false} SubtractOccurs<T>(s: seq<T>, t: seq<T>, y: T)
    ensures Occurs(Subtract(s, t), y) == if Occurs(t, y) <= Occurs(s, y) then Occurs(s, y) - Occurs(t, y) else 0
    decreases t
  {
    if t == [] {
    } else {
      DeleteOccurs(s, t[0], y);
      OccursMember(s, t[0]);
      SubtractOccurs(Delete(s, t[0]), t[1..], y);
    }
  }

  /** A sorted list has no member twice. */
  lemma {:induction false} SortedOnce(s: seq<int>, x: int)
    requires Sorted(s)
    ensures Occurs(s, x) <= 1
  {
    if s == [] {
    } else {
      SortedOnce(s[1..], x);
      OccursMember(s[1..], x);
    }
  }
}
