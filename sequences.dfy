/** The array library calls the site leans on: `filter`, `slice(0, n)`,
    de-duplication through a `Set`, and `sort` with a comparator.
    `Array.prototype.sort` is stable; it is modelled by a stable insertion
    sort, and with a comparator that is a total preorder every stable sort
    of the same input yields the same sequence. */
module Sequences {
  import opened Wrappers

  /** A prefix one longer is the prefix with the next element appended. */
  lemma PrefixStep<T>(s: seq<T>, i: nat)
    requires i < |s|
    ensures s[..i + 1] == s[..i] + [s[i]]
  {
  }

  /** `s.filter(p)`. */
  function Filter<T>(s: seq<T>, p: T -> bool): (r: seq<T>)
    ensures |r| <= |s|
    ensures forall x :: x in r ==> x in s && p(x)
    ensures forall x :: x in s && p(x) ==> x in r
    ensures multiset(r) <= multiset(s)
  {
    if s == [] then []
    else
      assert s == [s[0]] + s[1..];
      (if p(s[0]) then [s[0]] else []) + Filter(s[1..], p)
  }

  lemma {:induction false} FilterAppend<T>(a: seq<T>, b: seq<T>, p: T -> bool)
    ensures Filter(a + b, p) == Filter(a, p) + Filter(b, p)
  {
    if a == [] {
      assert a + b == b;
    } else {
      assert (a + b)[1..] == a[1..] + b;
      FilterAppend(a[1..], b, p);
    }
  }

  lemma {:induction false} FilterNone<T>(s: seq<T>, p: T -> bool)
    requires forall x :: x in s ==> !p(x)
    ensures Filter(s, p) == []
  {
    if s != [] {
      FilterNone(s[1..], p);
    }
  }

  /** `s.map(f).filter(Boolean)` where `f` yields a record or `null`. */
  function FilterMap<T, U>(s: seq<T>, f: T -> Option<U>): (r: seq<U>)
    ensures |r| <= |s|
    ensures forall y :: y in r ==> exists x :: x in s && f(x) == Some(y)
    ensures forall x :: x in s && f(x).Some? ==> f(x).value in r
  {
    if s == [] then []
    else
      assert s == [s[0]] + s[1..];
      (match f(s[0]) case Some(y) => [y] case None => []) + FilterMap(s[1..], f)
  }

  /** Order is kept: the records of a concatenation are those of its parts,
      in turn. */
  lemma {:induction false} FilterMapAppend<T, U>(a: seq<T>, b: seq<T>, f: T -> Option<U>)
    ensures FilterMap(a + b, f) == FilterMap(a, f) + FilterMap(b, f)
  {
    if a == [] {
      assert a + b == b;
    } else {
      assert (a + b)[1..] == a[1..] + b;
      FilterMapAppend(a[1..], b, f);
    }
  }

  /** When no element is dropped, record `i` comes from element `i`. */
  lemma {:induction false} FilterMapAll<T, U>(s: seq<T>, f: T -> Option<U>, i: nat)
    requires forall x :: x in s ==> f(x).Some?
    requires i < |s|
    ensures |FilterMap(s, f)| == |s| && FilterMap(s, f)[i] == f(s[i]).value
  {
    if i == 0 {
      FilterMapAllLength(s, f);
    } else {
      FilterMapAll(s[1..], f, i - 1);
      FilterMapAllLength(s, f);
    }
  }

  lemma {:induction false} FilterMapAllLength<T, U>(s: seq<T>, f: T -> Option<U>)
    requires forall x :: x in s ==> f(x).Some?
    ensures |FilterMap(s, f)| == |s|
  {
    if s != [] {
      FilterMapAllLength(s[1..], f);
    }
  }

  /** `s.slice(0, n)` for `n >= 0`. */
  function Take<T>(s: seq<T>, n: nat): (r: seq<T>)
    ensures |r| == if n < |s| then n else |s|
    ensures r <= s
  {
    if n < |s| then s[..n] else s
  }

  predicate NoDuplicates<T(==)>(s: seq<T>)
  {
    forall i, j :: 0 <= i < j < |s| ==> s[i] != s[j]
  }

  /** `Array.from(new Set(s))`: each value once, at its first occurrence. */
  function Dedup<T(==,!new)>(s: seq<T>): (r: seq<T>)
    ensures NoDuplicates(r)
    ensures forall x :: x in r <==> x in s
    ensures |r| <= |s|
  {
    if s == [] then []
    else
      var d := Dedup(s[..|s| - 1]);
      var x := s[|s| - 1];
      assert forall y :: y in s <==> y in s[..|s| - 1] || y == x;
      if x in d then d else d + [x]
  }

  /** A duplicate-free sequence holds each value at most once. */
  lemma {:induction false} NoDuplicatesCount<T>(s: seq<T>, x: T)
    requires NoDuplicates(s)
    ensures multiset(s)[x] <= 1
    decreases |s|
  {
    if s != [] {
      var p := s[..|s| - 1];
      assert s == p + [s[|s| - 1]];
      NoDuplicatesCount(p, x);
      if s[|s| - 1] == x {
        assert x !in p;
      }
    }
  }

  /** Reordering keeps a sequence duplicate-free. */
  lemma NoDuplicatesPermutation<T>(a: seq<T>, b: seq<T>)
    requires NoDuplicates(a) && multiset(a) == multiset(b)
    ensures NoDuplicates(b)
  {
    forall i, j | 0 <= i < j < |b|
      ensures b[i] != b[j]
    {
      if b[i] == b[j] {
        RepeatedCount(b, i, j);
        NoDuplicatesCount(a, b[i]);
        assert false;
      }
    }
  }

  lemma RepeatedCount<T>(b: seq<T>, i: nat, j: nat)
    requires i < j < |b| && b[i] == b[j]
    ensures multiset(b)[b[i]] >= 2
  {
    assert b == b[..j] + [b[j]] + b[j + 1..];
    assert b[i] in b[..j];
  }

  /** `s.findIndex(p)`, `None` for -1. */
  function FindIndex<T>(s: seq<T>, p: T -> bool): (r: Option<nat>)
    ensures r.Some? ==> r.value < |s| && p(s[r.value]) && forall j :: 0 <= j < r.value ==> !p(s[j])
    ensures r.None? ==> forall j :: 0 <= j < |s| ==> !p(s[j])
  {
    if s == [] then None
    else if p(s[0]) then Some(0)
    else
      match FindIndex(s[1..], p)
      case None => None
      case Some(k) => Some(k + 1)
  }

  /** `s.find(p)`, `None` for undefined. */
  function Find<T>(s: seq<T>, p: T -> bool): (r: Option<T>)
    ensures r.Some? ==> r.value in s && p(r.value)
    ensures r.None? ==> forall x :: x in s ==> !p(x)
    ensures r.Some? ==> exists i :: 0 <= i < |s| && r.value == s[i] && forall j :: 0 <= j < i ==> !p(s[j])
  {
    match FindIndex(s, p)
    case None => None
    case Some(i) => Some(s[i])
  }

  /** A comparator `le(a, b)` ("a may stay before b") that is total and transitive. */
  ghost predicate TotalPreorder<T(!new)>(le: (T, T) -> bool)
  {
    (forall a, b :: le(a, b) || le(b, a)) &&
    (forall a, b, c :: le(a, b) && le(b, c) ==> le(a, c))
  }

  predicate SortedBy<T>(s: seq<T>, le: (T, T) -> bool)
  {
    forall i, j :: 0 <= i < j < |s| ==> le(s[i], s[j])
  }

  /** Puts `x` in front of the first element it may precede. */
  function Insert<T>(x: T, s: seq<T>, le: (T, T) -> bool): (r: seq<T>)
    ensures |r| == |s| + 1
  {
    if s == [] || le(x, s[0]) then [x] + s
    else [s[0]] + Insert(x, s[1..], le)
  }

  lemma {:induction false} InsertPermutation<T>(x: T, s: seq<T>, le: (T, T) -> bool)
    ensures multiset(Insert(x, s, le)) == multiset(s) + multiset{x}
  {
    if s != [] && !le(x, s[0]) {
      InsertPermutation(x, s[1..], le);
      assert s == [s[0]] + s[1..];
    }
  }

  /** `s.slice().sort(cmp)` where `le(a, b)` is `cmp(a, b) <= 0`. */
  function SortBy<T>(s: seq<T>, le: (T, T) -> bool): (r: seq<T>)
    ensures multiset(r) == multiset(s)
    ensures |r| == |s|
  {
    if s == [] then []
    else
      assert s == [s[0]] + s[1..];
      InsertPermutation(s[0], SortBy(s[1..], le), le);
      Insert(s[0], SortBy(s[1..], le), le)
  }

  lemma {:induction false} InsertSorted<T(!new)>(x: T, s: seq<T>, le: (T, T) -> bool)
    requires TotalPreorder(le)
    requires SortedBy(s, le)
    ensures SortedBy(Insert(x, s, le), le)
  {
    if s == [] || le(x, s[0]) {
    } else {
      InsertSorted(x, s[1..], le);
      var t := Insert(x, s[1..], le);
      InsertPermutation(x, s[1..], le);
      forall j | 0 <= j < |t|
        ensures le(s[0], t[j])
      {
        assert t[j] in multiset(t);
        if t[j] != x {
          assert t[j] in multiset(s[1..]);
          var k :| 0 <= k < |s[1..]| && s[1..][k] == t[j];
          assert s[k + 1] == t[j];
        }
      }
    }
  }

  /** The sort orders its result. */
  lemma {:induction false} SortBySorted<T(!new)>(s: seq<T>, le: (T, T) -> bool)
    requires TotalPreorder(le)
    ensures SortedBy(SortBy(s, le), le)
  {
    if s != [] {
      SortBySorted(s[1..], le);
      InsertSorted(s[0], SortBy(s[1..], le), le);
    }
  }

  /** Two values the comparator cannot tell apart. */
  predicate Equivalent<T>(a: T, b: T, le: (T, T) -> bool)
  {
    le(a, b) && le(b, a)
  }

  /** The elements of `s` equivalent to `k`, in their order in `s`. */
  function Class<T>(s: seq<T>, k: T, le: (T, T) -> bool): (r: seq<T>)
    ensures |r| <= |s|
  {
    if s == [] then []
    else (if Equivalent(s[0], k, le) then [s[0]] else []) + Class(s[1..], k, le)
  }

  lemma ClassCons<T>(x: T, s: seq<T>, k: T, le: (T, T) -> bool)
    ensures Class([x] + s, k, le) == (if Equivalent(x, k, le) then [x] else []) + Class(s, k, le)
  {
    assert ([x] + s)[1..] == s;
  }

  /** A value strictly below `x` is not in `x`'s class. */
  lemma NotEquivalentBelow<T(!new)>(x: T, y: T, k: T, le: (T, T) -> bool)
    requires TotalPreorder(le)
    requires !le(x, y)
    requires Equivalent(x, k, le)
    ensures !Equivalent(y, k, le)
  {
  }

  lemma InsertStep<T>(x: T, s: seq<T>, le: (T, T) -> bool)
    requires s != [] && !le(x, s[0])
    ensures Insert(x, s, le) == [s[0]] + Insert(x, s[1..], le)
  {
  }

  lemma {:induction false} ClassInsert<T(!new)>(x: T, s: seq<T>, k: T, le: (T, T) -> bool)
    requires TotalPreorder(le)
    ensures Class(Insert(x, s, le), k, le)
         == (if Equivalent(x, k, le) then [x] else []) + Class(s, k, le)
  {
    if s == [] || le(x, s[0]) {
      assert Insert(x, s, le) == [x] + s;
      ClassCons(x, s, k, le);
    } else {
      ClassInsert(x, s[1..], k, le);
      if Equivalent(x, k, le) {
        NotEquivalentBelow(x, s[0], k, le);
      }
      ClassInsertStep(x, s, k, le);
    }
  }

  /** The inductive step of `ClassInsert`, kept apart from the preorder's
      quantifiers: `x` passes `s[0]`, which is outside `x`'s class. */
  lemma ClassInsertStep<T>(x: T, s: seq<T>, k: T, le: (T, T) -> bool)
    requires s != [] && !le(x, s[0])
    requires Equivalent(x, k, le) ==> !Equivalent(s[0], k, le)
    requires Class(Insert(x, s[1..], le), k, le)
          == (if Equivalent(x, k, le) then [x] else []) + Class(s[1..], k, le)
    ensures Class(Insert(x, s, le), k, le)
         == (if Equivalent(x, k, le) then [x] else []) + Class(s, k, le)
  {
    var cx: seq<T> := if Equivalent(x, k, le) then [x] else [];
    var cy: seq<T> := if Equivalent(s[0], k, le) then [s[0]] else [];
    var rest := Class(s[1..], k, le);
    InsertStep(x, s, le);
    ClassCons(s[0], Insert(x, s[1..], le), k, le);
    ClassCons(s[0], s[1..], k, le);
    assert s == [s[0]] + s[1..];
    assert cy + cx == cx + cy;
    SwapFront(cy, cx, rest);
  }

  lemma SwapFront<T>(a: seq<T>, b: seq<T>, c: seq<T>)
    requires a + b == b + a
    ensures a + (b + c) == b + (a + c)
  {
    calc {
      a + (b + c);
      (a + b) + c;
      (b + a) + c;
    }
  }

  /** Stability: equivalent elements keep their relative order. */
  lemma {:induction false} SortByStable<T(!new)>(s: seq<T>, k: T, le: (T, T) -> bool)
    requires TotalPreorder(le)
    ensures Class(SortBy(s, le), k, le) == Class(s, k, le)
  {
    if s != [] {
      SortByStable(s[1..], k, le);
      ClassInsert(s[0], SortBy(s[1..], le), k, le);
    }
  }

  /** Sorting an already sorted sequence leaves it as it is. */
  lemma {:induction false} SortBySortedIdentity<T(!new)>(s: seq<T>, le: (T, T) -> bool)
    requires TotalPreorder(le)
    requires SortedBy(s, le)
    ensures SortBy(s, le) == s
  {
    if s != [] {
      assert SortedBy(s[1..], le);
      SortBySortedIdentity(s[1..], le);
      if |s| > 1 {
        assert le(s[0], s[1]);
      }
    }
  }

  // ---------------------------------------------------------------------------
  // Grouping into a `Map` of arrays, one pass in input order

  /** The keys of the elements that have one, each once, in the order they
      were first met: the key order of a `Map` filled in one pass. */
  function KeysInOrder<T, K(==)>(s: seq<T>, key: T -> Option<K>): seq<K>
  {
    if s == [] then []
    else
      var order := KeysInOrder(s[..|s| - 1], key);
      match key(s[|s| - 1])
      case None => order
      case Some(k) => if k in order then order else order + [k]
  }

  /** Every key met is listed once, and nothing else is. */
  lemma {:induction false} KeysInOrderSpec<T, K>(s: seq<T>, key: T -> Option<K>)
    ensures NoDuplicates(KeysInOrder(s, key))
    ensures forall k :: k in KeysInOrder(s, key) <==> exists x :: x in s && key(x) == Some(k)
  {
    if s != [] {
      var init, last := s[..|s| - 1], s[|s| - 1];
      KeysInOrderSpec(init, key);
      forall k
        ensures k in KeysInOrder(s, key) <==> exists x :: x in s && key(x) == Some(k)
      {
        if k in KeysInOrder(init, key) {
          var x :| x in init && key(x) == Some(k);
          assert x in s;
        } else if key(last) == Some(k) {
          assert last in s;
        } else {
          forall x | x in s
            ensures key(x) != Some(k)
          {
            if x !in init {
              assert x == last;
            }
          }
        }
      }
    }
  }

  /** The elements filed under key `k`, in input order. */
  function Members<T, K(==)>(s: seq<T>, key: T -> Option<K>, k: K): seq<T>
  {
    Filter(s, x => key(x) == Some(k))
  }

  /** The `Map` from each key met to its elements. */
  function GroupBy<T, K(==)>(s: seq<T>, key: T -> Option<K>): map<K, seq<T>>
  {
    map k | k in KeysInOrder(s, key) :: Members(s, key, k)
  }

  /** A key that was never met has no members. */
  lemma MembersEmpty<T, K>(s: seq<T>, key: T -> Option<K>, k: K)
    requires k !in KeysInOrder(s, key)
    ensures Members(s, key, k) == []
  {
    KeysInOrderSpec(s, key);
    FilterNone(s, x => key(x) == Some(k));
  }

  /** One more element extends the members of its own key only. */
  lemma MembersStep<T, K>(s: seq<T>, i: nat, key: T -> Option<K>, k: K)
    requires i < |s|
    ensures Members(s[..i + 1], key, k)
         == Members(s[..i], key, k) + (if key(s[i]) == Some(k) then [s[i]] else [])
  {
    assert s[..i + 1] == s[..i] + [s[i]];
    FilterAppend(s[..i], [s[i]], x => key(x) == Some(k));
    assert [s[i]][1..] == [];
  }

  /** One more element adds its key to the order if it is new. */
  lemma KeysInOrderStep<T, K>(s: seq<T>, i: nat, key: T -> Option<K>)
    requires i < |s|
    ensures KeysInOrder(s[..i + 1], key) ==
      match key(s[i])
      case None => KeysInOrder(s[..i], key)
      case Some(k) =>
        if k in KeysInOrder(s[..i], key) then KeysInOrder(s[..i], key)
        else KeysInOrder(s[..i], key) + [k]
  {
    assert s[..i + 1][..i] == s[..i];
  }

  /** An element without a key leaves the grouping as it was. */
  lemma GroupSkip<T, K>(s: seq<T>, i: nat, key: T -> Option<K>)
    requires i < |s| && key(s[i]).None?
    ensures GroupBy(s[..i + 1], key) == GroupBy(s[..i], key)
  {
    var before, after := GroupBy(s[..i], key), GroupBy(s[..i + 1], key);
    KeysInOrderStep(s, i, key);
    assert after.Keys == before.Keys;
    forall k | k in after
      ensures after[k] == before[k]
    {
      MembersStep(s, i, key, k);
    }
    MapEquals(after, before);
  }

  lemma MapEquals<K, V>(m: map<K, V>, base: map<K, V>)
    requires forall j :: j in m <==> j in base
    requires forall j :: j in m ==> m[j] == base[j]
    ensures m == base
  {
  }

  /** An element with key `k` is appended to the array under `k`, which is
      created empty first if `k` is new. */
  lemma GroupKeep<T, K>(s: seq<T>, i: nat, key: T -> Option<K>, k: K)
    requires i < |s| && key(s[i]) == Some(k)
    ensures var before := GroupBy(s[..i], key);
      GroupBy(s[..i + 1], key) == before[k := (if k in before then before[k] else []) + [s[i]]]
  {
    var before, after := GroupBy(s[..i], key), GroupBy(s[..i + 1], key);
    var list := (if k in before then before[k] else []) + [s[i]];
    KeysInOrderStep(s, i, key);
    assert KeysInOrder(s[..i + 1], key) == KeysInOrder(s[..i], key) || KeysInOrder(s[..i + 1], key) == KeysInOrder(s[..i], key) + [k];
    assert forall j :: j in after <==> j in before || j == k;
    MembersStep(s, i, key, k);
    if k !in before {
      MembersEmpty(s[..i], key, k);
    }
    assert after[k] == list;
    forall j | j in after && j != k
      ensures after[j] == before[j]
    {
      MembersStep(s, i, key, j);
    }
    MapUpdateEquals(after, before, k, list);
  }

  /** A map equals an update of another when they agree on the updated key
      and everywhere else. */
  lemma MapUpdateEquals<K, V>(m: map<K, V>, base: map<K, V>, k: K, v: V)
    requires forall j :: j in m <==> j in base || j == k
    requires k in m && m[k] == v
    requires forall j :: j in m && j != k ==> m[j] == base[j]
    ensures m == base[k := v]
  {
  }
}
