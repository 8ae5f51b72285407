/** The small vocabulary every other module shares: machine integers, optional
    values and results that can be propagated with `:-`. */
module Prelude {
  type u8 = x: int | 0 <= x < 0x100
  type u16 = x: int | 0 <= x < 0x1_0000
  type u32 = x: int | 0 <= x < 0x1_0000_0000

  datatype Option<+T> = None | Some(value: T)

  datatype Result<+T, +E> = Ok(value: T) | Err(error: E) {
    predicate IsFailure() {
      Err?
    }

    function PropagateFailure<U>(): Result<U, E>
      requires Err?
    {
      Err(error)
    }

    function Extract(): T
      requires Ok?
    {
      value
    }
  }
}

/** Sorting and deduplicating, as `sort_unstable`, `sort_by_key` and `dedup`
    do it, and the one ascending list a set of integers has. */
module Lists {

  ghost predicate Ascending(s: seq<int>) {
    forall i, j :: 0 <= i < j < |s| ==> s[i] < s[j]
  }

  function Elements(s: seq<int>): set<int> {
    set x | x in s
  }

  function Bag(s: seq<int>): multiset<int> {
    multiset(s)
  }

  /** The members of `s` in `0..n`, smallest first: what iterating over a
      `BTreeSet` yields. */
  function Listing(s: set<int>, n: nat): (l: seq<int>)
    ensures Ascending(l)
    ensures forall x :: x in l <==> x in s && 0 <= x < n
  {
    if n == 0 then []
    else if n - 1 in s then
      var l := Listing(s, n - 1);
      assert forall i :: 0 <= i < |l| ==> l[i] in l;
      l + [n - 1]
    else Listing(s, n - 1)
  }

  lemma {:induction false} ListingLength(s: set<int>, n: nat)
    ensures |Listing(s, n)| <= n
  {
    if n > 0 {
      ListingLength(s, n - 1);
    }
  }

  lemma AscendingTail(s: seq<int>)
    requires Ascending(s) && s != []
    ensures Ascending(s[1..])
    ensures forall x :: x in s ==> s[0] <= x
    ensures forall x :: x in s[1..] <==> x in s && x != s[0]
  {
    forall x ensures x in s[1..] <==> x in s && x != s[0] {
      if x in s && x != s[0] {
        var i :| 0 <= i < |s| && s[i] == x;
        assert s[1..][i - 1] == x;
      }
    }
  }

  lemma SameMembers(a: seq<int>, b: seq<int>)
    requires forall x :: x in a <==> x in b
    ensures a == [] <==> b == []
    ensures a != [] ==> a[0] in b && b[0] in a
  {
    if a != [] {
      var x := a[0];
      assert x in a && x in b;
    }
    if b != [] {
      var x := b[0];
      assert x in b && x in a;
    }
  }

  lemma {:induction false} AscendingUnique(a: seq<int>, b: seq<int>)
    requires Ascending(a) && Ascending(b)
    requires forall x :: x in a <==> x in b
    ensures a == b
  {
    SameMembers(a, b);
    if a != [] {
      AscendingTail(a);
      AscendingTail(b);
      AscendingUnique(a[1..], b[1..]);
      assert a == [a[0]] + a[1..] && b == [b[0]] + b[1..];
    }
  }

  ghost predicate SortedBy<T>(s: seq<T>, key: T -> int) {
    |s| > 1 ==> key(s[0]) <= key(s[1]) && SortedBy(s[1..], key)
  }

  function Insert<T>(x: T, s: seq<T>, key: T -> int): seq<T> {
    if s == [] || key(x) <= key(s[0]) then [x] + s else [s[0]] + Insert(x, s[1..], key)
  }

  /** A stable sort. */
  function SortByKey<T>(s: seq<T>, key: T -> int): seq<T> {
    if s == [] then [] else Insert(s[0], SortByKey(s[1..], key), key)
  }

  lemma {:induction false} InsertSorts<T>(x: T, s: seq<T>, key: T -> int)
    requires SortedBy(s, key)
    ensures SortedBy(Insert(x, s, key), key)
    ensures multiset(Insert(x, s, key)) == multiset(s) + multiset{x}
  {
    if s == [] || key(x) <= key(s[0]) {
      assert ([x] + s)[1..] == s;
    } else {
      InsertSorts(x, s[1..], key);
      var t := Insert(x, s[1..], key);
      assert ([s[0]] + t)[1..] == t;
      assert s == [s[0]] + s[1..];
    }
  }

  lemma {:induction false} SortSorts<T>(s: seq<T>, key: T -> int)
    ensures SortedBy(SortByKey(s, key), key)
    ensures multiset(SortByKey(s, key)) == multiset(s)
  {
    if s != [] {
      SortSorts(s[1..], key);
      InsertSorts(s[0], SortByKey(s[1..], key), key);
      assert s == [s[0]] + s[1..];
    }
  }

  function Identity(x: int): int { x }

  lemma {:induction false} SortedLeast(s: seq<int>, x: int)
    requires SortedBy(s, Identity) && x in s
    ensures s[0] <= x
  {
    if |s| > 1 && x != s[0] {
      assert x in s[1..];
      SortedLeast(s[1..], x);
    }
  }

  lemma BagTail(s: seq<int>)
    requires s != []
    ensures Bag(s[1..]) == Bag(s) - multiset{s[0]}
  {
    assert s == [s[0]] + s[1..];
  }

  lemma BagLength(s: seq<int>)
    ensures |Bag(s)| == |s|
  {
  }

  lemma SortedHead(a: seq<int>, b: seq<int>)
    requires SortedBy(a, Identity) && b != [] && Bag(a) == Bag(b)
    ensures a != [] && a[0] <= b[0]
  {
    assert b[0] in Bag(a);
    SortedLeast(a, b[0]);
  }

  /** Sorting leaves no choice about the result. */
  lemma {:induction false} SortedUnique(a: seq<int>, b: seq<int>)
    requires SortedBy(a, Identity) && SortedBy(b, Identity)
    requires Bag(a) == Bag(b)
    ensures a == b
  {
    BagLength(a);
    BagLength(b);
    if a != [] {
      SortedHead(a, b);
      SortedHead(b, a);
      var a', b' := a[1..], b[1..];
      BagTail(a);
      BagTail(b);
      SortedTail(a);
      SortedTail(b);
      SortedUnique(a', b');
      assert a == [a[0]] + a' && b == [b[0]] + b';
    }
  }

  lemma SortedTail(s: seq<int>)
    requires s != [] && SortedBy(s, Identity)
    ensures SortedBy(s[1..], Identity)
  {
    if |s| == 1 {
      assert s[1..] == [];
    }
  }

  lemma {:induction false} AscendingSorted(s: seq<int>)
    requires Ascending(s)
    ensures SortedBy(s, Identity)
  {
    if |s| > 1 {
      AscendingSorted(s[1..]);
    }
  }

  lemma {:induction false} AscendingCounts(s: seq<int>, x: int)
    requires Ascending(s)
    ensures multiset(s)[x] == if x in s then 1 else 0
  {
    if s != [] {
      AscendingCounts(s[1..], x);
      assert s == [s[0]] + s[1..];
      assert s[0] !in s[1..];
    }
  }

  /** Removes repeats of the element just before, and no others. */
  function Dedup(s: seq<int>): seq<int> {
    if |s| < 2 then s
    else if s[0] == s[1] then Dedup(s[1..])
    else [s[0]] + Dedup(s[1..])
  }

  lemma {:induction false} DedupSorted(s: seq<int>)
    requires SortedBy(s, Identity)
    ensures s != [] ==> Dedup(s) != [] && Dedup(s)[0] == s[0]
    ensures Ascending(Dedup(s))
    ensures Elements(Dedup(s)) == Elements(s)
  {
    if |s| >= 2 {
      DedupSorted(s[1..]);
      assert s == [s[0]] + s[1..];
      assert Elements(s) == {s[0]} + Elements(s[1..]);
      var d := Dedup(s[1..]);
      if s[0] == s[1] {
        assert s[0] in Elements(s[1..]);
      } else {
        assert Elements([s[0]] + d) == {s[0]} + Elements(d);
      }
    }
  }

  /** `sort_unstable` followed by `dedup`. */
  function Canonical(s: seq<int>): seq<int> {
    Dedup(SortByKey(s, Identity))
  }

  /** Whatever the order and repeats of `s`, its canonical form is the one
      ascending list of its members. */
  lemma CanonicalIsListing(s: seq<int>, n: nat)
    requires forall x :: x in s ==> 0 <= x < n
    ensures Canonical(s) == Listing(Elements(s), n)
  {
    var t := SortByKey(s, Identity);
    SortSorts(s, Identity);
    DedupSorted(t);
    assert forall x :: x in t <==> x in multiset(t);
    assert forall x :: x in s <==> x in multiset(s);
    assert forall x :: x in Canonical(s) <==> x in Elements(t);
    AscendingUnique(Canonical(s), Listing(Elements(s), n));
  }
}
