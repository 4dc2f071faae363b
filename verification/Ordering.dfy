/** Sorting by a comparison: what every correct sort of a list has in common. */
module Ordering {

  /** Lexicographic order of byte strings. */
  predicate TextLe(a: string, b: string) {
    a == "" || (b != "" && (a[0] < b[0] || (a[0] == b[0] && TextLe(a[1..], b[1..]))))
  }

  lemma {:induction false} TextLeAntisymmetric(a: string, b: string)
    requires TextLe(a, b) && TextLe(b, a)
    ensures a == b
  {
    if a != "" {
      TextLeAntisymmetric(a[1..], b[1..]);
      assert a == [a[0]] + a[1..] && b == [b[0]] + b[1..];
    }
  }

  lemma {:induction false} TextLeTotal(a: string, b: string)
    ensures TextLe(a, b) || TextLe(b, a)
  {
    if a != "" && b != "" { TextLeTotal(a[1..], b[1..]); }
  }

  lemma {:induction false} TextLeTransitive(a: string, b: string, c: string)
    requires TextLe(a, b) && TextLe(b, c)
    ensures TextLe(a, c)
  {
    if a != "" && a[0] == b[0] && b[0] == c[0] { TextLeTransitive(a[1..], b[1..], c[1..]); }
  }

  /** The order of two texts by their first differing byte; a prefix comes first. */
  ghost predicate InByteOrder(a: string, b: string) {
    a <= b || exists k :: 0 <= k < |a| && k < |b| && a[..k] == b[..k] && a[k] < b[k]
  }

  lemma {:induction false} TextLeIsByteOrder(a: string, b: string)
    ensures TextLe(a, b) <==> InByteOrder(a, b)
  {
    if a != "" && b != "" {
      TextLeIsByteOrder(a[1..], b[1..]);
      assert a == [a[0]] + a[1..] && b == [b[0]] + b[1..];
      if a[0] == b[0] {
        ByteOrderTail(a, b);
      } else if a[0] < b[0] {
        assert a[..0] == b[..0];
      } else {
        assert forall k :: 0 < k < |a| && k < |b| ==> a[..k][0] == a[0] && b[..k][0] == b[0];
      }
    }
  }

  lemma ByteOrderTail(a: string, b: string)
    requires a != "" && b != "" && a[0] == b[0]
    ensures InByteOrder(a, b) <==> InByteOrder(a[1..], b[1..])
  {
    var x, y := a[1..], b[1..];
    assert a == [a[0]] + x && b == [b[0]] + y;
    if k :| 0 <= k < |a| && k < |b| && a[..k] == b[..k] && a[k] < b[k] {
      assert a[..k][1..] == x[..k - 1] && b[..k][1..] == y[..k - 1];
      assert x[k - 1] < y[k - 1];
    }
    if k :| 0 <= k < |x| && k < |y| && x[..k] == y[..k] && x[k] < y[k] {
      assert a[..k + 1] == [a[0]] + x[..k] && b[..k + 1] == [b[0]] + y[..k];
      assert a[k + 1] < b[k + 1];
    }
  }

  ghost predicate TotalPreorder<T(!new)>(le: (T, T) -> bool) {
    && (forall a, b :: le(a, b) || le(b, a))
    && (forall a, b, c :: le(a, b) && le(b, c) ==> le(a, c))
  }

  lemma Compare<T(!new)>(le: (T, T) -> bool, a: T, b: T)
    requires TotalPreorder(le)
    ensures le(a, b) || le(b, a)
  {
  }

  lemma Chain<T(!new)>(le: (T, T) -> bool, a: T, b: T, c: T)
    requires TotalPreorder(le) && le(a, b) && le(b, c)
    ensures le(a, c)
  {
  }

  ghost predicate Sorted<T>(s: seq<T>, le: (T, T) -> bool) {
    forall i, j :: 0 <= i < j < |s| ==> le(s[i], s[j])
  }

  ghost predicate SortOf<T>(r: seq<T>, s: seq<T>, le: (T, T) -> bool) {
    Sorted(r, le) && multiset(r) == multiset(s)
  }

  function Insert<T>(x: T, s: seq<T>, le: (T, T) -> bool): (r: seq<T>)
    ensures |r| == |s| + 1
  {
    if s == [] || le(x, s[0]) then [x] + s else [s[0]] + Insert(x, s[1..], le)
  }

  /** One correct sort, standing for the library's. */
  function Sort<T>(s: seq<T>, le: (T, T) -> bool): (r: seq<T>)
    ensures |r| == |s|
  {
    if s == [] then [] else Insert(s[0], Sort(s[1..], le), le)
  }

  lemma {:induction false} InsertSorts<T(!new)>(x: T, s: seq<T>, le: (T, T) -> bool)
    requires TotalPreorder(le) && Sorted(s, le)
    ensures SortOf(Insert(x, s, le), [x] + s, le)
  {
    hide TotalPreorder;
    if s == [] {
    } else if le(x, s[0]) {
      FirstInserted(x, s, le);
    } else {
      InsertSorts(x, s[1..], le);
      LaterInserted(x, s, le);
    }
  }

  lemma FirstInserted<T(!new)>(x: T, s: seq<T>, le: (T, T) -> bool)
    requires TotalPreorder(le) && Sorted(s, le) && s != [] && le(x, s[0])
    ensures SortOf(Insert(x, s, le), [x] + s, le)
  {
    hide TotalPreorder;
    forall j | 0 <= j < |s| ensures le(x, s[j]) {
      if j > 0 { Chain(le, x, s[0], s[j]); }
    }
  }

  lemma ConsSorted<T(!new)>(y: T, t: seq<T>, le: (T, T) -> bool)
    requires Sorted(t, le) && forall e :: e in t ==> le(y, e)
    ensures Sorted([y] + t, le)
  {
  }

  lemma ConsTwice<T>(x: T, s: seq<T>, t: seq<T>)
    requires s != [] && multiset(t) == multiset([x] + s[1..])
    ensures multiset([s[0]] + t) == multiset([x] + s)
  {
    assert [x] + s == [x] + ([s[0]] + s[1..]);
  }

  lemma LaterLe<T(!new)>(x: T, s: seq<T>, t: seq<T>, le: (T, T) -> bool)
    requires Sorted(s, le) && s != [] && le(s[0], x) && multiset(t) == multiset([x] + s[1..])
    ensures forall e :: e in t ==> le(s[0], e)
  {
    forall e | e in t ensures le(s[0], e) {
      assert e in multiset(t) && e in [x] + s[1..];
      if e != x {
        var k :| 0 <= k < |s[1..]| && s[1..][k] == e;
        assert s[k + 1] == e;
      }
    }
  }

  lemma LaterInserted<T(!new)>(x: T, s: seq<T>, le: (T, T) -> bool)
    requires TotalPreorder(le) && Sorted(s, le) && s != [] && !le(x, s[0])
    requires SortOf(Insert(x, s[1..], le), [x] + s[1..], le)
    ensures SortOf(Insert(x, s, le), [x] + s, le)
  {
    var t := Insert(x, s[1..], le);
    assert Insert(x, s, le) == [s[0]] + t;
    hide TotalPreorder, Insert, Sorted;
    Compare(le, x, s[0]);
    LaterLe(x, s, t, le);
    ConsSorted(s[0], t, le);
    ConsTwice(x, s, t);
  }

  lemma {:induction false} SortSorts<T(!new)>(s: seq<T>, le: (T, T) -> bool)
    requires TotalPreorder(le)
    ensures SortOf(Sort(s, le), s, le)
  {
    hide TotalPreorder;
    if s != [] {
      SortSorts(s[1..], le);
      InsertSorts(s[0], Sort(s[1..], le), le);
      assert s == [s[0]] + s[1..];
    }
  }

  function Map<T, U>(s: seq<T>, f: T -> U): (r: seq<U>)
    ensures |r| == |s| && forall i :: 0 <= i < |s| ==> r[i] == f(s[i])
  {
    seq(|s|, i requires 0 <= i < |s| => f(s[i]))
  }

  /** Sorting and an order-preserving renaming may change places. */
  lemma {:induction false} SortCommutes<T(!new)>(s: seq<T>, le: (T, T) -> bool, f: T -> T)
    requires forall a, b :: le(f(a), f(b)) == le(a, b)
    ensures Sort(Map(s, f), le) == Map(Sort(s, le), f)
  {
    if s != [] {
      SortCommutes(s[1..], le, f);
      assert Map(s, f)[1..] == Map(s[1..], f);
      InsertCommutes(s[0], Sort(s[1..], le), le, f);
    }
  }

  lemma {:induction false} InsertCommutes<T(!new)>(x: T, s: seq<T>, le: (T, T) -> bool, f: T -> T)
    requires forall a, b :: le(f(a), f(b)) == le(a, b)
    ensures Insert(f(x), Map(s, f), le) == Map(Insert(x, s, le), f)
  {
    var t := Map(s, f);
    if s == [] || le(x, s[0]) {
      assert Map([x] + s, f) == [f(x)] + t;
    } else {
      InsertCommutes(x, s[1..], le, f);
      assert t[1..] == Map(s[1..], f);
      assert Map([s[0]] + Insert(x, s[1..], le), f) == [f(s[0])] + Map(Insert(x, s[1..], le), f);
    }
  }

  /** `f` cannot tell apart elements that the comparison cannot. */
  ghost predicate Respects<T, U>(s: seq<T>, le: (T, T) -> bool, f: T -> U) {
    forall x, y :: x in s && y in s && le(x, y) && le(y, x) ==> f(x) == f(y)
  }

  function Without<T>(s: seq<T>, k: nat): (r: seq<T>)
    requires k < |s|
    ensures |r| == |s| - 1
  {
    s[..k] + s[k + 1..]
  }

  lemma WithoutMultiset<T>(s: seq<T>, k: nat)
    requires k < |s|
    ensures multiset(Without(s, k)) == multiset(s) - multiset{s[k]}
  {
    assert s == s[..k] + [s[k]] + s[k + 1..];
  }

  lemma WithoutSorted<T>(s: seq<T>, k: nat, le: (T, T) -> bool)
    requires k < |s| && Sorted(s, le)
    ensures Sorted(Without(s, k), le)
    ensures multiset(Without(s, k)) == multiset(s) - multiset{s[k]}
  {
    WithoutMultiset(s, k);
  }

  /**
    However a sort treats ties, what it shows through `f` is the same: two sorts of the
    same rows agree in every position.
   */
  lemma {:induction false} SortsAgree<T(!new), U>(a: seq<T>, b: seq<T>, le: (T, T) -> bool, f: T -> U)
    requires TotalPreorder(le) && Sorted(a, le) && Sorted(b, le)
    requires multiset(a) == multiset(b) && Respects(a, le, f)
    ensures Map(a, f) == Map(b, f)
    decreases |a|
  {
    hide TotalPreorder, Sorted, Respects, Map;
    assert |multiset(a)| == |a| && |multiset(b)| == |b|;
    if a != [] {
      assert a[0] in multiset(b);
      var k :| 0 <= k < |b| && b[k] == a[0];
      WithoutSorted(b, k, le);
      TailKeeps(a, le, f);
      SortsAgree(a[1..], Without(b, k), le, f);
      forall x | x in b ensures x in a { assert x in multiset(a); }
      TiesBefore(a, b, k, le, f);
      PutBack(a, b, k, f);
    }
  }

  lemma TailKeeps<T(!new), U>(a: seq<T>, le: (T, T) -> bool, f: T -> U)
    requires a != [] && Sorted(a, le) && Respects(a, le, f)
    ensures Sorted(a[1..], le) && Respects(a[1..], le, f)
    ensures multiset(a[1..]) == multiset(a) - multiset{a[0]}
  {
    assert a == [a[0]] + a[1..];
  }

  lemma PutBack<T, U>(a: seq<T>, b: seq<T>, k: nat, f: T -> U)
    requires |a| == |b| && k < |b| && Map(a[1..], f) == Map(Without(b, k), f)
    requires forall i :: 0 <= i <= k ==> f(b[i]) == f(a[0])
    ensures Map(a, f) == Map(b, f)
  {
    var b' := Without(b, k);
    forall i | 0 <= i < |a| ensures f(a[i]) == f(b[i]) {
      if i > 0 {
        assert f(a[1..][i - 1]) == Map(a[1..], f)[i - 1] == Map(b', f)[i - 1] == f(b'[i - 1]);
        assert b'[i - 1] == if i - 1 < k then b[i - 1] else b[i];
      }
    }
  }

  /** Everything up to the place of the least element ties with it. */
  lemma TiesBefore<T(!new), U>(a: seq<T>, b: seq<T>, k: nat, le: (T, T) -> bool, f: T -> U)
    requires TotalPreorder(le) && Sorted(a, le) && Sorted(b, le) && a != []
    requires (forall x :: x in b ==> x in a) && Respects(a, le, f)
    requires k < |b| && b[k] == a[0]
    ensures forall i :: 0 <= i <= k ==> f(b[i]) == f(a[0])
  {
    hide TotalPreorder;
    Compare(le, a[0], a[0]);
    forall i | 0 <= i <= k ensures f(b[i]) == f(a[0]) {
      assert le(b[i], b[k]);
      assert b[i] in a;
      var j :| 0 <= j < |a| && a[j] == b[i];
      assert le(a[0], a[j]);
    }
  }

  /** No two different elements tie. */
  ghost predicate NoTies<T>(s: seq<T>, le: (T, T) -> bool) {
    forall x, y :: x in s && y in s && le(x, y) && le(y, x) ==> x == y
  }

  /** With distinct keys there is only one sorted order. */
  lemma SortUnique<T(!new)>(a: seq<T>, b: seq<T>, le: (T, T) -> bool)
    requires TotalPreorder(le) && Sorted(a, le) && Sorted(b, le) && multiset(a) == multiset(b)
    requires NoTies(a, le)
    ensures a == b
  {
    var f := (x: T) => x;
    assert |multiset(a)| == |a| && |multiset(b)| == |b|;
    SortsAgree(a, b, le, f);
    assert forall i :: 0 <= i < |a| ==> Map(a, f)[i] == a[i];
    assert forall i :: 0 <= i < |b| ==> Map(b, f)[i] == b[i];
  }

  /** Any correct sort of the same rows, in whatever order they come, gives the same list. */
  lemma SortedRowsSame<T(!new)>(a: seq<T>, b: seq<T>, le: (T, T) -> bool)
    requires TotalPreorder(le) && multiset(a) == multiset(b) && NoTies(a, le)
    ensures Sort(a, le) == Sort(b, le)
    ensures forall r :: SortOf(r, b, le) ==> r == Sort(a, le)
  {
    hide TotalPreorder;
    SortSorts(a, le);
    forall x | x in Sort(a, le) ensures x in a {
      assert x in multiset(Sort(a, le));
      assert x in multiset(a);
    }
    SortSorts(b, le);
    forall r | SortOf(r, b, le) ensures r == Sort(a, le) { SortUnique(Sort(a, le), r, le); }
  }
}
