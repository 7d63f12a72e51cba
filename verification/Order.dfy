/** Orderings, the lexicographic comparison behind every string comparison of the program, and
    the stable sort of the standard library. */
module Order {

  datatype Ordering = Less | Equal | Greater
  {
    function Reverse(): Ordering {
      match this
      case Less => Greater
      case Equal => Equal
      case Greater => Less
    }

    function Then(next: Ordering): Ordering {
      if Equal? then next else this
    }
  }

  function CompareInts(a: int, b: int): Ordering {
    if a < b then Less else if a == b then Equal else Greater
  }

  /** `Ord` on slices: the first difference decides, then the length. */
  function Lexicographic(a: seq<int>, b: seq<int>): Ordering {
    if a == [] || b == [] then CompareInts(|a|, |b|)
    else CompareInts(a[0], b[0]).Then(Lexicographic(a[1..], b[1..]))
  }

  lemma {:induction false} LexicographicReverses(a: seq<int>, b: seq<int>)
    ensures Lexicographic(b, a) == Lexicographic(a, b).Reverse()
  {
    if a != [] && b != [] {
      LexicographicReverses(a[1..], b[1..]);
    }
  }

  lemma {:induction false} LexicographicEquality(a: seq<int>, b: seq<int>)
    ensures Lexicographic(a, b) == Equal <==> a == b
  {
    if a != [] && b != [] {
      LexicographicEquality(a[1..], b[1..]);
      assert a == [a[0]] + a[1..] && b == [b[0]] + b[1..];
    }
  }

  lemma {:induction false} LexicographicTransitive(a: seq<int>, b: seq<int>, c: seq<int>)
    requires Lexicographic(a, b) != Greater && Lexicographic(b, c) != Greater
    ensures Lexicographic(a, c) != Greater
    ensures Lexicographic(a, b) == Less || Lexicographic(b, c) == Less ==> Lexicographic(a, c) == Less
  {
    if a != [] && b != [] && c != [] && a[0] == b[0] == c[0] {
      LexicographicTransitive(a[1..], b[1..], c[1..]);
    }
  }

  /** The code points of a string. `str` compares its UTF-8 bytes, which order as the code points do. */
  function CodePoints(s: string): (points: seq<int>)
    ensures |points| == |s|
    ensures forall i | 0 <= i < |s| :: points[i] == s[i] as int
  {
    seq(|s|, i requires 0 <= i < |s| => s[i] as int)
  }

  function CompareStrings(a: string, b: string): Ordering {
    Lexicographic(CodePoints(a), CodePoints(b))
  }

  lemma {:induction false} CodePointsInjective(a: string, b: string)
    requires CodePoints(a) == CodePoints(b)
    ensures a == b
  {
    forall i | 0 <= i < |a|
      ensures a[i] == b[i]
    {
      assert CodePoints(a)[i] == CodePoints(b)[i];
    }
  }

  /** At the first difference the smaller character decides, and a proper prefix is smaller. */
  ghost predicate Smaller(a: string, b: string) {
    a < b || exists i | 0 <= i < |a| && i < |b| :: a[..i] == b[..i] && a[i] < b[i]
  }

  lemma {:induction false} FirstDifference(a: seq<int>, b: seq<int>) returns (i: nat)
    requires Lexicographic(a, b) == Less
    ensures i <= |a| && i <= |b| && a[..i] == b[..i] && i < |b| && (i < |a| ==> a[i] < b[i])
  {
    if a == [] || a[0] < b[0] {
      i := 0;
    } else {
      var k := FirstDifference(a[1..], b[1..]);
      i := k + 1;
      assert a[..i] == [a[0]] + a[1..][..k] && b[..i] == [b[0]] + b[1..][..k];
    }
  }

  lemma {:induction false} DecidedAt(a: seq<int>, b: seq<int>, i: nat)
    requires i <= |a| && i <= |b| && a[..i] == b[..i] && i < |b| && (i < |a| ==> a[i] < b[i])
    ensures Lexicographic(a, b) == Less
  {
    if i > 0 {
      assert a[0] == a[..i][0] == b[..i][0] == b[0];
      assert a[1..][..i - 1] == a[..i][1..] && b[1..][..i - 1] == b[..i][1..];
      DecidedAt(a[1..], b[1..], i - 1);
    }
  }

  lemma {:induction false} CodePointsOfPrefix(a: string, i: nat)
    requires i <= |a|
    ensures CodePoints(a[..i]) == CodePoints(a)[..i]
  {
  }

  lemma {:induction false} SmallerByPoints(a: string, b: string, i: nat)
    requires i <= |a| && i <= |b| && i < |b| && (i < |a| ==> a[i] < b[i])
    ensures CodePoints(a)[..i] == CodePoints(b)[..i] <==> a[..i] == b[..i]
  {
    CodePointsOfPrefix(a, i);
    CodePointsOfPrefix(b, i);
    if CodePoints(a)[..i] == CodePoints(b)[..i] {
      CodePointsInjective(a[..i], b[..i]);
    }
  }

  lemma {:induction false} StringsCompare(a: string, b: string)
    ensures CompareStrings(a, b) == Less <==> Smaller(a, b)
  {
    if CompareStrings(a, b) == Less {
      var i := FirstDifference(CodePoints(a), CodePoints(b));
      SmallerByPoints(a, b, i);
    }
    if Smaller(a, b) {
      if a < b {
        SmallerByPoints(a, b, |a|);
        DecidedAt(CodePoints(a), CodePoints(b), |a|);
      } else {
        var i :| 0 <= i < |a| && i < |b| && a[..i] == b[..i] && a[i] < b[i];
        SmallerByPoints(a, b, i);
        DecidedAt(CodePoints(a), CodePoints(b), i);
      }
    }
  }

  // ---- Stable sorting -------------------------------------------------------------------

  ghost predicate TotalPreorder<T(!new)>(leq: (T, T) -> bool) {
    && (forall x, y :: leq(x, y) || leq(y, x))
    && (forall x, y, z :: leq(x, y) && leq(y, z) ==> leq(x, z))
  }

  predicate SortedBy<T>(leq: (T, T) -> bool, s: seq<T>) {
    forall i, j | 0 <= i < j < |s| :: leq(s[i], s[j])
  }

  function Insert<T>(leq: (T, T) -> bool, x: T, s: seq<T>): seq<T> {
    if s == [] || leq(x, s[0]) then [x] + s else [s[0]] + Insert(leq, x, s[1..])
  }

  /** `slice::sort_by`: a stable sort. */
  function Sort<T>(leq: (T, T) -> bool, s: seq<T>): seq<T> {
    if s == [] then [] else Insert(leq, s[0], Sort(leq, s[1..]))
  }

  predicate Equivalent<T>(leq: (T, T) -> bool, x: T, y: T) {
    leq(x, y) && leq(y, x)
  }

  /** The elements equivalent to `k`, in their order of appearance. */
  function Class<T>(leq: (T, T) -> bool, s: seq<T>, k: T): seq<T> {
    if s == [] then []
    else (if Equivalent(leq, s[0], k) then [s[0]] else []) + Class(leq, s[1..], k)
  }

  lemma {:induction false} InsertPermutes<T>(leq: (T, T) -> bool, x: T, s: seq<T>)
    ensures multiset(Insert(leq, x, s)) == multiset(s) + multiset{x}
  {
    if s != [] && !leq(x, s[0]) {
      InsertPermutes(leq, x, s[1..]);
      assert s == [s[0]] + s[1..];
    }
  }

  lemma {:induction false} SortedCons<T>(leq: (T, T) -> bool, x: T, s: seq<T>)
    requires SortedBy(leq, s) && forall y | y in multiset(s) :: leq(x, y)
    ensures SortedBy(leq, [x] + s)
  {
    forall j | 0 <= j < |s|
      ensures leq(x, s[j])
    {
      assert s[j] in multiset(s);
    }
  }

  lemma {:induction false} InsertSorts<T(!new)>(leq: (T, T) -> bool, x: T, s: seq<T>)
    requires TotalPreorder(leq) && SortedBy(leq, s)
    ensures SortedBy(leq, Insert(leq, x, s))
  {
    if s == [] {
    } else if leq(x, s[0]) {
      forall y | y in multiset(s)
        ensures leq(x, y)
      {
        assert leq(s[0], s[0]);
      }
      SortedCons(leq, x, s);
    } else {
      InsertSorts(leq, x, s[1..]);
      InsertPermutes(leq, x, s[1..]);
      forall y | y in multiset(s[1..]) + multiset{x}
        ensures leq(s[0], y)
      {
      }
      SortedCons(leq, s[0], Insert(leq, x, s[1..]));
    }
  }

  lemma {:induction false} SortFacts<T(!new)>(leq: (T, T) -> bool, s: seq<T>)
    requires TotalPreorder(leq)
    ensures SortedBy(leq, Sort(leq, s))
    ensures multiset(Sort(leq, s)) == multiset(s)
    ensures |Sort(leq, s)| == |s|
  {
    if s != [] {
      SortFacts(leq, s[1..]);
      InsertSorts(leq, s[0], Sort(leq, s[1..]));
      InsertPermutes(leq, s[0], Sort(leq, s[1..]));
      assert s == [s[0]] + s[1..];
      assert |multiset(Sort(leq, s))| == |multiset(s)|;
    }
  }

  lemma {:induction false} InsertKeepsClass<T(!new)>(leq: (T, T) -> bool, x: T, s: seq<T>, k: T)
    requires TotalPreorder(leq)
    ensures Class(leq, Insert(leq, x, s), k) == Class(leq, [x] + s, k)
  {
    assert ([x] + s)[1..] == s;
    if s != [] && !leq(x, s[0]) {
      var rest := Insert(leq, x, s[1..]);
      InsertKeepsClass(leq, x, s[1..], k);
      assert ([s[0]] + rest)[1..] == rest;
      assert ([x] + s[1..])[1..] == s[1..];
    }
  }

  /** The sort is stable: equivalent elements keep their order. */
  lemma {:induction false} SortIsStable<T(!new)>(leq: (T, T) -> bool, s: seq<T>, k: T)
    requires TotalPreorder(leq)
    ensures Class(leq, Sort(leq, s), k) == Class(leq, s, k)
  {
    if s != [] {
      var tail := Sort(leq, s[1..]);
      SortIsStable(leq, s[1..], k);
      InsertKeepsClass(leq, s[0], tail, k);
      assert ([s[0]] + tail)[1..] == tail;
    }
  }

  lemma {:induction false} ClassMember<T>(leq: (T, T) -> bool, s: seq<T>, k: T)
    requires Class(leq, s, k) != []
    ensures exists i | 0 <= i < |s| :: Equivalent(leq, s[i], k)
  {
    if !Equivalent(leq, s[0], k) {
      ClassMember(leq, s[1..], k);
      var i :| 0 <= i < |s[1..]| && Equivalent(leq, s[1..][i], k);
      assert Equivalent(leq, s[i + 1], k);
    }
  }

  lemma {:induction false} SortedIsItsClasses<T(!new)>(leq: (T, T) -> bool, u: seq<T>, v: seq<T>)
    requires TotalPreorder(leq) && SortedBy(leq, u) && SortedBy(leq, v)
    requires forall k :: Class(leq, u, k) == Class(leq, v, k)
    ensures u == v
  {
    if u == [] {
      if v != [] {
        assert false;
      }
    } else {
      assert Class(leq, u, u[0]) == Class(leq, v, u[0]);
      ClassMember(leq, v, u[0]);
      assert Class(leq, v, v[0]) == Class(leq, u, v[0]);
      ClassMember(leq, u, v[0]);
      assert leq(v[0], u[0]) && leq(u[0], v[0]);
      assert u[0] == Class(leq, u, u[0])[0] == Class(leq, v, u[0])[0] == v[0];
      forall k
        ensures Class(leq, u[1..], k) == Class(leq, v[1..], k)
      {
        var here := if Equivalent(leq, u[0], k) then [u[0]] else [];
        assert Class(leq, u, k) == here + Class(leq, u[1..], k);
        assert Class(leq, v, k) == here + Class(leq, v[1..], k);
        assert Class(leq, u, k) == Class(leq, v, k);
        assert (here + Class(leq, u[1..], k))[|here|..] == Class(leq, u[1..], k);
        assert (here + Class(leq, v[1..], k))[|here|..] == Class(leq, v[1..], k);
      }
      SortedIsItsClasses(leq, u[1..], v[1..]);
      assert u == [u[0]] + u[1..] && v == [v[0]] + v[1..];
    }
  }

  ghost predicate SameClasses<T(!new)>(leq: (T, T) -> bool, s: seq<T>, t: seq<T>) {
    forall k :: Class(leq, s, k) == Class(leq, t, k)
  }

  /** Exactly when two lists sort to the same list: each group of equivalent elements must
      appear in the same order in both. */
  lemma {:induction false} SameSortExactly<T(!new)>(leq: (T, T) -> bool, s: seq<T>, t: seq<T>)
    requires TotalPreorder(leq)
    ensures Sort(leq, s) == Sort(leq, t) <==> SameClasses(leq, s, t)
  {
    var u, v := Sort(leq, s), Sort(leq, t);
    forall k
      ensures Class(leq, u, k) == Class(leq, s, k)
      ensures Class(leq, v, k) == Class(leq, t, k)
    {
      SortIsStable(leq, s, k);
      SortIsStable(leq, t, k);
    }
    SortFacts(leq, s);
    SortFacts(leq, t);
    if SameClasses(leq, s, t) {
      forall k
        ensures Class(leq, u, k) == Class(leq, v, k)
      {
        assert Class(leq, s, k) == Class(leq, t, k);
      }
      SortedIsItsClasses(leq, u, v);
    } else {
      var k :| Class(leq, s, k) != Class(leq, t, k);
      assert Class(leq, u, k) != Class(leq, v, k);
    }
  }

  /** Equivalent elements are the same element. */
  predicate Unambiguous<T(==)>(leq: (T, T) -> bool, s: seq<T>) {
    forall i, j | 0 <= i < j < |s| && Equivalent(leq, s[i], s[j]) :: s[i] == s[j]
  }

  /** Lists that start with different but equivalent elements sort differently. */
  lemma {:induction false} HeadsDecide<T(!new)>(leq: (T, T) -> bool, s: seq<T>, t: seq<T>)
    requires TotalPreorder(leq) && s != [] && t != [] && Equivalent(leq, s[0], t[0]) && s[0] != t[0]
    ensures Sort(leq, s) != Sort(leq, t)
  {
    assert leq(s[0], s[0]);
    assert Class(leq, s, s[0])[0] == s[0] && Class(leq, t, s[0])[0] == t[0];
    SameSortExactly(leq, s, t);
  }

  /** When no two different elements of a list are equivalent, any reordering of it sorts alike. */
  lemma {:induction false} ReorderingSortsAlike<T(!new)>(leq: (T, T) -> bool, s: seq<T>, t: seq<T>)
    requires TotalPreorder(leq) && multiset(s) == multiset(t) && Unambiguous(leq, s)
    ensures Sort(leq, s) == Sort(leq, t)
  {
    var u, v := Sort(leq, s), Sort(leq, t);
    SortFacts(leq, s);
    SortFacts(leq, t);
    UnambiguousMembers(leq, s);
    SortedPermutationsAgree(leq, u, v);
  }

  lemma {:induction false} UnambiguousMembers<T(!new)>(leq: (T, T) -> bool, s: seq<T>)
    requires TotalPreorder(leq) && Unambiguous(leq, s)
    ensures forall x, y | x in multiset(s) && y in multiset(s) && Equivalent(leq, x, y) :: x == y
  {
    forall x, y | x in multiset(s) && y in multiset(s) && Equivalent(leq, x, y)
      ensures x == y
    {
      var i :| 0 <= i < |s| && s[i] == x;
      var j :| 0 <= j < |s| && s[j] == y;
      assert i < j ==> s[i] == s[j];
      assert j < i ==> s[j] == s[i];
    }
  }

  function Heads<T>(leq: (T, T) -> bool, x: T, k: T): seq<T> {
    if Equivalent(leq, x, k) then [x] else []
  }

  lemma {:induction false} ClassCons<T>(leq: (T, T) -> bool, s: seq<T>, k: T)
    requires s != []
    ensures Class(leq, s, k) == Heads(leq, s[0], k) + Class(leq, s[1..], k)
  {
  }

  lemma {:induction false} Regroup<T>(a: seq<T>, b: seq<T>, c: seq<T>)
    ensures (a + b) + c == a + (b + c)
  {
  }

  lemma {:induction false} ClassAppend<T>(leq: (T, T) -> bool, a: seq<T>, b: seq<T>, k: T)
    ensures Class(leq, a + b, k) == Class(leq, a, k) + Class(leq, b, k)
  {
    if a == [] {
      assert a + b == b;
    } else {
      ClassAppend(leq, a[1..], b, k);
      ClassCons(leq, a, k);
      ClassCons(leq, a + b, k);
      assert (a + b)[0] == a[0] && (a + b)[1..] == a[1..] + b;
      Regroup(Heads(leq, a[0], k), Class(leq, a[1..], k), Class(leq, b, k));
    }
  }

  /** The list with two of its elements exchanged. */
  function Swapped<T>(s: seq<T>, i: nat, j: nat): (t: seq<T>)
    requires i < j < |s|
    ensures |t| == |s|
  {
    s[i := s[j]][j := s[i]]
  }

  lemma {:induction false} SwappedPermutes<T>(s: seq<T>, i: nat, j: nat)
    requires i < j < |s|
    ensures multiset(Swapped(s, i, j)) == multiset(s)
  {
    assert s == s[..i] + [s[i]] + s[i + 1..j] + [s[j]] + s[j + 1..];
    assert Swapped(s, i, j) == s[..i] + [s[j]] + s[i + 1..j] + [s[i]] + s[j + 1..];
  }

  /** Exchanging two different equivalent elements changes their class. */
  lemma {:induction false} SwappedClass<T(!new)>(leq: (T, T) -> bool, s: seq<T>, i: nat, j: nat)
    requires TotalPreorder(leq) && i < j < |s| && Equivalent(leq, s[i], s[j]) && s[i] != s[j]
    ensures Class(leq, Swapped(s, i, j), s[i]) != Class(leq, s, s[i])
  {
    var t, k := Swapped(s, i, j), s[i];
    assert s == s[..i] + s[i..] && t == s[..i] + t[i..];
    ClassAppend(leq, s[..i], s[i..], k);
    ClassAppend(leq, s[..i], t[i..], k);
    assert leq(k, k);
    assert Class(leq, s[i..], k)[0] == s[i] && Class(leq, t[i..], k)[0] == s[j];
    var n := |Class(leq, s[..i], k)|;
    assert Class(leq, s, k)[n] == s[i] && Class(leq, t, k)[n] == s[j];
  }

  /** Exactly when the order of a list does not matter to its sort: no two different elements may
      be equivalent. */
  lemma {:induction false} OrderIsIrrelevantExactly<T(!new)>(leq: (T, T) -> bool, s: seq<T>)
    requires TotalPreorder(leq)
    ensures Unambiguous(leq, s) <==> forall t | multiset(t) == multiset(s) :: Sort(leq, t) == Sort(leq, s)
  {
    if Unambiguous(leq, s) {
      forall t | multiset(t) == multiset(s)
        ensures Sort(leq, t) == Sort(leq, s)
      {
        ReorderingSortsAlike(leq, s, t);
      }
    } else {
      var i, j :| 0 <= i < j < |s| && Equivalent(leq, s[i], s[j]) && s[i] != s[j];
      SwappedPermutes(s, i, j);
      SwappedClass(leq, s, i, j);
      SameSortExactly(leq, Swapped(s, i, j), s);
    }
  }

  lemma {:induction false} LeastFirst<T(!new)>(leq: (T, T) -> bool, u: seq<T>, y: T)
    requires TotalPreorder(leq) && SortedBy(leq, u) && y in multiset(u)
    ensures leq(u[0], y)
  {
    assert leq(u[0], u[0]);
  }

  lemma {:induction false} SortedPermutationsAgree<T(!new)>(leq: (T, T) -> bool, u: seq<T>, v: seq<T>)
    requires TotalPreorder(leq) && SortedBy(leq, u) && SortedBy(leq, v)
    requires multiset(u) == multiset(v)
    requires forall x, y | x in multiset(u) && y in multiset(u) && Equivalent(leq, x, y) :: x == y
    ensures u == v
  {
    if u == [] {
      assert |multiset(v)| == 0;
    } else {
      assert |multiset(u)| == |multiset(v)|;
      assert u[0] in multiset(u) && v[0] in multiset(v);
      LeastFirst(leq, u, v[0]);
      LeastFirst(leq, v, u[0]);
      assert Equivalent(leq, u[0], v[0]);
      SplitHead(u);
      SplitHead(v);
      SortedPermutationsAgree(leq, u[1..], v[1..]);
    }
  }

  lemma {:induction false} SplitHead<T>(u: seq<T>)
    requires u != []
    ensures u == [u[0]] + u[1..] && multiset(u[1..]) == multiset(u) - multiset{u[0]}
  {
    assert u == [u[0]] + u[1..];
  }
}
