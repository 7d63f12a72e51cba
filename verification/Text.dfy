/** The string helpers of the standard library that the program leans on: white space, trimming
    and ASCII case. A `char` is a Unicode scalar value, as in the source. */
module Text {

  /** The characters with the Unicode White_Space property, as `char::is_whitespace` has them. */
  predicate IsWhitespace(c: char) {
    var n := c as int;
    || 0x09 <= n <= 0x0D || n == 0x20 || n == 0x85 || n == 0xA0 || n == 0x1680
    || 0x2000 <= n <= 0x200A || n == 0x2028 || n == 0x2029 || n == 0x202F || n == 0x205F || n == 0x3000
  }

  function DropStart<T>(p: T -> bool, s: seq<T>): (t: seq<T>)
    ensures t == [] || !p(t[0])
    ensures |t| <= |s| && t == s[|s| - |t|..]
    ensures forall i | 0 <= i < |s| - |t| :: p(s[i])
  {
    if s == [] || !p(s[0]) then s else DropStart(p, s[1..])
  }

  function DropEnd<T>(p: T -> bool, s: seq<T>): (t: seq<T>)
    ensures t == [] || !p(t[|t| - 1])
    ensures |t| <= |s| && t == s[..|t|]
    ensures forall i | |t| <= i < |s| :: p(s[i])
  {
    if s == [] || !p(s[|s| - 1]) then s else DropEnd(p, s[..|s| - 1])
  }

  function Strip<T>(p: T -> bool, s: seq<T>): seq<T> {
    DropEnd(p, DropStart(p, s))
  }

  function Trim(s: string): string {
    Strip(IsWhitespace, s)
  }

  predicate All<T>(p: T -> bool, s: seq<T>) {
    forall i | 0 <= i < |s| :: p(s[i])
  }

  /** Neither begins nor ends with an element to strip. */
  predicate IsCore<T>(p: T -> bool, s: seq<T>) {
    s == [] || (!p(s[0]) && !p(s[|s| - 1]))
  }

  lemma {:induction false} StripsToNothing<T>(p: T -> bool, s: seq<T>)
    ensures Strip(p, s) == [] <==> All(p, s)
  {
    var t := DropStart(p, s);
    if Strip(p, s) == [] {
      assert t == [];
    } else {
      assert !p(s[|s| - |t|]);
    }
  }

  lemma {:induction false} StripIsACore<T>(p: T -> bool, s: seq<T>)
    ensures IsCore(p, Strip(p, s))
  {
  }

  lemma {:induction false} Rejoined<T>(s: seq<T>, t: seq<T>, core: seq<T>, before: seq<T>, after: seq<T>)
    requires |t| <= |s| && t == s[|s| - |t|..] && before == s[..|s| - |t|]
    requires |core| <= |t| && core == t[..|core|] && after == t[|core|..]
    ensures s == before + core + after
  {
    assert s == before + t && t == core + after;
    assert before + (core + after) == before + core + after;
  }

  /** What stripping takes away at either end. */
  lemma {:induction false} StripParts<T>(p: T -> bool, s: seq<T>) returns (before: seq<T>, core: seq<T>, after: seq<T>)
    ensures s == before + core + after && core == Strip(p, s)
    ensures All(p, before) && All(p, after) && IsCore(p, core)
  {
    var t := DropStart(p, s);
    core := DropEnd(p, t);
    before, after := s[..|s| - |t|], t[|core|..];
    Rejoined(s, t, core, before, after);
    StripIsACore(p, s);
  }

  /** Stripping is exactly the removal of a prefix and a suffix to strip around a core. */
  lemma {:induction false} StripIsTheCore<T>(p: T -> bool, before: seq<T>, core: seq<T>, after: seq<T>)
    requires All(p, before) && All(p, after) && IsCore(p, core)
    ensures Strip(p, before + core + after) == core
  {
    var s := before + core + after;
    if core == [] {
      StripsToNothing(p, s);
    } else {
      var t := DropStart(p, s);
      assert s[|before|] == core[0];
      assert forall i | 0 <= i < |before| :: p(s[i]);
      assert |s| - |t| == |before|;
      assert t == core + after;
      assert t[|core| - 1] == core[|core| - 1];
      assert forall i | |core| <= i < |t| :: p(t[i]);
      assert |DropEnd(p, t)| == |core|;
    }
  }

  function LowerAscii(c: char): char {
    if 'A' <= c <= 'Z' then (c as int + 32) as char else c
  }

  function MapSeq<T, U>(f: T -> U, s: seq<T>): (t: seq<U>)
    ensures |t| == |s| && forall i | 0 <= i < |s| :: t[i] == f(s[i])
  {
    seq(|s|, i requires 0 <= i < |s| => f(s[i]))
  }

  function ToLowerAscii(s: string): string {
    MapSeq(LowerAscii, s)
  }

  /** When a character map keeps what is stripped and settles after one step, stripping and then
      mapping is a normal form. */
  lemma {:induction false} NormalFormIsStable<T>(p: T -> bool, f: T -> T, s: seq<T>)
    requires forall x | x in s :: p(f(x)) == p(x) && f(f(x)) == f(x)
    ensures var n := MapSeq(f, Strip(p, s)); MapSeq(f, Strip(p, n)) == n
  {
    var t := Strip(p, s);
    StripIsACore(p, s);
    StripIsASlice(p, s);
    MappedCoreIsStable(p, f, t);
  }

  lemma {:induction false} StripIsASlice<T>(p: T -> bool, s: seq<T>)
    ensures forall x | x in Strip(p, s) :: x in s
  {
  }

  lemma {:induction false} MappedCoreIsStable<T>(p: T -> bool, f: T -> T, t: seq<T>)
    requires IsCore(p, t)
    requires forall x | x in t :: p(f(x)) == p(x) && f(f(x)) == f(x)
    ensures var n := MapSeq(f, t); MapSeq(f, Strip(p, n)) == n
  {
    var n := MapSeq(f, t);
    assert IsCore(p, n);
    CoreIsItself(p, n);
    assert MapSeq(f, n) == n;
  }

  lemma {:induction false} CoreIsItself<T>(p: T -> bool, s: seq<T>)
    requires IsCore(p, s)
    ensures Strip(p, s) == s
  {
    StripIsTheCore(p, [], s, []);
    assert [] + s + [] == s;
  }

  lemma {:induction false} LoweringKeepsWhitespace(c: char)
    ensures IsWhitespace(LowerAscii(c)) == IsWhitespace(c)
    ensures LowerAscii(LowerAscii(c)) == LowerAscii(c)
  {
  }

  lemma {:induction false} TrimmedLowerIsStable(s: string)
    ensures var n := ToLowerAscii(Trim(s)); ToLowerAscii(Trim(n)) == n
  {
    forall c | c in s
      ensures IsWhitespace(LowerAscii(c)) == IsWhitespace(c) && LowerAscii(LowerAscii(c)) == LowerAscii(c)
    {
      LoweringKeepsWhitespace(c);
    }
    NormalFormIsStable(IsWhitespace, LowerAscii, s);
  }

  // ---- Splitting ------------------------------------------------------------------------

  /** The first occurrence of `c`, or the length. */
  function Find<T(==)>(s: seq<T>, c: T): (i: nat)
    ensures i <= |s|
    ensures forall k | 0 <= k < i :: s[k] != c
    ensures i < |s| ==> s[i] == c
  {
    if s == [] || s[0] == c then 0
    else
      var rest := Find(s[1..], c);
      assert forall k | 1 <= k < rest + 1 :: s[k] == s[1..][k - 1];
      rest + 1
  }

  lemma {:induction false} FindAfter<T>(a: seq<T>, c: T, b: seq<T>)
    requires c !in a
    ensures Find(a + [c] + b, c) == |a|
  {
    var s := a + [c] + b;
    assert s[|a|] == c;
    assert forall k | 0 <= k < |a| :: s[k] == a[k];
  }

  /** `split`: the pieces between the separators, always at least one. */
  function Split<T(==)>(s: seq<T>, c: T): (parts: seq<seq<T>>)
    ensures parts != []
    decreases |s|
  {
    var i := Find(s, c);
    if i == |s| then [s] else [s[..i]] + Split(s[i + 1..], c)
  }

  function Join<T>(parts: seq<seq<T>>, c: T): seq<T>
    requires parts != []
  {
    if |parts| == 1 then parts[0] else parts[0] + [c] + Join(parts[1..], c)
  }

  lemma {:induction false} JoinOfSplit<T>(s: seq<T>, c: T)
    ensures Join(Split(s, c), c) == s
    ensures forall i | 0 <= i < |Split(s, c)| :: c !in Split(s, c)[i]
    decreases |s|
  {
    var i := Find(s, c);
    if i < |s| {
      JoinOfSplit(s[i + 1..], c);
      assert ([s[..i]] + Split(s[i + 1..], c))[1..] == Split(s[i + 1..], c);
      assert s == s[..i] + [c] + s[i + 1..];
    }
  }

  lemma {:induction false} SplitFirst<T>(a: seq<T>, c: T, b: seq<T>)
    requires c !in a
    ensures Split(a + [c] + b, c) == [a] + Split(b, c)
  {
    FindAfter(a, c, b);
    var s := a + [c] + b;
    assert s[..|a|] == a && s[|a| + 1..] == b;
  }

  lemma {:induction false} SplitOfJoin<T>(parts: seq<seq<T>>, c: T)
    requires parts != [] && forall i | 0 <= i < |parts| :: c !in parts[i]
    ensures Split(Join(parts, c), c) == parts
  {
    if |parts| == 1 {
      NotFound(parts[0], c);
    } else {
      SplitOfJoin(parts[1..], c);
      SplitFirst(parts[0], c, Join(parts[1..], c));
      assert parts == [parts[0]] + parts[1..];
    }
  }

  lemma {:induction false} NotFound<T>(s: seq<T>, c: T)
    requires c !in s
    ensures Find(s, c) == |s|
  {
  }
}
