/** Byte buffers built by appending parts, and where each part ends up. */
module Blobs {

  function Concat<T>(parts: seq<seq<T>>): seq<T> {
    if parts == [] then [] else Concat(parts[..|parts| - 1]) + parts[|parts| - 1]
  }

  /** Where part `i` starts. */
  function Offset<T>(parts: seq<seq<T>>, i: nat): nat
    requires i <= |parts|
  {
    |Concat(parts[..i])|
  }

  lemma {:induction false} ConcatStep<T>(parts: seq<seq<T>>, i: nat)
    requires i < |parts|
    ensures Concat(parts[..i + 1]) == Concat(parts[..i]) + parts[i]
    ensures Offset(parts, i + 1) == Offset(parts, i) + |parts[i]|
  {
    assert parts[..i + 1][..i] == parts[..i];
  }

  lemma {:induction false} ConcatAll<T>(parts: seq<seq<T>>)
    ensures Concat(parts[..|parts|]) == Concat(parts)
    ensures Offset(parts, |parts|) == |Concat(parts)|
  {
    assert parts[..|parts|] == parts;
  }

  lemma {:induction false} SliceOfSlice<T>(s: seq<T>, at: nat, length: nat, i: nat, j: nat)
    requires at + length <= |s| && i <= j <= length
    ensures s[at..at + length][i..j] == s[at + i..at + j]
  {
    var inner, outer := s[at..at + length][i..j], s[at + i..at + j];
    forall k | 0 <= k < j - i
      ensures inner[k] == outer[k]
    {
      assert s[at..at + length][i + k] == s[at + i + k];
    }
  }

  lemma {:induction false} PieceAfter<T>(s: seq<T>, before: seq<T>, piece: seq<T>)
    requires before + piece <= s
    ensures s[|before|..|before| + |piece|] == piece
  {
    assert (before + piece)[|before|..] == piece;
  }

  /** The buffer after `i` parts is a prefix of the whole. */
  lemma {:induction false} PrefixOf<T>(parts: seq<seq<T>>, i: nat)
    requires i <= |parts|
    ensures Concat(parts[..i]) <= Concat(parts)
    ensures Offset(parts, i) <= |Concat(parts)|
    decreases |parts| - i
  {
    if i == |parts| {
      ConcatAll(parts);
    } else {
      ConcatStep(parts, i);
      PrefixOf(parts, i + 1);
    }
  }

  /** Part `i` is found at its offset, wherever the buffer itself starts. */
  lemma {:induction false} PartAt<T>(parts: seq<seq<T>>, i: nat, before: seq<T>, s: seq<T>)
    requires i < |parts| && before + Concat(parts) <= s
    ensures |before| + Offset(parts, i) + |parts[i]| <= |s|
    ensures Offset(parts, i) + |parts[i]| == Offset(parts, i + 1) <= |Concat(parts)|
    ensures s[|before| + Offset(parts, i)..|before| + Offset(parts, i) + |parts[i]|] == parts[i]
  {
    var front := Concat(parts[..i]);
    ConcatStep(parts, i);
    PrefixOf(parts, i + 1);
    assert before + (front + parts[i]) == before + front + parts[i];
    assert before + front + parts[i] <= s by {
      PrefixExtends(before, front + parts[i], Concat(parts), s);
    }
    PieceAfter(s, before + front, parts[i]);
  }

  lemma {:induction false} PrefixExtends<T>(before: seq<T>, a: seq<T>, b: seq<T>, s: seq<T>)
    requires a <= b && before + b <= s
    ensures before + a <= s
  {
    assert before + b == before + a + b[|a|..];
  }

  lemma {:induction false} SplitThree<T>(s: seq<T>, at: nat, a: seq<T>, b: seq<T>, c: seq<T>)
    requires at + |a| + |b| + |c| <= |s|
    requires s[at..at + |a| + |b| + |c|] == a + b + c
    ensures s[at..at + |a|] == a
    ensures s[at + |a|..at + |a| + |b|] == b
    ensures s[at + |a| + |b|..at + |a| + |b| + |c|] == c
  {
    var length := |a| + |b| + |c|;
    SliceOfSlice(s, at, length, 0, |a|);
    SliceOfSlice(s, at, length, |a|, |a| + |b|);
    SliceOfSlice(s, at, length, |a| + |b|, length);
    SplitSum(a, b, c);
  }

  lemma {:induction false} SplitSum<T>(a: seq<T>, b: seq<T>, c: seq<T>)
    ensures (a + b + c)[0..|a|] == a
    ensures (a + b + c)[|a|..|a| + |b|] == b
    ensures (a + b + c)[|a| + |b|..|a| + |b| + |c|] == c
  {
  }
}
