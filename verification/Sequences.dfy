/** Helpers shared by the models: optional values, flattening, and selection of the positions a mask keeps. */
module Sequences {

  datatype Option<+T> = None | Some(value: T)

  function Flatten<T>(parts: seq<seq<T>>): seq<T> {
    if parts == [] then [] else Flatten(parts[..|parts| - 1]) + parts[|parts| - 1]
  }

  lemma Associate<T>(a: seq<T>, b: seq<T>, c: seq<T>)
    ensures (a + b) + c == a + (b + c)
  {
  }

  lemma SliceOfSlice<T>(s: seq<T>, lo: nat, hi: nat, i: nat, j: nat)
    requires lo <= hi <= |s| && i <= j <= hi - lo
    ensures s[lo..hi][i..j] == s[lo + i..lo + j]
  {
    forall k | 0 <= k < j - i ensures s[lo..hi][i..j][k] == s[lo + i..lo + j][k] {
      assert s[lo..hi][i + k] == s[lo + i + k];
    }
  }

  lemma DropFront<T>(a: seq<T>, b: seq<T>)
    ensures (a + b)[|a|..|a + b|] == b && (a + b)[|a|..] == b
  {
  }

  lemma SliceBehind<T>(before: seq<T>, s: seq<T>, i: nat, j: nat)
    requires i <= j <= |s|
    ensures (before + s)[|before| + i..|before| + j] == s[i..j]
  {
  }

  lemma {:induction false} FlattenConcat<T>(a: seq<seq<T>>, b: seq<seq<T>>)
    ensures Flatten(a + b) == Flatten(a) + Flatten(b)
  {
    if b == [] {
      assert a + b == a;
    } else {
      var n := |b| - 1;
      FlattenConcat(a, b[..n]);
      assert (a + b)[..|a + b| - 1] == a + b[..n];
      Associate(Flatten(a), Flatten(b[..n]), b[n]);
    }
  }

  lemma FlattenSnoc<T>(a: seq<seq<T>>, x: seq<T>)
    ensures Flatten(a + [x]) == Flatten(a) + x
  {
    assert (a + [x])[..|a|] == a;
  }

  /** The elements of `s` at the positions where `keep` is true, in order. */
  function Select<T>(s: seq<T>, keep: seq<bool>): (r: seq<T>)
    requires |s| == |keep|
    ensures |r| <= |s|
  {
    if s == [] then []
    else
      var n := |s| - 1;
      Select(s[..n], keep[..n]) + (if keep[n] then [s[n]] else [])
  }

  lemma SelectNext<T>(s: seq<T>, keep: seq<bool>, i: nat)
    requires i < |s| == |keep|
    ensures Select(s[..i + 1], keep[..i + 1]) == Select(s[..i], keep[..i]) + (if keep[i] then [s[i]] else [])
  {
    assert s[..i + 1][..i] == s[..i] && keep[..i + 1][..i] == keep[..i];
  }

  /** The positions a mask keeps, in increasing order. */
  function Positions(keep: seq<bool>): (at: seq<nat>)
    ensures forall k :: 0 <= k < |at| ==> at[k] < |keep| && keep[at[k]]
    ensures forall j, k :: 0 <= j < k < |at| ==> at[j] < at[k]
  {
    if keep == [] then []
    else
      var n := |keep| - 1;
      var before := Positions(keep[..n]);
      if keep[n] then before + [n] else before
  }

  lemma {:induction false} KeptPosition(keep: seq<bool>, i: nat) returns (k: nat)
    requires i < |keep| && keep[i]
    ensures k < |Positions(keep)| && Positions(keep)[k] == i
  {
    var n := |keep| - 1;
    if i == n {
      k := |Positions(keep[..n])|;
    } else {
      k := KeptPosition(keep[..n], i);
    }
  }

  /** Selection never invents, loses or reorders: it reads off the kept positions. */
  lemma {:induction false} SelectAt<T>(s: seq<T>, keep: seq<bool>)
    requires |s| == |keep|
    ensures |Select(s, keep)| == |Positions(keep)|
    ensures forall k :: 0 <= k < |Positions(keep)| ==> Select(s, keep)[k] == s[Positions(keep)[k]]
  {
    if s != [] {
      SelectAt(s[..|s| - 1], keep[..|s| - 1]);
    }
  }

  /** Selection takes its elements from the sequence. */
  lemma SelectWithin<T>(s: seq<T>, keep: seq<bool>)
    requires |s| == |keep|
    ensures forall x :: x in Select(s, keep) ==> x in s
  {
    SelectAt(s, keep);
  }

  /** Selection loses none of the kept elements. */
  lemma SelectKeeps<T>(s: seq<T>, keep: seq<bool>)
    requires |s| == |keep|
    ensures forall i :: 0 <= i < |s| && keep[i] ==> s[i] in Select(s, keep)
  {
    SelectAt(s, keep);
    forall i | 0 <= i < |s| && keep[i] ensures s[i] in Select(s, keep) {
      var k := KeptPosition(keep, i);
      assert Select(s, keep)[k] == s[i];
    }
  }
}
