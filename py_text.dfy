/**
 The two Python built-ins that `rank_phrases` applies to the ranked phrase
 texts: the slice `xs[:n]` and the join `" ".join(parts)`.
 */
module PyText {

  /** Number of leading elements that Python's `xs[:n]` keeps from a list of
      `len` elements: a non-negative `n` is clipped to the length, a negative
      `n` counts back from the end. */
  function SliceStop(len: nat, n: int): (k: nat)
    ensures k <= len
  {
    if n >= 0 then (if n < len then n else len)
    else if len + n > 0 then len + n else 0
  }

  /** Python's `xs[:n]`. It never fails, whatever `n` is. */
  function Take<T>(xs: seq<T>, n: int): (ys: seq<T>)
    ensures |ys| <= |xs| && ys == xs[..|ys|]
    ensures 0 <= n ==> |ys| == (if n < |xs| then n else |xs|)
    ensures n < 0 ==> |ys| == (if |xs| + n > 0 then |xs| + n else 0)
    ensures n >= |xs| ==> ys == xs
  {
    xs[..SliceStop(|xs|, n)]
  }

  /** Python's `" ".join(parts)`. */
  function JoinSpace(parts: seq<string>): string
  {
    if |parts| == 0 then ""
    else if |parts| == 1 then parts[0]
    else parts[0] + " " + JoinSpace(parts[1..])
  }

  /** Sum of the lengths of the parts. */
  function TotalLength(parts: seq<string>): nat
  {
    if |parts| == 0 then 0 else |parts[0]| + TotalLength(parts[1..])
  }

  /** Length of a space-join: every part, plus one space between each adjacent pair. */
  function JoinedLength(parts: seq<string>): nat
  {
    if |parts| == 0 then 0 else TotalLength(parts) + |parts| - 1
  }

  /** Index at which part `k` begins in a space-join of `parts`. */
  function Offset(parts: seq<string>, k: nat): nat
    requires k <= |parts|
  {
    if k == 0 then 0 else |parts[0]| + 1 + Offset(parts[1..], k - 1)
  }

  /** Part `k` of `parts` sits unchanged at `Offset(parts, k)` in `s`. */
  predicate PartAt(parts: seq<string>, s: string, k: nat)
    requires k < |parts|
  {
    Offset(parts, k) + |parts[k]| <= |s| && s[Offset(parts, k)..Offset(parts, k) + |parts[k]|] == parts[k]
  }

  /** A single space follows part `k` of `parts` in `s`. */
  predicate SpaceAfter(parts: seq<string>, s: string, k: nat)
    requires k < |parts|
  {
    Offset(parts, k) + |parts[k]| < |s| && s[Offset(parts, k) + |parts[k]|] == ' '
  }

  /** A description of the space-join that does not recurse over the parts:
      `s` has the joined length, part `k` sits at `Offset(parts, k)`, and a
      single space follows every part but the last. */
  predicate IsSpaceJoin(parts: seq<string>, s: string)
  {
    && |s| == JoinedLength(parts)
    && (forall k :: 0 <= k < |parts| ==> PartAt(parts, s, k))
    && (forall k :: 0 <= k < |parts| - 1 ==> SpaceAfter(parts, s, k))
  }

  /** `" ".join` has the joined length. */
  lemma {:induction false} JoinSpaceLength(parts: seq<string>)
    ensures |JoinSpace(parts)| == JoinedLength(parts)
  {
    if |parts| == 1 {
      assert parts[1..] == [];
    } else if |parts| > 1 {
      JoinSpaceLength(parts[1..]);
    }
  }

  /** In `" ".join(parts)`, part `k` sits at `Offset(parts, k)`, followed by a
      space unless it is the last part. */
  lemma {:induction false} JoinSpaceAt(parts: seq<string>, k: nat)
    requires k < |parts|
    ensures Offset(parts, k) + |parts[k]| <= |JoinSpace(parts)|
    ensures JoinSpace(parts)[Offset(parts, k)..Offset(parts, k) + |parts[k]|] == parts[k]
    ensures k < |parts| - 1 ==>
              Offset(parts, k) + |parts[k]| < |JoinSpace(parts)|
              && JoinSpace(parts)[Offset(parts, k) + |parts[k]|] == ' '
  {
    var s := JoinSpace(parts);
    if |parts| == 1 {
      assert s[0..|parts[0]|] == parts[0];
    } else {
      var rest := parts[1..];
      var head := parts[0] + " ";
      var t := JoinSpace(rest);
      assert s == head + t;
      if k == 0 {
        assert s[0..|parts[0]|] == parts[0];
      } else {
        var o := Offset(rest, k - 1);
        assert parts[k] == rest[k - 1];
        JoinSpaceAt(rest, k - 1);
        if k < |parts| - 1 {
          assert s[|head| + o + |rest[k - 1]|] == t[o + |rest[k - 1]|];
        }
      }
    }
  }

  /** `" ".join` meets the description: each part in order, one space between neighbours. */
  lemma JoinSpaceIsSpaceJoin(parts: seq<string>)
    ensures IsSpaceJoin(parts, JoinSpace(parts))
  {
    JoinSpaceLength(parts);
    forall k | 0 <= k < |parts|
      ensures PartAt(parts, JoinSpace(parts), k)
      ensures k < |parts| - 1 ==> SpaceAfter(parts, JoinSpace(parts), k)
    {
      JoinSpaceAt(parts, k);
    }
  }

  /** Dropping the first part and its space from a space-join leaves a space-join of the rest. */
  lemma SpaceJoinTail(parts: seq<string>, s: string)
    requires |parts| > 1 && IsSpaceJoin(parts, s)
    ensures IsSpaceJoin(parts[1..], s[|parts[0]| + 1..])
  {
    var rest := parts[1..];
    var h := |parts[0]|;
    var t := s[h + 1..];
    assert TotalLength(parts) == h + TotalLength(rest);
    forall k | 0 <= k < |rest|
      ensures PartAt(rest, t, k)
    {
      var o := Offset(rest, k);
      assert PartAt(parts, s, k + 1);
      assert Offset(parts, k + 1) == h + 1 + o;
      assert parts[k + 1] == rest[k];
    }
    forall k | 0 <= k < |rest| - 1
      ensures SpaceAfter(rest, t, k)
    {
      assert SpaceAfter(parts, s, k + 1);
      assert Offset(parts, k + 1) == h + 1 + Offset(rest, k);
      assert parts[k + 1] == rest[k];
    }
  }

  /** The description admits no other string: whatever meets it is `" ".join(parts)`. */
  lemma {:induction false} SpaceJoinIsUnique(parts: seq<string>, s: string)
    requires IsSpaceJoin(parts, s)
    ensures s == JoinSpace(parts)
  {
    if |parts| == 1 {
      assert parts[1..] == [];
      assert PartAt(parts, s, 0);
      assert s == s[0..|parts[0]|];
    } else if |parts| > 1 {
      var h := |parts[0]|;
      assert PartAt(parts, s, 0) && SpaceAfter(parts, s, 0);
      SpaceJoinTail(parts, s);
      SpaceJoinIsUnique(parts[1..], s[h + 1..]);
      assert s == s[0..h] + [s[h]] + s[h + 1..];
    }
  }

  /** `IsSpaceJoin` characterises `" ".join` in both directions. */
  lemma JoinSpaceSpec(parts: seq<string>, s: string)
    ensures s == JoinSpace(parts) <==> IsSpaceJoin(parts, s)
  {
    JoinSpaceIsSpaceJoin(parts);
    if IsSpaceJoin(parts, s) {
      SpaceJoinIsUnique(parts, s);
    }
  }
}
