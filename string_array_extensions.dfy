/** Token shingles: concatenations of runs of consecutive tokens
    (Pipeline/Infrastructure/StringArrayExtensions.cs). */
module StringArrayExtensions {
  import opened Seqs

  /** How many runs of n consecutive tokens the loop bound admits. */
  function ShingleCount(len: nat, n: int): nat {
    if len - n + 1 < 0 then 0 else len - n + 1
  }

  function Blanks(k: nat): (r: seq<string>)
    ensures |r| == k && forall i :: 0 <= i < k ==> r[i] == ""
  {
    if k == 0 then [] else [""] + Blanks(k - 1)
  }

  /**
   * The n-shingles of ts: for each start i, the concatenation of the n
   * tokens from i. With n <= 0 no token is read, so every shingle is
   * empty, and there are |ts| - n + 1 of them.
   */
  function Shingles(ts: seq<string>, n: int): (r: seq<string>)
    ensures |r| == ShingleCount(|ts|, n)
    decreases |ts|
  {
    if n <= 0 then Blanks(|ts| - n + 1)
    else if |ts| < n then []
    else [Concat(ts[..n])] + Shingles(ts[1..], n)
  }

  /** Shingle i is the concatenation of the n tokens starting at i
      (the empty string when n <= 0). */
  lemma {:induction false} ShingleAt(ts: seq<string>, n: int, i: nat)
    requires i < ShingleCount(|ts|, n)
    ensures Shingles(ts, n)[i] == if n <= 0 then "" else Concat(ts[i..i + n])
  {
    if n > 0 && i > 0 {
      ShingleAt(ts[1..], n, i - 1);
      assert ts[1..][i - 1..i - 1 + n] == ts[i..i + n];
    }
  }

  /** The inner loop of CreateNShingles: the cleared buffer refilled with
      the n tokens from start i, or left empty when n <= 0. */
  method Window(tokens: seq<string>, i: nat, n: int) returns (tmp: seq<string>)
    requires i + n <= |tokens|
    ensures n > 0 ==> tmp == tokens[i..i + n]
    ensures n <= 0 ==> tmp == []
  {
    tmp := [];
    var j := 0;
    while j < n
      invariant 0 <= j && (n > 0 ==> j <= n)
      invariant n > 0 ==> tmp == tokens[i..i + j]
      invariant n <= 0 ==> tmp == []
    {
      assert tokens[i..i + j + 1] == tokens[i..i + j] + [tokens[i + j]];
      tmp := tmp + [tokens[i + j]];
      j := j + 1;
    }
  }

  /**
   * CreateNShingles(tokens, n): for each start the tmp buffer is cleared,
   * refilled with the next n tokens and concatenated.
   */
  method CreateNShingles(tokens: seq<string>, n: int) returns (r: seq<string>)
    ensures r == Shingles(tokens, n)
  {
    r := [];
    var tmp: seq<string> := [];
    var i := 0;
    while i < |tokens| - (n - 1)
      invariant 0 <= i && (i <= ShingleCount(|tokens|, n))
      invariant r == Shingles(tokens, n)[..i]
    {
      tmp := Window(tokens, i, n);
      ShingleAt(tokens, n, i);
      r := r + [Concat(tmp)];
      i := i + 1;
    }
  }

  /** The shingles of every size from `from` to `to`, smallest size first. */
  function ShinglesRange(ts: seq<string>, from: int, to: int): (r: seq<string>)
    requires from > 0
    ensures to < from ==> r == []
    decreases if to < from then 0 else to - from + 1
  {
    if to < from then [] else Shingles(ts, from) + ShinglesRange(ts, from + 1, to)
  }

  lemma RangeStep(ts: seq<string>, from: int, i: int, to: int, r: seq<string>)
    requires 0 < from <= i <= to
    requires r + ShinglesRange(ts, i, to) == ShinglesRange(ts, from, to)
    ensures (r + Shingles(ts, i)) + ShinglesRange(ts, i + 1, to) == ShinglesRange(ts, from, to)
  {
    assert r + (Shingles(ts, i) + ShinglesRange(ts, i + 1, to)) == (r + Shingles(ts, i)) + ShinglesRange(ts, i + 1, to);
  }

  /** CreateNShingles(tokens, from, to); Debug.Assert(from > 0) is its precondition. */
  method CreateNShinglesRange(tokens: seq<string>, from: int, to: int) returns (r: seq<string>)
    requires from > 0
    ensures r == ShinglesRange(tokens, from, to)
  {
    r := [];
    var i := from;
    while i <= to
      invariant from <= i && (to < from || i <= to + 1)
      invariant r + ShinglesRange(tokens, i, to) == ShinglesRange(tokens, from, to)
    {
      var ngrams := CreateNShingles(tokens, i);
      RangeStep(tokens, from, i, to, r);
      r := r + ngrams;
      i := i + 1;
    }
  }

  /** StringArrayExtensionsTests: the one 4-shingle of [a, b, c, d]. */
  lemma FourShingleExample()
    ensures Shingles(["a", "b", "c", "d"], 4) == ["abcd"]
  {
    var ts := ["a", "b", "c", "d"];
    assert ts[0..4] == ts;
    assert Concat(ts) == "abcd";
  }

  /** StringArrayExtensionsTests: sizes 1 to 4 over [a, b, c, d]. */
  lemma RangeExample()
    ensures ShinglesRange(["a", "b", "c", "d"], 1, 4)
         == ["a", "b", "c", "d", "ab", "bc", "cd", "abc", "bcd", "abcd"]
  {
    var ts := ["a", "b", "c", "d"];
    var s1, s2, s3 := Shingles(ts, 1), Shingles(ts, 2), Shingles(ts, 3);
    assert s1[0] == Concat(ts[0..1]) == "a" && s1[1] == Concat(ts[1..2]) == "b";
    assert s1[2] == Concat(ts[2..3]) == "c" && s1[3] == Concat(ts[3..4]) == "d";
    assert s1 == ["a", "b", "c", "d"];
    assert s2[0] == Concat(ts[0..2]) == "ab" && s2[1] == Concat(ts[1..3]) == "bc";
    assert s2[2] == Concat(ts[2..4]) == "cd";
    assert s2 == ["ab", "bc", "cd"];
    assert s3[0] == Concat(ts[0..3]) == "abc" && s3[1] == Concat(ts[1..4]) == "bcd";
    assert s3 == ["abc", "bcd"];
    FourShingleExample();
    assert ShinglesRange(ts, 5, 4) == [];
  }

  /** StringArrayExtensionsTests: a single token has no 2- or 3-shingles. */
  lemma SingleTokenRangeExample()
    ensures ShinglesRange(["ant"], 2, 3) == []
  {
    assert Shingles(["ant"], 2) == [] && Shingles(["ant"], 3) == [];
    assert ShinglesRange(["ant"], 4, 3) == [];
  }

  /** StringArrayExtensionsTests: two tokens have exactly one 2-shingle and no 3-shingle. */
  lemma TwoTokenRangeExample()
    ensures ShinglesRange(["ant", "bee"], 2, 3) == ["antbee"]
  {
    var ts := ["ant", "bee"];
    assert ts[0..2] == ts;
    assert Concat(ts) == "antbee";
    assert Shingles(ts, 2) == ["antbee"];
    assert Shingles(ts, 3) == [];
    assert ShinglesRange(ts, 4, 3) == [];
  }
}
