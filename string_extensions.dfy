/**
 * Tokenising on white space and the character n-grams and token shingles
 * built from a string (Pipeline/Infrastructure/StringExtensions.cs).
 */
module StringExtensions {
  import opened Chars
  import opened Seqs

  /**
   * String.Split over a separator test: every separator ends a token and
   * empty tokens are kept, so "" splits into [""] and two adjacent
   * separators produce an empty token between them.
   */
  function Split(s: string, isSep: char -> bool): (r: seq<string>)
    ensures |r| >= 1
  {
    if s == [] then [""] else PushFront(s[0], isSep, Split(s[1..], isSep))
  }

  /** The tokens of [x] + t from the tokens of t: a separator opens a new
      empty token, any other character joins the first token. */
  function PushFront(x: char, isSep: char -> bool, tokens: seq<string>): (r: seq<string>)
    requires |tokens| >= 1
    ensures |r| >= 1
  {
    if isSep(x) then [""] + tokens else [[x] + tokens[0]] + tokens[1..]
  }

  lemma SplitCons(x: char, t: string, isSep: char -> bool)
    ensures Split([x] + t, isSep) == PushFront(x, isSep, Split(t, isSep))
  {
    assert ([x] + t)[1..] == t;
  }

  lemma PushFrontAppend(x: char, isSep: char -> bool, left: seq<string>, right: seq<string>)
    requires |left| >= 1
    ensures PushFront(x, isSep, left + right) == PushFront(x, isSep, left) + right
  {
    if !isSep(x) {
      assert (left + right)[1..] == left[1..] + right;
    }
  }

  /** TokenizeOnWhiteSpace: str.Split(null), which splits on Char.IsWhiteSpace. */
  function TokenizeOnWhiteSpace(s: string): seq<string> {
    Split(s, IsWhiteSpace)
  }

  /** String.Join with a one-character separator. */
  function Join(ts: seq<string>, c: char): string {
    if ts == [] then ""
    else if |ts| == 1 then ts[0]
    else ts[0] + [c] + Join(ts[1..], c)
  }

  predicate NoSeparator(t: string, isSep: char -> bool) {
    forall j :: 0 <= j < |t| ==> !isSep(t[j])
  }

  /** There is one more token than there are separators in the input. */
  lemma {:induction false} SplitCount(s: string, isSep: char -> bool)
    ensures |Split(s, isSep)| == |Filter(s, isSep)| + 1
  {
    if s != [] {
      SplitCount(s[1..], isSep);
      assert s == [s[0]] + s[1..];
      FilterAppend([s[0]], s[1..], isSep);
      assert Filter([s[0]], isSep) == Filter([], isSep) + (if isSep(s[0]) then [s[0]] else []);
    }
  }

  /** No token contains a separator. */
  lemma {:induction false} SplitTokensHaveNoSeparator(s: string, isSep: char -> bool)
    ensures forall i :: 0 <= i < |Split(s, isSep)| ==> NoSeparator(Split(s, isSep)[i], isSep)
  {
    if s != [] {
      SplitTokensHaveNoSeparator(s[1..], isSep);
      var rest := Split(s[1..], isSep);
      if !isSep(s[0]) {
        assert NoSeparator(rest[0], isSep);
        assert NoSeparator([s[0]] + rest[0], isSep);
      }
    }
  }

  /** A separator-free string is a single token. */
  lemma {:induction false} SplitWithoutSeparator(t: string, isSep: char -> bool)
    requires NoSeparator(t, isSep)
    ensures Split(t, isSep) == [t]
  {
    if t != [] {
      SplitWithoutSeparator(t[1..], isSep);
      assert [t[0]] + t[1..] == t;
    }
  }

  /** Splitting at a separator splits the two sides independently. */
  lemma {:induction false} SplitAt(a: string, c: char, b: string, isSep: char -> bool)
    requires isSep(c)
    ensures Split(a + [c] + b, isSep) == Split(a, isSep) + Split(b, isSep)
  {
    if a == [] {
      SplitCons(c, b, isSep);
      assert a + [c] + b == [c] + b;
    } else {
      var a' := a[1..];
      SplitAt(a', c, b, isSep);
      SplitCons(a[0], a' + [c] + b, isSep);
      SplitCons(a[0], a', isSep);
      PushFrontAppend(a[0], isSep, Split(a', isSep), Split(b, isSep));
      assert a + [c] + b == [a[0]] + (a' + [c] + b);
      assert a == [a[0]] + a';
    }
  }

  lemma JoinPrepend(x: char, t: string, ts: seq<string>, c: char)
    ensures Join([[x] + t] + ts, c) == [x] + Join([t] + ts, c)
  {
    assert ([[x] + t] + ts)[1..] == ts;
    assert ([t] + ts)[1..] == ts;
  }

  /**
   * Round trip, one way: when the separator c is the only separator
   * character in s, joining the tokens with c gives s back.
   */
  lemma {:induction false} JoinSplit(s: string, c: char, isSep: char -> bool)
    requires isSep(c)
    requires forall i :: 0 <= i < |s| && isSep(s[i]) ==> s[i] == c
    ensures Join(Split(s, isSep), c) == s
  {
    if s != [] {
      var rest := Split(s[1..], isSep);
      JoinSplit(s[1..], c, isSep);
      if isSep(s[0]) {
        assert ([""] + rest)[1..] == rest;
        assert s == [c] + s[1..];
      } else {
        JoinPrepend(s[0], rest[0], rest[1..], c);
        assert [rest[0]] + rest[1..] == rest;
        assert s == [s[0]] + s[1..];
      }
    }
  }

  /**
   * Round trip, the other way: at least one separator-free token joined
   * with a separator splits back into the same tokens.
   */
  lemma {:induction false} SplitJoin(ts: seq<string>, c: char, isSep: char -> bool)
    requires isSep(c)
    requires |ts| >= 1
    requires forall i :: 0 <= i < |ts| ==> NoSeparator(ts[i], isSep)
    ensures Split(Join(ts, c), isSep) == ts
  {
    SplitWithoutSeparator(ts[0], isSep);
    if |ts| > 1 {
      SplitJoin(ts[1..], c, isSep);
      SplitAt(ts[0], c, Join(ts[1..], c), isSep);
      assert [ts[0]] + ts[1..] == ts;
    }
  }

  /** StringExtensionsTests: "ant bee cat" has the three tokens. */
  lemma TokenizeExample()
    ensures TokenizeOnWhiteSpace("ant bee cat") == ["ant", "bee", "cat"]
  {
    var ts := ["ant", "bee", "cat"];
    assert NoSeparator(ts[0], IsWhiteSpace) && NoSeparator(ts[1], IsWhiteSpace)
        && NoSeparator(ts[2], IsWhiteSpace);
    SplitJoin(ts, ' ', IsWhiteSpace);
    assert Join(ts, ' ') == "ant bee cat";
  }

  /** The substrings of length k, by start position. */
  function Windows(s: string, k: nat): (r: seq<string>)
    requires k >= 1
    ensures |r| == if |s| < k then 0 else |s| - k + 1
    ensures forall i :: 0 <= i < |r| ==> r[i] == s[i..i + k]
  {
    if |s| < k then [] else [s[..k]] + Windows(s[1..], k)
  }

  function WindowCount(len: nat, k: nat): nat {
    if len < k then 0 else len - k + 1
  }

  /**
   * CreateBiTriQuadCharacterNGrams: every bigram by start position, then
   * every trigram, then every quadgram, each the substring at its start.
   */
  function CharacterNGrams(s: string): (r: seq<string>)
    ensures |r| == WindowCount(|s|, 2) + WindowCount(|s|, 3) + WindowCount(|s|, 4)
    ensures forall i :: 0 <= i < WindowCount(|s|, 2) ==> r[i] == s[i..i + 2]
    ensures forall j :: WindowCount(|s|, 2) <= j < WindowCount(|s|, 2) + WindowCount(|s|, 3) ==>
              var i := j - WindowCount(|s|, 2); r[j] == s[i..i + 3]
    ensures forall j :: WindowCount(|s|, 2) + WindowCount(|s|, 3) <= j < |r| ==>
              var i := j - WindowCount(|s|, 2) - WindowCount(|s|, 3); r[j] == s[i..i + 4]
  {
    Windows(s, 2) + Windows(s, 3) + Windows(s, 4)
  }

  /** Every character n-gram of s occurs in s. */
  lemma CharacterNGramOccurs(s: string, j: nat)
    requires j < |CharacterNGrams(s)|
    ensures Contains(s, CharacterNGrams(s)[j])
  {
    var r := CharacterNGrams(s);
    var w2, w3 := WindowCount(|s|, 2), WindowCount(|s|, 3);
    if j < w2 {
      assert OccursAt(s, r[j], j);
    } else if j < w2 + w3 {
      assert OccursAt(s, r[j], j - w2);
    } else {
      assert OccursAt(s, r[j], j - w2 - w3);
    }
  }

  /** StringExtensionsTests: the n-grams of "abcd". */
  lemma CharacterNGramsExample()
    ensures CharacterNGrams("abcd") == ["ab", "bc", "cd", "abc", "bcd", "abcd"]
  {
    var r := CharacterNGrams("abcd");
    assert r[0] == "ab" && r[1] == "bc" && r[2] == "cd";
    assert r[3] == "abc" && r[4] == "bcd" && r[5] == "abcd";
  }

  /**
   * The uni/bi shingles of a token list: each token followed by its
   * concatenation with the next one, the last token alone.
   */
  function UniBiShingles(ts: seq<string>): (r: seq<string>)
    ensures |ts| >= 1 ==> |r| == 2 * |ts| - 1
    ensures |ts| == 0 ==> r == []
    ensures forall i :: 0 <= i < |ts| ==> r[2 * i] == ts[i]
    ensures forall i :: 0 <= i < |ts| - 1 ==> r[2 * i + 1] == ts[i] + ts[i + 1]
  {
    if |ts| == 0 then []
    else if |ts| == 1 then [ts[0]]
    else
      var rest := UniBiShingles(ts[1..]);
      assert forall i :: 1 <= i < |ts| ==> rest[2 * (i - 1)] == ts[i];
      [ts[0], ts[0] + ts[1]] + rest
  }

  /** CreateUniBiTokenShingles: the uni/bi shingles of the white-space tokens. */
  function UniBiTokenShingles(s: string): (r: seq<string>)
    ensures |r| == 2 * |TokenizeOnWhiteSpace(s)| - 1
  {
    UniBiShingles(TokenizeOnWhiteSpace(s))
  }

  lemma UniBiShinglesExample()
    ensures UniBiShingles(["ant", "bee", "cat"]) == ["ant", "antbee", "bee", "beecat", "cat"]
  {
    var ts := ["ant", "bee", "cat"];
    var r := UniBiShingles(ts);
    assert r[0] == ts[0] && r[2] == ts[1] && r[4] == ts[2];
    assert r[1] == ts[0] + ts[1] && r[3] == ts[1] + ts[2];
    assert |r| == 5;
    assert ts[0] + ts[1] == "antbee" && ts[1] + ts[2] == "beecat";
  }

  /** StringExtensionsTests: the shingles of "ant bee cat". */
  lemma UniBiTokenShinglesExample(s: string)
    requires s == "ant bee cat"
    ensures UniBiTokenShingles(s) == ["ant", "antbee", "bee", "beecat", "cat"]
  {
    TokenizeExample();
    UniBiShinglesExample();
  }
}
