/**
 * Text normalisation: letters and digits are lowercased and kept, and
 * every run of other characters collapses to a single space
 * (Pipeline/Extraction/Munger.cs).
 */
module Munger {
  import opened Chars
  import opened Seqs

  /**
   * The normalising scan from a given lastCharWasSpace flag: a letter or
   * digit is lowered and clears the flag; any other character emits one
   * space unless the flag is set, and sets it.
   */
  function Collapse(ti: TextInfo, s: string, wasSpace: bool): (r: string)
    ensures |r| <= |s|
  {
    if s == [] then []
    else if ti.isLetterOrNumber(s[0]) then [ti.toLower(s[0])] + Collapse(ti, s[1..], false)
    else if !wasSpace then [' '] + Collapse(ti, s[1..], true)
    else Collapse(ti, s[1..], true)
  }

  /** The value of lastCharWasSpace once s has been scanned. */
  function FlagAfter(ti: TextInfo, s: string, wasSpace: bool): bool {
    if s == [] then wasSpace else !ti.isLetterOrNumber(s[|s| - 1])
  }

  /** Lowering character by character. */
  function LowerAll(ti: TextInfo, s: string): (r: string)
    ensures |r| == |s| && forall i :: 0 <= i < |s| ==> r[i] == ti.toLower(s[i])
  {
    if s == [] then [] else [ti.toLower(s[0])] + LowerAll(ti, s[1..])
  }

  predicate IsSpace(c: char) { c == ' ' }
  predicate IsNotSpace(c: char) { c != ' ' }

  predicate AllLetterOrNumber(ti: TextInfo, s: string) {
    forall i :: 0 <= i < |s| ==> ti.isLetterOrNumber(s[i])
  }

  predicate NoLetterOrNumber(ti: TextInfo, s: string) {
    forall i :: 0 <= i < |s| ==> !ti.isLetterOrNumber(s[i])
  }

  predicate NoDoubleSpace(r: string) {
    forall k :: 0 <= k < |r| - 1 ==> !(r[k] == ' ' && r[k + 1] == ' ')
  }

  /** Munge: one pass over the characters, appending to the result list. */
  method Munge(ti: TextInfo, original: string) returns (r: string)
    ensures r == Collapse(ti, original, false)
  {
    var result: seq<char> := [];
    var lastCharWasSpace := false;
    var i := 0;
    while i < |original|
      invariant 0 <= i <= |original|
      invariant result + Collapse(ti, original[i..], lastCharWasSpace) == Collapse(ti, original, false)
    {
      var c := original[i];
      assert original[i..][1..] == original[i + 1..];
      if ti.isLetterOrNumber(c) {
        result := result + [ti.toLower(c)];
        lastCharWasSpace := false;
      } else if !lastCharWasSpace {
        result := result + [' '];
        lastCharWasSpace := true;
      }
      i := i + 1;
    }
    assert original[i..] == [];
    r := result;
  }

  /** The scan of a concatenation is the scan of each part, the second
      starting from the flag the first leaves behind. */
  lemma {:induction false} CollapseAppend(ti: TextInfo, a: string, b: string, f: bool)
    ensures Collapse(ti, a + b, f) == Collapse(ti, a, f) + Collapse(ti, b, FlagAfter(ti, a, f))
  {
    if a == [] {
      assert a + b == b;
    } else {
      var f' := !ti.isLetterOrNumber(a[0]);
      assert (a + b)[1..] == a[1..] + b;
      CollapseAppend(ti, a[1..], b, f');
      assert FlagAfter(ti, a[1..], f') == FlagAfter(ti, a, f);
    }
  }

  /** Every output character is a space or the lowered form of an input
      letter or digit. */
  lemma {:induction false} CollapseCharacters(ti: TextInfo, s: string, f: bool)
    ensures forall k :: 0 <= k < |Collapse(ti, s, f)| ==>
      Collapse(ti, s, f)[k] == ' ' ||
      exists j :: 0 <= j < |s| && ti.isLetterOrNumber(s[j]) && Collapse(ti, s, f)[k] == ti.toLower(s[j])
  {
    if s != [] {
      var f' := !ti.isLetterOrNumber(s[0]);
      CollapseCharacters(ti, s[1..], f');
      var r := Collapse(ti, s, f);
      var rest := Collapse(ti, s[1..], f');
      forall k | 0 <= k < |r| && r[k] != ' '
        ensures exists j :: 0 <= j < |s| && ti.isLetterOrNumber(s[j]) && r[k] == ti.toLower(s[j])
      {
        if ti.isLetterOrNumber(s[0]) && k == 0 {
          assert r[k] == ti.toLower(s[0]);
        } else {
          var k' := if |r| == |rest| then k else k - 1;
          assert r[k] == rest[k'];
          var j :| 0 <= j < |s[1..]| && ti.isLetterOrNumber(s[1..][j]) && rest[k'] == ti.toLower(s[1..][j]);
          assert s[1..][j] == s[j + 1];
        }
      }
    }
  }

  /**
   * The letters and digits of the input, lowered, are exactly the
   * non-space characters of the output, in the same order.
   */
  lemma {:induction false} LettersKeptInOrder(ti: TextInfo, s: string, f: bool)
    requires LowersToNonWhiteSpace(ti)
    ensures Filter(Collapse(ti, s, f), IsNotSpace) == LowerAll(ti, Filter(s, ti.isLetterOrNumber))
  {
    if s != [] {
      var f' := !ti.isLetterOrNumber(s[0]);
      LettersKeptInOrder(ti, s[1..], f');
      LettersKeptStep(ti, s, f);
    }
  }

  lemma LettersKeptStep(ti: TextInfo, s: string, f: bool)
    requires LowersToNonWhiteSpace(ti)
    requires s != []
    requires Filter(Collapse(ti, s[1..], !ti.isLetterOrNumber(s[0])), IsNotSpace)
          == LowerAll(ti, Filter(s[1..], ti.isLetterOrNumber))
    ensures Filter(Collapse(ti, s, f), IsNotSpace) == LowerAll(ti, Filter(s, ti.isLetterOrNumber))
  {
    var rest := Collapse(ti, s[1..], !ti.isLetterOrNumber(s[0]));
    assert s == [s[0]] + s[1..];
    FilterCons(s[0], s[1..], ti.isLetterOrNumber);
    var kept := Filter(s[1..], ti.isLetterOrNumber);
    if ti.isLetterOrNumber(s[0]) {
      var c := ti.toLower(s[0]);
      assert c != ' ';
      FilterCons(c, rest, IsNotSpace);
      assert ([s[0]] + kept)[1..] == kept;
    } else if !f {
      FilterCons(' ', rest, IsNotSpace);
    }
  }

  /** No two spaces in a row; after a collapsed run the output does not
      start with a space either. */
  lemma {:induction false} NoDoubleSpaces(ti: TextInfo, s: string, f: bool)
    requires LowersToNonWhiteSpace(ti)
    ensures NoDoubleSpace(Collapse(ti, s, f))
    ensures f ==> Collapse(ti, s, f) == [] || Collapse(ti, s, f)[0] != ' '
  {
    if s != [] {
      var f' := !ti.isLetterOrNumber(s[0]);
      NoDoubleSpaces(ti, s[1..], f');
      var rest := Collapse(ti, s[1..], f');
      var r := Collapse(ti, s, f);
      if ti.isLetterOrNumber(s[0]) {
        assert ti.toLower(s[0]) != ' ';
        assert r == [ti.toLower(s[0])] + rest;
        assert forall k :: 1 <= k < |r| ==> r[k] == rest[k - 1];
      } else if !f {
        assert r == [' '] + rest;
        assert forall k :: 1 <= k < |r| ==> r[k] == rest[k - 1];
      }
    }
  }

  /** A non-empty input leaves a non-empty output, which ends in a space
      exactly when the input ends in a character that is not a letter or digit. */
  lemma {:induction false} TrailingSpace(ti: TextInfo, s: string)
    requires LowersToNonWhiteSpace(ti)
    requires s != []
    ensures Collapse(ti, s, false) != []
    ensures Collapse(ti, s, false)[|Collapse(ti, s, false)| - 1] == ' '
        <==> !ti.isLetterOrNumber(s[|s| - 1])
  {
    var a, c := s[..|s| - 1], s[|s| - 1];
    assert s == a + [c];
    CollapseAppend(ti, a, [c], false);
    var fa := FlagAfter(ti, a, false);
    assert [c][1..] == [];
    if a != [] {
      TrailingSpace(ti, a);
    }
    if ti.isLetterOrNumber(c) {
      assert ti.toLower(c) != ' ';
    }
  }

  /** Text starting with a character that is not a letter or digit
      normalises to text starting with exactly one space. */
  lemma LeadingSpace(ti: TextInfo, s: string)
    requires LowersToNonWhiteSpace(ti)
    requires s != [] && !ti.isLetterOrNumber(s[0])
    ensures Collapse(ti, s, false) != [] && Collapse(ti, s, false)[0] == ' '
    ensures |Collapse(ti, s, false)| > 1 ==> Collapse(ti, s, false)[1] != ' '
  {
    NoDoubleSpaces(ti, s[1..], true);
  }

  /** A scan over letters and digits only is their lowering. */
  lemma {:induction false} CollapseWord(ti: TextInfo, w: string, f: bool)
    requires AllLetterOrNumber(ti, w)
    ensures Collapse(ti, w, f) == LowerAll(ti, w)
  {
    if w != [] {
      CollapseWord(ti, w[1..], false);
    }
  }

  /** A run of characters that are not letters or digits gives one space,
      or nothing when a space was just emitted. */
  lemma {:induction false} CollapseRun(ti: TextInfo, p: string, f: bool)
    requires NoLetterOrNumber(ti, p)
    ensures Collapse(ti, p, f) == if p == [] || f then [] else [' ']
  {
    if p != [] {
      CollapseRun(ti, p[1..], true);
    }
  }

  /**
   * Each maximal run of characters that are not letters or digits becomes
   * exactly one space: a run p between a (ending in a letter or digit, or
   * empty) and b (starting with one, or empty).
   */
  lemma RunBecomesOneSpace(ti: TextInfo, a: string, p: string, b: string)
    requires a == [] || ti.isLetterOrNumber(a[|a| - 1])
    requires p != [] && NoLetterOrNumber(ti, p)
    requires b == [] || ti.isLetterOrNumber(b[0])
    ensures Collapse(ti, a + p + b, false) == Collapse(ti, a, false) + [' '] + Collapse(ti, b, false)
  {
    CollapseAppend(ti, a + p, b, false);
    CollapseAppend(ti, a, p, false);
    CollapseRun(ti, p, false);
    assert FlagAfter(ti, a + p, false);
    if b != [] {
      assert Collapse(ti, b, true) == Collapse(ti, b, false);
    }
  }

  /** Swapping one maximal run of non-letters for another leaves the
      normalised text unchanged. */
  lemma ReplaceRun(ti: TextInfo, a: string, p: string, q: string, b: string)
    requires a == [] || ti.isLetterOrNumber(a[|a| - 1])
    requires p != [] && NoLetterOrNumber(ti, p)
    requires q != [] && NoLetterOrNumber(ti, q)
    requires b == [] || ti.isLetterOrNumber(b[0])
    ensures Collapse(ti, a + p + b, false) == Collapse(ti, a + q + b, false)
  {
    RunBecomesOneSpace(ti, a, p, b);
    RunBecomesOneSpace(ti, a, q, b);
  }

  /** Words w0, w1, ... each followed by its run r0, r1, ...: w0 + r0 + w1 + r1 + ... */
  function Interleave(ws: seq<string>, rs: seq<string>): (s: string)
    requires |ws| == |rs|
    ensures |ws| == 1 ==> s == ws[0] + rs[0]
  {
    if ws == [] then "" else ws[0] + rs[0] + Interleave(ws[1..], rs[1..])
  }

  /** The lowered words, each followed by one space. */
  function SpacedWords(ti: TextInfo, ws: seq<string>): (r: string)
    ensures ws == [] ==> r == []
  {
    if ws == [] then "" else LowerAll(ti, ws[0]) + " " + SpacedWords(ti, ws[1..])
  }

  /**
   * Text made of non-empty words of letters and digits, each followed by a
   * non-empty run of other characters, normalises to the lowered words
   * each followed by exactly one space, whatever the starting flag.
   */
  lemma {:induction false} CollapseInterleaved(ti: TextInfo, ws: seq<string>, rs: seq<string>, f: bool)
    requires |ws| == |rs|
    requires forall i :: 0 <= i < |ws| ==> ws[i] != [] && AllLetterOrNumber(ti, ws[i])
    requires forall i :: 0 <= i < |rs| ==> rs[i] != [] && NoLetterOrNumber(ti, rs[i])
    ensures Collapse(ti, Interleave(ws, rs), f) == SpacedWords(ti, ws)
  {
    if ws != [] {
      var rest := Interleave(ws[1..], rs[1..]);
      assert Interleave(ws, rs) == ws[0] + (rs[0] + rest);
      CollapseAppend(ti, ws[0], rs[0] + rest, f);
      CollapseWord(ti, ws[0], f);
      assert FlagAfter(ti, ws[0], f) == false;
      CollapseAppend(ti, rs[0], rest, false);
      CollapseRun(ti, rs[0], false);
      assert FlagAfter(ti, rs[0], false);
      CollapseInterleaved(ti, ws[1..], rs[1..], true);
    }
  }

  /** Two texts with the same words separated by different runs normalise alike. */
  lemma SameWordsSameText(ti: TextInfo, ws: seq<string>, rs: seq<string>, qs: seq<string>)
    requires |ws| == |rs| == |qs|
    requires forall i :: 0 <= i < |ws| ==> ws[i] != [] && AllLetterOrNumber(ti, ws[i])
    requires forall i :: 0 <= i < |rs| ==> rs[i] != [] && NoLetterOrNumber(ti, rs[i])
    requires forall i :: 0 <= i < |qs| ==> qs[i] != [] && NoLetterOrNumber(ti, qs[i])
    ensures Collapse(ti, Interleave(ws, rs), false) == Collapse(ti, Interleave(ws, qs), false)
  {
    CollapseInterleaved(ti, ws, rs, false);
    CollapseInterleaved(ti, ws, qs, false);
  }

  /**
   * MungerTests: "1. This=is-a test 1!!!" and "1 This is a test 1 " are
   * the same six words, one separated by ". ", "=", "-", " ", " ", "!!!"
   * and the other by single spaces, for a character table that classifies
   * these characters as the culture-invariant tables do.
   */
  lemma MungeExample(ti: TextInfo, ws: seq<string>, rs: seq<string>, qs: seq<string>)
    requires ws == ["1", "This", "is", "a", "test", "1"]
    requires rs == [". ", "=", "-", " ", " ", "!!!"]
    requires qs == [" ", " ", " ", " ", " ", " "]
    requires ti.isLetterOrNumber('1') && ti.isLetterOrNumber('T') && ti.isLetterOrNumber('h')
    requires ti.isLetterOrNumber('i') && ti.isLetterOrNumber('s') && ti.isLetterOrNumber('a')
    requires ti.isLetterOrNumber('t') && ti.isLetterOrNumber('e')
    requires !ti.isLetterOrNumber('.') && !ti.isLetterOrNumber(' ') && !ti.isLetterOrNumber('=')
    requires !ti.isLetterOrNumber('-') && !ti.isLetterOrNumber('!')
    ensures Collapse(ti, Interleave(ws, rs), false) == Collapse(ti, Interleave(ws, qs), false)
  {
    assert forall i :: 0 <= i < |ws| ==> ws[i] != [] && AllLetterOrNumber(ti, ws[i]);
    assert forall i :: 0 <= i < |rs| ==> rs[i] != [] && NoLetterOrNumber(ti, rs[i]);
    assert forall i :: 0 <= i < |qs| ==> qs[i] != [] && NoLetterOrNumber(ti, qs[i]);
    SameWordsSameText(ti, ws, rs, qs);
  }
}
