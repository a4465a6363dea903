/**
 * Field normalisation: the Munger scan followed by removal of trailing
 * white space (Pipeline/Infrastructure/FieldMunger.cs).
 */
module FieldMunger {
  import opened Chars
  import opened Seqs
  import opened Munger

  /** s without its trailing white space. */
  function TrimEnd(s: string): (r: string)
    ensures r == [] || !IsWhiteSpace(r[|r| - 1])
    ensures |r| <= |s| && r == s[..|r|]
    ensures forall i :: |r| <= i < |s| ==> IsWhiteSpace(s[i])
  {
    if s == [] then []
    else if IsWhiteSpace(s[|s| - 1]) then TrimEnd(s[..|s| - 1])
    else s
  }

  /** The normalised form of a field. */
  function FieldForm(ti: TextInfo, s: string): string {
    TrimEnd(Collapse(ti, s, false))
  }

  /** Munge: the normalising scan, then the loop removing trailing white space. */
  method Munge(ti: TextInfo, original: string) returns (r: string)
    ensures r == FieldForm(ti, original)
  {
    var result: seq<char> := [];
    var lastCharWasSpace := false;
    var i := 0;
    while i < |original|
      invariant 0 <= i <= |original|
      invariant result + Collapse(ti, original[i..], lastCharWasSpace) == Collapse(ti, original, false)
    {
      var c := original[i];
      assert original[i..][1..] == original[i + 1..];
      if ti.isLetterOrNumber(c) {
        result := result + [ti.toLower(c)];
        lastCharWasSpace := false;
      } else if !lastCharWasSpace {
        result := result + [' '];
        lastCharWasSpace := true;
      }
      i := i + 1;
    }
    assert original[i..] == [];
    assert result == Collapse(ti, original, false);
    while |result| > 0 && IsWhiteSpace(result[|result| - 1])
      invariant TrimEnd(result) == FieldForm(ti, original)
      decreases |result|
    {
      result := result[..|result| - 1];
    }
    r := result;
  }

  /**
   * The field form is the Munger output with at most one trailing space
   * removed: exactly one when the Munger output ends in a space.
   */
  lemma AtMostOneSpaceTrimmed(ti: TextInfo, s: string)
    requires LowersToNonWhiteSpace(ti)
    ensures var m := Collapse(ti, s, false);
      if m != [] && m[|m| - 1] == ' ' then FieldForm(ti, s) == m[..|m| - 1]
      else FieldForm(ti, s) == m
  {
    var m := Collapse(ti, s, false);
    CollapseCharacters(ti, s, false);
    NoDoubleSpaces(ti, s, false);
    forall k | 0 <= k < |m| && m[k] != ' '
      ensures !IsWhiteSpace(m[k])
    {
      var j :| 0 <= j < |s| && ti.isLetterOrNumber(s[j]) && m[k] == ti.toLower(s[j]);
    }
    if m != [] && m[|m| - 1] == ' ' {
      var m' := m[..|m| - 1];
      assert TrimEnd(m) == TrimEnd(m');
      if m' != [] {
        assert m'[|m'| - 1] == m[|m| - 2];
      }
    }
  }

  /** Every character of the field form is a space or a lowered input
      letter or digit; no two spaces are adjacent; it is no longer than the
      input and does not end in white space. */
  lemma FieldFormShape(ti: TextInfo, s: string)
    requires LowersToNonWhiteSpace(ti)
    ensures var r := FieldForm(ti, s);
      && |r| <= |s|
      && (r == [] || !IsWhiteSpace(r[|r| - 1]))
      && NoDoubleSpace(r)
      && forall k :: 0 <= k < |r| ==>
           r[k] == ' ' || exists j :: 0 <= j < |s| && ti.isLetterOrNumber(s[j]) && r[k] == ti.toLower(s[j])
  {
    var m := Collapse(ti, s, false);
    var r := FieldForm(ti, s);
    CollapseCharacters(ti, s, false);
    NoDoubleSpaces(ti, s, false);
    assert r == m[..|r|];
    assert forall k :: 0 <= k < |r| ==> r[k] == m[k];
  }

  /** The letters and digits of the input, lowered, are the non-space
      characters of the field form, in order. */
  lemma FieldLettersKeptInOrder(ti: TextInfo, s: string)
    requires LowersToNonWhiteSpace(ti)
    ensures Filter(FieldForm(ti, s), IsNotSpace) == LowerAll(ti, Filter(s, ti.isLetterOrNumber))
  {
    var m := Collapse(ti, s, false);
    LettersKeptInOrder(ti, s, false);
    AtMostOneSpaceTrimmed(ti, s);
    if m != [] && m[|m| - 1] == ' ' {
      DropSpace(m);
    }
  }

  lemma DropSpace(m: string)
    requires m != [] && m[|m| - 1] == ' '
    ensures Filter(m[..|m| - 1], IsNotSpace) == Filter(m, IsNotSpace)
  {
    assert m == m[..|m| - 1] + [' '];
    FilterSnoc(m[..|m| - 1], ' ', IsNotSpace);
  }

  /** Text without letters or digits has the empty field form. */
  lemma NoLettersGivesEmpty(ti: TextInfo, s: string)
    requires NoLetterOrNumber(ti, s)
    ensures FieldForm(ti, s) == []
  {
    CollapseRun(ti, s, false);
  }

  /** Text that starts with a character other than a letter or digit but
      has a letter or digit somewhere has a field form starting with exactly
      one space. */
  lemma FieldLeadingSpace(ti: TextInfo, s: string, j: nat)
    requires LowersToNonWhiteSpace(ti)
    requires s != [] && !ti.isLetterOrNumber(s[0])
    requires j < |s| && ti.isLetterOrNumber(s[j])
    ensures |FieldForm(ti, s)| > 1
    ensures FieldForm(ti, s)[0] == ' ' && FieldForm(ti, s)[1] != ' '
  {
    var m := Collapse(ti, s, false);
    LeadingSpace(ti, s);
    LettersKeptInOrder(ti, s, false);
    FilterMembership(s, ti.isLetterOrNumber, s[j]);
    var kept := Filter(s, ti.isLetterOrNumber);
    assert LowerAll(ti, kept) != [];
    var c := LowerAll(ti, kept)[0];
    FilterMembership(m, IsNotSpace, c);
    var k :| 0 <= k < |m| && m[k] == c;
    assert c == ti.toLower(kept[0]) && ti.isLetterOrNumber(kept[0]);
    assert !IsWhiteSpace(m[k]);
    assert k > 0;
  }

  /** FieldMungerTests: a field of 28 dashes normalises to the empty string. */
  lemma DashesExample(ti: TextInfo, s: string)
    requires !ti.isLetterOrNumber('-')
    requires |s| == 28 && forall i :: 0 <= i < |s| ==> s[i] == '-'
    ensures FieldForm(ti, s) == ""
  {
    NoLettersGivesEmpty(ti, s);
  }

  /**
   * FieldMungerTests: "1. This=is-a test 1!!!" and "1 This is a test 1 "
   * have the same field form (the same words, separated by different runs).
   */
  lemma FieldMungeExample(ti: TextInfo, ws: seq<string>, rs: seq<string>, qs: seq<string>)
    requires ws == ["1", "This", "is", "a", "test", "1"]
    requires rs == [". ", "=", "-", " ", " ", "!!!"]
    requires qs == [" ", " ", " ", " ", " ", " "]
    requires ti.isLetterOrNumber('1') && ti.isLetterOrNumber('T') && ti.isLetterOrNumber('h')
    requires ti.isLetterOrNumber('i') && ti.isLetterOrNumber('s') && ti.isLetterOrNumber('a')
    requires ti.isLetterOrNumber('t') && ti.isLetterOrNumber('e')
    requires !ti.isLetterOrNumber('.') && !ti.isLetterOrNumber(' ') && !ti.isLetterOrNumber('=')
    requires !ti.isLetterOrNumber('-') && !ti.isLetterOrNumber('!')
    ensures FieldForm(ti, Interleave(ws, rs)) == FieldForm(ti, Interleave(ws, qs))
  {
    MungeExample(ti, ws, rs, qs);
  }
}
