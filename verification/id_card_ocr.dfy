/**
 * The national-ID card fields read from recognised text (`OCRAPIView.post`
 * in user/views.py). The text recogniser itself is outside the model: its
 * output string is an input. The text is stripped of surrounding whitespace,
 * split at runs of line breaks, and the i-th line becomes the i-th field, or
 * "Unknown" when there are fewer lines.
 */
module IdCardOcr {

  const Unknown: string := "Unknown"

  /** The card's keys, in line order. */
  const FieldNames: seq<string> := ["national_id", "first_name", "last_name", "father_name", "birth_date"]

  /** The characters for which Python's `str.isspace()` holds. */
  const SpaceChars: set<char> := {
    '\t', '\n', '\U{0B}', '\U{0C}', '\r', '\U{1C}', '\U{1D}', '\U{1E}', '\U{1F}', ' ',
    '\U{85}', '\U{A0}', '\U{1680}',
    '\U{2000}', '\U{2001}', '\U{2002}', '\U{2003}', '\U{2004}', '\U{2005}',
    '\U{2006}', '\U{2007}', '\U{2008}', '\U{2009}', '\U{200A}',
    '\U{2028}', '\U{2029}', '\U{202F}', '\U{205F}', '\U{3000}'
  }

  /** Python's `str.isspace()` for a single character. */
  predicate IsSpace(c: char) {
    c in SpaceChars
  }

  /** The end of the run of whitespace that starts at `i`. */
  function SpaceRunEnd(s: string, i: nat): (j: nat)
    requires i <= |s|
    ensures i <= j <= |s|
    ensures forall k :: i <= k < j ==> IsSpace(s[k])
    ensures j == |s| || !IsSpace(s[j])
    decreases |s| - i
  {
    if i < |s| && IsSpace(s[i]) then SpaceRunEnd(s, i + 1) else i
  }

  /** The start of the run of whitespace that ends at `j`. */
  function SpaceRunStart(s: string, j: nat): (i: nat)
    requires j <= |s|
    ensures i <= j
    ensures forall k :: i <= k < j ==> IsSpace(s[k])
    ensures i == 0 || !IsSpace(s[i - 1])
  {
    if j > 0 && IsSpace(s[j - 1]) then SpaceRunStart(s, j - 1) else j
  }

  /** The string without its leading whitespace. */
  function TrimStart(s: string): (r: string)
    ensures |r| <= |s| && r == s[|s| - |r|..]
    ensures forall i :: 0 <= i < |s| - |r| ==> IsSpace(s[i])
    ensures |r| == 0 || !IsSpace(r[0])
  {
    s[SpaceRunEnd(s, 0)..]
  }

  /** The string without its trailing whitespace. */
  function TrimEnd(s: string): (r: string)
    ensures |r| <= |s| && r == s[..|r|]
    ensures forall i :: |r| <= i < |s| ==> IsSpace(s[i])
    ensures |r| == 0 || !IsSpace(r[|r| - 1])
  {
    s[..SpaceRunStart(s, |s|)]
  }

  /** `str.strip()`: neither end of the result is whitespace. */
  function Strip(s: string): (r: string)
    ensures |r| == 0 || (!IsSpace(r[0]) && !IsSpace(r[|r| - 1]))
    ensures |r| <= |s|
    ensures (|s| == 0 || (!IsSpace(s[0]) && !IsSpace(s[|s| - 1]))) ==> r == s
  {
    TrimEnd(TrimStart(s))
  }

  /** The stripped text is the slice of `s` that starts after the leading whitespace. */
  lemma StripSlice(s: string, a: nat)
    requires a == |s| - |TrimStart(s)|
    ensures a + |Strip(s)| <= |s| && Strip(s) == s[a..a + |Strip(s)|]
  {
    var r := Strip(s);
    assert r == s[a..a + |r|] by {
      PrefixOfSuffix(s, TrimStart(s), TrimEnd(TrimStart(s)), a);
    }
  }

  /** A prefix `r` of the suffix `t` of `s` that starts at `a` is a slice of `s`. */
  lemma PrefixOfSuffix<T>(s: seq<T>, t: seq<T>, r: seq<T>, a: nat)
    requires a <= |s| && t == s[a..]
    requires |r| <= |t| && r == t[..|r|]
    ensures r == s[a..a + |r|]
  {
    assert s[a..][..|r|] == s[a..a + |r|];
  }

  /** Whitespace dropped from the end of the suffix `s[a..]` is whitespace of `s`. */
  lemma TrimEndOfSuffix(s: string, a: nat)
    requires a <= |s|
    ensures forall i :: a + |TrimEnd(s[a..])| <= i < |s| ==> IsSpace(s[i])
  {
    var t := s[a..];
    var n := |TrimEnd(t)|;
    forall i | a + n <= i < |s| ensures IsSpace(s[i]) {
      assert s[i] == t[i - a];
    }
  }

  /**
   * Stripping removes exactly a whitespace prefix (the first `a` characters)
   * and a whitespace suffix (from `b` on): the result is the slice between.
   */
  lemma StripIsTrimmedSlice(s: string)
    ensures var a := |s| - |TrimStart(s)|;
            var b := a + |Strip(s)|;
            0 <= a <= b <= |s| && Strip(s) == s[a..b] &&
            (forall i :: 0 <= i < a ==> IsSpace(s[i])) && (forall i :: b <= i < |s| ==> IsSpace(s[i]))
  {
    var a := |s| - |TrimStart(s)|;
    StripSlice(s, a);
    assert TrimStart(s) == s[a..];
    TrimEndOfSuffix(s, a);
  }

  /** The index of the first line break, or `|s|`. */
  function FirstBreak(s: string): (i: nat)
    ensures i <= |s| && (i < |s| ==> s[i] == '\n')
    ensures forall k :: 0 <= k < i ==> s[k] != '\n'
  {
    if |s| == 0 || s[0] == '\n' then 0 else 1 + FirstBreak(s[1..])
  }

  /** The end of the run of line breaks that starts at `i`. */
  function RunEnd(s: string, i: nat): (j: nat)
    requires i <= |s|
    ensures i <= j <= |s|
    ensures forall k :: i <= k < j ==> s[k] == '\n'
    ensures j < |s| ==> s[j] != '\n'
    decreases |s| - i
  {
    if i < |s| && s[i] == '\n' then RunEnd(s, i + 1) else i
  }

  /** `re.split(r'\n+', s)`: the pieces between maximal runs of line breaks. */
  function SplitLines(s: string): (lines: seq<string>)
    ensures |lines| >= 1
    ensures forall k :: 0 <= k < |lines| ==> '\n' !in lines[k]
    decreases |s|
  {
    var i := FirstBreak(s);
    if i == |s| then [s]
    else [s[..i]] + SplitLines(s[RunEnd(s, i)..])
  }

  /** The characters of `s` other than line breaks. */
  function DropBreaks(s: string): string {
    if |s| == 0 then ""
    else if s[0] == '\n' then DropBreaks(s[1..])
    else [s[0]] + DropBreaks(s[1..])
  }

  function Concat(lines: seq<string>): string {
    if |lines| == 0 then "" else lines[0] + Concat(lines[1..])
  }

  /** Dropping the breaks of a line, a run of breaks and the rest of the text. */
  lemma {:induction false} DropBreaksOfSplit(s: string, i: nat, j: nat)
    requires i <= j <= |s|
    requires forall k :: 0 <= k < i ==> s[k] != '\n'
    requires forall k :: i <= k < j ==> s[k] == '\n'
    ensures DropBreaks(s) == s[..i] + DropBreaks(s[j..])
    decreases j
  {
    if j > 0 {
      var t := s[1..];
      assert t[j - 1..] == s[j..];
      if i > 0 {
        assert forall k :: 0 <= k < i - 1 ==> t[k] == s[k + 1];
        assert forall k :: i - 1 <= k < j - 1 ==> t[k] == s[k + 1];
        DropBreaksOfSplit(t, i - 1, j - 1);
        assert s[..i] == [s[0]] + t[..i - 1];
      } else {
        assert forall k :: 0 <= k < j - 1 ==> t[k] == s[k + 1];
        DropBreaksOfSplit(t, 0, j - 1);
      }
    }
  }

  /** Splitting loses nothing but line breaks. */
  lemma {:induction false} SplitLinesKeepsText(s: string)
    ensures Concat(SplitLines(s)) == DropBreaks(s)
    decreases |s|
  {
    var i := FirstBreak(s);
    if i == |s| {
      DropBreaksOfSplit(s, |s|, |s|);
      assert Concat([s]) == s + Concat([]);
    } else {
      var j := RunEnd(s, i);
      SplitLinesKeepsText(s[j..]);
      DropBreaksOfSplit(s, i, j);
      var lines := SplitLines(s);
      assert lines[1..] == SplitLines(s[j..]);
    }
  }

  /** The lines joined back with single line breaks. */
  function Join(lines: seq<string>): string {
    if |lines| == 0 then ""
    else if |lines| == 1 then lines[0]
    else lines[0] + ("\n" + Join(lines[1..]))
  }

  /** No two line breaks are adjacent. */
  predicate NoDoubleBreak(s: string) {
    forall k, m :: 0 <= k < |s| && 0 <= m < |s| && m == k + 1 ==> s[k] != '\n' || s[m] != '\n'
  }

  lemma NoDoubleBreakSuffix(s: string, j: nat)
    requires j <= |s| && NoDoubleBreak(s)
    ensures NoDoubleBreak(s[j..])
  {
    var rest := s[j..];
    forall k, m | 0 <= k < |rest| && 0 <= m < |rest| && m == k + 1 ensures rest[k] != '\n' || rest[m] != '\n' {
      assert rest[k] == s[j + k] && rest[m] == s[j + m];
    }
  }

  /** The text with every run of line breaks shortened to a single break. */
  function Collapse(s: string): string
    decreases |s|
  {
    if |s| <= 1 then s
    else if s[0] == '\n' && s[1] == '\n' then Collapse(s[1..])
    else [s[0]] + Collapse(s[1..])
  }

  lemma {:induction false} CollapseNoBreak(s: string)
    requires '\n' !in s
    ensures Collapse(s) == s
    decreases |s|
  {
    if |s| > 1 {
      assert s[0] in s;
      assert forall c :: c in s[1..] ==> c in s;
      CollapseNoBreak(s[1..]);
    }
  }

  /** A stretch `s[a..i]` without breaks passes through `Collapse` unchanged. */
  lemma {:induction false} CollapseLine(s: string, a: nat, i: nat)
    requires a <= i <= |s|
    requires forall k :: a <= k < i ==> s[k] != '\n'
    ensures Collapse(s[a..]) == s[a..i] + Collapse(s[i..])
    decreases i - a
  {
    if a < i {
      var t := s[a..];
      assert t[1..] == s[a + 1..];
      assert t[0] == s[a] && s[a..i] == [s[a]] + s[a + 1..i];
      if |t| > 1 {
        assert Collapse(t) == [t[0]] + Collapse(t[1..]);
      } else {
        assert s[a + 1..] == [];
      }
      CollapseLine(s, a + 1, i);
    }
  }

  /** A maximal run of breaks `s[i..j]` collapses to one break. */
  lemma {:induction false} CollapseRun(s: string, i: nat, j: nat)
    requires i < j <= |s|
    requires forall k :: i <= k < j ==> s[k] == '\n'
    requires j < |s| ==> s[j] != '\n'
    ensures Collapse(s[i..]) == "\n" + Collapse(s[j..])
    decreases j - i
  {
    var t := s[i..];
    assert t[1..] == s[i + 1..];
    if i + 1 < j {
      assert t[0] == '\n' && t[1] == '\n';
      CollapseRun(s, i + 1, j);
    } else if j == |s| {
      assert t == "\n";
    } else {
      assert t[0] == '\n' && t[1] != '\n';
    }
  }

  /** A line, then a maximal run of breaks: the run collapses to one break. */
  lemma CollapseAt(s: string, i: nat, j: nat)
    requires i < j <= |s|
    requires forall k :: 0 <= k < i ==> s[k] != '\n'
    requires forall k :: i <= k < j ==> s[k] == '\n'
    requires j < |s| ==> s[j] != '\n'
    ensures Collapse(s) == s[..i] + ("\n" + Collapse(s[j..]))
  {
    assert s[0..] == s && s[0..i] == s[..i];
    CollapseLine(s, 0, i);
    CollapseRun(s, i, j);
  }

  /**
   * For every text, joining the lines with single breaks gives the text with
   * each run of breaks collapsed to one: the cuts fall exactly at the runs.
   */
  lemma {:induction false} JoinSplitLinesAll(s: string)
    ensures Join(SplitLines(s)) == Collapse(s)
    decreases |s|
  {
    var i := FirstBreak(s);
    if i == |s| {
      assert forall c :: c in s ==> c != '\n';
      CollapseNoBreak(s);
    } else {
      var j := RunEnd(s, i);
      JoinSplitLinesAll(s[j..]);
      CollapseAt(s, i, j);
      var lines := SplitLines(s);
      assert lines[0] == s[..i] && lines[1..] == SplitLines(s[j..]);
    }
  }

  /** Where line breaks come singly there is nothing to collapse. */
  lemma {:induction false} CollapseOfNoDoubleBreak(s: string)
    requires NoDoubleBreak(s)
    ensures Collapse(s) == s
    decreases |s|
  {
    if |s| > 1 {
      NoDoubleBreakSuffix(s, 1);
      CollapseOfNoDoubleBreak(s[1..]);
    }
  }

  /** Where line breaks come singly, splitting and joining gives the text back. */
  lemma JoinSplitLines(s: string)
    requires NoDoubleBreak(s)
    ensures Join(SplitLines(s)) == s
  {
    JoinSplitLinesAll(s);
    CollapseOfNoDoubleBreak(s);
  }

  /** Text that neither starts nor ends with a line break splits into non-empty lines. */
  lemma {:induction false} SplitLinesNoEmptyLine(s: string)
    requires |s| > 0 && s[0] != '\n' && s[|s| - 1] != '\n'
    ensures forall k :: 0 <= k < |SplitLines(s)| ==> |SplitLines(s)[k]| > 0
    decreases |s|
  {
    var i := FirstBreak(s);
    if i < |s| {
      var j := RunEnd(s, i);
      assert i <= |s| - 1;
      assert j < |s|;
      SplitLinesNoEmptyLine(s[j..]);
      var lines := SplitLines(s);
      assert lines[1..] == SplitLines(s[j..]);
    }
  }

  /** Field `i` of the card: the `i`-th line, or "Unknown" past the last line. */
  function FieldOrUnknown(lines: seq<string>, i: nat): string {
    if i < |lines| then lines[i] else Unknown
  }

  /** The `card_info` dictionary built from the recognised lines. */
  function CardInfo(lines: seq<string>): (card: map<string, string>)
    ensures card.Keys == {"national_id", "first_name", "last_name", "father_name", "birth_date"}
    ensures forall i :: 0 <= i < |FieldNames| ==> card[FieldNames[i]] == FieldOrUnknown(lines, i)
  {
    map["national_id" := FieldOrUnknown(lines, 0),
        "first_name" := FieldOrUnknown(lines, 1),
        "last_name" := FieldOrUnknown(lines, 2),
        "father_name" := FieldOrUnknown(lines, 3),
        "birth_date" := FieldOrUnknown(lines, 4)]
  }

  /** With five or more lines, the card lists exactly the first five, in order. */
  lemma CardInfoListsFirstLines(lines: seq<string>)
    requires |lines| >= 5
    ensures seq(5, i requires 0 <= i < 5 => CardInfo(lines)[FieldNames[i]]) == lines[..5]
  {
    var card := CardInfo(lines);
    var fields := seq(5, i requires 0 <= i < 5 => card[FieldNames[i]]);
    forall i | 0 <= i < 5 ensures fields[i] == lines[i] {
      assert card[FieldNames[i]] == FieldOrUnknown(lines, i);
    }
  }

  /** The card for recognised text: strip, split at line breaks, map lines to fields. */
  function CardFromText(text: string): map<string, string> {
    CardInfo(SplitLines(Strip(text)))
  }

  /**
   * The national id is never defaulted: there is always a first line. Every
   * field is a line without breaks or "Unknown", and when the text has any
   * visible character each line-derived field is non-empty.
   */
  lemma CardFromTextFields(text: string)
    ensures CardFromText(text)["national_id"] == SplitLines(Strip(text))[0]
    ensures forall i :: 0 <= i < |FieldNames| ==>
      var v := CardFromText(text)[FieldNames[i]];
      v == Unknown || ('\n' !in v && (Strip(text) != "" ==> v != ""))
  {
    var s := Strip(text);
    var lines := SplitLines(s);
    if s != "" {
      SplitLinesNoEmptyLine(s);
    }
    forall i | 0 <= i < |FieldNames|
      ensures var v := CardInfo(lines)[FieldNames[i]];
              v == Unknown || ('\n' !in v && (s != "" ==> v != ""))
    {
    }
  }
}
