/** Which texts the lines of a configuration and its labels are read from: every layout of them, and nothing else. */
module LineFormat {
  import opened Text
  import opened Metadata
  import opened Ir
  import opened Configuration

  predicate Spaces(s: string) {
    forall i :: 0 <= i < |s| ==> IsSpace(s[i])
  }

  predicate Blanks(s: string) {
    forall i :: 0 <= i < |s| ==> s[i] == ' '
  }

  /** Text that trimming leaves as it is. */
  predicate Word(s: string) {
    s == "" || (!IsSpace(s[0]) && !IsSpace(s[|s| - 1]))
  }

  // ---- Trimming ----

  lemma {:induction false} TrimLeftGap(gap: string, s: string)
    requires Spaces(gap) && (s == "" || !IsSpace(s[0]))
    ensures TrimLeft(gap + s) == s
  {
    if gap == "" {
      assert gap + s == s;
    } else {
      assert (gap + s)[1..] == gap[1..] + s;
      TrimLeftGap(gap[1..], s);
    }
  }

  lemma {:induction false} TrimRightGap(s: string, gap: string)
    requires Spaces(gap) && (s == "" || !IsSpace(s[|s| - 1]))
    ensures TrimRight(s + gap) == s
  {
    if gap == "" {
      assert s + gap == s;
    } else {
      assert (s + gap)[..|s + gap| - 1] == s + gap[..|gap| - 1];
      TrimRightGap(s, gap[..|gap| - 1]);
    }
  }

  /** Trimming takes the white space around a word away, and nothing else. */
  lemma TrimWord(before: string, s: string, after: string)
    requires Spaces(before) && Word(s) && Spaces(after)
    ensures Trim(before + (s + after)) == s
  {
    if s == "" {
      assert s + after == after;
      TrimSpaces(before + after);
    } else {
      TrimLeftGap(before, s + after);
      TrimRightGap(s, after);
    }
  }

  lemma {:induction false} TrimSpaces(s: string)
    requires Spaces(s)
    ensures Trim(s) == ""
  {
    assert s + "" == s;
    TrimLeftGap(s, "");
  }

  /** Every text is a word with white space around it. */
  lemma TrimParts(s: string) returns (before: string, after: string)
    ensures Spaces(before) && Spaces(after) && Word(Trim(s)) && s == before + (Trim(s) + after)
  {
    before := TrimLeftParts(s);
    after := TrimRightParts(TrimLeft(s));
    var left := TrimLeft(s);
    if Trim(s) != "" {
      assert left[0] == Trim(s)[0];
    }
  }

  lemma {:induction false} TrimLeftParts(s: string) returns (gap: string)
    ensures Spaces(gap) && s == gap + TrimLeft(s) && (TrimLeft(s) == "" || !IsSpace(TrimLeft(s)[0]))
    decreases |s|
  {
    gap := "";
    if s != "" && IsSpace(s[0]) {
      gap := TrimLeftParts(s[1..]);
      assert s == [s[0]] + s[1..];
      gap := [s[0]] + gap;
    }
  }

  lemma {:induction false} TrimRightParts(s: string) returns (gap: string)
    ensures Spaces(gap) && s == TrimRight(s) + gap && (TrimRight(s) == "" || !IsSpace(TrimRight(s)[|TrimRight(s)| - 1]))
    decreases |s|
  {
    gap := "";
    if s != "" && IsSpace(s[|s| - 1]) {
      gap := TrimRightParts(s[..|s| - 1]);
      assert s == s[..|s| - 1] + [s[|s| - 1]];
      gap := gap + [s[|s| - 1]];
    }
  }

  // ---- Splitting ----

  function Count(s: string, c: char): nat {
    multiset(s)[c]
  }

  lemma CountAround(a: string, c: char, b: string)
    requires c !in a
    ensures Count(a + ([c] + b), c) == 1 + Count(b, c)
  {
    assert c !in multiset(a);
  }

  /** There is one token more than there are separators, up to the limit. */
  lemma {:induction false} SplitLength(s: string, c: char, limit: nat)
    ensures |Split(s, c, limit)| == 1 + if Count(s, c) < limit then Count(s, c) else limit
    decreases limit
  {
    match IndexOf(s, c)
    case None =>
      assert c !in multiset(s);
    case Some(i) =>
      if limit > 0 {
        assert s == s[..i] + ([c] + s[i + 1..]);
        CountAround(s[..i], c, s[i + 1..]);
        SplitLength(s[i + 1..], c, limit - 1);
      }
  }

  /** The text up to the first separator and the text behind it. */
  lemma CutFirst(s: string, c: char) returns (a: string, b: string)
    requires Count(s, c) > 0
    ensures s == a + ([c] + b) && c !in a && Count(b, c) == Count(s, c) - 1
  {
    assert c in s by {
      assert c in multiset(s);
    }
    var i := IndexOf(s, c).value;
    a, b := s[..i], s[i + 1..];
    assert s == a + ([c] + b);
    CountAround(a, c, b);
  }

  lemma Absent(s: string, c: char)
    ensures Count(s, c) == 0 <==> c !in s
  {
    assert c in s <==> c in multiset(s);
  }

  // ---- Lines ----

  /** A line's three fields, and the white space in front of and behind each. */
  datatype Parts = Parts(name: string, param: string, text: string, gaps: seq<string>)

  predicate Field(s: string) {
    Word(s) && ',' !in s
  }

  predicate Fields(p: Parts) {
    |p.gaps| == 6 && Field(p.name) && Field(p.param) && Field(p.text) && forall i :: 0 <= i < 6 ==> Spaces(p.gaps[i])
  }

  function Padded(before: string, s: string, after: string): string {
    before + (s + after)
  }

  function Written(p: Parts): string
    requires |p.gaps| == 6
  {
    Padded(p.gaps[0], p.name, p.gaps[1]) +
    ("," + (Padded(p.gaps[2], p.param, p.gaps[3]) + ("," + Padded(p.gaps[4], p.text, p.gaps[5]))))
  }

  /** Only blanks in front of a `#` make a line a comment. */
  predicate Comment(p: Parts)
    requires |p.gaps| == 6
  {
    Blanks(p.gaps[0]) && p.name != "" && p.name[0] == '#'
  }

  lemma {:induction false} StripBlanks(blanks: string, s: string)
    requires Blanks(blanks) && (s == "" || s[0] != ' ')
    ensures StripSpaces(blanks + s) == s
  {
    if blanks == "" {
      assert blanks + s == s;
    } else {
      assert (blanks + s)[1..] == blanks[1..] + s;
      StripBlanks(blanks[1..], s);
    }
  }

  lemma {:induction false} StripParts(s: string) returns (blanks: string)
    ensures Blanks(blanks) && s == blanks + StripSpaces(s) && (StripSpaces(s) == "" || StripSpaces(s)[0] != ' ')
    decreases |s|
  {
    blanks := "";
    if s != "" && s[0] == ' ' {
      blanks := StripParts(s[1..]);
      assert s == [' '] + s[1..];
      blanks := [' '] + blanks;
    }
  }

  /** A line with a `#` behind any number of blanks is skipped, whatever follows. */
  lemma CommentSkipped(fs: seq<Function>, blanks: string, rest: string)
    requires Blanks(blanks)
    ensures ReadLine(fs, blanks + ("#" + rest)) == Skipped
  {
    StripBlanks(blanks, "#" + rest);
  }

  lemma BlankSkipped(fs: seq<Function>, blanks: string)
    requires Blanks(blanks)
    ensures ReadLine(fs, blanks) == Skipped
  {
    assert blanks + "" == blanks;
    StripBlanks(blanks, "");
  }

  lemma BlanksHaveNoComma(blanks: string, s: string)
    requires Blanks(blanks)
    ensures Count(blanks + s, ',') == Count(s, ',')
  {
    assert ',' !in multiset(blanks);
  }

  /** A line that does not have two commas is skipped. */
  lemma OtherCommasSkipped(fs: seq<Function>, line: string)
    requires Count(line, ',') != 2
    ensures ReadLine(fs, line) == Skipped
  {
    hide Split;
    var blanks := StripParts(line);
    BlanksHaveNoComma(blanks, StripSpaces(line));
    SplitLength(StripSpaces(line), ',', 3);
  }

  /** Every line with two commas has three fields. */
  lemma LineParts(line: string) returns (p: Parts)
    requires Count(line, ',') == 2
    ensures Fields(p) && line == Written(p)
  {
    hide Trim;
    var a, rest := CutFirst(line, ',');
    var b, c := CutFirst(rest, ',');
    Absent(c, ',');
    var a0, a1 := TrimParts(a);
    var b0, b1 := TrimParts(b);
    var c0, c1 := TrimParts(c);
    p := Parts(Trim(a), Trim(b), Trim(c), [a0, a1, b0, b1, c0, c1]);
    NoCommaIn(a, a0, Trim(a), a1);
    NoCommaIn(b, b0, Trim(b), b1);
    NoCommaIn(c, c0, Trim(c), c1);
  }

  lemma NoCommaIn(whole: string, before: string, s: string, after: string)
    requires whole == before + (s + after) && ',' !in whole
    ensures ',' !in s
  {
    forall i | 0 <= i < |s|
      ensures s[i] != ','
    {
      assert whole[|before| + i] in whole;
    }
  }

  lemma PaddedField(before: string, s: string, after: string)
    requires Spaces(before) && Field(s) && Spaces(after)
    ensures ',' !in Padded(before, s, after) && Trim(Padded(before, s, after)) == s
  {
    TrimWord(before, s, after);
  }

  lemma {:induction false} StripInFront(a: string, rest: string)
    ensures StripSpaces(a + ("," + rest)) == StripSpaces(a) + ("," + rest)
  {
    if a == "" {
      assert a + ("," + rest) == "," + rest;
    } else if a[0] == ' ' {
      assert (a + ("," + rest))[1..] == a[1..] + ("," + rest);
      StripInFront(a[1..], rest);
    }
  }

  lemma {:induction false} TrimStripped(a: string)
    ensures Trim(StripSpaces(a)) == Trim(a)
  {
    if a != "" && a[0] == ' ' {
      TrimStripped(a[1..]);
    }
  }

  lemma StrippedComment(p: Parts)
    requires Fields(p)
    ensures StartsWith(StripSpaces(Padded(p.gaps[0], p.name, p.gaps[1])), "#") <==> Comment(p)
  {
    var gap, rest := p.gaps[0], p.name + p.gaps[1];
    var blanks := StripParts(gap);
    var left := StripSpaces(gap);
    if left != "" {
      assert gap[|blanks|] == left[0] && IsSpace(left[0]);
      assert gap + rest == blanks + (left + rest);
      StripBlanks(blanks, left + rest);
    } else {
      assert blanks == gap;
      var more := StripParts(rest);
      StripTwice(gap, rest);
      if p.name == "" {
        assert rest == p.gaps[1];
        if StripSpaces(rest) != "" {
          assert rest[|more|] == StripSpaces(rest)[0];
        }
      }
    }
  }

  lemma {:induction false} StripTwice(blanks: string, s: string)
    requires Blanks(blanks)
    ensures StripSpaces(blanks + s) == StripSpaces(s)
  {
    if blanks == "" {
      assert blanks + s == s;
    } else {
      assert (blanks + s)[1..] == blanks[1..] + s;
      StripTwice(blanks[1..], s);
    }
  }

  lemma StrippedHasNoComma(a: string)
    requires ',' !in a
    ensures ',' !in StripSpaces(a)
  {
    var blanks := StripParts(a);
    NoCommaIn(a, blanks, StripSpaces(a), "");
  }

  /** A line is read as its fields, unless it is a comment. */
  lemma LineTokens(fs: seq<Function>, p: Parts)
    requires Fields(p)
    ensures ReadLine(fs, Written(p)) ==
            if Comment(p) || p.name == "" || Find(fs, p.name).None? then Skipped else ReadParam(p.name, p.param, p.text)
  {
    hide Split;
    hide Trim;
    hide StripSpaces;
    hide Find;
    hide ReadParam;
    hide Field;
    hide Comment;
    var a, b, c := Padded(p.gaps[0], p.name, p.gaps[1]), Padded(p.gaps[2], p.param, p.gaps[3]),
      Padded(p.gaps[4], p.text, p.gaps[5]);
    PaddedField(p.gaps[0], p.name, p.gaps[1]);
    PaddedField(p.gaps[2], p.param, p.gaps[3]);
    PaddedField(p.gaps[4], p.text, p.gaps[5]);
    StripInFront(a, b + ("," + c));
    TrimStripped(a);
    StrippedHasNoComma(a);
    ThreeTokens(StripSpaces(a), b, c);
    StrippedComment(p);
    HashInFront(StripSpaces(a), b + ("," + c));
  }

  lemma HashInFront(a: string, rest: string)
    ensures StartsWith(a + ("," + rest), "#") <==> StartsWith(a, "#")
    ensures a + ("," + rest) != ""
  {
    var s := a + ("," + rest);
    assert s[0] == if a != "" then a[0] else ',';
    assert s[..1] == [s[0]];
    assert a != "" ==> a[..1] == [a[0]];
  }

  // ---- What the fields mean ----

  /** The part of a text in front of its first NUL. */
  predicate InFrontOfNul(c: string, s: string) {
    c <= s && 0 as char !in c && (|c| < |s| ==> s[|c|] == 0 as char)
  }

  lemma NulEnds(c: string, s: string)
    requires InFrontOfNul(c, s)
    ensures UpToNul(s) == c
  {
    assert s[..|c|] == c;
    if |c| < |s| {
      FirstIndex(s, 0 as char, |c|);
    }
  }

  predicate Digits(s: string) {
    forall i :: 0 <= i < |s| ==> IsDigit(s[i])
  }

  lemma {:induction false} DigitsHaveValue(s: string)
    ensures DigitsValue(s).Some? <==> Digits(s)
  {
    if s != "" {
      DigitsHaveValue(s[..|s| - 1]);
    }
  }

  lemma {:induction false} LeadingZeros(zeros: string, k: nat)
    requires forall i :: 0 <= i < |zeros| ==> zeros[i] == '0'
    ensures DigitsValue(zeros + Decimal(k)) == Some(k)
    decreases k
  {
    var s := zeros + Decimal(k);
    assert s[|s| - 1] == DigitChar(k % 10);
    if k < 10 {
      assert s[..|s| - 1] == zeros;
      ZerosAreZero(zeros);
    } else {
      assert s[..|s| - 1] == zeros + Decimal(k / 10);
      LeadingZeros(zeros, k / 10);
    }
  }

  lemma {:induction false} ZerosAreZero(zeros: string)
    requires forall i :: 0 <= i < |zeros| ==> zeros[i] == '0'
    ensures DigitsValue(zeros) == Some(0)
  {
    if zeros != "" {
      ZerosAreZero(zeros[..|zeros| - 1]);
    }
  }

  /** The line gives no parameter: none is there, it is not a number though it starts with a digit, or a text is too long. */
  predicate NoParameter(p: Parts) {
    p.param == "" || |p.text| >= 256 ||
    if IsDigit(p.param[0]) then !Digits(p.param) else |p.param| >= 256
  }

  /** Which lines are skipped, and which enter their function without a parameter. */
  lemma LineEffect(fs: seq<Function>, p: Parts)
    requires Fields(p)
    ensures ReadLine(fs, Written(p)) == Skipped <==> Comment(p) || p.name == "" || Find(fs, p.name).None?
    ensures ReadLine(fs, Written(p)) == Enters(p.name) <==>
            !(Comment(p) || p.name == "" || Find(fs, p.name).None?) && NoParameter(p)
    ensures ReadLine(fs, Written(p)).Skipped? || ReadLine(fs, Written(p)).name == p.name
  {
    hide Find;
    hide Written;
    hide ReadLine;
    hide Comment;
    LineTokens(fs, p);
    DigitsHaveValue(p.param);
  }

  /** Any white space may stand around the fields, and the number may have leading zeros. */
  lemma NumberedLine(fs: seq<Function>, p: Parts, zeros: string, k: nat, description: string)
    requires Fields(p) && !Comment(p) && p.name != "" && Find(fs, p.name).Some? && !NoParameter(p)
    requires p.param == zeros + Decimal(k) && forall i :: 0 <= i < |zeros| ==> zeros[i] == '0'
    requires InFrontOfNul(description, p.text)
    ensures ReadLine(fs, Written(p)) == Adds(p.name, Indexed(k, description))
  {
    hide Find;
    hide Written;
    hide ReadLine;
    hide Comment;
    hide Decimal;
    LineTokens(fs, p);
    LeadingZeros(zeros, k);
    DecimalDigits(k);
    DigitsHaveValue(p.param);
    NulEnds(description, p.text);
    assert IsDigit(p.param[0]) by {
      assert zeros == "" ==> p.param == Decimal(k);
    }
  }

  /** A parameter that does not start with a digit is a name. */
  lemma NamedLine(fs: seq<Function>, p: Parts, key: string, description: string)
    requires Fields(p) && !Comment(p) && p.name != "" && Find(fs, p.name).Some? && !NoParameter(p)
    requires !IsDigit(p.param[0]) && InFrontOfNul(key, p.param) && InFrontOfNul(description, p.text)
    ensures ReadLine(fs, Written(p)) == Adds(p.name, Named(key, description))
  {
    hide Find;
    hide Written;
    hide ReadLine;
    hide Comment;
    LineTokens(fs, p);
    NulEnds(key, p.param);
    NulEnds(description, p.text);
  }

  // ---- Labels ----

  function KindName(isInput: bool): string {
    if isInput then "input" else "output"
  }

  predicate LabelParts(text: string, isInput: bool, gaps: seq<string>) {
    |gaps| == 4 && (forall i :: 0 <= i < 4 ==> Spaces(gaps[i])) &&
    text == Padded(gaps[0], TYPE_KEY, gaps[1]) + (":" + Padded(gaps[2], KindName(isInput), gaps[3]))
  }

  lemma LabelWords(isInput: bool)
    ensures Word(TYPE_KEY) && ':' !in TYPE_KEY && Word(KindName(isInput)) && ':' !in KindName(isInput)
    ensures KindName(true) != KindName(false)
  {
    assert |KindName(true)| != |KindName(false)|;
  }

  lemma SpacesHaveNoColon(before: string, s: string, after: string)
    requires Spaces(before) && Spaces(after) && ':' !in s
    ensures ':' !in Padded(before, s, after)
  {
  }

  /** A label gives a type exactly if it is the key, one colon and a kind, with any white space around both words. */
  lemma LabelTypeExact(text: string, isInput: bool)
    ensures LabelType(Label(text)) == Some(isInput) <==> exists gaps :: LabelParts(text, isInput, gaps)
  {
    hide Split;
    hide Trim;
    hide Padded;
    hide Spaces;
    hide Word;
    LabelWords(true);
    LabelWords(false);
    if LabelType(Label(text)) == Some(isInput) {
      var gaps := LabelGaps(text, isInput);
    }
    if gaps :| LabelParts(text, isInput, gaps) {
      var key, kind := Padded(gaps[0], TYPE_KEY, gaps[1]), Padded(gaps[2], KindName(isInput), gaps[3]);
      SpacesHaveNoColon(gaps[0], TYPE_KEY, gaps[1]);
      SpacesHaveNoColon(gaps[2], KindName(isInput), gaps[3]);
      CutOnce(key, kind, ':', 2);
      Uncut(kind, ':', 1);
      PaddedWord(gaps[0], TYPE_KEY, gaps[1]);
      PaddedWord(gaps[2], KindName(isInput), gaps[3]);
    }
  }

  lemma PaddedWord(before: string, s: string, after: string)
    requires Spaces(before) && Word(s) && Spaces(after)
    ensures Trim(Padded(before, s, after)) == s
  {
    TrimWord(before, s, after);
  }

  lemma LabelTokens(text: string, isInput: bool)
    requires LabelType(Label(text)) == Some(isInput)
    ensures var tokens := Split(text, ':', 2);
            |tokens| == 2 && Trim(tokens[0]) == TYPE_KEY && Trim(tokens[1]) == KindName(isInput)
  {
    hide Trim;
    hide Split;
  }

  lemma LabelGaps(text: string, isInput: bool) returns (gaps: seq<string>)
    requires LabelType(Label(text)) == Some(isInput)
    ensures LabelParts(text, isInput, gaps)
  {
    hide Trim;
    hide Split;
    hide LabelType;
    hide Spaces;
    hide Word;
    LabelTokens(text, isInput);
    SplitLength(text, ':', 2);
    var a, b := CutFirst(text, ':');
    Absent(b, ':');
    CutOnce(a, b, ':', 2);
    Uncut(b, ':', 1);
    var a0, a1 := TrimParts(a);
    var b0, b1 := TrimParts(b);
    gaps := LabelAround(a, b, isInput, a0, a1, b0, b1);
    assert text == a + (":" + b);
  }

  lemma LabelAround(a: string, b: string, isInput: bool, a0: string, a1: string, b0: string, b1: string)
      returns (gaps: seq<string>)
    requires Spaces(a0) && Spaces(a1) && Spaces(b0) && Spaces(b1)
    requires a == a0 + (TYPE_KEY + a1) && b == b0 + (KindName(isInput) + b1)
    ensures LabelParts(a + (":" + b), isInput, gaps)
  {
    hide Spaces;
    hide KindName;
    gaps := [a0, a1, b0, b1];
  }
}
