/** Loading the configuration: from lines of text to the labels of each function's parameters. */
module Configuration {
  import opened Text
  import opened Ir
  import opened CallSiteMetadata

  const STR_ARG_MAX: nat := 256

  /** One accepted line: a parameter given by its number, 0 being the result, or by its name. */
  datatype Param = Indexed(index: nat, description: string) | Named(name: string, description: string)

  /** What a line does to the table: it may enter a function without adding a parameter to it. */
  datatype Effect = Skipped | Enters(name: string) | Adds(name: string, param: Param)

  // ---- C strings ----

  /** A C string ends at the first NUL. */
  function UpToNul(s: string): string {
    match IndexOf(s, 0 as char) case None => s case Some(i) => s[..i]
  }

  lemma {:induction false} FirstIndex(s: string, c: char, i: nat)
    requires i < |s| && s[i] == c && c !in s[..i]
    ensures IndexOf(s, c) == Some(i)
  {
    if i > 0 {
      assert s[0] in s[..i];
      assert s[1..][..i - 1] == s[..i][1..];
      FirstIndex(s[1..], c, i - 1);
    }
  }

  /** `copy_str_arg`: refuses what does not fit together with its terminator, and never writes behind the buffer. */
  method CopyStrArg(dst: array<char>, src: string) returns (ok: bool)
    requires dst.Length == STR_ARG_MAX
    modifies dst
    ensures ok <==> |src| < STR_ARG_MAX
    ensures ok ==> UpToNul(dst[..]) == UpToNul(src)
  {
    var tempI := 0;
    while tempI < |src|
      invariant tempI <= |src| && tempI < STR_ARG_MAX && dst[..tempI] == src[..tempI]
    {
      dst[tempI] := src[tempI];
      if tempI >= STR_ARG_MAX - 1 {
        return false;
      }
      assert dst[..tempI + 1] == src[..tempI] + [src[tempI]];
      tempI := tempI + 1;
    }
    dst[tempI] := 0 as char;
    TerminatedCopy(dst[..], src);
    return true;
  }

  lemma TerminatedCopy(dst: string, src: string)
    requires |src| < |dst| && dst[..|src|] == src && dst[|src|] == 0 as char
    ensures UpToNul(dst) == UpToNul(src)
  {
    match IndexOf(src, 0 as char)
    case None =>
      FirstIndex(dst, 0 as char, |src|);
    case Some(i) =>
      assert dst[..i] == src[..i];
      assert dst[i] == src[i];
      FirstIndex(dst, 0 as char, i);
  }

  // ---- One line ----

  function StripSpaces(s: string): string {
    if s != [] && s[0] == ' ' then StripSpaces(s[1..]) else s
  }

  function ReadParam(name: string, param: string, description: string): Effect {
    if param == "" then Enters(name)
    else if IsDigit(param[0]) then
      match DigitsValue(param)
      case None => Enters(name)
      case Some(k) =>
        if |description| < STR_ARG_MAX then Adds(name, Indexed(k, UpToNul(description))) else Enters(name)
    else if |param| < STR_ARG_MAX && |description| < STR_ARG_MAX then
      Adds(name, Named(UpToNul(param), UpToNul(description)))
    else Enters(name)
  }

  /** The meaning of a line for a module with these functions. */
  function ReadLine(fs: seq<Function>, line: string): Effect {
    var text := StripSpaces(line);
    if StartsWith(text, "#") || text == "" then Skipped
    else
      var tokens := Split(text, ',', 3);
      if |tokens| != 3 then Skipped
      else
        var name := Trim(tokens[0]);
        if name == "" || Find(fs, name).None? then Skipped
        else ReadParam(name, Trim(tokens[1]), Trim(tokens[2]))
  }

  // ---- Lines in the documented format ----

  /** Text a line can carry between its commas and hand back unchanged. */
  predicate Plain(s: string) {
    s != "" && !IsSpace(s[0]) && !IsSpace(s[|s| - 1]) && ',' !in s && 0 as char !in s
  }

  function LineText(name: string, k: nat, description: string): string {
    name + ("," + (" " + Decimal(k) + ("," + (" " + description))))
  }

  lemma {:induction false} DecimalDigits(k: nat)
    ensures Decimal(k) != "" && forall i :: 0 <= i < |Decimal(k)| ==> IsDigit(Decimal(k)[i])
  {
    if k >= 10 {
      DecimalDigits(k / 10);
    }
  }

  lemma CutOnce(a: string, b: string, separator: char, limit: nat)
    requires separator !in a && limit > 0
    ensures Split(a + ([separator] + b), separator, limit) == [a] + Split(b, separator, limit - 1)
  {
    var s := a + ([separator] + b);
    assert s[..|a|] == a && s[|a| + 1..] == b;
    FirstIndex(s, separator, |a|);
  }

  lemma Uncut(s: string, separator: char, limit: nat)
    requires separator !in s
    ensures Split(s, separator, limit) == [s]
  {
  }

  lemma ThreeTokens(a: string, b: string, c: string)
    requires ',' !in a && ',' !in b && ',' !in c
    ensures Split(a + ("," + (b + ("," + c))), ',', 3) == [a, b, c]
  {
    hide Split;
    CutOnce(a, b + ("," + c), ',', 3);
    CutOnce(b, c, ',', 2);
    Uncut(c, ',', 1);
  }

  lemma TrimPlain(s: string)
    requires s != "" && !IsSpace(s[0]) && !IsSpace(s[|s| - 1])
    ensures Trim(s) == s && Trim(" " + s) == s
  {
    assert (" " + s)[1..] == s;
  }

  /** A line in the documented format adds the parameter it describes to the function it names. */
  lemma LineRoundTrip(fs: seq<Function>, name: string, k: nat, description: string)
    requires Plain(name) && name[0] != '#' && Find(fs, name).Some? && Plain(description) && |description| < STR_ARG_MAX
    ensures ReadLine(fs, LineText(name, k, description)) == Adds(name, Indexed(k, description))
  {
    hide Decimal;
    hide Find;
    hide Split;
    hide Trim;
    hide DigitsValue;
    var line, digits := LineText(name, k, description), Decimal(k);
    DecimalDigits(k);
    assert line[0] == name[0];
    ThreeTokens(name, " " + digits, " " + description);
    TrimPlain(name);
    TrimPlain(digits);
    TrimPlain(description);
    ParseOfDecimal(k);
  }

  // ---- The whole file, as filters over its lines ----

  predicate EntersFunction(e: Effect, name: string) {
    !e.Skipped? && e.name == name
  }

  predicate Configured(fs: seq<Function>, lines: seq<string>, name: string) {
    exists i :: 0 <= i < |lines| && EntersFunction(ReadLine(fs, lines[i]), name)
  }

  function ParamsOf(fs: seq<Function>, lines: seq<string>, name: string): seq<Param> {
    if lines == [] then []
    else
      var e := ReadLine(fs, lines[|lines| - 1]);
      var before := ParamsOf(fs, lines[..|lines| - 1], name);
      if e.Adds? && e.name == name then before + [e.param] else before
  }

  /** The descriptions of the lines that name this function and this parameter, in file order. */
  function LabelsFor(fs: seq<Function>, lines: seq<string>, name: string, k: nat): seq<string> {
    if lines == [] then []
    else
      var e := ReadLine(fs, lines[|lines| - 1]);
      var before := LabelsFor(fs, lines[..|lines| - 1], name, k);
      if e.Adds? && e.name == name && e.param.Indexed? && e.param.index == k then before + [e.param.description]
      else before
  }

  /** The line adds this parameter to the function. */
  predicate AddsParam(e: Effect, name: string, p: Param) {
    e == Adds(name, p)
  }

  /** The lines that add parameters to the function are those at `js`, which ascend, and they add these parameters. */
  ghost predicate InFileOrder(fs: seq<Function>, lines: seq<string>, name: string, params: seq<Param>, js: seq<nat>) {
    && |js| == |params| && (forall a, b :: 0 <= a < b < |js| ==> js[a] < js[b])
    && (forall a :: 0 <= a < |js| ==> js[a] < |lines| && AddsParam(ReadLine(fs, lines[js[a]]), name, params[a]))
    && forall j :: 0 <= j < |lines| && ReadLine(fs, lines[j]).Adds? && ReadLine(fs, lines[j]).name == name ==> j in js
  }

  /** A function's parameters are those its lines add, in file order, one for each such line. */
  lemma {:induction false} ParamsInOrder(fs: seq<Function>, lines: seq<string>, name: string) returns (js: seq<nat>)
    ensures InFileOrder(fs, lines, name, ParamsOf(fs, lines, name), js)
  {
    hide ReadLine;
    js := [];
    if lines != [] {
      var n := |lines| - 1;
      js := ParamsInOrder(fs, lines[..n], name);
      var before, e := js, ReadLine(fs, lines[n]);
      if e.Adds? && e.name == name {
        js := before + [n];
        assert js[|before|] == n;
      }
      forall j | 0 <= j < |lines| && ReadLine(fs, lines[j]).Adds? && ReadLine(fs, lines[j]).name == name
        ensures j in js
      {
        if j < n {
          assert ReadLine(fs, lines[..n][j]).Adds?;
          assert j in before;
        }
      }
    }
  }

  function ByIndex(params: seq<Param>, k: nat): seq<string> {
    if params == [] then []
    else
      var last := params[|params| - 1];
      var before := ByIndex(params[..|params| - 1], k);
      if last.Indexed? && last.index == k then before + [last.description] else before
  }

  /** Grouping by function first and by parameter afterwards is one filter over the lines. */
  lemma {:induction false} GroupingIsFiltering(fs: seq<Function>, lines: seq<string>, name: string, k: nat)
    ensures ByIndex(ParamsOf(fs, lines, name), k) == LabelsFor(fs, lines, name, k)
  {
    hide ReadLine;
    if lines != [] {
      var init := lines[..|lines| - 1];
      GroupingIsFiltering(fs, init, name, k);
      var e := ReadLine(fs, lines[|lines| - 1]);
      if e.Adds? {
        ByIndexSnoc(ParamsOf(fs, init, name), e.param, k);
      }
    }
  }

  lemma ByIndexSnoc(params: seq<Param>, p: Param, k: nat)
    ensures ByIndex(params + [p], k) ==
            if p.Indexed? && p.index == k then ByIndex(params, k) + [p.description] else ByIndex(params, k)
  {
    assert (params + [p])[..|params|] == params;
  }

  // ---- The table ----

  type Table = map<string, seq<Param>>

  ghost predicate Holds(table: Table, fs: seq<Function>, lines: seq<string>) {
    forall name :: (name in table <==> Configured(fs, lines, name)) &&
                   (name in table ==> table[name] == ParamsOf(fs, lines, name))
  }

  lemma ConfiguredSnoc(fs: seq<Function>, lines: seq<string>, i: nat, name: string)
    requires i < |lines|
    ensures Configured(fs, lines[..i + 1], name) <==>
            Configured(fs, lines[..i], name) || EntersFunction(ReadLine(fs, lines[i]), name)
  {
    hide ReadLine;
    var longer := lines[..i + 1];
    if EntersFunction(ReadLine(fs, lines[i]), name) {
      assert EntersFunction(ReadLine(fs, longer[i]), name);
    }
    if Configured(fs, lines[..i], name) {
      var j :| 0 <= j < i && EntersFunction(ReadLine(fs, lines[..i][j]), name);
      assert EntersFunction(ReadLine(fs, longer[j]), name);
    }
    if Configured(fs, longer, name) {
      var j :| 0 <= j < i + 1 && EntersFunction(ReadLine(fs, longer[j]), name);
      if j < i {
        assert EntersFunction(ReadLine(fs, lines[..i][j]), name);
      }
    }
  }

  /** A function without an entry has no parameters. */
  lemma {:induction false} NoParams(fs: seq<Function>, lines: seq<string>, name: string)
    ensures !Configured(fs, lines, name) ==> ParamsOf(fs, lines, name) == []
  {
    hide ReadLine;
    if lines != [] {
      var init := lines[..|lines| - 1];
      NoParams(fs, init, name);
      assert lines[..|lines| - 1 + 1] == lines;
      ConfiguredSnoc(fs, lines, |lines| - 1, name);
    }
  }

  function Entered(table: Table, name: string): Table {
    if name in table then table else table[name := []]
  }

  /** The table after one more line. */
  function Updated(table: Table, e: Effect): Table {
    match e
    case Skipped => table
    case Enters(name) => Entered(table, name)
    case Adds(name, param) => var t := Entered(table, name); t[name := t[name] + [param]]
  }

  lemma HoldsNext(table: Table, fs: seq<Function>, lines: seq<string>, i: nat)
    requires i < |lines| && Holds(table, fs, lines[..i])
    ensures Holds(Updated(table, ReadLine(fs, lines[i])), fs, lines[..i + 1])
  {
    hide ReadLine;
    var e := ReadLine(fs, lines[i]);
    var after := Updated(table, e);
    assert lines[..i + 1][..i] == lines[..i];
    forall name
      ensures name in after <==> Configured(fs, lines[..i + 1], name)
      ensures name in after ==> after[name] == ParamsOf(fs, lines[..i + 1], name)
    {
      ConfiguredSnoc(fs, lines, i, name);
      NoParams(fs, lines[..i], name);
    }
  }

  /** `loadInputFile`'s loop body for one line, with the copies it makes. */
  method LoadLine(fs: seq<Function>, line: string, table: Table) returns (after: Table)
    ensures after == Updated(table, ReadLine(fs, line))
  {
    hide Split;
    hide Trim;
    hide UpToNul;
    after := table;
    var text := StripSpaces(line);
    if StartsWith(text, "#") || text == "" {
      return;
    }
    var tokens := Split(text, ',', 3);
    if |tokens| == 3 {
      var name := Trim(tokens[0]);
      if name == "" || Find(fs, name).None? {
        return;
      }
      if name !in after {
        after := after[name := []];
      }
      var param := Trim(tokens[1]);
      if param == "" {
        return;
      }
      var description := Trim(tokens[2]);
      var buffer := new char[STR_ARG_MAX];
      var isIndex := IsDigit(param[0]);
      var key := "";
      if isIndex {
        if DigitsValue(param).None? {
          return;
        }
      } else {
        var ok := CopyStrArg(buffer, param);
        if !ok {
          return;
        }
        key := UpToNul(buffer[..]);
      }
      var ok := CopyStrArg(buffer, description);
      if !ok {
        return;
      }
      var d := UpToNul(buffer[..]);
      var info := if isIndex then Indexed(DigitsValue(param).value, d) else Named(key, d);
      after := after[name := after[name] + [info]];
    }
  }

  /** `loadInputFile`: the table holds exactly what the lines say. */
  method LoadInput(fs: seq<Function>, lines: seq<string>) returns (table: Table)
    ensures Holds(table, fs, lines)
  {
    hide ReadLine;
    table := map[];
    for i := 0 to |lines|
      invariant Holds(table, fs, lines[..i])
    {
      HoldsNext(table, fs, lines, i);
      table := LoadLine(fs, lines[i], table);
    }
    assert lines[..|lines|] == lines;
  }

  // ---- One call site's labels ----

  /** The keys under which a call with `count` arguments gets labels. */
  function KeysOf(params: seq<Param>, count: nat): set<string> {
    set k: nat | k <= count && ByIndex(params, k) != [] :: Decimal(k)
  }

  /** Each configured parameter the call has, with its labels in file order. */
  function LabelMap(params: seq<Param>, count: nat): Labels {
    map key | key in KeysOf(params, count) :: ByIndex(params, KeyIndex(key))
  }

  lemma KeyOfDecimal(k: nat)
    ensures KeyIndex(Decimal(k)) == k
  {
    ParseOfDecimal(k);
  }

  /** The keys are the decimal forms of the configured parameters the call has. */
  lemma LabelsAt(params: seq<Param>, count: nat, key: string)
    ensures var k := KeyIndex(key);
            && (key in LabelMap(params, count) <==> key == Decimal(k) && k <= count && ByIndex(params, k) != [])
            && (key in LabelMap(params, count) ==> LabelMap(params, count)[key] == ByIndex(params, k))
  {
    if key in LabelMap(params, count) {
      var j: nat :| j <= count && ByIndex(params, j) != [] && key == Decimal(j);
      KeyOfDecimal(j);
    }
  }

  function Appended(m: Labels, key: string, text: string): Labels {
    m[key := (if key in m then m[key] else []) + [text]]
  }

  lemma LabelMapNext(params: seq<Param>, count: nat, i: nat)
    requires i < |params|
    ensures var before, p := LabelMap(params[..i], count), params[i];
            LabelMap(params[..i + 1], count) ==
            if p.Indexed? && p.index <= count then Appended(before, Decimal(p.index), p.description) else before
  {
    hide LabelMap;
    hide ByIndex;
    hide Decimal;
    hide KeyIndex;
    var before, after, p := LabelMap(params[..i], count), LabelMap(params[..i + 1], count), params[i];
    assert params[..i + 1] == params[..i] + [p];
    forall key
      ensures key in after <==> key in before || (p.Indexed? && p.index <= count && key == Decimal(p.index))
      ensures key in after ==>
                var earlier := if key in before then before[key] else [];
                after[key] == if p.Indexed? && p.index <= count && key == Decimal(p.index) then earlier + [p.description] else earlier
    {
      LabelsAt(params[..i], count, key);
      LabelsAt(params[..i + 1], count, key);
      ByIndexSnoc(params[..i], p, KeyIndex(key));
      if p.Indexed? {
        KeyOfDecimal(p.index);
      }
    }
  }

  /** `conditionalUpdate`'s loop over a function's parameters; a parameter given by name is not looked up. */
  method Regroup(params: seq<Param>, count: nat) returns (paramToLabels: Labels)
    ensures paramToLabels == LabelMap(params, count)
  {
    hide LabelMap;
    hide Decimal;
    paramToLabels := map[];
    NoLabels(count);
    for i := 0 to |params|
      invariant paramToLabels == LabelMap(params[..i], count)
    {
      LabelMapNext(params, count, i);
      var info := params[i];
      if info.Indexed? {
        if info.index - 1 < count {
          var paramKey := Decimal(info.index);
          if paramKey !in paramToLabels {
            paramToLabels := paramToLabels[paramKey := []];
          }
          paramToLabels := paramToLabels[paramKey := paramToLabels[paramKey] + [info.description]];
        }
      }
    }
    assert params[..|params|] == params;
  }

  lemma NoLabels(count: nat)
    ensures LabelMap([], count) == map[]
  {
  }
}
