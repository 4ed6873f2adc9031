/** A program with a source and a sink, configured as the first regression test configures them. */
module Example {
  import opened Text
  import opened Metadata
  import opened CallSiteMetadata
  import opened Configuration
  import opened Ir
  import opened Erasure
  import opened AddLogging
  import opened WrapSinks
  import opened AddMetadata
  import opened NumberedCalls
  import opened Instrumentation
  import opened Pipeline
  import opened FromSource
  import opened ClamProv
  import opened EarlyCasts
  import opened AcceptedModules
  import opened TagResults

  const SIG := Signature([Other, BytePointer, Other], false, Other)
  const READ := "read"
  const WRITE := "write"

  function CallTo(name: string, n: nat): Instr {
    Call(Some(Prog(n)), Direct(name, SIG), [Number(0), Argument(0, BytePointer), Number(1)], None, None)
  }

  /** `main` reads into a buffer and writes the buffer out. */
  function Code(): Block {
    [CallTo(READ, 0), CallTo(WRITE, 1), Return(Some(Number(0)))]
  }

  function Source(): seq<Function> {
    [Function(READ, SIG, []), Function(WRITE, SIG, []), Function(MAIN, Signature([BytePointer], false, Other), [Code()])]
  }

  function TypeLabel(kind: string): string {
    TYPE_KEY + (":" + kind)
  }

  function Lines(): seq<string> {
    [LineText(READ, 2, TypeLabel("input")), LineText(WRITE, 2, TypeLabel("output"))]
  }

  lemma Names()
    ensures READ != WRITE && READ != MAIN && WRITE != MAIN
    ensures !IsIntrinsic(READ) && !IsIntrinsic(WRITE) && !IsLogger(READ) && !IsLogger(WRITE)
    ensures !IsWrapperName(READ) && !IsWrapperName(WRITE) && !IsWrapperName(MAIN)
  {
    assert READ[0] != MAIN[0] && |READ| != |WRITE|;
    assert |READ| < |ADD_TAG| && |READ| < |SET_MODIFIED| && |READ| < |LOG_INIT| && |READ| < |LOG_BUFFER|;
    assert |WRITE| < |ADD_TAG| && |WRITE| < |SET_MODIFIED| && |WRITE| < |LOG_INIT| && |WRITE| < |LOG_BUFFER|;
    assert |READ| < |LOG_SHUTDOWN| && |WRITE| < |LOG_SHUTDOWN|;
    assert |READ| < |WRAPPER_PREFIX| && |WRITE| < |WRAPPER_PREFIX| && |MAIN| < |WRAPPER_PREFIX|;
  }

  lemma Found()
    ensures Find(Source(), READ) == Some(Source()[0]) && Find(Source(), WRITE) == Some(Source()[1])
    ensures Find(Source(), MAIN) == Some(Source()[2])
  {
    hide Code;
    Names();
    var fs := Source();
    assert fs[1..][0] == fs[1] && fs[1..][1..][0] == fs[2];
  }

  lemma LabelKind(kind: string)
    requires kind == "input" || kind == "output"
    ensures Plain(TypeLabel(kind)) && |TypeLabel(kind)| < STR_ARG_MAX
    ensures LabelType(Label(TypeLabel(kind))) == Some(kind == "input")
  {
    hide LabelType;
    hide TypeLabel;
    PlainLabel(kind);
    ReadLabel(kind);
  }

  lemma PlainLabel(kind: string)
    requires kind == "input" || kind == "output"
    ensures Plain(TypeLabel(kind)) && |TypeLabel(kind)| < STR_ARG_MAX
  {
  }

  lemma ReadLabel(kind: string)
    requires kind == "input" || kind == "output"
    ensures LabelType(Label(TypeLabel(kind))) == Some(kind == "input")
  {
    hide Split;
    hide Trim;
    CutOnce(TYPE_KEY, kind, ':', 2);
    Uncut(kind, ':', 1);
    TrimPlain(TYPE_KEY);
    TrimPlain(kind);
    assert |"input"| != |"output"|;
  }

  lemma LinesMean()
    ensures ReadLine(Source(), Lines()[0]) == Adds(READ, Indexed(2, TypeLabel("input")))
    ensures ReadLine(Source(), Lines()[1]) == Adds(WRITE, Indexed(2, TypeLabel("output")))
  {
    hide ReadLine;
    hide LineText;
    hide TypeLabel;
    hide Source;
    Found();
    LabelKind("input");
    LabelKind("output");
    PlainNames();
    LineRoundTrip(Source(), READ, 2, TypeLabel("input"));
    LineRoundTrip(Source(), WRITE, 2, TypeLabel("output"));
  }

  lemma PlainNames()
    ensures Plain(READ) && Plain(WRITE) && READ[0] != '#' && WRITE[0] != '#'
  {
  }

  lemma LabelsAre(name: string, k: nat)
    requires name == READ || name == WRITE
    ensures LabelsFor(Source(), Lines(), name, k) ==
            if k != 2 then [] else [TypeLabel(if name == READ then "input" else "output")]
  {
    hide ReadLine;
    hide LineText;
    hide TypeLabel;
    hide Source;
    LinesMean();
    Names();
    var ls := Lines();
    assert ls[..1][..0] == [] && ls[..1] == [ls[0]];
    assert LabelsFor(Source(), [], name, k) == [];
    assert LabelsFor(Source(), ls[..1], name, k) == if k == 2 && name == READ then [TypeLabel("input")] else [];
  }

  /** The second argument of `read` is a source and that of `write` a sink; nothing else is either. */
  lemma Kinds(name: string, k: nat)
    requires name == READ || name == WRITE
    ensures Kind(Source(), Lines(), name, k) == if k != 2 then None else Some(name == READ)
  {
    hide LabelsFor;
    hide LabelType;
    hide TypeLabel;
    hide Source;
    hide Lines;
    LabelsAre(name, k);
    LabelKind("input");
    LabelKind("output");
    Names();
    var labels := Texts(LabelsFor(Source(), Lines(), name, k));
    assert k == 2 ==> LabelType(labels[0]) == Some(name == READ);
  }

  lemma CallFits(table: Table, name: string, n: nat)
    requires name == READ || name == WRITE
    ensures SourceInstr(Source(), Lines(), table, CallTo(name, n)) && MainInstr(MAIN, 0, CallTo(name, n))
  {
    hide Kind;
    hide Source;
    hide Lines;
    Names();
    Found();
    SourceSigs();
    CallConfigured(name, n);
  }

  lemma CallConfigured(name: string, n: nat)
    requires name == READ || name == WRITE
    ensures WellConfigured(Source(), Lines(), CallTo(name, n))
  {
    hide Kind;
    hide Source;
    hide Lines;
    forall k: nat
      ensures Kind(Source(), Lines(), name, k) == if k != 2 then None else Some(name == READ)
    {
      Kinds(name, k);
    }
  }

  lemma SourceSigs()
    ensures |Source()| == 3 && Source()[0].sig == SIG && Source()[1].sig == SIG
  {
  }

  lemma ExampleSource(table: Table)
    ensures SourceProgram(Source(), Lines(), table)
  {
    hide Lines;
    hide SourceInstr;
    hide CallTo;
    Names();
    CallFits(table, READ, 0);
    CallFits(table, WRITE, 1);
    ReturnFits(table);
  }

  lemma ExampleMain()
    ensures SourceMain(Source())
  {
    hide Lines;
    hide SourceInstr;
    hide MainInstr;
    hide CallTo;
    Names();
    Found();
    CallFits(map[], READ, 0);
    CallFits(map[], WRITE, 1);
    ReturnFits(map[]);
  }

  /** The program and its configuration suit the tool: the theorems about it speak of this program, too. */
  lemma ExampleSuits()
    ensures Suits(Source(), Lines()) && SourceMain(Source())
  {
    hide Lines;
    hide Source;
    hide SourceProgram;
    hide SourceMain;
    hide Holds;
    ExampleMain();
    forall table | Holds(table, Source(), Lines())
      ensures SourceProgram(Source(), Lines(), table) && IsInt64(CountAll(table, Source()))
    {
      ExampleSource(table);
      FewCalls(table);
    }
  }

  lemma ReturnFits(table: Table)
    ensures SourceInstr(Source(), Lines(), table, Return(Some(Number(0))))
    ensures MainInstr(MAIN, 0, Return(Some(Number(0))))
  {
  }

  lemma FewCalls(table: Table)
    ensures CountAll(table, Source()) <= 3
  {
    hide Code;
    var fs, b := Source(), Code();
    CountSmall(table, b);
    assert |Code()| == 3 by { CodeLength(); }
    CountAllSnoc(table, [], fs[0]);
    CountAllSnoc(table, [fs[0]], fs[1]);
    CountAllSnoc(table, [fs[0], fs[1]], fs[2]);
    assert fs == [fs[0], fs[1]] + [fs[2]] && [fs[0], fs[1]] == [fs[0]] + [fs[1]] && [fs[0]] == [] + [fs[0]];
    CountOneBlock(table, b);
  }

  lemma CodeLength()
    ensures |Code()| == 3
  {
  }

  lemma {:induction false} CountSmall(table: Table, b: Block)
    ensures Count(table, b) <= |b|
  {
    if b != [] {
      CountSmall(table, b[..|b| - 1]);
    }
  }

  lemma CountOneBlock(table: Table, b: Block)
    ensures CountBlocks(table, [b]) == Count(table, b) && CountBlocks(table, []) == 0
  {
    assert [b][..0] == [];
  }

  lemma CountAllSnoc(table: Table, fs: seq<Function>, f: Function)
    ensures CountAll(table, fs + [f]) == CountAll(table, fs) + CountBlocks(table, f.blocks)
  {
    assert (fs + [f])[..|fs|] == fs;
  }

  // ---- Configurations that wrapping cannot follow ----

  const PRINTF := "printf"

  /** A function with one parameter of its own and further arguments. */
  function Printf(): Function {
    Function(PRINTF, Signature([BytePointer], true, Other), [])
  }

  function PrintfCall(): Instr {
    Call(Some(Prog(0)), Direct(PRINTF, Printf().sig), [Name("%d"), Number(7)], None, None)
  }

  /** The single line that makes parameter `k` of `printf` a sink. */
  function SinkLine(k: nat): seq<string> {
    [LineText(PRINTF, k, TypeLabel("output"))]
  }

  function SinkTable(k: nat): Table {
    map[PRINTF := [Indexed(k, TypeLabel("output"))]]
  }

  lemma SinkLineMeans(k: nat)
    ensures ReadLine([Printf()], SinkLine(k)[0]) == Adds(PRINTF, Indexed(k, TypeLabel("output")))
  {
    hide ReadLine;
    hide LineText;
    hide TypeLabel;
    LabelKind("output");
    assert Plain(PRINTF) && PRINTF[0] != '#';
    LineRoundTrip([Printf()], PRINTF, k, TypeLabel("output"));
  }

  lemma SinkTableHolds(k: nat)
    ensures Holds(SinkTable(k), [Printf()], SinkLine(k))
  {
    hide ReadLine;
    hide LineText;
    hide TypeLabel;
    hide Printf;
    SinkLineMeans(k);
    var lines := SinkLine(k);
    assert lines[..0] == [];
    forall name
      ensures name in SinkTable(k) <==> Configured([Printf()], lines, name)
      ensures name in SinkTable(k) ==> SinkTable(k)[name] == ParamsOf([Printf()], lines, name)
    {
      assert ParamsOf([Printf()], lines[..0], name) == [];
      assert name == PRINTF ==> EntersFunction(ReadLine([Printf()], lines[0]), name);
    }
  }

  lemma SinkKind(k: nat, j: nat)
    ensures Kind([Printf()], SinkLine(k), PRINTF, j) == if j == k then Some(false) else None
  {
    hide ReadLine;
    hide LineText;
    hide TypeLabel;
    hide Printf;
    hide LabelType;
    SinkLineMeans(k);
    LabelKind("output");
    var lines := SinkLine(k);
    assert lines[..0] == [];
    assert LabelsFor([Printf()], lines[..0], PRINTF, j) == [];
    var labels := Texts(LabelsFor([Printf()], lines, PRINTF, j));
    assert j == k ==> labels == [Label(TypeLabel("output"))] && LabelType(labels[0]) == Some(false);
  }

  /**
    * Of the labels that make the result, the first or the second argument of `printf("%d", 7)` a sink, all of which are
    * accepted, wrapping finds a parameter for the one on the first argument only.
    */
  lemma PrintfSinks(k: nat, walk: Walk, c: nat)
    requires k <= 2 && WalksTables(walk) && IsInt64(c)
    ensures Holds(SinkTable(k), [Printf()], SinkLine(k)) && Eligible(SinkTable(k), PrintfCall())
    ensures IsSink(Annotate(SinkTable(k), walk, PrintfCall(), c))
    ensures OutputsInRange(Annotate(SinkTable(k), walk, PrintfCall(), c)) <==> k == 1
  {
    hide Annotate;
    hide Holds;
    hide Kind;
    hide SinkLine;
    hide OutputsInRange;
    hide IsSink;
    hide WalksTables;
    SinkTableHolds(k);
    forall j: nat
      ensures Kind([Printf()], SinkLine(k), PRINTF, j) == if j == k then Some(false) else None
    {
      SinkKind(k, j);
    }
    var i, fs := PrintfCall(), [Printf()];
    assert Fits(i, c) && |i.args| == 2 && |i.callee.sig.parameters| == 1;
    SinkReadBack(fs, SinkLine(k), SinkTable(k), walk, i, c);
    SinksInRange(fs, SinkLine(k), SinkTable(k), walk, i, c);
    assert Kind(fs, SinkLine(k), PRINTF, k) == Some(false);
  }

  // ---- A configuration that spoils the module ----

  const FOPEN := "fopen"

  /** A function whose result is a pointer, though not one to bytes. */
  function Fopen(): Function {
    Function(FOPEN, Signature([BytePointer, BytePointer], false, Other), [])
  }

  function FopenCall(): Instr {
    Call(Some(Prog(0)), Direct(FOPEN, Fopen().sig), [Name("file"), Name("r")], None, None)
  }

  /** `main` opens a file. */
  function Opening(): seq<Function> {
    [Fopen(), Function(MAIN, Signature([], false, Other), [[FopenCall(), Return(Some(Number(0)))]])]
  }

  /** The single line that makes the opened file a source. */
  function SourceLine(): seq<string> {
    [LineText(FOPEN, 0, TypeLabel("input"))]
  }

  function SourceTable(): Table {
    map[FOPEN := [Indexed(0, TypeLabel("input"))]]
  }

  lemma FopenNames()
    ensures FOPEN != MAIN && Plain(FOPEN) && FOPEN[0] != '#'
    ensures !IsIntrinsic(FOPEN) && !IsLogger(FOPEN) && !IsWrapperName(FOPEN) && !IsWrapperName(MAIN)
  {
    assert |FOPEN| != |MAIN|;
    assert |FOPEN| < |ADD_TAG| && |FOPEN| < |SET_MODIFIED| && |FOPEN| < |LOG_INIT| && |FOPEN| < |LOG_BUFFER|;
    assert |FOPEN| < |LOG_SHUTDOWN| && |FOPEN| < |WRAPPER_PREFIX| && |MAIN| < |WRAPPER_PREFIX|;
  }

  lemma SourceLineMeans()
    ensures ReadLine(Opening(), SourceLine()[0]) == Adds(FOPEN, Indexed(0, TypeLabel("input")))
  {
    hide ReadLine;
    hide LineText;
    hide TypeLabel;
    hide FopenCall;
    LabelKind("input");
    FopenNames();
    LineRoundTrip(Opening(), FOPEN, 0, TypeLabel("input"));
  }

  lemma SourceTableHolds()
    ensures Holds(SourceTable(), Opening(), SourceLine())
  {
    hide ReadLine;
    hide LineText;
    hide TypeLabel;
    hide Opening;
    SourceLineMeans();
    var lines := SourceLine();
    assert lines[..0] == [];
    forall name
      ensures name in SourceTable() <==> Configured(Opening(), lines, name)
      ensures name in SourceTable() ==> SourceTable()[name] == ParamsOf(Opening(), lines, name)
    {
      assert ParamsOf(Opening(), lines[..0], name) == [];
      assert name == FOPEN ==> EntersFunction(ReadLine(Opening(), lines[0]), name);
    }
  }

  lemma SourceKind(j: nat)
    ensures Kind(Opening(), SourceLine(), FOPEN, j) == if j == 0 then Some(true) else None
  {
    hide ReadLine;
    hide LineText;
    hide TypeLabel;
    hide Opening;
    hide LabelType;
    SourceLineMeans();
    LabelKind("input");
    var lines := SourceLine();
    assert lines[..0] == [];
    assert LabelsFor(Opening(), lines[..0], FOPEN, j) == [];
    var labels := Texts(LabelsFor(Opening(), lines, FOPEN, j));
    assert j == 0 ==> labels == [Label(TypeLabel("input"))] && LabelType(labels[0]) == Some(true);
  }

  lemma FopenFits()
    ensures SourceInstr(Opening(), SourceLine(), SourceTable(), FopenCall())
  {
    hide Kind;
    hide Opening;
    hide SourceLine;
    FopenNames();
    OpeningFound();
    forall j: nat
      ensures Kind(Opening(), SourceLine(), FOPEN, j) == if j == 0 then Some(true) else None
    {
      SourceKind(j);
    }
  }

  lemma OpeningFound()
    ensures Find(Opening(), FOPEN) == Some(Fopen())
    ensures |Opening()| == 2 && Opening()[0] == Fopen()
  {
    hide FopenCall;
  }

  lemma OpeningSource()
    ensures SourceProgram(Opening(), SourceLine(), SourceTable())
  {
    hide SourceLine;
    hide SourceTable;
    hide SourceInstr;
    hide FopenCall;
    FopenNames();
    FopenFits();
    OpeningReturns();
  }

  lemma OpeningInOrder()
    ensures InOrderModule(Opening())
  {
  }

  lemma OpeningReturns()
    ensures SourceInstr(Opening(), SourceLine(), SourceTable(), Return(Some(Number(0))))
  {
  }

  /** The line makes a source of the result of the call of `fopen`. */
  lemma OpeningConfigured()
    ensures HasResultSource(Opening(), SourceLine(), SourceTable())
  {
    hide Kind;
    hide SourceLine;
    SourceKind(0);
    var p: Position := (0, 0);
    assert InstrAt(Opening()[1].blocks, p) == FopenCall();
    assert IsResultSource(Opening(), SourceLine(), SourceTable(), FopenCall());
    assert IsPosition(Opening()[1].blocks, p);
  }

  lemma OpeningCounts()
    ensures IsInt64(CountAll(SourceTable(), Opening()))
  {
    hide Fopen;
    hide FopenCall;
    hide SourceTable;
    var fs, b := Opening(), Opening()[1].blocks[0];
    CountSmall(SourceTable(), b);
    CountOneBlock(SourceTable(), b);
    CountAllSnoc(SourceTable(), [fs[0]], fs[1]);
    CountAllSnoc(SourceTable(), [], fs[0]);
    FopenBlocks();
    assert fs == [fs[0]] + [fs[1]] && [fs[0]] == [] + [fs[0]];
  }

  lemma FopenBlocks()
    ensures Fopen().blocks == []
  {
  }

  /**
    * The program and its line are accepted and everything said of the passes holds of them, yet the instrumented module
    * reads the opened file before it is opened.
    */
  lemma FopenRefused(walk: Walk, first: nat, oracle: Oracle, maxRecords: int, outputMode: int)
    requires WalksTables(walk)
    ensures Holds(SourceTable(), Opening(), SourceLine()) && SourceProgram(Opening(), SourceLine(), SourceTable())
    ensures Program(AnnotateAll(SourceTable(), walk, Opening(), 0))
    ensures HasEarly(Final(AnnotateAll(SourceTable(), walk, Opening(), 0), first, oracle, maxRecords, outputMode))
  {
    hide *;
    SourceTableHolds();
    OpeningSource();
    OpeningInOrder();
    OpeningConfigured();
    OpeningCounts();
    RefusedConfigurations(Opening(), SourceLine(), SourceTable(), walk, first, oracle, maxRecords, outputMode);
  }
}
