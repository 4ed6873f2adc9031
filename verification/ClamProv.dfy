/** The tool: all passes over one module, in the order in which it runs them. */
module ClamProv {
  import opened Text
  import opened Metadata
  import opened Configuration
  import opened Ir
  import opened WrapSinks
  import opened AnnotateSources
  import opened Instrumentation
  import opened Pipeline
  import opened FromSource
  import A = AddMetadata
  import T = TagResults
  import D = DependencyMap
  import L = AddLogging

  /** Whatever table the lines give, the program is one the tool can work on. */
  ghost predicate Suits(fs: seq<Function>, lines: seq<string>) {
    forall table :: Holds(table, fs, lines) ==> SourceProgram(fs, lines, table) && IsInt64(A.CountAll(table, fs))
  }

  /** `preTagAnalysis`: labels, tags and wraps. */
  method PreTagAnalysis(M: Module, lines: seq<string>, walk: A.Walk) returns (table: Table)
    requires A.WalksTables(walk) && Suits(M.functions, lines)
    modifies M
    ensures Holds(table, old(M.functions), lines) && Program(A.AnnotateAll(table, walk, old(M.functions), 0))
    ensures M.functions == Wrapped(A.AnnotateAll(table, walk, old(M.functions), 0), 0)
  {
    hide *;
    ghost var fs := M.functions;
    var metadata := new A.Pass();
    metadata.RunOnModule(M, lines, walk);
    table := metadata.functionInfos;
    ghost var m := M.functions;
    Suited(fs, lines, table);
    LabelledProgram(fs, lines, table, walk);
    ProgramParts(m);
    WrappedFits(m, 0, false);
    RunAddSources(M);
    var wrap := new WrapSinks.Pass();
    var changed := wrap.RunOnModule(M);
    WrappedIs(m, 0);
  }

  lemma Suited(fs: seq<Function>, lines: seq<string>, table: Table)
    requires Suits(fs, lines) && Holds(table, fs, lines)
    ensures SourceProgram(fs, lines, table) && IsInt64(A.CountAll(table, fs))
  {
  }

  lemma ProgramParts(m: seq<Function>)
    requires Program(m)
    ensures InRange(m) && AllLabelled(m) && FitModule(m, m, Before, false)
  {
  }

  lemma WrappedIs(m: seq<Function>, first: nat)
    requires Program(m) && InRange(m) && AllLabelled(AddSources(m))
    ensures Wrapped(m, first) == WrapAll(AddSources(m), first)
  {
  }

  lemma ClearedIs(m: seq<Function>, first: nat, oracle: T.Oracle)
    requires Program(m) && T.AllSinkArguments(Wrapped(m, first))
    ensures Cleared(m, first, oracle) == RemoveSources(T.TagAll(Wrapped(m, first), oracle))
  {
  }

  /** Every function named `main` still has a body. */
  lemma StillHasMain(table: Table, walk: A.Walk, fs: seq<Function>, gs: seq<Function>)
    requires A.WalksTables(walk) && Carries(A.AnnotateAll(table, walk, fs, 0), gs)
    ensures L.MainsHaveBodies(fs) ==> L.MainsHaveBodies(gs)
  {
    hide A.WalksTables;
    hide A.AnnotateAll;
    AnnotatedCarries(table, walk, fs);
    MainNotWrapper();
  }

  /** What the logging pass, if it is configured, asks of a `main`. */
  predicate LogsInto(fs: seq<Function>, maxRecords: int, outputMode: int) {
    outputMode >= 0 && maxRecords >= 0 ==> L.MainsHaveBodies(fs)
  }

  /** `postTagAnalysis`: removes the tags, prints the map and adds the logger calls, if they are configured. */
  method PostTagAnalysis(M: Module, maxRecords: int, outputMode: int, unset: int) returns (out: seq<D.Line>)
    requires outputMode >= 0 && maxRecords >= 0 ==> L.MainsHaveBodies(RemoveSources(M.functions))
    modifies M
    ensures out == D.Map(RemoveSources(old(M.functions)), unset)
    ensures var cleared := RemoveSources(old(M.functions));
            M.functions == if outputMode < 0 || maxRecords < 0 then cleared else L.Log(cleared, maxRecords, outputMode)
  {
    hide *;
    RunRemoveSources(M);
    out := D.RunOnModule(M, unset);
    L.RunOnModule(M, maxRecords, outputMode);
  }

  /** The whole run leaves the module the theorems speak of, and prints the map they speak of. */
  method Run(M: Module, lines: seq<string>, walk: A.Walk, oracle: T.Oracle, maxRecords: int, outputMode: int, unset: int)
      returns (table: Table, out: seq<D.Line>)
    requires A.WalksTables(walk) && Suits(M.functions, lines) && LogsInto(M.functions, maxRecords, outputMode)
    modifies M
    ensures Holds(table, old(M.functions), lines) && Program(A.AnnotateAll(table, walk, old(M.functions), 0))
    ensures var m := A.AnnotateAll(table, walk, old(M.functions), 0);
            && out == D.Map(Cleared(m, 0, oracle), unset)
            && M.functions == if outputMode < 0 || maxRecords < 0 then Cleared(m, 0, oracle)
                              else Final(m, 0, oracle, maxRecords, outputMode)
  {
    hide *;
    ghost var fs := M.functions;
    table := PreTagAnalysis(M, lines, walk);
    ghost var m := A.AnnotateAll(table, walk, fs, 0);
    ProgramParts(m);
    WrappedSinkArguments(m, 0);
    ClearedIs(m, 0, oracle);
    ClearedFits(m, 0, oracle, false);
    StillHasMain(table, walk, fs, Cleared(m, 0, oracle));
    LogsIntoIs(fs, maxRecords, outputMode);
    T.RunTagResults(M, oracle);
    out := PostTagAnalysis(M, maxRecords, outputMode, unset);
    FinalIs(m, 0, oracle, maxRecords, outputMode);
  }

  lemma LogsIntoIs(fs: seq<Function>, maxRecords: int, outputMode: int)
    ensures LogsInto(fs, maxRecords, outputMode) <==> (outputMode >= 0 && maxRecords >= 0 ==> L.MainsHaveBodies(fs))
  {
  }

  lemma FinalIs(m: seq<Function>, first: nat, oracle: T.Oracle, maxRecords: int, outputMode: int)
    requires Program(m)
    ensures Final(m, first, oracle, maxRecords, outputMode) == L.Log(Cleared(m, first, oracle), maxRecords, outputMode)
  {
  }
}
