# A verified model of clam-prov

clam-prov instruments LLVM modules so that running them leaves a log of chosen calls, and prints a map of which of
these calls depend on which others.  This project models its two halves and proves properties of them:

* **The instrumentation pipeline** (`src/clam-prov.cpp`, `src/Instrumentation`).  A module is an ordered, growing list
  of functions, blocks and instructions (`Ir`), executed one instruction at a time under an environment that answers
  everything the module itself does not decide (`Semantics`).  Every pass is an imperative method over such a module,
  proved to compute a closed form: `AddMetadata`, `AnnotateSources`, `WrapSinks`, `TagResults`, `DependencyMap`,
  `AddLogging`, and `ClamProv` for all of them in their order.  Theorems about the closed forms say that the
  instrumented program shows what the program shows, that its logger calls are the completed annotated calls of the
  program, that ids stay unique, and that removal undoes insertion.
* **The run-time logger and its reader** (`src/Logging/clam-prov-logger.c`, `src/Util/CallSiteLogReader.c`).  `Logger`
  gives each critical section as a function of the logger's globals, `LoggerCode` the C code as a class that does just
  that, `LogCodec` the byte layout and the copying loops, `Lifecycle` the theorems over every sequence of calls, and
  `ConcurrentLogger`, `ConcurrentRuns` and `ConcurrentLog` the theorems over every interleaving of any number of threads.

`EndToEnd` joins the halves: at every moment before shutdown the log and the logger's array hold the annotated calls that
completed in a run of the original program, in order; with shutdown as it is written the log stays at the calls up to the
last full array, and it gets all of them if shutdown flushes inside its lock.  `VariadicSinks` shows where wrapping stops
preserving meaning; `IntrinsicCalls`, `WrapperMarks`, `SinkAnswers`, `MapEdges` and `ConfiguredMap` follow the configured
parameters from the configuration's lines (`LineFormat`) to the tags, the marks and the edges of the map, and `EarlyCasts`
and `AcceptedModules` show which configurations give a module that reads a call's result before the call.  `DummyMain`
models the entry function that is made for libraries.

How the pipeline's main theorem is built: everything the passes insert besides wrappers is *extra* code that only writes
registers of its own, so a module runs like its erasure (`Erasure`); redirecting a call to a function that only forwards
it changes nothing a run shows (`Forwarding`); wrapping is such a redirection up to erasure (`WrapMeaning`); and one
invariant on instructions, kept by all passes, gives each pass the module it needs (`Instrumentation`, `Pipeline`).

`Example` gives a program with a source and a sink that meets everything these theorems ask of a program, `ExampleRuns` a
program whose runs show what an operation, a branch, a call and a return do.

Verify the project with `dafny verify dfyconfig.toml`.

## What the model shows about the code

* Shutdown holds the logger's lock and flushes through the entry that takes it again
  (`src/Logging/clam-prov-logger.c:408`), although the mutex is a plain one.  As written a shutdown can return exactly if
  the logger was not initialised (`ConcurrentLog.ShutdownReturns`); otherwise three steps lead to a state
  (`ConcurrentLog.DeadlockReached`) in which no thread can finish a call any more (`ConcurrentLog.DeadlockForever`), and
  the records behind the last full array never reach the log (`EndToEnd.LogAsWritten`).  Results that speak of shutdown
  completing are about the version that flushes inside the lock.
* Insertion and flush are two critical sections, so the array the code allocates is large enough for one thread and for
  no more (`ConcurrentRuns.RoomOfTheCode`, `ConcurrentRuns.RoomNeeded`).  The bound on the array's index and the
  conservation of records hold for any array and any number of threads, until memory is misused.
* A failed start leaves the freed array's pointer in place: a second start with a record count below one frees it again;
  and counts from 15123125 on let the 32-bit buffer size wrap to a small positive number.  `Lifecycle.SafeCounts` says
  exactly which record counts are free of both.  Counts from 7561563 on make full flushes lose their records
  (`Lifecycle.FlushExact`).
* A failed start closes file 0 or an already closed descriptor unless an `open` call was refused in it
  (`Lifecycle.StrayCloses`).
* A flush can report success although it lost its records, because it compares an unassigned variable when there is no
  temporary buffer (`Lifecycle.FlushExact`).
* `WrapSinks` asks for a parameter that does not exist exactly if the configuration makes a sink of a call's result or of
  a variadic argument, both of which `AddMetadata` accepts (`NumberedCalls.SinksInRange`, `Example.PrintfSinks`); a line
  that makes the result of a void call a source has the same effect on `addSources` (`NumberedCalls.SourcesFound`).
* A wrapper forwards the fixed parameters only, and the program that makes one sink call keeps its meaning exactly if
  there are no other arguments (`VariadicSinks.WrappingKeepsExactly`).
* A line that makes a call's result a source gets the result cast, and thus read, in front of the call, and `removeSources`
  takes out the tag calls but not the cast (`src/Instrumentation/AnnotateSources.cpp:18-20`, `:79-88`, `:125-132`).  No
  later pass removes it, and LLVM refuses a module that uses a value before its definition.  The instrumented module
  contains such a cast exactly if some configured call has its result made a source and returns something else than `i8*`
  (`AcceptedModules.RefusedConfigurations`); a line for `fopen` is enough (`Example.FopenRefused`).  The model reads a
  register that has not been written as zero, so its meaning theorems hold of these modules too but say nothing about the
  tool there: `AcceptedModules.WorksExactly` joins both.
* A logged function name of 256 or more characters is stored without a terminator (`LogCodec.NameRoundTrip`).
* The comment at `src/Instrumentation/ProvMetadata.cpp:63` calls the first metadata operand a string; the code stores and
  reads a 64-bit constant, and so does the model.

## Model

| member | source | states |
|---|---|---|
| ClamProv.Run | src/clam-prov.cpp:159-211 | on a program and configuration that suit, the whole run leaves exactly the module the theorems below speak of, prints exactly its map, and skips logging if a setting is negative; only logging asks that a `main` have a body |
| ClamProv.PreTagAnalysis | src/clam-prov.cpp:197-199 | labelling, tagging and wrapping in this order yield a well-formed program, tagged and wrapped, each pass finding what it needs |
| ClamProv.PostTagAnalysis | src/clam-prov.cpp:204-211 | the map is printed of the untagged module, before logger calls are added |
| Pipeline.InstrumentationPreservesMeaning | src/clam-prov.cpp:195-211 | for every program, environment, entry function and arguments, the instrumented module and the program reach the same observations: calls with arguments, results and ids, everything asked of the environment, and the final result; a register read before it is written counts as zero, and logger calls are taken to return |
| AcceptedModules.WorksExactly | src/clam-prov.cpp:195-211 | the instrumented module casts no call's result in front of the call and runs like the program exactly if no call of the program has a result that is labelled as a source and is no byte pointer |
| AcceptedModules.RefusedExactly | src/Instrumentation/AnnotateSources.cpp:79-142 | through tagging, wrapping, answers, removal and logging, some block ends up with an inserted cast in front of the call whose result it reads exactly if some call's result is labelled as a source and is no byte pointer |
| AcceptedModules.RefusedConfigurations | src/Instrumentation/AnnotateSources.cpp:12-30 | the same in terms of configuration lines and unlabelled program: exactly if a configured call keeps its result, its result is made a source, and its function returns something else than a byte pointer |
| EarlyCasts.TaggedEarly | src/Instrumentation/AnnotateSources.cpp:69-92 | of one block in definition order: what tagging puts in reads a result before its call exactly at such calls; casts of arguments never do |
| PipelineLog.ShownBeforeShutdown | src/Instrumentation/AddLogging.cpp:228-230 | whatever the program shows in a run from `main` before its end, the instrumented module shows with shutdown not yet called, so a shutdown that blocks hides the final result and nothing else |
| PipelineLog.RunningLog | src/Instrumentation/AddLogging.cpp:157-187 | at every moment of every run, from any entry, the buffer calls made are the annotated calls that completed in a matching run of the uninstrumented program, in order, but for at most one that is next |
| PipelineLog.FinishedLog | src/Instrumentation/AddLogging.cpp:189-237 | a finished run from `main` has made one initialisation call, one buffer call for each annotated call that completed in a matching run of the uninstrumented program, in order, and one shutdown call |
| EndToEnd.LogHoldsCompletedCalls | src/Logging/clam-prov-logger.c:305-414 | with shutdown flushing inside its lock and a system that serves the logger, the log of a finished run decodes to the completed annotated calls of a run of the program, each with id, result and callee |
| EndToEnd.LogAtEveryMoment | src/Logging/clam-prov-logger.c:258-351 | at every moment of every run from `main` before its shutdown, ending or not: after `j` buffer calls the log decodes to the first completed calls of a run of the program up to the last full array, the array holds the rest of the first `j`, and at most one more call has completed |
| EndToEnd.LogAsWritten | src/Logging/clam-prov-logger.c:403-421 | a run that stands at the shutdown call in `main`, with shutdown as it is written: the call blocks and, whatever the threads do then, the log decodes to the completed calls up to the last full array and to no others |
| EndToEnd.FinishedWasThere | src/Instrumentation/AddLogging.cpp:226-231 | every run from `main` that would finish if logger calls returned comes to the shutdown call before |
| EndToEnd.LogSoFar | src/Logging/clam-prov-logger.c:258-292 | after any number of buffer calls the log holds the batches that were full, and the array the records behind them |
| EndToEnd.NameReadBack | src/Logging/clam-prov-logger.c:102-123 | the callee's name is read back unchanged exactly when it is shorter than the field |
| EndToEnd.RecordOfCall | src/Logging/clam-prov-logger.c:314-325 | the record of a completed call holds the call's id, its result and the first 256 characters of its callee, padded with zeros |
| FromSource.LabelledProgram | src/Instrumentation/AddMetadata.cpp:307-338 | labelling an unlabelled program with a configuration that suits it, equal argument counts being asked of sinks only, gives a program all later passes can work with |
| FromSource.LabelledMain | src/Instrumentation/AddMetadata.cpp:307-338 | labelling keeps a `main` that is entered once |
| FromSource.EachIdOnce | src/Instrumentation/AddMetadata.cpp:83-85 | labelling gives a program for the later passes, and in the final module every number below the count of configured calls labels exactly one instruction and no other number any |
| PipelineMap.IdsSurvive | src/Instrumentation/WrapSinks.cpp:46-153 | through all passes each id labels as many instructions as before, and after wrapping even their order stays |
| PipelineMap.MapOrder | src/Instrumentation/OutputDependencyMap.cpp:43-70 | the map declares the unwrapped annotated calls in program order, then function by function the sinks from last to first |
| PipelineMap.MapOfCleared | src/clam-prov.cpp:204-210 | removing the intrinsics before printing does not change the map |
| PipelineMap.MapJoinsDeclaredNodes | src/Instrumentation/OutputDependencyMap.cpp:52-63 | if the analysis answers with inserted tags only, every edge leads from a declared call that the configuration makes a sink to a declared call that it makes a source |
| Example.ExampleSuits | tests/test1/AddMetadata.config:1-2 | a program that reads and writes, with the configuration of the first regression test, meets what `ClamProv.Run` asks for |
| Example.Kinds | tests/test1/AddMetadata.config:1-2 | under that configuration the second argument of `read` is a source, that of `write` a sink, and nothing else is either |
| Example.PrintfSinks | src/Instrumentation/WrapSinks.cpp:49-52 | of the accepted labels that make the result, the first or the second argument of `printf("%d", 7)` a sink, wrapping finds a parameter for the one on the first argument only |
| Example.FopenRefused | src/Instrumentation/AnnotateSources.cpp:79-88 | a program that calls `fopen` and the line that makes the opened file a source meet what labelling asks for, and the instrumented module casts the file in front of the call |
| Erasure.ErasureSound | src/clam-prov.cpp:196-210 | a module whose program code uses only its own registers runs like the module without the inserted intrinsics, casts, logger calls and tags |
| Erasure.SameErasureSameRuns | src/clam-prov.cpp:196-210 | modules with the same erasure run alike |
| Forwarding.ForwardingSound | src/Instrumentation/WrapSinks.cpp:28-67 | sending direct calls through functions that only forward to the original callee is invisible, also with recursion and callees with bodies |
| WrapMeaning.WrappingPreservesMeaning | src/Instrumentation/WrapSinks.cpp:16-156 | wrapping all sinks of a module with direct, non-variadic sinks leaves the observations of every run from every entry as they are, both ways |
| WrapMeaning.ForwardedArguments | src/Instrumentation/WrapSinks.cpp:38-45 | a wrapper passes on the fixed arguments; it passes on all exactly if there are no variadic ones |
| VariadicSinks.WrappingKeepsExactly | src/Instrumentation/WrapSinks.cpp:16-156 | in every environment, wrapping keeps the meaning of the program that makes one sink call to an external function exactly if the call passes no variadic arguments |
| WrapMeaning.EraseWrapper | src/Instrumentation/WrapSinks.cpp:32-65 | without its intrinsics a wrapper is a pure forwarder of the call it replaces, id included |
| WrapMeaning.WrapperOfSink | src/Instrumentation/WrapSinks.cpp:133-148 | the call that replaces a sink finds, under its name, the wrapper made for that sink |
| WrapSinks.Pass.RunOnModule | src/Instrumentation/WrapSinks.cpp:70-86 | the loop over the list it extends ends; the functions in place and then their wrappers are the result, and the list has grown by the number of sinks |
| WrapSinks.Pass.RunOnFunction | src/Instrumentation/WrapSinks.cpp:88-156 | the worklist, emptied from its back, wraps every sink of a function that is not itself a wrapper |
| WrapSinks.Pass.CreateWrapper | src/Instrumentation/WrapSinks.cpp:16-68 | one wrapper is appended, named by the counter, which advances; `WrapperMarks.SinksWrapped` says what it contains |
| WrapperMarks.SinksWrapped | src/Instrumentation/WrapSinks.cpp:28-67 | each call that the configuration makes a sink is replaced by a call to a function added for it, which marks exactly the parameters the configuration makes sinks, each once and as byte pointers, and then forwards its own parameters to the sink's callee under the sink's metadata |
| WrapSinks.SinkAtRank | src/Instrumentation/WrapSinks.cpp:94-131 | the list of calls to wrap holds every sink at the place given by the number of sinks before it |
| WrapSinks.NamesDiffer | src/Instrumentation/WrapSinks.cpp:23-26 | wrappers with different numbers have different names, and all are skipped by the pass |
| WrapOrder.WrappedOnce | src/Instrumentation/WrapSinks.cpp:133-154 | every sink is replaced by a call to a wrapper of its own, which is found in the module and forwards to the sink's callee; no two sinks share one |
| WrapOrder.NoSinkLeft | src/Instrumentation/WrapSinks.cpp:95-131 | afterwards no function the pass looks at contains a sink |
| WrapOrder.EmissionOrder | src/Instrumentation/WrapSinks.cpp:118-154 | the wrapped module's ids: unwrapped calls in program order, then per function its sinks in reverse |
| WrapOrder.WrappingKeepsIds | src/Instrumentation/WrapSinks.cpp:46-153 | copying metadata to the wrapper and erasing the call keeps the multiset of ids |
| AnnotateSources.TagCall | src/Instrumentation/AnnotateSources.cpp:69-96 | the code for the call's source labels, and nothing else, is inserted in front of it; `IntrinsicCalls.SourcesTagged` says what it tells the analysis |
| IntrinsicCalls.SourcesTagged | src/Instrumentation/AnnotateSources.cpp:12-96 | in front of each call to a configured function of an unlabelled program, the intrinsic calls mark and then tag with the call's own number, for each parameter the configuration makes a source, that argument, or for 0 the result, once and unless it is a null constant, through a cast exactly if it is no byte pointer; in front of any other instruction there is nothing |
| AnnotateSources.RunAddSources | src/Instrumentation/AnnotateSources.cpp:35-102 | every call of the module is tagged, and nothing else changes |
| AnnotateSources.EraseAddSources | src/Instrumentation/AnnotateSources.cpp:12-30 | tagging inserts extra code only |
| AnnotateSources.RemoveOnFunction | src/Instrumentation/AnnotateSources.cpp:115-142 | erasing the collected calls one by one filters each block, and the answer says whether there were any; `AnnotateSources.RemovedExactly` says what is gone |
| AnnotateSources.RemovedExactly | src/Instrumentation/AnnotateSources.cpp:118-132 | gone are exactly the direct calls of the two intrinsics whose result no operand in the function reads, and everything else is there as often as before |
| AnnotateSources.RunRemoveSources | src/clam-prov.cpp:207-207 | every function of the module is filtered |
| AnnotateSources.EraseCollected | src/Instrumentation/AnnotateSources.cpp:116-139 | erasing a list of positions from the back never misses and removes just the listed instructions |
| AnnotateSources.EraseRemoveSources | src/Instrumentation/AnnotateSources.cpp:125-132 | removal takes out extra code only |
| TagRemoval.RemoveUndoesAdd | src/Instrumentation/AnnotateSources.cpp:12-142 | on a program free of the intrinsics, removing after tagging and wrapping gives the wrapped program but for casts nobody reads; its wrappers lose their `sea_dsa_set_modified` calls |
| AddLogging.RunOnBlock | src/Instrumentation/AddLogging.cpp:218-232 | with its cursor on the previous instruction, the loop puts each logger call behind the call it logs and shutdowns in front of returns of `main` |
| AddLogging.RunOnModule | src/Instrumentation/AddLogging.cpp:189-237 | every function is rewritten so, `main` starts with the initialisation; without settings nothing changes |
| AddLogging.EraseLog | src/Instrumentation/AddLogging.cpp:94-187 | logging inserts extra code only |
| ExactLogging.ExactLog | src/Instrumentation/AddLogging.cpp:157-187 | at every moment of every run the buffer calls made are the completed annotated calls (id, result, callee) but for at most the one pending, with none missing when the run is over |
| ExactLogging.LogPlaces | src/Instrumentation/AddLogging.cpp:209-234 | the pass puts each buffer call right behind its call and nowhere else |
| LoggerSession.SessionSoFar | src/Instrumentation/AddLogging.cpp:189-237 | at every moment before the shutdown the logger has got one initialisation call and then buffer calls only |
| LoggerSession.AtShutdown | src/Instrumentation/AddLogging.cpp:226-231 | a run from `main` that stands at the shutdown call has handed over all completed annotated calls, none pending |
| LoggerSession.CompleteSession | src/Instrumentation/AddLogging.cpp:94-142 | a finished run from `main` makes one initialisation call first, one shutdown call last and the log in between |
| LoggerSession.LogKeepsSession | src/Instrumentation/AddLogging.cpp:209-234 | the pass puts initialisation and shutdown where that needs them |
| AddMetadata.Pass.RunOnModule | src/Instrumentation/AddMetadata.cpp:307-338 | the table says what the lines say, and the calls to configured functions are numbered and labelled |
| AddMetadata.Pass.ConditionalUpdate | src/Instrumentation/AddMetadata.cpp:201-266 | a direct call to a configured function takes the next number and its labels; any other instruction stays as it is and takes none |
| Configuration.LoadInput | src/Instrumentation/AddMetadata.cpp:101-199 | a function is in the table exactly if some line enters it, with the parameters of its accepted lines in file order |
| Configuration.LoadLine | src/Instrumentation/AddMetadata.cpp:110-197 | one line changes the table by its effect; which line has which effect is said by the rows of `LineFormat` |
| Configuration.CopyStrArg | src/Instrumentation/AddMetadata.cpp:87-99 | the copy succeeds exactly for strings shorter than the buffer, then holds the string, and never leaves the buffer |
| Configuration.LineRoundTrip | src/Instrumentation/AddMetadata.cpp:110-191 | a line in the documented format adds exactly the parameter it describes to the function it names |
| LineFormat.CommentSkipped | src/Instrumentation/AddMetadata.cpp:111-115 | a line with a `#` behind any number of blanks is skipped, whatever follows |
| LineFormat.BlankSkipped | src/Instrumentation/AddMetadata.cpp:111-115 | a line of blanks is skipped |
| LineFormat.OtherCommasSkipped | src/Instrumentation/AddMetadata.cpp:116-119 | a line that does not have two commas is skipped |
| LineFormat.LineParts | src/Instrumentation/AddMetadata.cpp:116-180 | every line with two commas is three fields with white space around them, so the next rows cover all lines |
| LineFormat.LineEffect | src/Instrumentation/AddMetadata.cpp:113-184 | such a line is skipped exactly if it is a comment, names no function or names one that the module does not have, and enters its function without a parameter exactly if the parameter is missing, starts with a digit without being a number, or it or the label is too long |
| LineFormat.NumberedLine | src/Instrumentation/AddMetadata.cpp:122-191 | any other line whose parameter is a number, also with leading zeros, adds that parameter with the label's text up to a NUL, whatever the white space |
| LineFormat.NamedLine | src/Instrumentation/AddMetadata.cpp:171-191 | and one whose parameter does not start with a digit adds a parameter of that name |
| LineFormat.LabelTypeExact | src/Instrumentation/ProvMetadata.cpp:82-93 | a label gives a type exactly if it is the key, one colon and the word for that type, with any white space around both words |
| Configuration.ParamsInOrder | src/Instrumentation/AddMetadata.cpp:141-191 | a function's parameters are those that its lines add, one for each such line, in file order |
| Configuration.GroupingIsFiltering | src/Instrumentation/AddMetadata.cpp:141-261 | grouping by function and then by parameter is one filter over the lines |
| Configuration.Regroup | src/Instrumentation/AddMetadata.cpp:222-261 | the label map has the decimal keys of the configured parameters the call has, each with its descriptions in order |
| Configuration.LabelsAt | src/Instrumentation/AddMetadata.cpp:226-260 | a key is in the map exactly if it is the decimal form of a configured parameter within the argument count |
| NumberedCalls.AnnotatedAt | src/Instrumentation/AddMetadata.cpp:326-333 | each call to a configured function carries the number of such calls before it, every other instruction is unchanged |
| NumberedCalls.NumberedExactly | src/Instrumentation/AddMetadata.cpp:209-220 | a number goes to exactly the direct calls of functions that some line names, also if that line gives no parameter |
| NumberedCalls.KindExact | src/Instrumentation/ProvMetadata.cpp:77-113 | a parameter is a source, or a sink, exactly if some line for it says so and no line for it says the opposite |
| NumberedCalls.IdsAscend | src/Instrumentation/AddMetadata.cpp:83-85 | read in program order the ids are consecutive |
| NumberedCalls.LabelsReadBack | src/Instrumentation/AddMetadata.cpp:220-263 | reading a call's metadata gives its id and, for each parameter once, the descriptions of the configuration lines for it in file order |
| NumberedCalls.RolesReadBack | src/Instrumentation/ProvMetadata.cpp:58-113 | the sources and sinks the passes see are those the configuration names |
| NumberedCalls.SinkReadBack | src/Instrumentation/WrapSinks.cpp:113-124 | a numbered call is a sink exactly if the configuration makes a sink of its result or of an argument it has |
| NumberedCalls.SinksInRange | src/Instrumentation/WrapSinks.cpp:113-123 | wrapping finds a parameter for every sink label exactly if the configuration makes neither the result nor an argument behind the callee's own parameters a sink |
| NumberedCalls.SourcesFound | src/Instrumentation/AnnotateSources.cpp:79-85 | tagging finds a value for every source label exactly if no missing result is made a source |
| CallSiteMetadata.SetCallSiteMetadata | src/Instrumentation/ProvMetadata.cpp:136-155 | the node holds the id's bits and one tuple for each key, in the table's order |
| CallSiteMetadata.SiteRoundTrip | src/Instrumentation/ProvMetadata.cpp:15-74 | in any order of the table, the reader gets back the id and each pair of index and labels exactly once |
| CallSiteMetadata.GetArgumentMetadataType | src/Instrumentation/ProvMetadata.cpp:77-113 | the loop succeeds exactly if some label gives a type and none gives the other, and answers that type |
| CallSiteMetadata.ClassificationExact | src/Instrumentation/ProvMetadata.cpp:104-112 | the classification the passes use succeeds under the same condition: labels of both types contradict each other |
| CallSiteMetadata.ClassificationIgnoresOrder | src/Instrumentation/ProvMetadata.cpp:81-110 | the answer depends only on which labels occur |
| Text.ParseOfDecimal | src/Instrumentation/ProvMetadata.cpp:66-67 | parsing undoes printing for numbers of 64 bits and for no others |
| TagResults.TagCall | src/Instrumentation/OutputResults.cpp:17-58 | the loop over a call's labels collects the answers and attaches them; `SinkAnswers.TagsOfCall` says which |
| SinkAnswers.TagsOfCall | src/Instrumentation/OutputResults.cpp:17-58 | a call carries tags exactly if it has an argument labelled as a sink and the analysis knows the tags of each; read back, they are the answers for these arguments, one after the other, and the call is otherwise as it was |
| TagResults.RunTagResults | src/Instrumentation/OutputResults.cpp:11-65 | every call of the module is treated so |
| ConfiguredMap.SinksAnswered | src/Instrumentation/OutputResults.cpp:12-58 | the call in the wrapper made for a configured sink gets the answers for the wrapper's own parameters that the configuration makes sinks, asked for in that wrapper and the block of the call, exactly if there are any and all are known |
| TagResults.EraseTagAll | src/Instrumentation/OutputResults.cpp:56-58 | the answers leave the program as it is |
| DependencyMap.RunOnModule | src/Instrumentation/OutputDependencyMap.cpp:28-77 | the map is written line by line; `MapEdges.LinesInMap` and `MapEdges.SourcesAreTags` say what it consists of |
| MapEdges.LinesInMap | src/Instrumentation/OutputDependencyMap.cpp:49-63 | in the map each annotated call has a line that declares its id under its callee's name, and the `k`th line behind it is the edge from that id to the call's `k`th tag, all between header and footer |
| MapEdges.LinesAt | src/Instrumentation/OutputDependencyMap.cpp:43-63 | a direct call prints its node, if it has an id, and one edge for each tag, in order, and any other instruction prints nothing; without an id the edges leave what the id variable holds |
| MapEdges.SourcesAreTags | src/Instrumentation/OutputDependencyMap.cpp:57-63 | the edges of the whole map that leave an id carried by one call lead to that call's tags, in order |
| ConfiguredMap.EdgePrinted | src/Instrumentation/OutputDependencyMap.cpp:43-70 | for any module and any answers, an edge is in the map exactly if some direct call has the edge's sink as its id, all its sink arguments' tags are known, and the edge's source is among those of one |
| ConfiguredMap.EdgesOfSink | src/Instrumentation/OutputDependencyMap.cpp:57-63 | in the map of a configured program, the edges that leave a configured sink's number lead, configured parameter after configured parameter, to the tags the analysis knows for these parameters of the sink's wrapper if it knows them all, and otherwise there are none |
| ConfiguredMap.EdgesAreOfSinks | src/Instrumentation/OutputDependencyMap.cpp:57-63 | and no edge leaves any other number |
| DependencyMap.DeclaredOnce | src/Instrumentation/OutputDependencyMap.cpp:50-55 | the nodes declared are the ids of the annotated direct calls, one each, in order |
| DependencyMap.EdgesExact | src/Instrumentation/OutputDependencyMap.cpp:57-63 | what is printed for a sink is one edge for each answer exactly when all are known, and its node alone otherwise |
| DependencyMap.MapClosed | src/Instrumentation/OutputDependencyMap.cpp:43-70 | if all answers are ids of annotated calls, every edge joins two declared nodes and goes out from a call labelled as a sink |
| DummyMain.Pass.FreshName | src/Util/DummyMainFunction.cpp:22-29 | the search ends with the first candidate that is not taken, after at most as many tries as names are taken and one more |
| DummyMain.Pigeonhole | src/Util/DummyMainFunction.cpp:25-27 | among one more candidates than names taken one is free, although the counter has 32 bits |
| DummyMain.Pass.GetNondetFn | src/Util/DummyMainFunction.cpp:31-40 | one declaration for each type, made at first use and never shared between types; its name is the first free one with the prefix and a number counted on from the number of types met so far |
| DummyMain.Pass.RunOnModule | src/Util/DummyMainFunction.cpp:47-103 | without `main` the new one calls exactly the functions it should, in order, each right behind unknown values of its parameters' types that are made for it alone |
| DummyMain.ArgumentsDiffer | src/Util/DummyMainFunction.cpp:90-97 | no unknown value serves two arguments, neither of one call nor of two |
| DummyMain.EveryDefinedOnce | src/Util/DummyMainFunction.cpp:78-86 | without a chosen entry that means each defined function once and no other |
| DummyMain.EntryAlone | src/Util/DummyMainFunction.cpp:54-77 | a chosen entry that exists is called alone |
| DummyMain.NoEntryAll | src/Util/DummyMainFunction.cpp:74-87 | without an entry, or with one the module does not have, all functions with a body other than `main` are called |
| LogCodec.CopyRecord | src/Logging/clam-prov-logger.c:210-223 | the five copies write the record's 284 bytes and nothing else and return the place behind them |
| LogCodec.CopyRecords | src/Logging/clam-prov-logger.c:225-234 | the loop writes the encoded batch and nothing else and returns the place behind it |
| LogCodec.RecordLayout | src/Logging/clam-prov-logger.c:210-223 | which bytes of a record hold which field, the least significant byte first and negative numbers in two's complement |
| LogCodec.ReadRecords | src/Util/CallSiteLogReader.c:32-73 | the reader delivers the first records of the file, as many as asked for, there or readable, and stops for the stated reason |
| LogCodec.ReaderStops | src/Util/CallSiteLogReader.c:32-50 | for each of the four reasons to stop, exactly when it is given |
| LogCodec.DecodeEncode | src/Util/CallSiteLogReader.c:52-68 | the reader's fields are the writer's |
| LogCodec.DecodeEncoded | src/Util/CallSiteLogReader.c:26-68 | from encoded records the reader recovers exactly these |
| LogCodec.EncodeConcat | src/Logging/clam-prov-logger.c:225-234 | batches written one after the other are one long batch |
| LogCodec.DecodeTruncated | src/Util/CallSiteLogReader.c:47-50 | from a file cut anywhere exactly the complete records before the cut come back |
| LogCodec.NameRoundTrip | src/Logging/clam-prov-logger.c:102-119 | a name comes back exactly if it is shorter than the field; longer ones are stored without a terminator |
| LogCodec.BufferSizeExact | src/Logging/clam-prov-logger.c:236-238 | the 32-bit size is right for up to 7561562 records and for no larger number |
| LoggerCode.Globals.BufferConcrete | src/Logging/clam-prov-logger.c:305-327 | the code has the effect that `LoggerEffects.BufferEffect` and `LoggerEffects.BufferRefused` state |
| LoggerCode.Globals.FlushConcrete | src/Logging/clam-prov-logger.c:248-293 | the code has the effect that `LoggerEffects.FlushEffect` and `Lifecycle.FlushExact` state |
| LoggerCode.Globals.InitConcrete | src/Logging/clam-prov-logger.c:353-377 | the code has the effect that `LoggerEffects.InitEffect` and `Lifecycle.InitKeeps` state |
| LoggerCode.Globals.ShutdownConcrete | src/Logging/clam-prov-logger.c:403-414 | if it flushed without taking the lock again, shutdown would have the effect that `LoggerEffects.ShutdownEffect` states |
| LoggerCode.Globals.CheckAndFlush | src/Logging/clam-prov-logger.c:295-303 | under a free lock this is the flush; under a taken one the caller blocks and nothing changes |
| LoggerCode.Globals.ShutdownRelocking | src/Logging/clam-prov-logger.c:403-414 | shutdown as it is written: with the lock taken and the logger up it blocks in the flush, having changed nothing |
| LoggerCode.Globals.Shutdown | src/Logging/clam-prov-logger.c:416-429 | the call as it is written never returns from an initialised logger, whose lock stays taken, and returns 0 otherwise |
| LoggerCode.Globals.Buffer | src/Logging/clam-prov-logger.c:329-351 | a whole call of a single thread: insertion and then the check |
| LoggerEffects.BufferEffect | src/Logging/clam-prov-logger.c:305-327 | with room, the next slot gets time, thread, id and result of the call; with a name also the name, cut or padded to the field, and it counts; without one the slot keeps its old name and nothing counts; nothing else changes |
| LoggerEffects.BufferRefused | src/Logging/clam-prov-logger.c:305-325 | an uninitialised logger refuses the call unchanged, and one without room writes behind its array |
| LoggerEffects.FlushEffect | src/Logging/clam-prov-logger.c:248-293 | a flush that is not due does nothing; one that is empties the array and appends to the log the first bytes of its records, as many as `write` takes, or none without a buffer |
| LoggerEffects.InitEffect | src/Logging/clam-prov-logger.c:133-159 | what a start, successful or not, leaves in the array's pointer, the descriptor and the other globals |
| LoggerEffects.ShutdownEffect | src/Logging/clam-prov-logger.c:403-414 | what a shutdown that gets through leaves there |
| Lifecycle.StepKeeps | src/Logging/clam-prov-logger.c:248-429 | every call keeps the logger's invariant and misuses memory exactly under the stated condition |
| Lifecycle.RunValid | src/Logging/clam-prov-logger.c:248-429 | every run of calls keeps the invariant: array, descriptor, index and history fit together until memory is misused |
| Lifecycle.InitKeeps | src/Logging/clam-prov-logger.c:353-377 | a start succeeds exactly with memory, a valid count and an open log, and frees twice exactly with a dangling array and a count below one |
| Lifecycle.StrayCloses | src/Logging/clam-prov-logger.c:150-159 | a failed start closes a file that is not the log exactly if no `open` was refused in it and the variable holds a descriptor |
| Lifecycle.ShutdownKeeps | src/Logging/clam-prov-logger.c:403-414 | shutdown leaves no record behind, unless the size of its flush wraps |
| Lifecycle.FlushExact | src/Logging/clam-prov-logger.c:266-292 | a flush is complete exactly with a buffer, a count up to 7561562 and a whole write, and reports just that but for the unassigned variable |
| Lifecycle.SafeCounts | src/Logging/clam-prov-logger.c:133-159 | over all sequences of calls memory is never misused exactly if the record counts asked for stay below 15123125 and are all below one or all not |
| Lifecycle.DoubleFree | src/Logging/clam-prov-logger.c:144-148 | a start whose log does not open and then one with a count below one free the same array twice |
| Lifecycle.OverrunReached | src/Logging/clam-prov-logger.c:225-242 | a record count of 15123125 or more can be filled and flushed so that the copy leaves its buffer |
| Lifecycle.Conservation | src/Logging/clam-prov-logger.c:248-327 | decoding the log and then reading the array gives every accepted record once and in order exactly if no flush fell short |
| Lifecycle.NothingLost | src/Logging/clam-prov-logger.c:295-429 | over all sequences of calls the system serves, log and array hold the records handed over while up; when down, the log alone does |
| ConcurrentLogger.NextExclusive | src/Logging/clam-prov-logger.c:295-427 | at most one thread is inside a section, the lock's holder, and none gets past the second acquisition |
| ConcurrentLogger.NextInvariant | src/Logging/clam-prov-logger.c:295-427 | every step of every thread that does not misuse memory keeps exclusion, consistency and the bound on the index, whatever the array's size; with room for all threads no step misuses memory |
| ConcurrentLogger.BufferBound | src/Logging/clam-prov-logger.c:343-347 | in every interleaving of any number of threads over any array, until memory is misused, the index is at most `max_records - 1` plus the threads between their two sections whenever an insertion may start |
| ConcurrentRuns.BoundReached | src/Logging/clam-prov-logger.c:343-347 | for every number of threads some run has just so many between their sections and meets the bound |
| ConcurrentRuns.OverflowReached | src/Logging/clam-prov-logger.c:314-325 | with less room than that some interleaving writes behind the array |
| ConcurrentRuns.RoomNeeded | src/Logging/clam-prov-logger.c:133-142 | no interleaving misuses memory exactly if the array has a slot for every thread beyond `max_records - 1` and so many records do not make the size of a flush wrap |
| ConcurrentRuns.RoomOfTheCode | src/Logging/clam-prov-logger.c:133-142 | from the code's own start, no interleaving misuses memory exactly if there is one thread and the record count is below 15123125 |
| ConcurrentRuns.WrapReached | src/Logging/clam-prov-logger.c:236-242 | with room for them, so many records can be stored that a flush leaves its buffer |
| ConcurrentLog.ConcurrentConservation | src/Logging/clam-prov-logger.c:248-327 | in every interleaving the system serves, over any array and until memory is misused, log and array hold the inserted records, each once, in the order of the lock |
| ConcurrentLog.Deadlock | src/Logging/clam-prov-logger.c:403-421 | once a shutdown asks for its own lock no thread inside a call can take a step |
| ConcurrentLog.DeadlockForever | src/Logging/clam-prov-logger.c:403-421 | and this stays so in every continuation, with the logger unchanged |
| ConcurrentLog.NoShutdownCompletes | src/Logging/clam-prov-logger.c:403-421 | as written no run of any number of threads shuts an initialised logger down and no such call returns |
| ConcurrentLog.ShutdownReturns | src/Logging/clam-prov-logger.c:403-421 | as written a thread in shutdown can come to return exactly if the logger is not initialised |
| ConcurrentLog.DeadlockReached | src/Logging/clam-prov-logger.c:403-419 | from any initialised world with a free lock, an idle thread that calls shutdown blocks itself in three steps |
| ConcurrentLog.NoDeadlock | src/Logging/clam-prov-logger.c:295-303 | with the flush inside the lock some thread can always go on while a call is unfinished |
| ConcurrentLog.CallsFinish | src/Logging/clam-prov-logger.c:295-427 | then all calls end after exactly the steps they have left, however threads are scheduled |

## Left out

- WrapMeaning.WrappingPreservesMeaning: asks for sinks without variadic arguments, because a wrapper does lose these (`VariadicSinks.WrappingKeepsExactly`).
- EndToEnd.LogHoldsCompletedCalls: is about shutdown flushing inside its lock, `EndToEnd.LogAsWritten` about the code's own; all theorems of `EndToEnd` about the log ask that logged results are 64-bit integers, since the widths and the void result in the C varargs call are not modelled.
- LoggerCode.Globals.ShutdownConcrete: does not take the lock a second time, unlike line 408; `LoggerCode.Globals.Shutdown` is the code's own.
- ConcurrentLogger.NextInvariant: starts from an initialised logger; a mutex initialised or destroyed while threads use it is not modelled.
- PipelineLog.FinishedLog: asks that `main` exists with a body, is not called, directly or through a pointer, and does not branch to its first block, because each such call or branch would start the logger again; `PipelineLog.RunningLog` asks none of this.
- Pipeline.InstrumentationPreservesMeaning: reads a register that has not been written as zero, so it does not see a cast in front of the call that defines its operand; `AcceptedModules.WorksExactly` says for which programs there is none.
- Pipeline.InstrumentationPreservesMeaning: takes logger calls to return; with shutdown as it is written a run from `main` shows all the program shows but the final result (`PipelineLog.ShownBeforeShutdown`).
- Pipeline.InstrumentationPreservesMeaning: asks that no code pointer of the program stands for a wrapper, which does not exist when the program is written.
- AcceptedModules.RefusedExactly: asks that within a block no call uses its own result or that of a later call as an argument, as LLVM does for reachable blocks; LLVM's other rules are not modelled.
- Callbacks and threads: an external function that calls back into the module, or starts a thread in it, is not covered.
- DummyMain.Pass.FreshName: asks for fewer than 2^32 names in the module, as the search of the code itself does.
- Invokes, exceptions and exits other than by return: `WrapSinks` turns an invoke into a call, and a run that exits early makes no shutdown call.
- Replacing uses: a wrapper call takes over the register of the call it replaces, where the code gives it a new identity and renames.
- Metadata on calls through pointers, and the program's own annotations or tags from an earlier run.
- Declarations of intrinsics and logger functions, which the passes add to the module; calls to them are instructions of their own kind here.
- Wrapper names that wrap around at 2^32 or meet a program function named like a wrapper: excluded for the program, as its calls would be skipped.
- The tag analysis (Clam, Crab, sea-dsa) and whether its tags are right: an oracle; that it answers with inserted tags only is assumed where said.
- LLVM's generic cleanup passes, constant folding of casts, pass registration and options, and reading or writing bitcode.
- Widths and signs of parsed integers in LLVM's `APInt`: configured indices and settings are unbounded integers; the `clam-prov-size` label is not read.
- The global variable that holds a logged name: the name itself is the operand.
- Paths, home directory, fifo, file locks, `fsync`, clock and thread ids: parameters or dropped; `write` takes any number of bytes.
- Names longer than 2^31 characters, and reading a name that has no terminator in `CallSiteLogReader`.
- `SourcesAndSinks` printing, the statistics, the Python driver and the build files: they would add easy members only.
