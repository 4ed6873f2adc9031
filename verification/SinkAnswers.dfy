/** The tags a sink carries after the analysis are its answers for the arguments the configuration makes sinks. */
module SinkAnswers {
  import opened Text
  import opened Metadata
  import opened CallSiteMetadata
  import opened Configuration
  import opened Ir
  import opened WrapSinks
  import opened AddMetadata
  import opened NumberedCalls
  import opened Instrumentation
  import opened Pipeline
  import opened FromSource
  import opened LabelledParameters
  import opened WrapperMarks
  import T = TagResults
  import D = DependencyMap
  import F = Forwarding

  // ---- One call ----

  /** The analysis' answer for argument `k`, counted from 1. */
  function AnswerFor(i: Instr, q: T.Query, k: nat): Option<seq<int>> {
    if i.Call? && 1 <= k <= |i.args| then q(i.args[k - 1]) else None
  }

  function AnswerPieces(i: Instr, q: T.Query): nat -> seq<int> {
    (k: nat) => match AnswerFor(i, q, k) case Some(tags) => tags case None => []
  }

  /** The call has got the answers for its arguments `ks`, one after the other, exactly if there are any and all are known. */
  ghost predicate Answered(i: Instr, q: T.Query, r: Instr, ks: seq<nat>) {
    && i.Call? && r.Call? && r == i.(tags := r.tags)
    && (r.tags.Some? <==> ks != [] && forall k :: k in ks ==> AnswerFor(i, q, k).Some?)
    && D.GetTags(r.tags) == if r.tags.Some? then Flat(ks, AnswerPieces(i, q)) else []
  }

  lemma OutputIsLabelled(i: Instr, slot: nat)
    requires i.Call?
    ensures T.OutputAt(i, slot) ==
            match RoleAt(i.site, slot) case None => None case Some(role) => if role.isInput then None else Some(role.index)
  {
  }

  lemma {:induction false} AnswersOf(i: Instr, n: nat, q: T.Query)
    requires i.Call? && T.SinkArguments(i) && n <= ArgumentCount(i.site)
    ensures SoFar(i, n, q, LabelledAs(i.site, n, false))
  {
    hide SoFar;
    hide RoleAt;
    hide ArgumentCount;
    hide T.SinkArguments;
    if n == 0 {
      NothingAnswered(i, q);
    } else {
      AnswersOf(i, n - 1, q);
      OutputIsLabelled(i, n - 1);
      var ks := LabelledAs(i.site, n - 1, false);
      if T.OutputAt(i, n - 1).Some? {
        OneMore(i, n - 1, q, ks);
        assert LabelledAs(i.site, n, false) == ks + [T.OutputAt(i, n - 1).value];
      } else {
        NoMore(i, n - 1, q, ks);
        assert LabelledAs(i.site, n, false) == ks;
      }
    }
  }

  ghost predicate SoFar(i: Instr, n: nat, q: T.Query, ks: seq<nat>)
    requires i.Call? && T.SinkArguments(i) && n <= ArgumentCount(i.site)
  {
    && (T.HasOutput(i, n) <==> ks != [])
    && (T.AllKnown(i, n, q) <==> forall k :: k in ks ==> AnswerFor(i, q, k).Some?)
    && T.Answers(i, n, q) == Flat(ks, AnswerPieces(i, q))
  }

  lemma NothingAnswered(i: Instr, q: T.Query)
    requires i.Call? && T.SinkArguments(i)
    ensures SoFar(i, 0, q, [])
  {
  }

  lemma OneMore(i: Instr, n: nat, q: T.Query, ks: seq<nat>)
    requires i.Call? && T.SinkArguments(i) && n < ArgumentCount(i.site) && SoFar(i, n, q, ks) && T.OutputAt(i, n).Some?
    ensures SoFar(i, n + 1, q, ks + [T.OutputAt(i, n).value])
  {
    hide T.OutputAt;
    hide T.HasOutput;
    hide T.AllKnown;
    hide ArgumentCount;
    hide Flat;
    OutputsSoFar(i, n, q);
    var k := T.OutputAt(i, n).value;
    FlatSnoc(ks, k, AnswerPieces(i, q));
    assert AnswerFor(i, q, k) == q(i.args[k - 1]);
    assert (ks + [k])[|ks|] == k;
    assert forall x :: x in ks + [k] <==> x in ks || x == k;
  }

  lemma NoMore(i: Instr, n: nat, q: T.Query, ks: seq<nat>)
    requires i.Call? && T.SinkArguments(i) && n < ArgumentCount(i.site) && SoFar(i, n, q, ks) && T.OutputAt(i, n).None?
    ensures SoFar(i, n + 1, q, ks)
  {
    hide T.OutputAt;
    hide T.HasOutput;
    hide T.AllKnown;
    hide ArgumentCount;
    hide Flat;
    OutputsSoFar(i, n, q);
  }

  lemma OutputsSoFar(i: Instr, n: nat, q: T.Query)
    requires i.Call? && T.SinkArguments(i) && n < ArgumentCount(i.site)
    ensures T.HasOutput(i, n + 1) <==> T.HasOutput(i, n) || T.OutputAt(i, n).Some?
    ensures T.AllKnown(i, n + 1, q) <==> T.AllKnown(i, n, q) && T.AnswerAt(i, n, q) != Some(None)
    ensures T.OutputAt(i, n).Some? ==> 1 <= T.OutputAt(i, n).value <= |i.args|
  {
    hide T.OutputAt;
    if T.HasOutput(i, n) {
      var slot :| 0 <= slot < n && T.OutputAt(i, slot).Some?;
      assert 0 <= slot < n + 1;
    }
  }

  /** Of a call with any labels: which tags it carries, and in which order. */
  lemma TagsOfCall(i: Instr, q: T.Query)
    requires i.Call? && T.SinkArguments(i) && i.tags.None? && D.Answers64(q)
    ensures Answered(i, q, T.TagInstr(i, q), LabelledAs(i.site, ArgumentCount(i.site), false))
  {
    hide RoleAt;
    hide ArgumentCount;
    hide LabelledAs;
    hide Flat;
    hide T.OutputAt;
    hide T.HasOutput;
    hide T.AllKnown;
    hide T.Answers;
    hide T.SinkArguments;
    hide AnswerFor;
    var n := ArgumentCount(i.site);
    AnswersOf(i, n, q);
    D.AnswersFit(i, n, q);
    D.IntegersOfConstants(T.Answers(i, n, q));
  }

  // ---- A numbered call ----

  /** Any call with the metadata of a numbered call, such as the one in its wrapper, gets the answers for its own arguments. */
  ghost predicate GetsAnswers(fs: seq<Function>, lines: seq<string>, name: string, i: Instr, q: T.Query, r: Instr)
    requires i.Call?
  {
    exists ks :: Enumerates(ks, fs, lines, name, |i.args|, false) && Answered(i, q, r, ks)
  }

  lemma ConfiguredAnswers(fs: seq<Function>, lines: seq<string>, table: Table, walk: Walk, i: Instr, c: nat, x: Instr,
                          q: T.Query)
    requires WalksTables(walk) && Holds(table, fs, lines) && Eligible(table, i) && Fits(i, c) && D.Answers64(q)
    requires x.Call? && x.site == Annotate(table, walk, i, c).site && |x.args| == |i.args| && x.tags.None?
    requires T.SinkArguments(x)
    ensures GetsAnswers(fs, lines, i.callee.name, x, q, T.TagInstr(x, q))
  {
    hide WalksTables;
    hide Holds;
    hide Annotate;
    hide Enumerates;
    hide Answered;
    hide GetsAnswers;
    hide LabelledAs;
    hide T.SinkArguments;
    hide T.TagInstr;
    hide D.Answers64;
    LabelledAreConfigured(fs, lines, table, walk, i, c, false);
    TagsOfCall(x, q);
    Getting(fs, lines, i.callee.name, x, q, T.TagInstr(x, q), LabelledAs(x.site, ArgumentCount(x.site), false));
  }

  lemma Getting(fs: seq<Function>, lines: seq<string>, name: string, i: Instr, q: T.Query, r: Instr, ks: seq<nat>)
    requires i.Call? && Enumerates(ks, fs, lines, name, |i.args|, false) && Answered(i, q, r, ks)
    ensures GetsAnswers(fs, lines, name, i, q, r)
  {
    hide Enumerates;
    hide Answered;
  }
}
