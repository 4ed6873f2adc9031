/** The entry function made for a module without `main`: it calls the module's functions with unknown arguments. */
module DummyMain {
  import opened Text
  import Ir

  /** A type's identity. */
  type TypeId = nat

  datatype Fn = Fn(name: string, parameters: seq<TypeId>, result: TypeId, isDeclaration: bool)

  /** Instructions of the new function; an argument is the position of the instruction that makes it. */
  datatype Code = Unknown(fn: string) | Invoke(fn: string, args: seq<nat>) | ReturnZero

  const PREFIX := "verifier.nondet."
  const INT: TypeId := 0
  const TWO_TO_THE_32: nat := 0x1_0000_0000

  /** The `i`th name tried, with a 32-bit counter that starts at `start`. */
  function Candidate(prefix: string, start: nat, i: nat): string {
    prefix + Decimal((start + i) % TWO_TO_THE_32)
  }

  /** The counter after `i` steps gives the `i`th candidate. */
  lemma CandidateIs(prefix: string, start: nat, i: nat)
    ensures Candidate(prefix, start, i) == prefix + Decimal((start + i) % TWO_TO_THE_32)
    ensures ((start + i) % TWO_TO_THE_32 + 1) % TWO_TO_THE_32 == (start + i + 1) % TWO_TO_THE_32
    ensures start < TWO_TO_THE_32 ==> Candidate(prefix, start, 0) == prefix + Decimal(start)
  {
    hide Decimal;
    CounterWraps(start + i);
  }

  lemma CounterWraps(x: nat)
    ensures (x % TWO_TO_THE_32 + 1) % TWO_TO_THE_32 == (x + 1) % TWO_TO_THE_32
  {
    var q, r := x / TWO_TO_THE_32, x % TWO_TO_THE_32;
    if r + 1 == TWO_TO_THE_32 {
      assert x + 1 == (q + 1) * TWO_TO_THE_32;
    } else {
      assert x + 1 == q * TWO_TO_THE_32 + (r + 1);
    }
  }

  lemma CandidatesDiffer(prefix: string, start: nat, i: nat, j: nat)
    requires i < j < i + TWO_TO_THE_32
    ensures Candidate(prefix, start, i) != Candidate(prefix, start, j)
  {
    var a, b := (start + i) % TWO_TO_THE_32, (start + j) % TWO_TO_THE_32;
    ModuloDiffers(start + i, start + j);
    DecimalInjective(a, b);
    assert (prefix + Decimal(a))[|prefix|..] == Decimal(a);
    assert (prefix + Decimal(b))[|prefix|..] == Decimal(b);
  }

  lemma ModuloDiffers(x: nat, y: nat)
    requires x < y < x + TWO_TO_THE_32
    ensures x % TWO_TO_THE_32 != y % TWO_TO_THE_32
  {
    var a, b := x / TWO_TO_THE_32, y / TWO_TO_THE_32;
    assert x == a * TWO_TO_THE_32 + x % TWO_TO_THE_32 && y == b * TWO_TO_THE_32 + y % TWO_TO_THE_32;
  }

  function Candidates(prefix: string, start: nat, n: nat): set<string> {
    set i: nat | i < n :: Candidate(prefix, start, i)
  }

  lemma {:induction false} CandidateCount(prefix: string, start: nat, n: nat)
    requires n <= TWO_TO_THE_32
    ensures |Candidates(prefix, start, n)| == n
  {
    hide Candidate;
    if n > 0 {
      CandidateCount(prefix, start, n - 1);
      assert Candidates(prefix, start, n) == Candidates(prefix, start, n - 1) + {Candidate(prefix, start, n - 1)};
      forall i: nat | i < n - 1
        ensures Candidate(prefix, start, i) != Candidate(prefix, start, n - 1)
      {
        CandidatesDiffer(prefix, start, i, n - 1);
      }
    }
  }

  lemma SubsetSize(a: set<string>, b: set<string>)
    requires a <= b
    ensures |a| <= |b|
  {
    assert b == a + (b - a);
  }

  /** Some name among the first `|names| + 1` is free: there are more of them than names taken. */
  lemma Pigeonhole(prefix: string, start: nat, names: set<string>)
    requires |names| < TWO_TO_THE_32
    ensures exists i: nat :: i <= |names| && Candidate(prefix, start, i) !in names
  {
    hide Candidate;
    var tried := Candidates(prefix, start, |names| + 1);
    CandidateCount(prefix, start, |names| + 1);
    if forall i: nat :: i <= |names| ==> Candidate(prefix, start, i) in names {
      SubsetSize(tried, names);
      assert false;
    }
  }

  /** The name is the first candidate that is not taken, and is found in time. */
  ghost predicate FirstFree(name: string, prefix: string, start: nat, taken: set<string>) {
    name !in taken &&
    exists i: nat :: i <= |taken| && name == Candidate(prefix, start, i) &&
                     forall j: nat :: j < i ==> Candidate(prefix, start, j) in taken
  }

  // ---- What the new function should be ----

  /** The functions to call: the chosen entry, or all functions with a body. */
  function ToCall(fs: seq<Fn>, entry: string): seq<Fn> {
    match Lookup(fs, entry)
    case Some(f) => if entry != "" then [f] else Defined(fs)
    case None => Defined(fs)
  }

  function Defined(fs: seq<Fn>): seq<Fn> {
    if fs == [] then []
    else
      var f := fs[|fs| - 1];
      Defined(fs[..|fs| - 1]) + if f.name == Ir.MAIN || f.isDeclaration then [] else [f]
  }

  function Lookup(fs: seq<Fn>, name: string): Option<Fn> {
    if fs == [] then None else if fs[0].name == name then Some(fs[0]) else Lookup(fs[1..], name)
  }

  /** The names of the functions called, other than for unknown values. */
  function Invoked(code: seq<Code>): seq<string> {
    if code == [] then []
    else Invoked(code[..|code| - 1]) + match code[|code| - 1] case Invoke(fn, _) => [fn] case _ => []
  }

  function Names(fs: seq<Fn>): seq<string> {
    seq(|fs|, i requires 0 <= i < |fs| => fs[i].name)
  }

  /** The table of functions for unknown values: one for each type, none shared, each a declaration of the module. */
  ghost predicate TableOk(ndfn: map<TypeId, string>, fs: seq<Fn>) {
    && (forall t :: t in ndfn ==> exists k :: 0 <= k < |fs| && fs[k] == Fn(ndfn[t], [], t, true))
    && (forall t, u :: t in ndfn && u in ndfn && t != u ==> ndfn[t] != ndfn[u])
  }

  /**
    * The arguments are unknown values of the parameters' types, made in order right in front of place `at`: so no value
    * serves two arguments, of one call or of two.
    */
  predicate ArgumentsOk(code: seq<Code>, at: nat, args: seq<nat>, parameters: seq<TypeId>, ndfn: map<TypeId, string>) {
    |args| == |parameters| && |args| <= at <= |code| &&
    forall j :: 0 <= j < |args| ==>
      args[j] == at - |args| + j && parameters[j] in ndfn && code[args[j]] == Unknown(ndfn[parameters[j]])
  }

  /** No two arguments are the same value. */
  lemma ArgumentsDiffer(code: seq<Code>, targets: seq<Fn>, ndfn: map<TypeId, string>, at1: nat, j1: nat, at2: nat, j2: nat)
    requires CallsOk(code, targets, ndfn) && at1 < |code| && at2 < |code| && code[at1].Invoke? && code[at2].Invoke?
    requires j1 < |code[at1].args| && j2 < |code[at2].args|
    ensures code[at1].args[j1] == code[at2].args[j2] <==> at1 == at2 && j1 == j2
  {
    hide Invoked;
    if at1 < at2 {
      ArgumentBetween(code, targets, ndfn, at1, at2, j2);
    } else if at2 < at1 {
      ArgumentBetween(code, targets, ndfn, at2, at1, j1);
    }
  }

  /** The arguments of a call are made behind every earlier call. */
  lemma ArgumentBetween(code: seq<Code>, targets: seq<Fn>, ndfn: map<TypeId, string>, early: nat, at: nat, j: nat)
    requires CallsOk(code, targets, ndfn) && early < at < |code| && code[early].Invoke? && code[at].Invoke?
    requires j < |code[at].args|
    ensures early < code[at].args[j] < at
  {
    hide Invoked;
    var k :| 0 <= k < |targets| && targets[k].name == code[at].fn &&
      ArgumentsOk(code, at, code[at].args, targets[k].parameters, ndfn);
    OnlyUnknownsInFront(code, at, code[at].args, targets[k].parameters, ndfn);
  }

  lemma OnlyUnknownsInFront(code: seq<Code>, at: nat, args: seq<nat>, parameters: seq<TypeId>, ndfn: map<TypeId, string>)
    requires ArgumentsOk(code, at, args, parameters, ndfn)
    ensures forall x :: at - |args| <= x < at ==> code[x].Unknown?
  {
    forall x | at - |args| <= x < at
      ensures code[x].Unknown?
    {
      assert args[x - (at - |args|)] == x;
    }
  }

  /** Call `k` of the code passes fitting arguments to the `k`th function of the list. */
  ghost predicate CallsOk(code: seq<Code>, targets: seq<Fn>, ndfn: map<TypeId, string>) {
    && Invoked(code) == Names(targets)
    && forall at :: 0 <= at < |code| && code[at].Invoke? ==>
         exists k :: 0 <= k < |targets| && targets[k].name == code[at].fn &&
                     ArgumentsOk(code, at, code[at].args, targets[k].parameters, ndfn)
  }

  lemma InvokedSnoc(code: seq<Code>, c: Code)
    ensures Invoked(code + [c]) == Invoked(code) + match c case Invoke(fn, _) => [fn] case _ => []
  {
    assert (code + [c])[..|code|] == code;
  }

  lemma LookupNone(fs: seq<Fn>, name: string)
    ensures Lookup(fs, name).None? <==> forall k :: 0 <= k < |fs| ==> fs[k].name != name
  {
  }

  function NameSet(fs: seq<Fn>): set<string> {
    set k | 0 <= k < |fs| :: fs[k].name
  }

  // ---- The pass ----

  class Unit {
    var functions: seq<Fn>
    var globals: set<string>

    constructor (functions: seq<Fn>, globals: set<string>)
      ensures this.functions == functions && this.globals == globals
    {
      this.functions, this.globals := functions, globals;
    }

    ghost function Named(): set<string>
      reads this
    {
      NameSet(functions) + globals
    }

    /** `getNamedValue`. */
    method IsNamed(name: string) returns (taken: bool)
      ensures taken == (name in Named())
    {
      LookupNone(functions, name);
      return name in globals || Lookup(functions, name).Some?;
    }
  }

  class Pass {
    const entryPoint: string
    var ndfn: map<TypeId, string>

    constructor (entryPoint: string)
      ensures this.entryPoint == entryPoint && ndfn == map[]
    {
      this.entryPoint := entryPoint;
      ndfn := map[];
    }

    /** `makeNewNondetFn`'s loop: it ends because the names taken are fewer than the names it can try. */
    method FreshName(M: Unit, num: nat, prefix: string) returns (name: string)
      requires |M.Named()| < TWO_TO_THE_32 && num < TWO_TO_THE_32
      ensures name !in M.Named()
      ensures FirstFree(name, prefix, num, M.Named())
    {
      hide Candidate;
      hide NameSet;
      ghost var names := M.Named();
      CandidateIs(prefix, num, 0);
      var c := num;
      name := prefix + Decimal(c);
      c := (c + 1) % TWO_TO_THE_32;
      ghost var i := 0;
      Pigeonhole(prefix, num, names);
      var taken := M.IsNamed(name);
      while taken
        invariant names == M.Named() && taken == (name in names)
        invariant name == Candidate(prefix, num, i) && c == (num + i + 1) % TWO_TO_THE_32
        invariant forall j: nat :: j < i ==> Candidate(prefix, num, j) in names
        invariant i <= |names|
        decreases |names| - i
      {
        CandidateIs(prefix, num, i + 1);
        name := prefix + Decimal(c);
        c := (c + 1) % TWO_TO_THE_32;
        i := i + 1;
        taken := M.IsNamed(name);
      }
    }

    /** `getNondetFn`: one function for each type, made when the type first occurs. */
    method GetNondetFn(M: Unit, ty: TypeId) returns (fn: string)
      requires TableOk(ndfn, M.functions) && |M.Named()| < TWO_TO_THE_32 && |ndfn| < TWO_TO_THE_32
      modifies this`ndfn, M`functions
      ensures TableOk(ndfn, M.functions) && ty in ndfn && ndfn[ty] == fn
      ensures Extends(old(ndfn), ndfn) && |ndfn| <= |old(ndfn)| + 1
      ensures if ty in old(ndfn) then M.functions == old(M.functions)
              else M.functions == old(M.functions) + [Fn(fn, [], ty, true)] &&
                   FirstFree(fn, "verifier.nondet.", |old(ndfn)|, old(M.Named()))
      ensures Grows(old(M.functions), M.functions) && |M.Named()| <= |old(M.Named())| + 1
    {
      hide Lookup;
      hide NameSet;
      hide TableOk;
      hide Extends;
      hide Grows;
      Unchanged(ndfn, M.functions);
      if ty in ndfn {
        return ndfn[ty];
      }
      fn := FreshName(M, |ndfn|, PREFIX);
      ghost var before := M.functions;
      NamesGrow(before, before + [Fn(fn, [], ty, true)], M.globals);
      M.functions := M.functions + [Fn(fn, [], ty, true)];
      ndfn := ndfn[ty := fn];
      TableNext(old(ndfn), before, ty, fn);
      assert ndfn.Keys == old(ndfn).Keys + {ty};
    }

    /** The unknown arguments for one call, in front of it. */
    method MakeArguments(M: Unit, f: Fn, code: seq<Code>) returns (longer: seq<Code>, args: seq<nat>)
      requires TableOk(ndfn, M.functions) && |M.Named()| + |f.parameters| < TWO_TO_THE_32
      requires |ndfn| + |f.parameters| < TWO_TO_THE_32
      modifies this`ndfn, M`functions
      ensures TableOk(ndfn, M.functions) && Extends(old(ndfn), ndfn) && Grows(old(M.functions), M.functions)
      ensures |M.Named()| <= |old(M.Named())| + |f.parameters| && |ndfn| <= |old(ndfn)| + |f.parameters|
      ensures OnlyUnknowns(code, longer) && ArgumentsOk(longer, |longer|, args, f.parameters, ndfn)
    {
      hide *;
      longer, args := code, [];
      NoArguments(code, f.parameters, ndfn, M.functions);
      for j := 0 to |f.parameters|
        invariant TableOk(ndfn, M.functions) && Extends(old(ndfn), ndfn) && Grows(old(M.functions), M.functions)
        invariant |M.Named()| <= |old(M.Named())| + j && |ndfn| <= |old(ndfn)| + j
        invariant OnlyUnknowns(code, longer) && ArgumentsOk(longer, |longer|, args, f.parameters[..j], ndfn)
      {
        ghost var table, fs := ndfn, M.functions;
        var fn := GetNondetFn(M, f.parameters[j]);
        StillGrows(old(ndfn), table, ndfn, old(M.functions), fs, M.functions);
        ArgumentsNext(code, longer, args, f.parameters, j, table, ndfn);
        longer := longer + [Unknown(fn)];
        args := args + [|longer| - 1];
      }
      assert f.parameters[..|f.parameters|] == f.parameters;
    }

    /** `runOnModule`: a module without `main` gets one that makes exactly the calls it should. */
    method RunOnModule(M: Unit) returns (created: bool, code: seq<Code>)
      requires ndfn == map[]
      requires |M.Named()| + 1 + ParameterCount(ToCall(M.functions, entryPoint)) < TWO_TO_THE_32
      modifies this`ndfn, M`functions
      ensures created <==> Lookup(old(M.functions), Ir.MAIN).None?
      ensures !created ==> M.functions == old(M.functions)
      ensures created ==>
                && TableOk(ndfn, M.functions) && Grows(old(M.functions) + [Fn(Ir.MAIN, [], INT, false)], M.functions)
                && CallsOk(code, ToCall(old(M.functions), entryPoint), ndfn)
                && code != [] && code[|code| - 1] == ReturnZero
    {
      hide TableOk;
      hide CallsOk;
      hide Extends;
      hide Grows;
      hide NameSet;
      hide Lookup;
      hide ToCall;
      hide ParameterCount;
      hide ArgumentsOk;
      hide OnlyUnknowns;
      code := [];
      if Lookup(M.functions, Ir.MAIN).Some? {
        return false, code;
      }
      var targets := ToCall(M.functions, entryPoint);
      ghost var own := M.functions + [Fn(Ir.MAIN, [], INT, false)];
      NamesGrow(M.functions, own, M.globals);
      M.functions := M.functions + [Fn(Ir.MAIN, [], INT, false)];
      NothingCalled(own, targets);
      for k := 0 to |targets|
        invariant TableOk(ndfn, M.functions) && Grows(own, M.functions)
        invariant |M.Named()| <= |old(M.Named())| + 1 + ParameterCount(targets[..k])
        invariant |ndfn| <= ParameterCount(targets[..k])
        invariant CallsOk(code, targets[..k], ndfn)
      {
        ParametersLeft(targets, k);
        ghost var table, before, fs := ndfn, code, M.functions;
        var longer, args := MakeArguments(M, targets[k], code);
        code := longer + [Invoke(targets[k].name, args)];
        StillGrows(table, table, ndfn, own, fs, M.functions);
        CallsNext(before, longer, targets, k, table, ndfn, args);
      }
      assert targets[..|targets|] == targets;
      CallsEnd(code, targets, ndfn);
      code := code + [ReturnZero];
      return true, code;
    }
  }

  lemma TableNames(ndfn: map<TypeId, string>, fs: seq<Fn>)
    requires TableOk(ndfn, fs)
    ensures forall t :: t in ndfn ==> ndfn[t] in NameSet(fs)
  {
  }

  lemma TableNext(ndfn: map<TypeId, string>, fs: seq<Fn>, ty: TypeId, fn: string)
    requires TableOk(ndfn, fs) && ty !in ndfn && fn !in NameSet(fs)
    ensures TableOk(ndfn[ty := fn], fs + [Fn(fn, [], ty, true)])
    ensures Extends(ndfn, ndfn[ty := fn]) && Grows(fs, fs + [Fn(fn, [], ty, true)])
  {
    TableNames(ndfn, fs);
    var gs, after := fs + [Fn(fn, [], ty, true)], ndfn[ty := fn];
    forall t | t in after
      ensures exists k :: 0 <= k < |gs| && gs[k] == Fn(after[t], [], t, true)
    {
      if t == ty {
        assert gs[|fs|] == Fn(fn, [], ty, true);
      } else {
        var k :| 0 <= k < |fs| && fs[k] == Fn(ndfn[t], [], t, true);
        assert gs[k] == fs[k];
      }
    }
  }

  // ---- What one more call changes ----

  function ParameterCount(fs: seq<Fn>): nat {
    if fs == [] then 0 else ParameterCount(fs[..|fs| - 1]) + |fs[|fs| - 1].parameters|
  }

  lemma {:induction false} ParametersLeft(fs: seq<Fn>, k: nat)
    requires k < |fs|
    ensures ParameterCount(fs[..k + 1]) == ParameterCount(fs[..k]) + |fs[k].parameters|
    ensures ParameterCount(fs[..k + 1]) <= ParameterCount(fs)
  {
    assert fs[..k + 1][..k] == fs[..k];
    if k + 1 < |fs| {
      var init := fs[..|fs| - 1];
      ParametersLeft(init, k);
      assert init[..k + 1] == fs[..k + 1] && init[..k] == fs[..k];
    } else {
      assert fs[..k + 1] == fs;
    }
  }

  ghost predicate Extends(table: map<TypeId, string>, wider: map<TypeId, string>) {
    forall t :: t in table ==> t in wider && wider[t] == table[t]
  }

  /** Only declarations without parameters have been added behind. */
  predicate Grows(fs: seq<Fn>, gs: seq<Fn>) {
    fs <= gs && forall k :: |fs| <= k < |gs| ==> gs[k].isDeclaration && gs[k].parameters == []
  }

  predicate OnlyUnknowns(code: seq<Code>, longer: seq<Code>) {
    code <= longer && forall k :: |code| <= k < |longer| ==> longer[k].Unknown?
  }

  lemma NamesGrow(fs: seq<Fn>, gs: seq<Fn>, globals: set<string>)
    requires fs == gs || (gs != [] && fs == gs[..|gs| - 1])
    ensures |NameSet(gs) + globals| <= |NameSet(fs) + globals| + 1
  {
    if fs != gs {
      var x := gs[|gs| - 1].name;
      assert NameSet(gs) == NameSet(fs) + {x};
      SubsetSize(NameSet(gs) + globals, NameSet(fs) + globals + {x});
      OneMore(NameSet(fs) + globals, x);
    }
  }

  lemma OneMore(s: set<string>, x: string)
    ensures |s + {x}| <= |s| + 1
  {
  }

  lemma Unchanged(ndfn: map<TypeId, string>, fs: seq<Fn>)
    ensures Extends(ndfn, ndfn) && Grows(fs, fs)
  {
  }

  lemma NothingCalled(fs: seq<Fn>, targets: seq<Fn>)
    ensures TableOk(map[], fs) && Grows(fs, fs) && CallsOk([], targets[..0], map[]) && ParameterCount(targets[..0]) == 0
    ensures forall table: map<TypeId, string> :: Extends(table, table)
  {
  }

  lemma NoArguments(code: seq<Code>, parameters: seq<TypeId>, ndfn: map<TypeId, string>, fs: seq<Fn>)
    ensures ArgumentsOk(code, |code|, [], parameters[..0], ndfn) && OnlyUnknowns(code, code)
    ensures Extends(ndfn, ndfn) && Grows(fs, fs)
  {
  }

  lemma StillGrows(a: map<TypeId, string>, b: map<TypeId, string>, c: map<TypeId, string>, fs: seq<Fn>, gs: seq<Fn>, hs: seq<Fn>)
    requires Extends(a, b) && Extends(b, c) && Grows(fs, gs) && Grows(gs, hs)
    ensures Extends(a, c) && Grows(fs, hs)
  {
  }

  lemma ArgumentsNext(code: seq<Code>, longer: seq<Code>, args: seq<nat>, parameters: seq<TypeId>, j: nat,
                      table: map<TypeId, string>, ndfn: map<TypeId, string>)
    requires j < |parameters| && ArgumentsOk(longer, |longer|, args, parameters[..j], table)
    requires OnlyUnknowns(code, longer) && Extends(table, ndfn) && parameters[j] in ndfn
    ensures var more := longer + [Unknown(ndfn[parameters[j]])];
            OnlyUnknowns(code, more) && ArgumentsOk(more, |more|, args + [|longer|], parameters[..j + 1], ndfn)
  {
  }

  lemma ArgumentsStay(code: seq<Code>, at: nat, args: seq<nat>, parameters: seq<TypeId>, table: map<TypeId, string>,
                      longer: seq<Code>, wider: map<TypeId, string>)
    requires ArgumentsOk(code, at, args, parameters, table) && code <= longer && Extends(table, wider)
    ensures ArgumentsOk(longer, at, args, parameters, wider)
  {
  }

  lemma {:induction false} UnknownsInvokeNothing(code: seq<Code>, longer: seq<Code>)
    requires OnlyUnknowns(code, longer)
    ensures Invoked(longer) == Invoked(code)
  {
    if |longer| > |code| {
      UnknownsInvokeNothing(code, longer[..|longer| - 1]);
    } else {
      assert longer == code;
    }
  }

  lemma CallsNext(before: seq<Code>, longer: seq<Code>, targets: seq<Fn>, k: nat, table: map<TypeId, string>,
                  ndfn: map<TypeId, string>, args: seq<nat>)
    requires k < |targets| && CallsOk(before, targets[..k], table) && OnlyUnknowns(before, longer) && Extends(table, ndfn)
    requires ArgumentsOk(longer, |longer|, args, targets[k].parameters, ndfn)
    ensures CallsOk(longer + [Invoke(targets[k].name, args)], targets[..k + 1], ndfn)
  {
    hide Invoked;
    var call := Invoke(targets[k].name, args);
    var code, ts := longer + [call], targets[..k + 1];
    UnknownsInvokeNothing(before, longer);
    InvokedSnoc(longer, call);
    assert Names(ts) == Names(targets[..k]) + [targets[k].name];
    forall at | 0 <= at < |code| && code[at].Invoke?
      ensures exists n :: 0 <= n < |ts| && ts[n].name == code[at].fn &&
                          ArgumentsOk(code, at, code[at].args, ts[n].parameters, ndfn)
    {
      if at < |before| {
        assert before[at] == code[at];
        var n :| 0 <= n < k && targets[..k][n].name == before[at].fn &&
          ArgumentsOk(before, at, before[at].args, targets[..k][n].parameters, table);
        ArgumentsStay(before, at, before[at].args, targets[n].parameters, table, code, ndfn);
        assert ts[n] == targets[..k][n];
      } else {
        assert at == |longer|;
        ArgumentsStay(longer, |longer|, args, targets[k].parameters, ndfn, code, ndfn);
        assert ts[k] == targets[k];
      }
    }
  }

  lemma CallsEnd(code: seq<Code>, targets: seq<Fn>, ndfn: map<TypeId, string>)
    requires CallsOk(code, targets, ndfn)
    ensures CallsOk(code + [ReturnZero], targets, ndfn)
  {
    hide Invoked;
    var longer := code + [ReturnZero];
    InvokedSnoc(code, ReturnZero);
    forall at | 0 <= at < |longer| && longer[at].Invoke?
      ensures exists k :: 0 <= k < |targets| && targets[k].name == longer[at].fn &&
                          ArgumentsOk(longer, at, longer[at].args, targets[k].parameters, ndfn)
    {
      assert longer[at] == code[at];
      var k :| 0 <= k < |targets| && targets[k].name == code[at].fn &&
        ArgumentsOk(code, at, code[at].args, targets[k].parameters, ndfn);
      ArgumentsStay(code, at, code[at].args, targets[k].parameters, ndfn, longer, ndfn);
    }
  }

  ghost predicate HasBody(fs: seq<Fn>, name: string) {
    exists k :: 0 <= k < |fs| && fs[k].name == name && !fs[k].isDeclaration
  }

  ghost predicate Distinct(fs: seq<Fn>) {
    forall i, j :: 0 <= i < j < |fs| ==> fs[i].name != fs[j].name
  }

  lemma HasBodySnoc(fs: seq<Fn>, f: Fn, name: string)
    ensures HasBody(fs + [f], name) <==> HasBody(fs, name) || (f.name == name && !f.isDeclaration)
  {
    var longer := fs + [f];
    if HasBody(fs, name) {
      var k :| 0 <= k < |fs| && fs[k].name == name && !fs[k].isDeclaration;
      assert longer[k] == fs[k];
    }
    assert longer[|fs|] == f;
  }

  lemma DistinctSnoc(fs: seq<Fn>, f: Fn)
    requires Distinct(fs + [f])
    ensures Distinct(fs) && !HasBody(fs, f.name)
  {
    var longer := fs + [f];
    forall k | 0 <= k < |fs|
      ensures fs[k].name != f.name
    {
      assert longer[k] == fs[k] && longer[|fs|] == f;
    }
    forall i, j | 0 <= i < j < |fs|
      ensures fs[i].name != fs[j].name
    {
      assert longer[i] == fs[i] && longer[j] == fs[j];
    }
  }

  lemma DefinedSnoc(fs: seq<Fn>, f: Fn)
    ensures Names(Defined(fs + [f])) ==
            Names(Defined(fs)) + if f.name == Ir.MAIN || f.isDeclaration then [] else [f.name]
  {
    assert (fs + [f])[..|fs|] == fs;
  }

  /** Without a chosen entry, every function with a body other than `main` is called exactly once, and nothing else. */
  lemma {:induction false} EveryDefinedOnce(fs: seq<Fn>, name: string)
    requires Distinct(fs)
    ensures multiset(Names(Defined(fs)))[name] == if HasBody(fs, name) && name != Ir.MAIN then 1 else 0
  {
    hide Distinct;
    hide HasBody;
    hide Names;
    if fs == [] {
      NothingDefined(name);
    } else {
      var init, f := fs[..|fs| - 1], fs[|fs| - 1];
      assert fs == init + [f];
      DistinctSnoc(init, f);
      HasBodySnoc(init, f, name);
      DefinedSnoc(init, f);
      EveryDefinedOnce(init, name);
    }
  }

  /** A chosen entry that exists is called alone; otherwise all functions with a body are. */
  lemma EntryAlone(fs: seq<Fn>, entry: string, k: nat)
    requires k < |fs| && fs[k].name == entry && Distinct(fs) && entry != ""
    ensures ToCall(fs, entry) == [fs[k]]
  {
    LookupNone(fs, entry);
    LookupFinds(fs, entry);
  }

  lemma {:induction false} LookupFinds(fs: seq<Fn>, name: string)
    requires Lookup(fs, name).Some?
    ensures exists k :: 0 <= k < |fs| && fs[k] == Lookup(fs, name).value && fs[k].name == name
  {
    if fs[0].name != name {
      LookupFinds(fs[1..], name);
      var k :| 0 <= k < |fs[1..]| && fs[1..][k] == Lookup(fs, name).value && fs[1..][k].name == name;
      assert fs[k + 1] == fs[1..][k];
    }
  }

  lemma NoEntryAll(fs: seq<Fn>, entry: string)
    requires entry == "" || forall k :: 0 <= k < |fs| ==> fs[k].name != entry
    ensures ToCall(fs, entry) == ToCall(fs, "") && ToCall(fs, "") == Defined(fs)
  {
    LookupNone(fs, entry);
  }

  lemma NothingDefined(name: string)
    ensures Names(Defined([])) == [] && !HasBody([], name)
  {
  }
}
