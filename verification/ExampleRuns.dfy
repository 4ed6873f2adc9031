/** The runs of a small program, step by step: an operation, a branch, a call and a return. */
module ExampleRuns {
  import opened Text
  import opened Ir
  import opened Semantics

  const SIG := Signature([Other, Other], false, Other)
  const LESS := Operation("less", [Num(3), Num(4)])
  const LEFT := External("left", [Num(3), Num(4)])

  function Choose(): Function {
    Function("choose", SIG, [
      [Op(Some(Prog(0)), "less", [Argument(0, Other), Argument(1, Other)]), Branch(Result(Prog(0), Other), 1, 2)],
      [Call(Some(Prog(1)), Direct("left", SIG), [Argument(0, Other), Argument(1, Other)], None, None),
       Return(Some(Result(Prog(1), Other)))],
      [Return(Some(Argument(1, Other)))]])
  }

  function Code(): seq<Function> {
    [Choose(), Function("left", SIG, [])]
  }

  lemma Found()
    ensures Find(Code(), "choose") == Some(Choose()) && Find(Code(), "left") == Some(Function("left", SIG, []))
  {
    assert Code()[1..][0] == Code()[1];
  }

  function At(block: nat, pc: nat, prev: nat, entry: Registers, regs: Registers): Stack {
    Push(Frame("choose", [Num(3), Num(4)], block, pc, prev, entry, regs, None, None), Empty)
  }

  lemma Arguments(regs: Registers)
    ensures EvalAll([Num(3), Num(4)], regs, [Argument(0, Other), Argument(1, Other)]) == [Num(3), Num(4)]
  {
  }

  lemma Operates(env: Environment)
    ensures Step(Code(), env, Start("choose", [Num(3), Num(4)])) ==
            State(At(0, 1, 0, map[], map[Prog(0) := env.answer(LESS, [])]), [LESS], [], None)
  {
    Arguments(map[]);
    Found();
  }

  lemma Branches(env: Environment, v: Value)
    ensures Step(Code(), env, State(At(0, 1, 0, map[], map[Prog(0) := v]), [LESS], [], None)) ==
            State(At(if v != Num(0) then 1 else 2, 0, 0, map[Prog(0) := v], map[Prog(0) := v]), [LESS], [], None)
  {
    Found();
  }

  lemma Calls(env: Environment, regs: Registers)
    ensures var v := env.answer(LEFT, [LESS]);
            Step(Code(), env, State(At(1, 0, 0, regs, regs), [LESS], [], None)) ==
            State(At(1, 1, 0, regs, regs[Prog(1) := v]), [LESS, LEFT],
                  [Enter("left", [Num(3), Num(4)], None), Leave("left", v, None)], None)
  {
    Arguments(regs);
    Found();
  }

  lemma Returns(env: Environment, block: nat, entry: Registers, regs: Registers, world: seq<Query>, trace: seq<Event>)
    requires block == 1 ==> Prog(1) in regs
    requires block == 1 || block == 2
    ensures var v := if block == 1 then regs[Prog(1)] else Num(4);
            Step(Code(), env, State(At(block, if block == 1 then 1 else 0, 0, entry, regs), world, trace, None)) ==
            State(Empty, world, trace + [Leave("choose", v, None)], Some(v))
  {
    Found();
  }

  lemma RunNext(env: Environment, s: State, n: nat, t: State)
    requires Run(Code(), env, s, n) == t
    ensures Run(Code(), env, s, n + 1) == Step(Code(), env, t)
  {
    hide Step;
    hide Code;
  }

  /** `choose(3, 4)` asks whether 3 is less than 4; if so it gives back what `left(3, 4)` gives, otherwise 4. */
  lemma ChooseRuns(env: Environment)
    ensures var less, v := env.answer(LESS, []), env.answer(LEFT, [LESS]);
            var s := Start("choose", [Num(3), Num(4)]);
            if less != Num(0) then
              Run(Code(), env, s, 4) ==
              State(Empty, [LESS, LEFT],
                    [Enter("left", [Num(3), Num(4)], None), Leave("left", v, None)] + [Leave("choose", v, None)], Some(v))
            else
              Run(Code(), env, s, 3) == State(Empty, [LESS], [] + [Leave("choose", Num(4), None)], Some(Num(4)))
  {
    hide Step;
    hide Run;
    hide Code;
    hide Choose;
    hide Start;
    var less, s := env.answer(LESS, []), Start("choose", [Num(3), Num(4)]);
    RunNothing(env, s);
    Operates(env);
    RunNext(env, s, 0, s);
    Branches(env, less);
    RunNext(env, s, 1, Run(Code(), env, s, 1));
    RunNext(env, s, 2, Run(Code(), env, s, 2));
    var regs := map[Prog(0) := less];
    if less != Num(0) {
      var v := env.answer(LEFT, [LESS]);
      Calls(env, regs);
      RunNext(env, s, 3, Run(Code(), env, s, 3));
      Returns(env, 1, regs, regs[Prog(1) := v], [LESS, LEFT],
              [Enter("left", [Num(3), Num(4)], None), Leave("left", v, None)]);
    } else {
      Returns(env, 2, regs, regs, [LESS], []);
    }
  }

  lemma RunNothing(env: Environment, s: State)
    ensures Run(Code(), env, s, 0) == s
  {
    hide Step;
  }
}
