/** The parameters a call's metadata labels as sources and as sinks are those of the configuration, each named once. */
module LabelledParameters {
  import opened Text
  import opened Metadata
  import opened CallSiteMetadata
  import opened Configuration
  import opened Ir
  import opened AddMetadata
  import opened NumberedCalls

  /** The parameters that the first `n` argument tuples label as sources, or as sinks. */
  function LabelledAs(site: Option<seq<Node>>, n: nat, isInput: bool): seq<nat> {
    if n == 0 then []
    else
      LabelledAs(site, n - 1, isInput) +
      match RoleAt(site, n - 1)
      case None => []
      case Some(role) => if role.isInput == isInput then [role.index] else []
  }

  /** The list names each parameter that the configuration makes a source, or a sink, once. */
  ghost predicate Enumerates(ks: seq<nat>, fs: seq<Function>, lines: seq<string>, name: string, count: nat, isInput: bool) {
    && (forall k: nat :: k in ks <==> k <= count && Kind(fs, lines, name, k) == Some(isInput))
    && Distinct(ks)
  }

  predicate Distinct(ks: seq<nat>) {
    forall i, j :: 0 <= i < j < |ks| ==> ks[i] != ks[j]
  }

  lemma DistinctSnoc(ks: seq<nat>, k: nat)
    requires Distinct(ks) && k !in ks
    ensures Distinct(ks + [k])
  {
  }

  function Flat<T>(ks: seq<nat>, piece: nat -> seq<T>): seq<T> {
    if ks == [] then [] else Flat(ks[..|ks| - 1], piece) + piece(ks[|ks| - 1])
  }

  lemma FlatSnoc<T>(ks: seq<nat>, k: nat, piece: nat -> seq<T>)
    ensures Flat(ks + [k], piece) == Flat(ks, piece) + piece(k)
  {
    assert (ks + [k])[..|ks|] == ks;
  }

  lemma {:induction false} FlatSame<T>(ks: seq<nat>, a: nat -> seq<T>, b: nat -> seq<T>)
    requires forall k :: k in ks ==> a(k) == b(k)
    ensures Flat(ks, a) == Flat(ks, b)
  {
    if ks != [] {
      FlatSame(ks[..|ks| - 1], a, b);
    }
  }

  lemma {:induction false} LabelledMember(site: Option<seq<Node>>, n: nat, isInput: bool, k: nat)
    ensures k in LabelledAs(site, n, isInput) <==>
            exists slot :: 0 <= slot < n && RoleAt(site, slot) == Some(Role(slot, k, isInput))
  {
    hide RoleAt;
    if n > 0 {
      LabelledMember(site, n - 1, isInput, k);
      RoleSlot(site, n - 1);
    }
  }

  lemma RoleSlot(site: Option<seq<Node>>, slot: nat)
    ensures RoleAt(site, slot).Some? ==> RoleAt(site, slot).value.slot == slot
    ensures RoleAt(site, slot).Some? ==> GetArgument(site, slot).Some?
    ensures RoleAt(site, slot).Some? ==> RoleAt(site, slot).value.index == GetArgument(site, slot).value.index
  {
  }

  ghost predicate Apart(site: Option<seq<Node>>, n: nat) {
    forall slot1, slot2 :: 0 <= slot1 < slot2 < n && GetArgument(site, slot1).Some? && GetArgument(site, slot2).Some? ==>
      GetArgument(site, slot1).value.index != GetArgument(site, slot2).value.index
  }

  lemma {:induction false} LabelledApart(site: Option<seq<Node>>, n: nat, isInput: bool)
    requires Apart(site, n)
    ensures Distinct(LabelledAs(site, n, isInput))
  {
    hide RoleAt;
    hide GetArgument;
    if n > 0 {
      LabelledApart(site, n - 1, isInput);
      RoleSlot(site, n - 1);
      var role, before := RoleAt(site, n - 1), LabelledAs(site, n - 1, isInput);
      if role.Some? && role.value.isInput == isInput {
        LabelledMember(site, n - 1, isInput, role.value.index);
        forall slot | 0 <= slot < n - 1
          ensures RoleAt(site, slot) != Some(Role(slot, role.value.index, isInput))
        {
          RoleSlot(site, slot);
        }
        DistinctSnoc(before, role.value.index);
        assert LabelledAs(site, n, isInput) == before + [role.value.index];
      } else {
        assert LabelledAs(site, n, isInput) == before;
      }
    }
  }

  /** Of a numbered call, the labels name exactly the parameters the configuration names, among those the call has. */
  lemma LabelledAreConfigured(fs: seq<Function>, lines: seq<string>, table: Table, walk: Walk, i: Instr, c: nat, isInput: bool)
    requires WalksTables(walk) && Holds(table, fs, lines) && Eligible(table, i) && Fits(i, c)
    ensures var site := Annotate(table, walk, i, c).site;
            GetSiteId(site) == Some(c as int) &&
            Enumerates(LabelledAs(site, ArgumentCount(site), isInput), fs, lines, i.callee.name, |i.args|, isInput)
  {
    hide WalksTables;
    hide Holds;
    hide SiteNode;
    hide LabelMap;
    hide Kind;
    hide RoleAt;
    hide GetArgument;
    hide LabelsFor;
    hide GetSiteId;
    hide ArgumentCount;
    hide LabelledAs;
    LabelsReadBack(fs, lines, table, walk, i, c);
    RolesReadBack(fs, lines, table, walk, i, c);
    var site := Annotate(table, walk, i, c).site;
    var n := ArgumentCount(site);
    LabelledApart(site, n, isInput);
    forall k: nat
      ensures k in LabelledAs(site, n, isInput) <==> k <= |i.args| && Kind(fs, lines, i.callee.name, k) == Some(isInput)
    {
      LabelledMember(site, n, isInput, k);
    }
  }
}
