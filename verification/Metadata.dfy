/** Metadata nodes on call instructions and the readers and writers of the two kinds the passes use. */
module Metadata {
  import opened Text

  /** A 64-bit constant, a string or a tuple; `call-site-metadata` and `clam-prov-tags` nodes are operand lists. */
  datatype Node = Constant(bits: nat) | Label(text: string) | Tuple(operands: seq<Node>)

  /** The bits `ConstantInt::get(int64Ty, value)` stores. */
  function ToBits(value: int): nat {
    value % TWO_TO_THE_64
  }

  /** A zero-extended 64-bit constant assigned to a `long long`. */
  function FromBits(bits: nat): int {
    var b := bits % TWO_TO_THE_64;
    if b < TWO_TO_THE_64 / 2 then b else b - TWO_TO_THE_64
  }

  predicate IsInt64(value: int) {
    -(TWO_TO_THE_64 as int) / 2 <= value < TWO_TO_THE_64 as int / 2
  }

  function GetInteger(node: Node): Option<int> {
    if node.Constant? then Some(FromBits(node.bits)) else None
  }

  function ArgumentCount(site: Option<seq<Node>>): nat {
    if site.Some? && |site.value| > 0 then |site.value| - 1 else 0
  }

  function GetSiteId(site: Option<seq<Node>>): Option<int> {
    if site.Some? && |site.value| > 0 then GetInteger(site.value[0]) else None
  }

  /** One successfully read argument tuple: the argument's index, counted from 1 (0 is the result), and the labels. */
  datatype ArgumentLabels = ArgumentLabels(index: nat, labels: seq<Node>)

  function GetArgument(site: Option<seq<Node>>, i: nat): Option<ArgumentLabels> {
    if GetSiteId(site).Some? && i + 1 < |site.value| then
      match site.value[i + 1]
      case Tuple(operands) =>
        if |operands| > 0 && operands[0].Label? then
          match ParseUnsigned(operands[0].text)
          case Some(index) => Some(ArgumentLabels(index, operands[1..]))
          case None => None
        else None
      case _ => None
    else None
  }

  const TYPE_KEY := "clam-prov-type"

  /** The type a label assigns, if it is a `clam-prov-type` label with exactly one separator: true for input. */
  function LabelType(node: Node): Option<bool> {
    if node.Label? then
      var tokens := Split(node.text, ':', 2);
      if |tokens| == 2 && Trim(tokens[0]) == TYPE_KEY then
        if Trim(tokens[1]) == "input" then Some(true)
        else if Trim(tokens[1]) == "output" then Some(false)
        else None
      else None
    else None
  }

  predicate HasType(labels: seq<Node>, isInput: bool) {
    exists i :: 0 <= i < |labels| && LabelType(labels[i]) == Some(isInput)
  }

  /** What the label loop decides: only one kind of type label may occur. */
  function ArgumentType(labels: seq<Node>): Option<bool> {
    if HasType(labels, true) && !HasType(labels, false) then Some(true)
    else if HasType(labels, false) && !HasType(labels, true) then Some(false)
    else None
  }

  /** A labelled argument that is a source or a sink; `slot` is the position of its tuple. */
  datatype Role = Role(slot: nat, index: nat, isInput: bool)

  function RoleAt(site: Option<seq<Node>>, slot: nat): Option<Role> {
    match GetArgument(site, slot)
    case None => None
    case Some(argument) =>
      match ArgumentType(argument.labels)
      case None => None
      case Some(isInput) => Some(Role(slot, argument.index, isInput))
  }

  /** The roles of the first `n` argument tuples, in order. */
  function RolesUpTo(site: Option<seq<Node>>, n: nat): seq<Role> {
    if n == 0 then []
    else
      RolesUpTo(site, n - 1) +
      match RoleAt(site, n - 1) case None => [] case Some(role) => [role]
  }

  function Roles(site: Option<seq<Node>>): seq<Role> {
    RolesUpTo(site, ArgumentCount(site))
  }
}
