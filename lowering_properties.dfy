/** Properties of lowering whole trees of catalogue nodes. */
module LoweringProperties {
  import opened Wrappers
  import opened Ast

  /** Every element of `s` is an instruction node. */
  predicate Flat(s: seq<AstNode>) {
    forall i :: 0 <= i < |s| ==> s[i].Opcode?
  }

  /** The nodes outside this model lower to instruction nodes only. */
  ghost predicate LeavesLowerToInstructions(cat: Catalogue) {
    forall n: AstNode, i: int ::
      cat.opcodes(n).Ok? && 0 <= i < |cat.opcodes(n).value| ==> cat.opcodes(n).value[i].Opcode?
  }

  /** A tree built from additions over opcode leaves only. */
  predicate ArithmeticTree(n: AstNode) {
    match n
    case Opcode(_) => true
    case Add(l, r, _) => ArithmeticTree(l) && ArithmeticTree(r)
    case _ => false
  }

  function NodeCount(n: AstNode): nat {
    match n
    case Add(l, r, _) => NodeCount(l) + NodeCount(r) + 1
    case Cast(_, o) => NodeCount(o) + 1
    case _ => 1
  }

  /** Lowering yields already-low-level nodes: every result element is an instruction. */
  lemma {:induction false} LoweringIsFlat(n: AstNode, cat: Catalogue)
    requires LeavesLowerToInstructions(cat)
    ensures Lower(n, cat).Ok? ==> Flat(Lower(n, cat).value)
  {
    match n
    case Opcode(_) =>
    case Add(l, r, a) =>
      LoweringIsFlat(l, cat);
      LoweringIsFlat(r, cat);
    case Cast(t, o) =>
      LoweringIsFlat(o, cat);
    case _ =>
  }

  /**
   * An arithmetic tree over opcode leaves never fails to lower, and emits
   * exactly one instruction per node.
   */
  lemma {:induction false} ArithmeticTreeLowers(n: AstNode, cat: Catalogue)
    requires ArithmeticTree(n)
    ensures Lower(n, cat).Ok?
    ensures |Lower(n, cat).value| == NodeCount(n)
    ensures Flat(Lower(n, cat).value)
  {
    match n
    case Opcode(_) =>
    case Add(l, r, a) =>
      ArithmeticTreeLowers(l, cat);
      ArithmeticTreeLowers(r, cat);
  }
}
