/** What the addition node promises: its lowering, its instruction, its text and its tree. */
module AddProperties {
  import opened Wrappers
  import opened JvmTypes
  import opened Instructions
  import opened Ast

  /**
   * An addition lowers to the left operand's instructions, then the right
   * operand's, then one add instruction; the left operand's failure is
   * reported before the right one's.
   */
  lemma AddLowering(l: AstNode, r: AstNode, a: Attributes, cat: Catalogue)
    ensures Lower(Add(l, r, a), cat).Ok? <==> Lower(l, cat).Ok? && Lower(r, cat).Ok?
    ensures Lower(l, cat).Err? ==> Lower(Add(l, r, a), cat) == Lower(l, cat)
    ensures Lower(l, cat).Ok? && Lower(r, cat).Err? ==> Lower(Add(l, r, a), cat) == Lower(r, cat)
    ensures Lower(Add(l, r, a), cat).Ok? ==>
              var s, ls, rs := Lower(Add(l, r, a), cat).value, Lower(l, cat).value, Lower(r, cat).value;
              && |s| == |ls| + |rs| + 1
              && s[..|ls|] == ls
              && s[|ls|..|ls| + |rs|] == rs
              && s[|s| - 1] == Opcode(AddOpcode(a))
  {
  }

  /** The appended instruction is `LADD` exactly when the declared type is "long". */
  lemma AddInstruction(l: AstNode, r: AstNode, a: Attributes, cat: Catalogue)
    requires Lower(Add(l, r, a), cat).Ok?
    ensures var s := Lower(Add(l, r, a), cat).value;
      && (s[|s| - 1] == Opcode(LADD) <==> a.typeName == "long")
      && (s[|s| - 1] == Opcode(IADD) <==> a.typeName != "long")
  {
  }

  /** Any declared type other than "long", such as "int" or "double", selects `IADD`. */
  lemma AddInstructionSamples()
    ensures AddOpcode(Attributes("long")) == LADD
    ensures AddOpcode(Attributes("int")) == IADD
    ensures AddOpcode(Attributes("double")) == IADD
    ensures AddOpcode(Attributes("")) == IADD
  {
  }

  /** The two-argument constructor always lowers with `IADD`. */
  lemma DefaultAddIsIadd(l: AstNode, r: AstNode, cat: Catalogue)
    ensures Lower(NewAdd(l, r), cat).Ok? <==> Lower(l, cat).Ok? && Lower(r, cat).Ok?
    ensures Lower(NewAdd(l, r), cat).Ok? ==>
              var s := Lower(NewAdd(l, r), cat).value; s[|s| - 1] == Opcode(IADD)
  {
  }

  /** The attributes affect only the last instruction of the lowering. */
  lemma AttributesAffectOnlyLastInstruction(l: AstNode, r: AstNode, a1: Attributes, a2: Attributes, cat: Catalogue)
    ensures Lower(Add(l, r, a1), cat).Ok? <==> Lower(Add(l, r, a2), cat).Ok?
    ensures Lower(Add(l, r, a1), cat).Err? ==> Lower(Add(l, r, a1), cat) == Lower(Add(l, r, a2), cat)
    ensures Lower(Add(l, r, a1), cat).Ok? ==>
              var s1, s2 := Lower(Add(l, r, a1), cat).value, Lower(Add(l, r, a2), cat).value;
              |s1| == |s2| && s1[..|s1| - 1] == s2[..|s2| - 1]
  {
  }

  /**
   * The text of an addition is the parenthesized left text, " + ", then the
   * parenthesized right text; the attributes do not show in it.
   */
  lemma AddText(l: AstNode, r: AstNode, a1: Attributes, a2: Attributes, cat: Catalogue)
    ensures var p, pl, pr := Print(Add(l, r, a1), cat), Print(l, cat), Print(r, cat);
      && |p| == |pl| + |pr| + 7
      && p[..1] == "(" && p[1..|pl| + 1] == pl
      && p[|pl| + 1..|pl| + 6] == ") + ("
      && p[|pl| + 6..|p| - 1] == pr && p[|p| - 1..] == ")"
    ensures Print(Add(l, r, a1), cat) == Print(Add(l, r, a2), cat)
  {
  }

  /**
   * An addition's tree is a `.plus` element whose `scope` holds the
   * attributes, with the left tree and then the right tree as children; that
   * tree determines the attributes and both operand trees.
   */
  lemma AddXmir(l1: AstNode, r1: AstNode, a1: Attributes, l2: AstNode, r2: AstNode, a2: Attributes, cat: Catalogue)
    ensures var x := ToXmir(Add(l1, r1, a1), cat);
      && x.Element? && x.base == ".plus" && x.scope == Some(a1)
      && x.children == [ToXmir(l1, cat), ToXmir(r1, cat)]
    ensures ToXmir(Add(l1, r1, a1), cat) == ToXmir(Add(l2, r2, a2), cat) ==>
              a1 == a2 && ToXmir(l1, cat) == ToXmir(l2, cat) && ToXmir(r1, cat) == ToXmir(r2, cat)
  {
  }
}
