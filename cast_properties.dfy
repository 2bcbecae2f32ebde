/** What the cast node promises: its lowering, its instruction table, its type and its tree. */
module CastProperties {
  import opened Wrappers
  import opened JvmTypes
  import opened Instructions
  import opened Ast

  /**
   * A cast lowers to its origin's instructions followed by exactly one
   * conversion instruction; it fails when the origin fails (checked first) or
   * when the pair of inferred origin type and target is not in the table.
   */
  lemma CastLowering(t: JType, o: AstNode, cat: Catalogue)
    ensures var from := cat.typeOf(o);
      && (Lower(Cast(t, o), cat).Ok? <==>
            Lower(o, cat).Ok? && (from == t || (from, t) in ConversionPairs))
      && (Lower(o, cat).Err? ==> Lower(Cast(t, o), cat) == Lower(o, cat))
      && (Lower(o, cat).Ok? && from != t && (from, t) !in ConversionPairs ==>
            Lower(Cast(t, o), cat) == Err(UnsupportedCast(Descriptor(from), Descriptor(t))))
      && (Lower(Cast(t, o), cat).Ok? ==>
            var s, prefix := Lower(Cast(t, o), cat).value, Lower(o, cat).value;
            && |s| == |prefix| + 1
            && s[..|prefix|] == prefix
            && s[|prefix|] == Opcode(CastOpcode(from, t).value))
  {
  }

  /** A cast to the origin's own inferred type appends `NOP`, whatever the type. */
  lemma CastToSameTypeIsNop(t: JType, o: AstNode, cat: Catalogue)
    requires cat.typeOf(o) == t
    ensures Lower(o, cat).Ok? ==> Lower(Cast(t, o), cat) == Ok(Lower(o, cat).value + [Opcode(NOP)])
    ensures Lower(o, cat).Err? ==> Lower(Cast(t, o), cat) == Lower(o, cat)
  {
  }

  /**
   * Every conversion instruction of section 2.11.4 of The Java Virtual Machine
   * Specification (Java SE 11) is in the table, under the pair of its own
   * operand and result types.
   */
  lemma TableCoversEveryConversion(op: Op)
    requires IsConversion(op)
    ensures ConversionSource(op) != ConversionTarget(op)
    ensures CastOpcode(ConversionSource(op), ConversionTarget(op)) == Ok(op)
  {
  }

  /** Distinct pairs of distinct types give distinct instructions, none of them `NOP`. */
  lemma TableInjective(f1: JType, t1: JType, f2: JType, t2: JType)
    requires f1 != t1 && f2 != t2
    requires CastOpcode(f1, t1).Ok? && CastOpcode(f2, t2).Ok?
    ensures CastOpcode(f1, t1).value != NOP
    ensures CastOpcode(f1, t1) == CastOpcode(f2, t2) ==> f1 == f2 && t1 == t2
  {
  }

  /**
   * An unsupported conversion fails with a message naming both descriptors,
   * and the error identifies the pair.
   */
  lemma UnsupportedCastNamesBothTypes(f1: JType, t1: JType, f2: JType, t2: JType)
    requires CastOpcode(f1, t1).Err?
    ensures Message(CastOpcode(f1, t1).error) ==
              "Can't cast from " + Descriptor(f1) + " to " + Descriptor(t1)
    ensures CastOpcode(f1, t1) == CastOpcode(f2, t2) ==> f1 == f2 && t1 == t2
  {
    if CastOpcode(f1, t1) == CastOpcode(f2, t2) {
      DescriptorInjective(f1, f2);
      DescriptorInjective(t1, t2);
    }
  }

  /** The table's entries and gaps at a few pairs. */
  lemma CastTableSamples()
    ensures CastOpcode(Int, Long) == Ok(I2L) && CastOpcode(Double, Int) == Ok(D2I)
    ensures CastOpcode(Int, Byte) == Ok(I2B) && CastOpcode(Int, Char) == Ok(I2C) && CastOpcode(Int, Short) == Ok(I2S)
    ensures CastOpcode(Byte, Byte) == Ok(NOP)
    ensures CastOpcode(Object("java/lang/String"), Object("java/lang/String")) == Ok(NOP)
    ensures CastOpcode(Float, Byte) == Err(UnsupportedCast("F", "B"))
    ensures CastOpcode(Byte, Int) == Err(UnsupportedCast("B", "I"))
    ensures CastOpcode(Long, Short).Err? && CastOpcode(Boolean, Int).Err?
  {
  }

  /** A cast's `type()` is its target, whatever the origin. */
  lemma CastTypeIgnoresOrigin(t: JType, o1: AstNode, o2: AstNode)
    ensures CastType(Cast(t, o1)) == t == CastType(Cast(t, o2))
  {
  }

  /**
   * When type inference reads a cast's `type()`, casting a cast again to the
   * same target only appends `NOP`.
   */
  lemma RecastIsNop(t: JType, o: AstNode, cat: Catalogue)
    requires Coherent(cat)
    ensures Lower(Cast(t, o), cat).Ok? ==>
              Lower(Cast(t, Cast(t, o)), cat) == Ok(Lower(Cast(t, o), cat).value + [Opcode(NOP)])
    ensures Lower(Cast(t, o), cat).Err? ==> Lower(Cast(t, Cast(t, o)), cat) == Lower(Cast(t, o), cat)
  {
    assert cat.typeOf(Cast(t, o)) == CastType(Cast(t, o));
  }

  /**
   * A cast's tree is a `cast` element holding the origin's tree and then the
   * target's descriptor, and that tree determines the target.
   */
  lemma CastXmir(t1: JType, o1: AstNode, t2: JType, o2: AstNode, cat: Catalogue)
    ensures ToXmir(Cast(t1, o1), cat).Element? && ToXmir(Cast(t1, o1), cat).base == "cast"
    ensures ToXmir(Cast(t1, o1), cat).children == [ToXmir(o1, cat), Data(Descriptor(t1))]
    ensures ToXmir(Cast(t1, o1), cat) == ToXmir(Cast(t2, o2), cat) ==>
              t1 == t2 && ToXmir(o1, cat) == ToXmir(o2, cat)
  {
    if ToXmir(Cast(t1, o1), cat) == ToXmir(Cast(t2, o2), cat) {
      assert Data(Descriptor(t1)) == ToXmir(Cast(t1, o1), cat).children[1] == Data(Descriptor(t2));
      DescriptorInjective(t1, t2);
    }
  }
}
