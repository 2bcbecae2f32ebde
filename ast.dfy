/**
 * The node catalogue of the lowering core: addition and cast nodes with their
 * instruction selection, opcode leaves, and the receiver and local-variable
 * nodes the slot environment binds. Every node lowers to a flat sequence of
 * instruction nodes (the Java `opcodes()`), renders as text (`print()`) and
 * serializes to the high-level tree (`toXmir()`).
 */
module Ast {
  import opened Wrappers
  import opened JvmTypes
  import opened Instructions

  /** The attribute side channel. Only the declared result type is modelled. */
  datatype Attributes = Attributes(typeName: string)

  datatype AstNode =
    | Opcode(op: Op)
    | Add(left: AstNode, right: AstNode, attributes: Attributes)
    | Cast(target: JType, origin: AstNode)
    | This
    | Variable(vtype: JType, index: int)
      /** A node of a kind whose source is not part of this model (an invocation, a literal, ...). */
    | Foreign(name: string)

  /** Why lowering failed (an exception in the Java code). */
  datatype LowerError =
    | UnsupportedCast(fromDescriptor: string, toDescriptor: string)
    | NodeFailure(message: string)

  /** The message of the exception a failed lowering throws. */
  function Message(e: LowerError): string {
    match e
    case UnsupportedCast(from, to) => "Can't cast from " + from + " to " + to
    case NodeFailure(m) => m
  }

  /** A high-level tree node: `o` with its `base` and `scope` attributes, or a data node. */
  datatype Xmir =
    | Element(base: string, scope: Option<Attributes>, children: seq<Xmir>)
    | Data(text: string)

  /**
   * What the nodes outside this model do: the type inference of
   * `ExpressionType`, and the lowering, text and tree of every node kind whose
   * source is not part of this model.
   */
  datatype Catalogue = Catalogue(
    typeOf: AstNode -> JType,
    opcodes: AstNode -> Result<seq<AstNode>, LowerError>,
    text: AstNode -> string,
    xmir: AstNode -> Xmir)

  /** Type inference reads a cast's own `type()`. */
  ghost predicate Coherent(cat: Catalogue) {
    forall n: AstNode :: n.Cast? ==> cat.typeOf(n) == CastType(n)
  }

  /** The `type()` of a cast node (the Typed capability). */
  function CastType(n: AstNode): (t: JType)
    requires n.Cast?
    ensures t == n.target
  {
    n.target
  }

  /** The two-argument `Add` constructor: the declared type defaults to "int". */
  function NewAdd(left: AstNode, right: AstNode): (n: AstNode)
    ensures n.Add? && n.left == left && n.right == right
    ensures n.attributes.typeName == "int"
  {
    Add(left, right, Attributes("int"))
  }

  /** The ordered pairs of distinct types the cast table converts between. */
  const ConversionPairs: set<(JType, JType)> := {
    (Int, Long), (Int, Float), (Int, Double),
    (Long, Int), (Long, Float), (Long, Double),
    (Float, Int), (Float, Long), (Float, Double),
    (Double, Int), (Double, Long), (Double, Float),
    (Int, Byte), (Int, Char), (Int, Short)}

  /**
   * The instruction a cast from `from` to `to` appends (`Cast.opcode()`):
   * `NOP` for a type cast to itself, checked first, then the conversion
   * whose operand and result types are `from` and `to`, and for every other
   * pair an error naming both descriptors.
   */
  function CastOpcode(from: JType, to: JType): (r: Result<Op, LowerError>)
    ensures r.Ok? <==> from == to || (from, to) in ConversionPairs
    ensures from == to ==> r == Ok(NOP)
    ensures r.Ok? && from != to ==>
              IsConversion(r.value) && ConversionSource(r.value) == from && ConversionTarget(r.value) == to
    ensures r.Err? ==> r.error == UnsupportedCast(Descriptor(from), Descriptor(to))
  {
    if from == to then Ok(NOP)
    else if from == Int && to == Long then Ok(I2L)
    else if from == Int && to == Float then Ok(I2F)
    else if from == Int && to == Double then Ok(I2D)
    else if from == Long && to == Int then Ok(L2I)
    else if from == Long && to == Float then Ok(L2F)
    else if from == Long && to == Double then Ok(L2D)
    else if from == Float && to == Double then Ok(F2D)
    else if from == Float && to == Int then Ok(F2I)
    else if from == Float && to == Long then Ok(F2L)
    else if from == Double && to == Int then Ok(D2I)
    else if from == Double && to == Long then Ok(D2L)
    else if from == Double && to == Float then Ok(D2F)
    else if from == Int && to == Byte then Ok(I2B)
    else if from == Int && to == Char then Ok(I2C)
    else if from == Int && to == Short then Ok(I2S)
    else Err(UnsupportedCast(Descriptor(from), Descriptor(to)))
  }

  /** The instruction an addition appends (`Add.opcode()`). */
  function AddOpcode(a: Attributes): (op: Op)
    ensures op == LADD <==> a.typeName == "long"
    ensures op == IADD <==> a.typeName != "long"
  {
    if a.typeName == "long" then LADD else IADD
  }

  /**
   * `opcodes()`: the flat instruction sequence a node lowers to. Operands are
   * lowered first, in declaration order, so the first failure met is the one
   * reported; an opcode leaf lowers to itself.
   */
  function Lower(n: AstNode, cat: Catalogue): (r: Result<seq<AstNode>, LowerError>)
    ensures n.Opcode? ==> r == Ok([n])
    ensures (n.Add? || n.Cast?) && r.Ok? ==>
              |r.value| >= 1 && r.value[|r.value| - 1].Opcode? &&
              (n.Add? ==> r.value[|r.value| - 1].op in {IADD, LADD})
  {
    match n
    case Opcode(_) => Ok([n])
    case Add(left, right, attributes) =>
      (match Lower(left, cat)
       case Err(e) => Err(e)
       case Ok(l) =>
         match Lower(right, cat)
         case Err(e) => Err(e)
         case Ok(r) => Ok(l + r + [Opcode(AddOpcode(attributes))]))
    case Cast(target, origin) =>
      (match Lower(origin, cat)
       case Err(e) => Err(e)
       case Ok(o) =>
         match CastOpcode(cat.typeOf(origin), target)
         case Err(e) => Err(e)
         case Ok(op) => Ok(o + [Opcode(op)]))
    case _ => cat.opcodes(n)
  }

  /** `print()`: diagnostic text. */
  function Print(n: AstNode, cat: Catalogue): (s: string)
    ensures n.Add? ==> |s| >= 7 && s[0] == '(' && s[|s| - 1] == ')'
    ensures !n.Add? ==> s == cat.text(n)
  {
    match n
    case Add(left, right, _) => "(" + Print(left, cat) + ") + (" + Print(right, cat) + ")"
    case _ => cat.text(n)
  }

  /** `toXmir()`: the node as a high-level tree. */
  function ToXmir(n: AstNode, cat: Catalogue): (x: Xmir)
    ensures n.Add? ==> x.Element? && x.base == ".plus" && x.scope == Some(n.attributes) && |x.children| == 2
    ensures n.Cast? ==> x.Element? && x.base == "cast" && x.scope == None &&
                        |x.children| == 2 && x.children[1] == Data(Descriptor(n.target))
    ensures !n.Add? && !n.Cast? ==> x == cat.xmir(n)
  {
    match n
    case Add(left, right, attributes) =>
      Element(".plus", Some(attributes), [ToXmir(left, cat), ToXmir(right, cat)])
    case Cast(target, origin) =>
      Element("cast", None, [ToXmir(origin, cat), Data(Descriptor(target))])
    case _ => cat.xmir(n)
  }
}
