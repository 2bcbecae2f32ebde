/**
 * JVM field types and void, as ASM's `Type` represents them, and their
 * descriptors (sections 4.3.2 and 4.3.3 of The Java Virtual Machine
 * Specification, Java SE 11). `Array(Void)` is representable here although
 * "[V" is not a valid descriptor; nothing in the model depends on it.
 * ASM compares two field types by their descriptors; `DescriptorInjective`
 * shows that comparing the model's values with `==` is the same thing.
 */
module JvmTypes {

  datatype JType =
    | Boolean
    | Char
    | Byte
    | Short
    | Int
    | Float
    | Long
    | Double
    | Void
    | Object(internalName: string)
    | Array(element: JType)

  /** The descriptor ASM's `Type.getDescriptor()` returns. */
  function Descriptor(t: JType): (d: string)
    ensures |d| >= 1
    ensures d[0] == 'L' <==> t.Object?
    ensures d[0] == '[' <==> t.Array?
    ensures t.Object? ==> d[|d| - 1] == ';'
  {
    match t
    case Boolean => "Z"
    case Char => "C"
    case Byte => "B"
    case Short => "S"
    case Int => "I"
    case Float => "F"
    case Long => "J"
    case Double => "D"
    case Void => "V"
    case Object(name) => "L" + name + ";"
    case Array(e) => "[" + Descriptor(e)
  }

  /** Distinct types have distinct descriptors. */
  lemma {:induction false} DescriptorInjective(a: JType, b: JType)
    ensures Descriptor(a) == Descriptor(b) ==> a == b
  {
    if Descriptor(a) == Descriptor(b) {
      var d := Descriptor(a);
      if a.Array? {
        assert b.Array?;
        assert Descriptor(a.element) == d[1..] == Descriptor(b.element);
        DescriptorInjective(a.element, b.element);
      } else if a.Object? {
        assert b.Object?;
        assert a.internalName == d[1..|d| - 1] == b.internalName;
      }
    }
  }
}
