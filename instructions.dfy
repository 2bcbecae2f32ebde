/**
 * The instructions the lowering core selects, named as in section 6.5 of
 * The Java Virtual Machine Specification (Java SE 11). Instructions that only
 * nodes outside this model emit are carried by `Other`.
 */
module Instructions {
  import opened JvmTypes

  datatype Op =
    | NOP
    | I2L | I2F | I2D
    | L2I | L2F | L2D
    | F2I | F2L | F2D
    | D2I | D2L | D2F
    | I2B | I2C | I2S
    | IADD | LADD
    | Other(mnemonic: string)

  /** The type conversion instructions of section 2.11.4 of The Java Virtual Machine Specification. */
  predicate IsConversion(op: Op) {
    op in {I2L, I2F, I2D, L2I, L2F, L2D, F2I, F2L, F2D, D2I, D2L, D2F, I2B, I2C, I2S}
  }

  /** The type of the value a conversion instruction pops (its first letter). */
  function ConversionSource(op: Op): JType
    requires IsConversion(op)
  {
    match op
    case I2L | I2F | I2D | I2B | I2C | I2S => Int
    case L2I | L2F | L2D => Long
    case F2I | F2L | F2D => Float
    case D2I | D2L | D2F => Double
  }

  /** The type of the value a conversion instruction yields (its last letter). */
  function ConversionTarget(op: Op): JType
    requires IsConversion(op)
  {
    match op
    case L2I | F2I | D2I => Int
    case I2L | F2L | D2L => Long
    case I2F | L2F | D2F => Float
    case I2D | L2D | F2D => Double
    case I2B => Byte
    case I2C => Char
    case I2S => Short
  }
}
