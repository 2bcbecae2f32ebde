# Lowering core of the opeo bytecode decompiler/compiler, in Dafny

This project models three pieces of the lowering core that turns the
high-level AST of a method back into JVM instructions:

- the **cast node** (`Cast`): its lowering is the origin's instructions
  followed by one conversion instruction chosen from a closed table on the
  pair (inferred origin type, target type); a type cast to itself gives
  `NOP`, the 12 ordered pairs among int/long/float/double and
  int→byte/char/short give the conversions of section 2.11.4 of The Java
  Virtual Machine Specification (Java SE 11), and every other pair fails
  with "Can't cast from <descriptor> to <descriptor>";
- the **addition node** (`Add`): its lowering is left's instructions, right's
  instructions, then `LADD` when the declared type attribute is exactly
  `"long"` and `IADD` otherwise; the two-argument constructor declares `"int"`;
- the **local-variable slot environment** (`LocalVariables`): a mutable map
  from slot to the node that reads it, built with the receiver alone at slot
  0, from a method's access modifiers and argument types, or from a given
  map; reads are guarded only by the population size, writes bind
  `Variable(type, index)` in place.

Modules: `Wrappers` (Option/Result), `JvmTypes` (field types and their
descriptors), `Instructions` (symbolic opcodes with the operand and result
type of each conversion), `Ast` (node catalogue, `Lower` = `opcodes()`,
`Print` = `print()`, `ToXmir` = `toXmir()`, the cast table and the add
selection), `CastProperties`, `AddProperties`, `LoweringProperties`
(lemmas), and `Vmachine` (`FromMethod` and the class `LocalVariables`).

Node kinds whose source is not part of this model (invocations, literals,
`This`, `Variable`, and any other) take their lowering, text and tree from a
`Catalogue` value passed to `Lower`, `Print` and `ToXmir`; the same value
carries the type inference of `ExpressionType`.

The model follows the code, including where it departs from the JVM calling convention:

- each parameter takes one slot, long and double included (section 2.6.1 of
  the JVM specification gives those two); the `Variable` of parameter k
  records k, not its slot;
- a read fails only when `index >= size()`; a read of an unbound slot below
  the size, or of a negative index, returns a Java null (`None` here) rather
  than failing;
- the default constructor stores an immutable `Map.of`, so every later write
  on that environment fails (`Immutable` here).

## Model

| member | source | states |
|---|---|---|
| `Ast.Lower` | src/main/java/org/eolang/opeo/ast/Cast.java:65-70 | the `opcodes()` of every node: an opcode leaf gives itself; a successful addition or cast lowering ends with one instruction node, `IADD` or `LADD` for an addition |
| `Ast.Print` | src/main/java/org/eolang/opeo/ast/Add.java:75-77 | the `print()` of every node: an addition's text is parenthesized at both ends and at least seven characters long; other kinds take their text from the catalogue |
| `Ast.ToXmir` | src/main/java/org/eolang/opeo/ast/Cast.java:56-62 | the `toXmir()` of every node: an addition is a `.plus` element with the attributes as `scope` and two children; a cast is a `cast` element without scope whose second child is the target's descriptor data |
| `Ast.CastType` | src/main/java/org/eolang/opeo/ast/Cast.java:122-125 | a cast's `type()` is its target |
| `Ast.CastOpcode` | src/main/java/org/eolang/opeo/ast/Cast.java:76-120 | succeeds iff the two types are equal or the pair is one of the 15 table pairs; equal types give `NOP` (checked first, for any type); every other success is a conversion whose operand type is the origin's and whose result type is the target; failure names both descriptors |
| `Ast.AddOpcode` | src/main/java/org/eolang/opeo/ast/Add.java:102-108 | `LADD` exactly when the type attribute is `"long"`, `IADD` exactly otherwise |
| `Ast.NewAdd` | src/main/java/org/eolang/opeo/ast/Add.java:58-60 | the two-argument constructor keeps both operands and declares type `"int"` |
| `CastProperties.CastLowering` | src/main/java/org/eolang/opeo/ast/Cast.java:65-70 | cast lowering succeeds iff the origin lowers and the pair is supported; an origin failure is reported first; an unsupported pair fails naming both descriptors; success is the origin's instructions plus exactly one instruction (length + 1) |
| `CastProperties.CastToSameTypeIsNop` | src/main/java/org/eolang/opeo/ast/Cast.java:79-80 | a cast to the origin's own inferred type appends `NOP`, for any type |
| `CastProperties.TableCoversEveryConversion` | src/main/java/org/eolang/opeo/ast/Cast.java:81-110 | every conversion instruction of JVMS 2.11.4 is in the table, under its own operand and result types |
| `CastProperties.TableInjective` | src/main/java/org/eolang/opeo/ast/Cast.java:81-110 | distinct supported pairs of distinct types give distinct instructions, none of them `NOP` |
| `CastProperties.UnsupportedCastNamesBothTypes` | src/main/java/org/eolang/opeo/ast/Cast.java:111-118 | the failure message is "Can't cast from D1 to D2" with both descriptors, and the error identifies the pair |
| `CastProperties.CastTableSamples` | src/main/java/org/eolang/opeo/ast/Cast.java:79-118 | int→long is I2L, double→int D2I, int→byte/char/short I2B/I2C/I2S, byte→byte and String→String NOP; float→byte, byte→int, long→short and boolean→int fail |
| `CastProperties.CastTypeIgnoresOrigin` | src/main/java/org/eolang/opeo/ast/Cast.java:122-125 | a cast's type is its target whatever its origin |
| `CastProperties.RecastIsNop` | src/main/java/org/eolang/opeo/ast/Cast.java:76-80 | when inference reads a cast's type, casting that cast to the same target only appends `NOP` |
| `CastProperties.CastXmir` | src/main/java/org/eolang/opeo/ast/Cast.java:56-62 | the tree is a `cast` element with children the origin's tree then the target descriptor data; equal trees mean equal targets and equal origin trees |
| `AddProperties.AddLowering` | src/main/java/org/eolang/opeo/ast/Add.java:90-96 | succeeds iff both operands lower; left's failure is reported before right's; success is left's instructions, then right's, then one add instruction (length `|l| + |r| + 1`) |
| `AddProperties.AddInstruction` | src/main/java/org/eolang/opeo/ast/Add.java:102-108 | the last instruction is `LADD` iff the type is `"long"` and `IADD` iff it is not |
| `AddProperties.AddInstructionSamples` | src/main/java/org/eolang/opeo/ast/Add.java:102-108 | `"long"` selects LADD; `"int"`, `"double"` and the empty string select IADD |
| `AddProperties.DefaultAddIsIadd` | src/main/java/org/eolang/opeo/ast/Add.java:58-60 | an addition built by the two-argument constructor always ends with `IADD` |
| `AddProperties.AttributesAffectOnlyLastInstruction` | src/main/java/org/eolang/opeo/ast/Add.java:90-108 | two additions that differ only in attributes succeed or fail together and agree on every instruction but the last |
| `AddProperties.AddText` | src/main/java/org/eolang/opeo/ast/Add.java:75-77 | the text is "(" left ") + (" right ")", seven characters longer than the operands' texts, and does not depend on the attributes |
| `AddProperties.AddXmir` | src/main/java/org/eolang/opeo/ast/Add.java:80-87 | the tree is a `.plus` element with the attributes as `scope` and the left then the right tree as children; equal trees mean equal attributes and equal operand trees |
| `LoweringProperties.LoweringIsFlat` | src/main/java/org/eolang/opeo/ast/Cast.java:65-70 | when the nodes outside the model lower to instruction nodes, every successful lowering is a sequence of instruction nodes |
| `LoweringProperties.ArithmeticTreeLowers` | src/main/java/org/eolang/opeo/ast/Add.java:90-108 | additions over opcode leaves never fail and emit one instruction per node |
| `JvmTypes.Descriptor` | src/main/java/org/eolang/opeo/ast/Cast.java:60 | a descriptor is non-empty, starts with `L` exactly for class types (and ends with `;`) and with `[` exactly for array types |
| `JvmTypes.DescriptorInjective` | src/main/java/org/eolang/opeo/ast/Cast.java:79 | distinct types have distinct descriptors, so type equality is descriptor equality |
| `Vmachine.FromMethod` | src/main/java/org/eolang/opeo/vmachine/LocalVariables.java:118-134 | non-static: slot 0 is `This` and slot k+1 is `Variable(args[k], k)`, size n+1; static (`modifiers & 0x0008 != 0`): slot k is `Variable(args[k], k)`, size n; keys exactly 0..size-1 |
| `Vmachine.Lookup` | src/main/java/org/eolang/opeo/vmachine/LocalVariables.java:77-89 | fails iff `index >= size`, reporting size, index and all bindings; otherwise the bound node, or null for an unbound slot |
| `Vmachine.Bind` | src/main/java/org/eolang/opeo/vmachine/LocalVariables.java:97-101 | the bindings after a write: the keys gain the written slot, which holds `Variable(t, i)`, and every other binding is kept |
| `Vmachine.LocalVariables.Size` | src/main/java/org/eolang/opeo/vmachine/LocalVariables.java:108-110 | `size()` is the number of bound slots |
| `Vmachine.LocalVariables.constructor` | src/main/java/org/eolang/opeo/vmachine/LocalVariables.java:51-53 | exactly one binding, slot 0 → `This`, in a map that rejects writes |
| `Vmachine.LocalVariables.FromSignature` | src/main/java/org/eolang/opeo/vmachine/LocalVariables.java:60-62 | the bindings `FromMethod` gives, in a writable map |
| `Vmachine.LocalVariables.FromMap` | src/main/java/org/eolang/opeo/vmachine/LocalVariables.java:68-70 | holds exactly the given bindings |
| `Vmachine.LocalVariables.Read` | src/main/java/org/eolang/opeo/vmachine/LocalVariables.java:77-89 | the result is the `Lookup` of the current bindings, and nothing changes |
| `Vmachine.LocalVariables.Write` | src/main/java/org/eolang/opeo/vmachine/LocalVariables.java:97-101 | binds the slot to `Variable(t, i)` and returns that node, or fails without change on the default constructor's immutable map |
| `Vmachine.BindEffect` | src/main/java/org/eolang/opeo/vmachine/LocalVariables.java:97-101 | after a write the slot holds `Variable(t, i)`, every other slot is unchanged, and the size grows by one iff the slot was unbound |
| `Vmachine.SignatureReads` | src/main/java/org/eolang/opeo/vmachine/LocalVariables.java:118-134 | in a signature-built environment a read fails exactly at slots from `n` (static) or `n + 1` (non-static) on, and every slot below the size reads its binding |
| `Vmachine.ReadBelowSizeUnbound` | src/main/java/org/eolang/opeo/vmachine/LocalVariables.java:78-88 | an unbound slot below the size, or a negative one, reads as null instead of failing |
| `Vmachine.WriteKeepsContiguous` | src/main/java/org/eolang/opeo/vmachine/LocalVariables.java:78-101 | with keys 0..n-1 and i ≤ n, a write keeps the keys contiguous, grows the size only at i = n, and a read of i returns the written node |
| `Vmachine.WriteBeyondEndStillUnreadable` | src/main/java/org/eolang/opeo/vmachine/LocalVariables.java:78-101 | after a write at i > n the size is at most n + 1 ≤ i, so a read of i still fails |

## Left out

- Opcode.java is not part of this model; an opcode leaf is taken to lower to the one-element sequence of itself (`ArithmeticTreeLowers` and `LoweringIsFlat` rely on this).

- The per-method compilation driver (JeoCompiler.java) is not part of this model: it only delegates to the external program, class and method model and to the parser, resets a process-wide label cache, and rewraps exceptions.
- Invocation, literal, receiver, local-variable and other node kinds whose source is not part of this model: their lowering, text and tree come from the `Catalogue` parameter; a cast's own text is not in Cast.java either and comes from there too.
- `ExpressionType` is not part of this model: it is the total function `Catalogue.typeOf`; whether it can fail is not modelled.
- Parsing a method descriptor into argument types (ASM's `Type.getArgumentTypes`) is a foreign call: `FromMethod` and `FromSignature` take the parsed argument sequence.
- Xembly directives and `DirectivesData` rendering: trees are an abstract labelled tree, and `scope` holds the attributes value itself, not its text (`Attributes.toString` is not part of this model).
- `Attributes`: only the declared type entry is modelled; what `type()` does when that entry is missing is not part of this model.
- Raw ASM opcode numbers and instruction operands: opcodes are a symbolic enumeration, and instructions only nodes outside the model emit are `Other`.
- `Vmachine.LocalVariables.FromMap`: aliasing between the caller's map and the environment is not modelled; whether the given map accepts writes is a parameter.
- Java `int` overflow of slot indexes and sizes is not modelled; they are unbounded integers.
