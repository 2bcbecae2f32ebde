/**
 * The local-variable slot environment of one method: a mutable map from slot
 * to the node that reads it. The receiver `This` and each parameter take one
 * slot each, whatever their type, and a parameter's `Variable` records its
 * ordinal among the parameters, not its slot.
 */
module Vmachine {
  import opened Wrappers
  import opened JvmTypes
  import opened Ast

  /** `ACC_STATIC`, table 4.6-A of The Java Virtual Machine Specification. */
  const AccStatic: bv32 := 0x0008

  predicate IsStatic(modifiers: bv32) {
    modifiers & AccStatic != 0
  }

  datatype SlotError =
      /** A read at or beyond the population; carries the size, the index and all bindings. */
    | OutOfRange(size: int, index: int, bindings: map<int, AstNode>)
      /** A write into the immutable map the default constructor stores. */
    | Immutable

  /** The slots are exactly 0 .. |m| - 1. */
  ghost predicate Contiguous(m: map<int, AstNode>) {
    forall k :: k in m <==> 0 <= k < |m|
  }

  /**
   * The bindings a method signature yields: the receiver at slot 0 unless the
   * method is static, then parameter k as `Variable(args[k], k)` in the next
   * slots, with no gaps.
   */
  ghost predicate SignatureLayout(m: map<int, AstNode>, modifiers: bv32, args: seq<JType>) {
    var first := if IsStatic(modifiers) then 0 else 1;
    && |m| == |args| + first
    && Contiguous(m)
    && (!IsStatic(modifiers) ==> m[0] == This)
    && (forall k :: 0 <= k < |args| ==> m[k + first] == Variable(args[k], k))
  }

  /**
   * `fromMethod`: the bindings of a method with these access modifiers and
   * these parsed argument types.
   */
  method FromMethod(modifiers: bv32, args: seq<JType>) returns (result: map<int, AstNode>)
    ensures SignatureLayout(result, modifiers, args)
  {
    var size := |args|;
    var res: seq<AstNode> := [];
    if modifiers & AccStatic == 0 {
      res := res + [This];
    }
    var first := |res|;
    var index := 0;
    while index < size
      invariant 0 <= index <= size
      invariant |res| == first + index
      invariant first == if IsStatic(modifiers) then 0 else 1
      invariant first == 1 ==> res[0] == This
      invariant forall k :: 0 <= k < index ==> res[k + first] == Variable(args[k], k)
    {
      res := res + [Variable(args[index], index)];
      index := index + 1;
    }
    result := map[];
    var rsize := |res|;
    index := 0;
    while index < rsize
      invariant 0 <= index <= rsize
      invariant |result| == index
      invariant forall k :: k in result <==> 0 <= k < index
      invariant forall k :: k in result ==> result[k] == res[k]
    {
      result := result[index := res[index]];
      index := index + 1;
    }
  }

  /** A read of `index` (`variable(int)`): guarded only by the population size. */
  function Lookup(m: map<int, AstNode>, index: int): (r: Result<Option<AstNode>, SlotError>)
    ensures r.Err? <==> |m| <= index
    ensures r.Err? ==> r.error == OutOfRange(|m|, index, m)
    ensures r.Ok? && index in m ==> r.value == Some(m[index])
    ensures r.Ok? && index !in m ==> r.value == None
  {
    if |m| <= index then Err(OutOfRange(|m|, index, m))
    else if index in m then Ok(Some(m[index]))
    else Ok(None)
  }

  /** The bindings after a write of type `t` at `index` (`variable(int, Type)`). */
  function Bind(m: map<int, AstNode>, index: int, t: JType): (r: map<int, AstNode>)
    ensures r.Keys == m.Keys + {index}
    ensures r[index] == Variable(t, index)
    ensures forall k :: k in m && k != index ==> r[k] == m[k]
  {
    m[index := Variable(t, index)]
  }

  class LocalVariables {
    var variables: map<int, AstNode>
    /** False for the `Map.of` the default constructor stores, which rejects `put`. */
    var mutable: bool

    /** The default constructor: slot 0 holds the receiver, in an immutable map. */
    constructor ()
      ensures variables == map[0 := This] && !mutable
    {
      variables := map[0 := This];
      mutable := false;
    }

    /** The constructor from access modifiers and the parsed argument types of the descriptor. */
    constructor FromSignature(modifiers: bv32, args: seq<JType>)
      ensures SignatureLayout(variables, modifiers, args) && mutable
    {
      var bindings := FromMethod(modifiers, args);
      variables := bindings;
      mutable := true;
    }

    /** The constructor from a caller's map, which may or may not accept writes. */
    constructor FromMap(variables: map<int, AstNode>, mutable: bool)
      ensures this.variables == variables && this.mutable == mutable
    {
      this.variables := variables;
      this.mutable := mutable;
    }

    /** `size()`: the number of bound slots. */
    function Size(): (n: nat)
      reads this
      ensures n == |variables.Keys|
    {
      |variables|
    }

    /**
     * `variable(int)`: fails when `index` is not below the population size,
     * otherwise yields the bound node, or `None` (a Java null) when the slot
     * is unbound.
     */
    method Read(index: int) returns (r: Result<Option<AstNode>, SlotError>)
      ensures r == Lookup(variables, index)
    {
      r := Lookup(variables, index);
    }

    /** `variable(int, Type)`: binds `index` to a fresh `Variable` and returns it. */
    method Write(index: int, t: JType) returns (r: Result<AstNode, SlotError>)
      modifies this
      ensures mutable == old(mutable)
      ensures !mutable ==> r == Err(Immutable) && variables == old(variables)
      ensures mutable ==> r == Ok(Variable(t, index)) && variables == Bind(old(variables), index, t)
    {
      var element := Variable(t, index);
      if !mutable {
        r := Err(Immutable);
      } else {
        variables := variables[index := element];
        r := Ok(element);
      }
    }
  }

  /** After a write, the slot holds the returned node and every other slot is unchanged. */
  lemma BindEffect(m: map<int, AstNode>, index: int, t: JType)
    ensures index in Bind(m, index, t) && Bind(m, index, t)[index] == Variable(t, index)
    ensures forall k :: k != index ==> (k in Bind(m, index, t) <==> k in m)
    ensures forall k :: k != index && k in m ==> Bind(m, index, t)[k] == m[k]
    ensures |Bind(m, index, t)| == if index in m then |m| else |m| + 1
  {
  }

  /** A signature-built environment has no gaps, so every slot below its size reads back. */
  lemma SignatureReads(m: map<int, AstNode>, modifiers: bv32, args: seq<JType>, k: int)
    requires SignatureLayout(m, modifiers, args)
    ensures Lookup(m, k).Err? <==> k >= |args| + (if IsStatic(modifiers) then 0 else 1)
    ensures 0 <= k < |m| ==> Lookup(m, k) == Ok(Some(m[k]))
  {
  }

  /** A read at a negative index, or at an unbound slot below the size, yields a null. */
  lemma ReadBelowSizeUnbound(m: map<int, AstNode>, index: int)
    requires index < |m| && index !in m
    ensures Lookup(m, index) == Ok(None)
  {
  }

  /**
   * Writing at most one slot past the end keeps the slots contiguous, and the
   * written slot then reads back the written node.
   */
  lemma WriteKeepsContiguous(m: map<int, AstNode>, index: int, t: JType)
    requires Contiguous(m) && 0 <= index <= |m|
    ensures Contiguous(Bind(m, index, t))
    ensures |Bind(m, index, t)| == if index < |m| then |m| else |m| + 1
    ensures Lookup(Bind(m, index, t), index) == Ok(Some(Variable(t, index)))
  {
  }

  /**
   * A write beyond the end leaves the environment one binding short of the
   * written slot, so reading it back still fails.
   */
  lemma WriteBeyondEndStillUnreadable(m: map<int, AstNode>, index: int, t: JType)
    requires index > |m|
    ensures |Bind(m, index, t)| <= |m| + 1
    ensures Lookup(Bind(m, index, t), index).Err?
  {
  }

  /** What callers of the environment can rely on, shown on the signature `(I)V`. */
  method SignatureSamples()
  {
    var instance := new LocalVariables.FromSignature(0x0001, [Int]);
    assert instance.Size() == 2;
    var receiver := instance.Read(0);
    assert receiver == Ok(Some(This));
    assert [Int][0] == Int;
    var parameter := instance.Read(1);
    assert parameter == Ok(Some(Variable(Int, 0)));

    var shared := new LocalVariables.FromSignature(0x0009, [Int]);
    assert IsStatic(0x0009);
    var first := shared.Read(0);
    assert first == Ok(Some(Variable(Int, 0)));
    var missing := shared.Read(1);
    assert missing.Err?;

    var default := new LocalVariables();
    assert default.Size() == 1;
    var written := default.Write(1, Long);
    assert written == Err(Immutable) && default.Size() == 1;

    var defined := shared.Write(1, Long);
    var read := shared.Read(1);
    assert read == Ok(Some(Variable(Long, 1)));
  }
}
