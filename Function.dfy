/**
 * PScript.Structure.Function: a host delegate with a typed signature. The
 * delegate is host code; here it is the function `native` of the arguments.
 */
module Functions {
  import opened Wrappers
  import opened Variables
  import opened Exceptions

  /** What the engine sees of a registered Function: its signature and delegate. */
  datatype Binding = Binding(kinds: Option<seq<VariableKind>>, native: seq<Variable> -> Variable)

  /** The arguments fit the signature: same count, and the same kind at every position. */
  predicate Accepts(kinds: seq<VariableKind>, args: seq<Variable>) {
    |args| == |kinds| && forall i | 0 <= i < |args| :: args[i].Kind() == kinds[i]
  }

  /**
   * Function.Execute on a binding: the missing signature, then the count,
   * then the kinds are checked; only when all pass is the delegate applied.
   */
  function Invoke(b: Binding, args: seq<Variable>): (r: Result<Variable>)
    ensures r.Ok? <==> b.kinds.Some? && Accepts(b.kinds.value, args)
    ensures r.Ok? ==> r.value == b.native(args)
    ensures b.kinds.None? ==> r == Fail(NullReference)
    ensures b.kinds.Some? && |args| != |b.kinds.value| ==> r == Raise(None, "Mismatching argument count")
    ensures b.kinds.Some? && |args| == |b.kinds.value| && !Accepts(b.kinds.value, args) ==>
              r == Raise(None, "Bad argument type")
  {
    if b.kinds.None? then Fail(NullReference)
    else if |args| != |b.kinds.value| then Raise(None, "Mismatching argument count")
    else if !Accepts(b.kinds.value, args) then Raise(None, "Bad argument type")
    else Ok(b.native(args))
  }

  /** An empty signature accepts exactly the empty argument list. */
  lemma EmptySignatureTakesNoArguments(native: seq<Variable> -> Variable, args: seq<Variable>)
    ensures Invoke(Binding(Some([]), native), args).Ok? <==> args == []
  {
  }

  class Function {
    /** m_kinds: null until SetArguments is called. */
    var kinds: Option<seq<VariableKind>>
    /** m_func, the host delegate. */
    const native: seq<Variable> -> Variable

    constructor (native: seq<Variable> -> Variable)
      ensures kinds.None? && this.native == native
    {
      this.native := native;
      kinds := None;
    }

    /** Replaces the whole signature; the last call wins. */
    method SetArguments(kinds: seq<VariableKind>)
      modifies this`kinds
      ensures this.kinds == Some(kinds)
    {
      this.kinds := Some(kinds);
    }

    function AsBinding(): Binding
      reads this`kinds
    {
      Binding(kinds, native)
    }

    /**
     * Checks the count, then each kind from left to right, then calls the
     * delegate once with the same arguments and returns its result.
     */
    method Execute(args: seq<Variable>) returns (r: Result<Variable>)
      ensures r == Invoke(AsBinding(), args)
    {
      if kinds.None? {
        return Fail(NullReference);
      }
      var signature := kinds.value;
      if |args| != |signature| {
        return Raise(None, "Mismatching argument count");
      }
      for i := 0 to |args|
        invariant forall j | 0 <= j < i :: args[j].Kind() == signature[j]
      {
        if args[i].Kind() != signature[i] {
          return Raise(None, "Bad argument type");
        }
      }
      r := Ok(native(args));
    }
  }
}
