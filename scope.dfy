/** A single scope: a name -> symbol table with a running stack-frame offset counter. */
module ScopeTable {
  import opened Wrappers
  import opened TypeSystem

  datatype SymbolType = Variable

  datatype Symbol = Symbol(symbolType: SymbolType, primitiveType: PrimitiveType, name: string, offset: int)

  class Scope {
    var symbols: map<string, Symbol>
    var lastOffset: int

    /** Every stored symbol is filed under its own name and sits inside the frame the
        counter has reached so far. */
    ghost predicate Valid()
      reads this
    {
      && lastOffset >= 0
      && forall n :: n in symbols ==> symbols[n].name == n && 0 <= symbols[n].offset <= lastOffset
    }

    constructor ()
      ensures Valid()
      ensures symbols == map[] && lastOffset == 0
    {
      symbols := map[];
      lastOffset := 0;
    }

    /** Lookup in this scope only. */
    function Get(name: string): (r: Option<Symbol>)
      reads this
      ensures r.Some? <==> name in symbols
      ensures r.Some? ==> r.value == symbols[name]
    {
      if name in symbols then Some(symbols[name]) else None
    }

    /** Advances the counter by the type's size in bytes and binds `name` to a symbol at the
        new offset; an existing binding of `name` is replaced without complaint. */
    method Add(name: string, symbolType: SymbolType, primitiveType: PrimitiveType)
      requires Valid()
      modifies this
      ensures Valid()
      ensures lastOffset == old(lastOffset) + GetSize(primitiveType) / 8
      ensures lastOffset >= old(lastOffset)
      ensures Get(name) == Some(Symbol(symbolType, primitiveType, name, lastOffset))
      ensures forall n :: n != name ==> Get(n) == old(Get(n))
      ensures symbols.Keys == old(symbols.Keys) + {name}
    {
      lastOffset := lastOffset + GetSize(primitiveType) / 8;
      symbols := symbols[name := Symbol(symbolType, primitiveType, name, lastOffset)];
    }
  }

  /** Declaring a u8, a u32 and a u64 in a fresh scope places them at offsets 1, 5 and 13. */
  method CumulativeOffsets() returns (offsets: seq<int>)
    ensures offsets == [1, 5, 13]
  {
    var scope := new Scope();
    assert GetSize(UInt8) == 8 && GetSize(UInt32) == 32 && GetSize(UInt64) == 64;
    assert "a" != "b" && "a" != "c" && "b" != "c";
    scope.Add("a", Variable, UInt8);
    ghost var a := scope.Get("a");
    assert a.value.offset == 1;
    scope.Add("b", Variable, UInt32);
    ghost var b := scope.Get("b");
    assert b.value.offset == 5 && scope.Get("a") == a;
    scope.Add("c", Variable, UInt64);
    assert scope.Get("a") == a && scope.Get("b") == b;
    offsets := [scope.symbols["a"].offset, scope.symbols["b"].offset, scope.symbols["c"].offset];
  }

  /** Void and Unknown symbols take no space: they share the offset reached so far and
      leave the counter where it was. */
  method ZeroSizedSymbols() returns (counter: int, voidOffset: int, unknownOffset: int)
    ensures counter == 2 && voidOffset == 2 && unknownOffset == 2
  {
    var scope := new Scope();
    scope.Add("w", Variable, Int16);
    scope.Add("v", Variable, Void);
    var v := scope.Get("v");
    scope.Add("u", Variable, Unknown);
    assert scope.Get("v") == v;
    counter := scope.lastOffset;
    voidOffset := scope.symbols["v"].offset;
    unknownOffset := scope.symbols["u"].offset;
  }

  /** Re-adding a name replaces its symbol and still advances the counter. */
  method Redeclaration() returns (count: nat, offset: int, primitiveType: PrimitiveType, counter: int)
    ensures count == 1 && offset == 12 && primitiveType == UInt64 && counter == 12
  {
    var scope := new Scope();
    scope.Add("x", Variable, UInt32);
    scope.Add("x", Variable, UInt64);
    count := |scope.symbols|;
    offset := scope.symbols["x"].offset;
    primitiveType := scope.symbols["x"].primitiveType;
    counter := scope.lastOffset;
  }
}
