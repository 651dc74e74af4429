/** The x86-64 back end: a four-slot first-fit register pool, a label counter and the
    emission of instruction lines for each construct. */
module X86Backend {
  import opened Wrappers
  import opened Format
  import opened TypeSystem

  // ---------------------------------------------------------------------------------------
  // Register and instruction tables: one row per width (8, 16, 32, 64 bits)

  const Registers: seq<seq<string>> := [
    ["%r8b", "%r9b", "%r10b", "%r11b"],
    ["%r8w", "%r9w", "%r10w", "%r11w"],
    ["%r8d", "%r9d", "%r10d", "%r11d"],
    ["%r8", "%r9", "%r10", "%r11"]
  ]

  /** Argument registers: only two per width row. */
  const ParamRegisters: seq<seq<string>> := [
    ["%dil", "%sil"],
    ["%di", "%si"],
    ["%edi", "%esi"],
    ["%rdi", "%rsi"]
  ]

  const Eax: seq<string> := ["%al", "%ax", "%eax", "%rax"]

  const MovInstr: seq<string> := ["movb", "movw", "movl", "movq"]
  const AddInstr: seq<string> := ["addb", "addw", "addl", "addq"]
  const SubInstr: seq<string> := ["subb", "subw", "subl", "subq"]
  const MulInstr: seq<string> := ["mulb", "mulw", "mull", "mulq"]
  const DivInstr: seq<string> := ["divb", "divw", "divl", "divq"]
  const CmpInstr: seq<string> := ["cmpb", "cmpw", "cmpl", "cmpq"]
  const AndInstr: seq<string> := ["andb", "andw", "andl", "andq"]

  /** Number of general-purpose registers the pool hands out. */
  const PoolSize: nat := 4

  /** A register handed out by the pool: the width it was requested for and its slot. */
  datatype Register = Register(size: int, index: nat)

  /** Symbol kinds this back end distinguishes. */
  datatype SymbolKind = Variable | FunctionParameter | Function

  datatype Symbol = Symbol(kind: SymbolKind, primitiveType: PrimitiveType, name: string, offset: int)

  /** What evaluating an expression amounts to for the back end: a value of some type, and
      the lines that compute it. */
  datatype Expression = Expression(primitiveType: PrimitiveType, code: seq<string>)

  /** What generating a statement amounts to for the back end: the lines it emits. */
  datatype Statement = Statement(code: seq<string>)

  datatype GenError =
    | OutOfRegisters
    | DoubleFree
    | IndexOutOfBounds
    | UnsupportedSize
    | FunctionSymbolAsValue
    | AssertionFailed

  /** The width row for a size in bits. */
  function SizeToInstructionIndex(size: int): (r: Result<nat, GenError>)
    ensures r.Ok? <==> size in {8, 16, 32, 64}
    ensures r.Ok? ==> r.value < 4 && [8, 16, 32, 64][r.value] == size
    ensures r.Err? ==> r.error == UnsupportedSize
  {
    if size == 8 then Ok(0)
    else if size == 16 then Ok(1)
    else if size == 32 then Ok(2)
    else if size == 64 then Ok(3)
    else Err(UnsupportedSize)
  }

  /** Every type with a non-zero size has a width row, and it names registers of that width. */
  lemma WidthRows(t: PrimitiveType)
    ensures SizeToInstructionIndex(GetSize(t)).Ok? <==> t != Unknown && t != Void
    ensures t == Int8 || t == UInt8 || t == Bool ==> Registers[SizeToInstructionIndex(GetSize(t)).value][0] == "%r8b"
    ensures t == Int64 || t == UInt64 ==> MovInstr[SizeToInstructionIndex(GetSize(t)).value] == "movq"
  {
  }

  // ---------------------------------------------------------------------------------------
  // The register pool as a value

  /** How many slots are taken. */
  function Occupancy(s: seq<Option<Register>>): nat {
    if |s| == 0 then 0 else Occupancy(s[..|s| - 1]) + (if s[|s| - 1].Some? then 1 else 0)
  }

  /** The lowest free slot, if any. */
  function FirstFree(s: seq<Option<Register>>): (r: Option<nat>)
    ensures r.Some? ==> r.value < |s| && s[r.value].None? && forall j :: 0 <= j < r.value ==> s[j].Some?
    ensures r.None? ==> forall j :: 0 <= j < |s| ==> s[j].Some?
  {
    if |s| == 0 then None
    else if s[0].None? then Some(0)
    else match FirstFree(s[1..])
      case Some(k) => Some(k + 1)
      case None => None
  }

  /** The free slots of `s` from slot `j` on, lowest first: the slots that successive
      first-fit requests take. */
  function FreeFrom(s: seq<Option<Register>>, j: nat): (r: seq<nat>)
    ensures forall k :: 0 <= k < |r| ==> j <= r[k] < |s| && s[r[k]].None?
    decreases |s| - j
  {
    if j >= |s| then [] else (if s[j].None? then [j] else []) + FreeFrom(s, j + 1)
  }

  lemma {:induction false} FreeFromSkip(s: seq<Option<Register>>, j: nat, i: nat)
    requires j <= i <= |s|
    requires forall k :: j <= k < i ==> s[k].Some?
    ensures FreeFrom(s, j) == FreeFrom(s, i)
    decreases i - j
  {
    if j < i {
      FreeFromSkip(s, j + 1, i);
    }
  }

  lemma {:induction false} FreeFromAgree(s: seq<Option<Register>>, t: seq<Option<Register>>, j: nat)
    requires |s| == |t|
    requires forall k :: j <= k < |s| ==> (s[k].None? <==> t[k].None?)
    ensures FreeFrom(s, j) == FreeFrom(t, j)
    decreases |s| - j
  {
    if j < |s| {
      FreeFromAgree(s, t, j + 1);
    }
  }

  /** A first-fit request takes the lowest free slot, and the other free slots stay free in
      the same order. */
  lemma TakeFirstFree(s: seq<Option<Register>>, x: Register)
    requires FirstFree(s).Some?
    ensures FreeFrom(s, 0) == [FirstFree(s).value] + FreeFrom(s[FirstFree(s).value := Some(x)], 0)
  {
    var i := FirstFree(s).value;
    var t := s[i := Some(x)];
    FreeFromSkip(s, 0, i);
    FreeFromSkip(t, 0, i + 1);
    FreeFromAgree(s, t, i + 1);
  }

  /** Taking or releasing one slot changes the occupancy by one. */
  lemma {:induction false} OccupancyUpdate(s: seq<Option<Register>>, i: nat, v: Option<Register>)
    requires i < |s|
    ensures Occupancy(s[i := v]) == Occupancy(s) - (if s[i].Some? then 1 else 0) + (if v.Some? then 1 else 0)
  {
    var t := s[i := v];
    if i == |s| - 1 {
      assert t[..|t| - 1] == s[..|s| - 1];
    } else {
      assert t[..|t| - 1] == s[..|s| - 1][i := v];
      OccupancyUpdate(s[..|s| - 1], i, v);
    }
  }

  /** The occupancy is the number of slots, exactly when every slot is taken, and zero
      exactly when every slot is free. */
  lemma {:induction false} OccupancyExtremes(s: seq<Option<Register>>)
    ensures Occupancy(s) <= |s|
    ensures Occupancy(s) == |s| <==> forall j :: 0 <= j < |s| ==> s[j].Some?
    ensures Occupancy(s) == 0 <==> forall j :: 0 <= j < |s| ==> s[j].None?
  {
    if |s| > 0 {
      var init := s[..|s| - 1];
      OccupancyExtremes(init);
      assert forall j :: 0 <= j < |init| ==> init[j] == s[j];
    }
  }

  /** `after` is `before` with each register of `taken` placed in a distinct slot that was
      free. */
  ghost predicate Holds(before: seq<Option<Register>>, after: seq<Option<Register>>, taken: seq<Register>) {
    && |before| == |after| == PoolSize
    && (forall k :: 0 <= k < |taken| ==>
          taken[k].index < PoolSize && before[taken[k].index].None? && after[taken[k].index] == Some(taken[k]))
    && (forall k, m :: 0 <= k < m < |taken| ==> taken[k].index != taken[m].index)
    && (forall j :: 0 <= j < PoolSize && (forall k :: 0 <= k < |taken| ==> taken[k].index != j) ==>
          after[j] == before[j])
  }

  /** Placing one more register in a free slot extends what is held, and takes one more
      slot. */
  lemma HoldsExtend(before: seq<Option<Register>>, current: seq<Option<Register>>, taken: seq<Register>,
                    reg: Register)
    requires Holds(before, current, taken)
    requires reg.index < PoolSize && current[reg.index].None?
    ensures Holds(before, current[reg.index := Some(reg)], taken + [reg])
    ensures Occupancy(current[reg.index := Some(reg)]) == Occupancy(current) + 1
  {
    OccupancyUpdate(current, reg.index, Some(reg));
    var after := current[reg.index := Some(reg)];
    var taken' := taken + [reg];
    forall k | 0 <= k < |taken|
      ensures taken[k].index != reg.index
    {
      assert current[taken[k].index].Some?;
    }
    forall j | 0 <= j < PoolSize && (forall k :: 0 <= k < |taken'| ==> taken'[k].index != j)
      ensures after[j] == before[j]
    {
      assert taken'[|taken|].index != j;
      assert forall k :: 0 <= k < |taken| ==> taken[k].index == taken'[k].index;
    }
  }

  /** The first `m` registers of `taken` are released again and the others still held. */
  ghost predicate ReleasedUpTo(before: seq<Option<Register>>, current: seq<Option<Register>>,
                               taken: seq<Register>, m: nat) {
    && |before| == |current| == PoolSize && m <= |taken|
    && (forall k :: 0 <= k < |taken| ==> taken[k].index < PoolSize)
    && (forall k :: m <= k < |taken| ==> current[taken[k].index] == Some(taken[k]))
    && (forall k :: 0 <= k < m ==> current[taken[k].index] == before[taken[k].index])
    && (forall j :: 0 <= j < PoolSize && (forall k :: 0 <= k < |taken| ==> taken[k].index != j) ==>
          current[j] == before[j])
  }

  /** Releasing the next held register frees a taken slot and keeps the rest in place. */
  lemma ReleaseStep(before: seq<Option<Register>>, held: seq<Option<Register>>,
                    current: seq<Option<Register>>, taken: seq<Register>, m: nat)
    requires Holds(before, held, taken) && ReleasedUpTo(before, current, taken, m) && m < |taken|
    ensures current[taken[m].index].Some?
    ensures ReleasedUpTo(before, current[taken[m].index := None], taken, m + 1)
  {
    var after := current[taken[m].index := None];
    forall k | m + 1 <= k < |taken| ensures after[taken[k].index] == Some(taken[k]) {
      assert taken[m].index != taken[k].index;
    }
    forall k | 0 <= k < m ensures after[taken[k].index] == before[taken[k].index] {
      assert taken[k].index != taken[m].index;
    }
  }

  /** Once every register is released the pool is as it was before. */
  lemma ReleaseDone(before: seq<Option<Register>>, held: seq<Option<Register>>,
                    current: seq<Option<Register>>, taken: seq<Register>)
    requires Holds(before, held, taken) && ReleasedUpTo(before, current, taken, |taken|)
    ensures current == before
  {
    forall j | 0 <= j < PoolSize ensures current[j] == before[j] {
      if exists k :: 0 <= k < |taken| && taken[k].index == j {
        var k :| 0 <= k < |taken| && taken[k].index == j;
        assert current[taken[k].index] == before[taken[k].index];
      }
    }
  }

  // ---------------------------------------------------------------------------------------
  // Line formats

  function Reg(sizeIndex: nat, index: nat): string
    requires sizeIndex < 4 && index < PoolSize
  {
    Registers[sizeIndex][index]
  }

  function LabelLine(number: int): string {
    "L" + IntToString(number) + ":"
  }

  function CompareWithZero(sizeIndex: nat, index: nat): string
    requires sizeIndex < 4 && index < PoolSize
  {
    "\t" + CmpInstr[sizeIndex] + "\t$0, " + Reg(sizeIndex, index)
  }

  /** The lines for argument `index` whose value is in slot `slot`: the argument's code, the
      clearing of the 64-bit argument register, and the move into the argument register of
      the argument's width. */
  function ArgumentLines(param: Expression, index: nat, slot: nat): seq<string>
    requires index < |ParamRegisters[3]| && slot < PoolSize
    requires SizeToInstructionIndex(GetSize(param.primitiveType)).Ok?
  {
    var row := SizeToInstructionIndex(GetSize(param.primitiveType)).value;
    param.code + [
      "\txor\t\t" + ParamRegisters[3][index] + "," + ParamRegisters[3][index],
      "\t" + MovInstr[row] + "\t" + Reg(row, slot) + ", " + ParamRegisters[row][index]]
  }

  /** The lines for the first `n` arguments of a call, argument `k` being held in slot
      `slots[k]`. */
  function CallLines(params: seq<Expression>, n: nat, slots: seq<nat>): seq<string>
    requires n <= |params| && n <= |slots| && n <= |ParamRegisters[3]|
    requires forall k :: 0 <= k < n ==>
      slots[k] < PoolSize && SizeToInstructionIndex(GetSize(params[k].primitiveType)).Ok?
  {
    if n == 0 then []
    else CallLines(params, n - 1, slots) + ArgumentLines(params[n - 1], n - 1, slots[n - 1])
  }

  /** The lines after an `if` test: the taken branch, a jump to the end label, the else
      branch under its own label when there is one, and the end label. */
  function Branches(code: Statement, elseCode: Option<Statement>, elseLabel: int, endLabel: int): seq<string> {
    var taken := code.code + ["\tjmp L" + IntToString(endLabel)];
    if elseCode.Some? then taken + [LabelLine(elseLabel)] + elseCode.value.code + [LabelLine(endLabel)]
    else taken + [LabelLine(endLabel)]
  }

  /** Register and label spellings of different slots, widths or labels differ. */
  lemma SpellingsDistinct(number: int, number': int)
    ensures forall s, i, j :: 0 <= s < 4 && 0 <= i < j < PoolSize ==> Reg(s, i) != Reg(s, j)
    ensures number != number' ==> LabelLine(number) != LabelLine(number')
  {
    if number != number' && LabelLine(number) == LabelLine(number') {
      assert IntToString(number) == LabelLine(number)[1..|LabelLine(number)| - 1];
      assert IntToString(number') == LabelLine(number')[1..|LabelLine(number')| - 1];
      IntToStringInjective(number, number');
    }
  }

  // ---------------------------------------------------------------------------------------
  // The generator

  class X86CodeGenerator {
    var output: seq<string>
    const registers: array<Option<Register>>
    var labelIndex: int

    /** Four slots, each holding a register that records its own slot. */
    ghost predicate Valid()
      reads this, registers
    {
      && registers.Length == PoolSize
      && labelIndex >= 0
      && forall i :: 0 <= i < PoolSize && registers[i].Some? ==> registers[i].value.index == i
    }

    constructor ()
      ensures Valid() && fresh(registers)
      ensures output == [] && labelIndex == 0
      ensures forall i :: 0 <= i < PoolSize ==> registers[i].None?
    {
      output := [];
      registers := new Option<Register>[PoolSize](_ => None);
      labelIndex := 0;
    }

    method Write(data: string)
      modifies this
      ensures output == old(output) + [data] && labelIndex == old(labelIndex)
    {
      output := output + [data];
    }

    /** Hands out the next label number. */
    method GetLabel() returns (number: int)
      requires Valid()
      modifies this
      ensures Valid() && unchanged(registers)
      ensures number == old(labelIndex) && labelIndex == number + 1 && output == old(output)
    {
      number := labelIndex;
      labelIndex := labelIndex + 1;
    }

    /** Takes the lowest free slot for a register of `size` bits; fails when all are taken. */
    method GetRegister(size: int) returns (r: Result<Register, GenError>)
      requires Valid()
      modifies registers
      ensures Valid()
      ensures r.Ok? <==> FirstFree(old(registers[..])).Some?
      ensures r.Ok? ==> r.value == Register(size, FirstFree(old(registers[..])).value)
      ensures r.Ok? ==> registers[..] == old(registers[..])[r.value.index := Some(r.value)]
      ensures r.Ok? ==> Occupancy(registers[..]) == Occupancy(old(registers[..])) + 1
      ensures r.Err? ==> r.error == OutOfRegisters && registers[..] == old(registers[..])
    {
      for i := 0 to registers.Length
        invariant forall j :: 0 <= j < i ==> registers[j].Some?
        invariant registers[..] == old(registers[..])
      {
        if registers[i].None? {
          var register := Register(size, i);
          OccupancyUpdate(registers[..], i, Some(register));
          registers[i] := Some(register);
          return Ok(register);
        }
      }
      return Err(OutOfRegisters);
    }

    /** Releases the slot of `reg`; releasing a free slot is an error. */
    method FreeRegister(reg: Register) returns (r: Result<(), GenError>)
      requires Valid()
      modifies registers
      ensures Valid()
      ensures r.Ok? <==> reg.index < PoolSize && old(registers[..])[reg.index].Some?
      ensures reg.index < PoolSize && old(registers[..])[reg.index].None? ==> r == Err(DoubleFree)
      ensures r.Ok? ==> registers[..] == old(registers[..])[reg.index := None]
      ensures r.Ok? ==> Occupancy(registers[..]) == Occupancy(old(registers[..])) - 1
      ensures r.Err? ==> registers[..] == old(registers[..])
    {
      if reg.index >= registers.Length {
        return Err(IndexOutOfBounds);
      }
      if registers[reg.index].None? {
        return Err(DoubleFree);
      }
      OccupancyUpdate(registers[..], reg.index, None);
      registers[reg.index] := None;
      r := Ok(());
    }

    /** Stand-in for evaluating an expression: its lines, then one register of its width. */
    method GenExpression(e: Expression) returns (r: Result<Register, GenError>)
      requires Valid()
      modifies this, registers
      ensures Valid() && labelIndex == old(labelIndex)
      ensures output == old(output) + e.code
      ensures r.Ok? <==> FirstFree(old(registers[..])).Some?
      ensures r.Ok? ==> r.value == Register(GetSize(e.primitiveType), FirstFree(old(registers[..])).value)
      ensures r.Ok? ==> registers[..] == old(registers[..])[r.value.index := Some(r.value)]
      ensures r.Err? ==> registers[..] == old(registers[..])
    {
      output := output + e.code;
      r := GetRegister(GetSize(e.primitiveType));
    }

    /** Stand-in for generating a statement: it appends its lines. */
    method GenNode(s: Statement)
      modifies this
      ensures output == old(output) + s.code && labelIndex == old(labelIndex)
    {
      output := output + s.code;
    }

    /** Reserves stack space for the symbol and stores `register` into its slot. */
    method GenAssignmentInstr(symbol: Symbol, register: Register, sizeIndex: nat)
      requires Valid() && register.index < PoolSize && sizeIndex < 4
      modifies this
      ensures Valid() && unchanged(registers) && labelIndex == old(labelIndex)
      ensures output == old(output) + [
        "\tsubq\t$" + IntToString(symbol.offset) + ", %rsp",
        "\t" + MovInstr[sizeIndex] + "\t" + Reg(sizeIndex, register.index) + ", -" + IntToString(symbol.offset) + "(%rbp)"]
    {
      Write("\tsubq\t$" + IntToString(symbol.offset) + ", %rsp");
      Write("\t" + MovInstr[sizeIndex] + "\t" + Registers[sizeIndex][register.index] + ", -"
        + IntToString(symbol.offset) + "(%rbp)");
    }

    /** Compares the two operands, sets the byte of the right register from the flags and
        masks it; the right register carries the result and the left one is released. */
    method GenComparisonInstr(left: Register, right: Register, sizeIndex: nat, comparisonType: string)
      returns (r: Result<Register, GenError>)
      requires Valid() && left.index < PoolSize && right.index < PoolSize && sizeIndex < 4
      modifies this, registers
      ensures Valid() && labelIndex == old(labelIndex)
      ensures output == old(output) + [
        "\t" + CmpInstr[sizeIndex] + "\t" + Reg(sizeIndex, right.index) + ", " + Reg(sizeIndex, left.index),
        "\t" + comparisonType + "\t" + Reg(0, right.index),
        "\t" + AndInstr[sizeIndex] + "\t$255, " + Reg(sizeIndex, right.index)]
      ensures r.Ok? <==> old(registers[..])[left.index].Some?
      ensures r.Ok? ==> r.value == right && registers[..] == old(registers[..])[left.index := None]
      ensures r.Ok? ==> Occupancy(registers[..]) == Occupancy(old(registers[..])) - 1
    {
      Write("\t" + CmpInstr[sizeIndex] + "\t" + Registers[sizeIndex][right.index] + ", "
        + Registers[sizeIndex][left.index]);
      Write("\t" + comparisonType + "\t" + Registers[0][right.index]);
      Write("\t" + AndInstr[sizeIndex] + "\t$255, " + Registers[sizeIndex][right.index]);
      var _ :- FreeRegister(left);
      r := Ok(right);
    }

    /** Adds the right operand into the left register and releases the right register. */
    method GenAddInstr(left: Register, right: Register, sizeIndex: nat) returns (r: Result<Register, GenError>)
      requires Valid() && left.index < PoolSize && right.index < PoolSize && sizeIndex < 4
      modifies this, registers
      ensures Valid() && labelIndex == old(labelIndex)
      ensures output == old(output) + [
        "\t" + AddInstr[sizeIndex] + "\t" + Reg(sizeIndex, right.index) + ", " + Reg(sizeIndex, left.index)]
      ensures r.Ok? <==> old(registers[..])[right.index].Some?
      ensures r.Ok? ==> r.value == left && registers[..] == old(registers[..])[right.index := None]
      ensures r.Ok? ==> Occupancy(registers[..]) == Occupancy(old(registers[..])) - 1
    {
      Write("\t" + AddInstr[sizeIndex] + "\t" + Registers[sizeIndex][right.index] + ", "
        + Registers[sizeIndex][left.index]);
      var _ :- FreeRegister(right);
      r := Ok(left);
    }

    /** Subtracts the right operand from the left register and releases the right register. */
    method GenSubtractInstr(left: Register, right: Register, sizeIndex: nat) returns (r: Result<Register, GenError>)
      requires Valid() && left.index < PoolSize && right.index < PoolSize && sizeIndex < 4
      modifies this, registers
      ensures Valid() && labelIndex == old(labelIndex)
      ensures output == old(output) + [
        "\t" + SubInstr[sizeIndex] + "\t" + Reg(sizeIndex, right.index) + ", " + Reg(sizeIndex, left.index)]
      ensures r.Ok? <==> old(registers[..])[right.index].Some?
      ensures r.Ok? ==> r.value == left && registers[..] == old(registers[..])[right.index := None]
      ensures r.Ok? ==> Occupancy(registers[..]) == Occupancy(old(registers[..])) - 1
    {
      Write("\t" + SubInstr[sizeIndex] + "\t" + Registers[sizeIndex][right.index] + ", "
        + Registers[sizeIndex][left.index]);
      var _ :- FreeRegister(right);
      r := Ok(left);
    }

    /** Multiplies through the accumulator, in one write of three lines, leaving the product
        in the left register; the right register is released. */
    method GenMultiplyInstr(left: Register, right: Register, sizeIndex: nat) returns (r: Result<Register, GenError>)
      requires Valid() && left.index < PoolSize && right.index < PoolSize && sizeIndex < 4
      modifies this, registers
      ensures Valid() && labelIndex == old(labelIndex)
      ensures output == old(output) + [
        "\t" + MovInstr[sizeIndex] + "\t" + Reg(sizeIndex, right.index) + ", " + Eax[sizeIndex]
        + "\n\t" + MulInstr[sizeIndex] + "\t" + Reg(sizeIndex, left.index)
        + "\n\t" + MovInstr[sizeIndex] + "\t" + Eax[sizeIndex] + ", " + Reg(sizeIndex, left.index)]
      ensures r.Ok? <==> old(registers[..])[right.index].Some?
      ensures r.Ok? ==> r.value == left && registers[..] == old(registers[..])[right.index := None]
      ensures r.Ok? ==> Occupancy(registers[..]) == Occupancy(old(registers[..])) - 1
    {
      Write("\t" + MovInstr[sizeIndex] + "\t" + Registers[sizeIndex][right.index] + ", " + Eax[sizeIndex]
        + "\n\t" + MulInstr[sizeIndex] + "\t" + Registers[sizeIndex][left.index]
        + "\n\t" + MovInstr[sizeIndex] + "\t" + Eax[sizeIndex] + ", " + Registers[sizeIndex][left.index]);
      var _ :- FreeRegister(right);
      r := Ok(left);
    }

    /** Divides the left operand by the right through the accumulator, leaving the quotient
        in the left register; the right register is released. */
    method GenDivideInstr(left: Register, right: Register, sizeIndex: nat) returns (r: Result<Register, GenError>)
      requires Valid() && left.index < PoolSize && right.index < PoolSize && sizeIndex < 4
      modifies this, registers
      ensures Valid() && labelIndex == old(labelIndex)
      ensures output == old(output) + [
        "\t" + MovInstr[sizeIndex] + "\t" + Reg(sizeIndex, left.index) + ", " + Eax[sizeIndex],
        "\tcltd",
        "\t" + DivInstr[sizeIndex] + "\t" + Reg(sizeIndex, right.index),
        "\t" + MovInstr[sizeIndex] + "\t" + Eax[sizeIndex] + ", " + Reg(sizeIndex, left.index)]
      ensures r.Ok? <==> old(registers[..])[right.index].Some?
      ensures r.Ok? ==> r.value == left && registers[..] == old(registers[..])[right.index := None]
      ensures r.Ok? ==> Occupancy(registers[..]) == Occupancy(old(registers[..])) - 1
    {
      Write("\t" + MovInstr[sizeIndex] + "\t" + Registers[sizeIndex][left.index] + ", " + Eax[sizeIndex]);
      Write("\tcltd");
      Write("\t" + DivInstr[sizeIndex] + "\t" + Registers[sizeIndex][right.index]);
      Write("\t" + MovInstr[sizeIndex] + "\t" + Eax[sizeIndex] + ", " + Registers[sizeIndex][left.index]);
      var _ :- FreeRegister(right);
      r := Ok(left);
    }

    /** Loads a literal into a fresh register, always through its 64-bit name. */
    method GenNumericLiteralInstr(primitiveType: PrimitiveType, value: int) returns (r: Result<Register, GenError>)
      requires Valid()
      modifies this, registers
      ensures Valid() && labelIndex == old(labelIndex)
      ensures r.Ok? <==> FirstFree(old(registers[..])).Some?
      ensures r.Ok? ==> r.value == Register(GetSize(primitiveType), FirstFree(old(registers[..])).value)
      ensures r.Ok? ==> registers[..] == old(registers[..])[r.value.index := Some(r.value)]
      ensures r.Ok? ==> Occupancy(registers[..]) == Occupancy(old(registers[..])) + 1
      ensures r.Ok? ==> output == old(output) + ["\t" + MovInstr[3] + "\t$" + IntToString(value) + ", " + Reg(3, r.value.index)]
      ensures r.Err? ==> output == old(output) && registers[..] == old(registers[..])
    {
      var register :- GetRegister(GetSize(primitiveType));
      Write("\t" + MovInstr[3] + "\t$" + IntToString(value) + ", " + Registers[3][register.index]);
      r := Ok(register);
    }

    /** Zero-extends `register` into a fresh register of the wider type, then releases the
        source: the result is taken before the source is freed. */
    method GenWidenInstr(register: Register, primitiveType: PrimitiveType, srcIndex: nat, destIndex: nat)
      returns (r: Result<Register, GenError>)
      requires Valid() && register.index < PoolSize && srcIndex < 4 && destIndex < 4
      modifies this, registers
      ensures Valid() && labelIndex == old(labelIndex)
      ensures FirstFree(old(registers[..])).None? ==> r == Err(OutOfRegisters)
      ensures r.Ok? <==>
        && FirstFree(old(registers[..])).Some?
        && (old(registers[..])[register.index].Some? || register.index == FirstFree(old(registers[..])).value)
      ensures r.Err? && FirstFree(old(registers[..])).Some? ==> r == Err(DoubleFree)
      ensures r.Ok? ==> r.value == Register(GetSize(primitiveType), FirstFree(old(registers[..])).value)
      ensures r.Ok? ==> registers[..] == old(registers[..])[r.value.index := Some(r.value)][register.index := None]
      ensures r.Ok? && old(registers[..])[register.index].Some? ==>
        Occupancy(registers[..]) == Occupancy(old(registers[..]))
      ensures r.Ok? ==> output == old(output) + ["\tmovzx\t" + Reg(srcIndex, register.index) + ", " + Reg(destIndex, r.value.index)]
    {
      var resultReg :- GetRegister(GetSize(primitiveType));
      Write("\tmovzx\t" + Registers[srcIndex][register.index] + ", " + Registers[destIndex][resultReg.index]);
      var _ :- FreeRegister(register);
      r := Ok(resultReg);
    }

    /** Loads a variable from its stack slot, or a parameter from its argument register,
        into a fresh register. A function symbol has no value. */
    method GenIdentifierInstr(symbol: Symbol) returns (r: Result<Register, GenError>)
      requires Valid()
      modifies this, registers
      ensures Valid() && labelIndex == old(labelIndex)
      ensures r.Ok? <==>
        && FirstFree(old(registers[..])).Some?
        && SizeToInstructionIndex(GetSize(symbol.primitiveType)).Ok?
        && (symbol.kind == Variable || (symbol.kind == FunctionParameter && 0 <= symbol.offset < 2))
      ensures r.Ok? ==> r.value == Register(GetSize(symbol.primitiveType), FirstFree(old(registers[..])).value)
      ensures r.Ok? ==> registers[..] == old(registers[..])[r.value.index := Some(r.value)]
      ensures r.Ok? && symbol.kind == Variable ==>
        var index := SizeToInstructionIndex(GetSize(symbol.primitiveType)).value;
        output == old(output) + ["\t" + MovInstr[index] + "\t-" + IntToString(symbol.offset) + "(%rbp), " + Reg(index, r.value.index)]
      ensures r.Ok? && symbol.kind == FunctionParameter ==>
        var index := SizeToInstructionIndex(GetSize(symbol.primitiveType)).value;
        output == old(output) + ["\t" + MovInstr[index] + "\t" + ParamRegisters[index][symbol.offset] + ", " + Reg(index, r.value.index)]
      ensures symbol.kind == Function ==> r.Err?
    {
      var size := GetSize(symbol.primitiveType);
      var register :- GetRegister(size);
      var index :- SizeToInstructionIndex(size);
      match symbol.kind {
        case Variable =>
          Write("\t" + MovInstr[index] + "\t-" + IntToString(symbol.offset) + "(%rbp), "
            + Registers[index][register.index]);
        case FunctionParameter =>
          if symbol.offset < 0 || symbol.offset >= |ParamRegisters[index]| {
            return Err(IndexOutOfBounds);
          }
          Write("\t" + MovInstr[index] + "\t" + ParamRegisters[index][symbol.offset] + ", "
            + Registers[index][register.index]);
        case Function =>
          return Err(FunctionSymbolAsValue);
      }
      r := Ok(register);
    }

    /** Evaluates each argument into its argument register, releases every argument
        register, then calls `name`. The guard admits up to four arguments although each
        width row names only two argument registers. */
    method GenFunctionCallInstr(name: string, params: seq<Expression>) returns (r: Result<(), GenError>)
      requires Valid()
      modifies this, registers
      ensures Valid() && labelIndex == old(labelIndex)
      ensures |params| > 4 ==> r == Err(AssertionFailed)
      ensures r.Ok? <==>
        && |params| <= |ParamRegisters[3]|
        && (forall k :: 0 <= k < |params| ==> SizeToInstructionIndex(GetSize(params[k].primitiveType)).Ok?)
        && Occupancy(old(registers[..])) + |params| <= PoolSize
      ensures r.Ok? ==> registers[..] == old(registers[..])
      ensures r.Ok? ==>
        && |params| <= |FreeFrom(old(registers[..]), 0)|
        && output == old(output) + CallLines(params, |params|, FreeFrom(old(registers[..]), 0)) + ["\tcall\t" + name]
    {
      if |params| > |ParamRegisters| {
        return Err(AssertionFailed);
      }
      ghost var before, start := registers[..], output;
      var taken :- LoadArguments(params);
      ReleaseArguments(before, taken);
      Write("\tcall\t" + name);
      r := Ok(());
    }

    /** The argument loop of a call: each argument is evaluated into a fresh register and
        moved into the argument register of its position. Argument `k` is held in the
        `k`-th free slot. */
    method LoadArguments(params: seq<Expression>) returns (r: Result<seq<Register>, GenError>)
      requires Valid()
      modifies this, registers
      ensures Valid() && labelIndex == old(labelIndex)
      ensures r.Ok? <==>
        && |params| <= |ParamRegisters[3]|
        && (forall k :: 0 <= k < |params| ==> SizeToInstructionIndex(GetSize(params[k].primitiveType)).Ok?)
        && Occupancy(old(registers[..])) + |params| <= PoolSize
      ensures r.Ok? ==>
        Loading(params, |params|, r.value, old(registers[..]), FreeFrom(old(registers[..]), 0), old(output),
                registers[..], output)
    {
      var taken: seq<Register> := [];
      ghost var before, start := registers[..], output;
      ghost var slots := FreeFrom(before, 0);
      LoadingStart(params, before, start);
      for index := 0 to |params|
        invariant Valid() && labelIndex == old(labelIndex)
        invariant Loading(params, index, taken, before, slots, start, registers[..], output)
      {
        var next := LoadNext(params, index, taken, before, slots, start);
        if next.Err? {
          return Err(next.error);
        }
        taken := next.value;
      }
      LoadingDone(params, taken, before, slots, start, registers[..], output);
      r := Ok(taken);
    }

    /** The state of the argument loop after `index` arguments: each is held, argument `k` in
        the `k`-th of the free slots `slots` of `before`, the free slots of `pool` are the
        rest of `slots`, and `output` is `start` followed by the arguments' lines. */
    static ghost predicate Loading(params: seq<Expression>, index: nat, taken: seq<Register>,
                                   before: seq<Option<Register>>, slots: seq<nat>, start: seq<string>,
                                   pool: seq<Option<Register>>, output: seq<string>) {
      && index <= |params| && |taken| == index && index <= |ParamRegisters[3]| && index <= |slots|
      && (forall k :: 0 <= k < index ==> SizeToInstructionIndex(GetSize(params[k].primitiveType)).Ok?)
      && (forall k :: 0 <= k < |slots| ==> slots[k] < PoolSize)
      && Occupancy(pool) == Occupancy(before) + index
      && Holds(before, pool, taken)
      && Allocated(params, index, taken, slots, pool)
      && output == start + CallLines(params, index, slots)
    }

    /** Before the first argument nothing is held and nothing is written. */
    static lemma LoadingStart(params: seq<Expression>, before: seq<Option<Register>>, start: seq<string>)
      requires |before| == PoolSize
      ensures Loading(params, 0, [], before, FreeFrom(before, 0), start, before, start)
    {
      assert FreeFrom(before, 0)[0..] == FreeFrom(before, 0);
    }

    /** After the last argument, the call's conditions for success hold. */
    static lemma LoadingDone(params: seq<Expression>, taken: seq<Register>, before: seq<Option<Register>>,
                             slots: seq<nat>, start: seq<string>, pool: seq<Option<Register>>, output: seq<string>)
      requires Loading(params, |params|, taken, before, slots, start, pool, output)
      ensures |params| <= |ParamRegisters[3]|
      ensures forall k :: 0 <= k < |params| ==> SizeToInstructionIndex(GetSize(params[k].primitiveType)).Ok?
      ensures Occupancy(before) + |params| <= PoolSize
    {
      OccupancyExtremes(pool);
    }

    /** The first `index` arguments are held, argument `k` in the `k`-th of the free slots
        `slots`, and the free slots of `pool` are the rest of `slots`. */
    static ghost predicate Allocated(params: seq<Expression>, index: nat, taken: seq<Register>, slots: seq<nat>,
                                     pool: seq<Option<Register>>) {
      && index <= |params| && |taken| == index && index <= |slots|
      && FreeFrom(pool, 0) == slots[index..]
      && forall k :: 0 <= k < index ==> taken[k] == Register(GetSize(params[k].primitiveType), slots[k])
    }

    /** One step of LoadArguments: loads argument `index` after the registers `taken` for
        the arguments before it. */
    method LoadNext(params: seq<Expression>, index: nat, taken: seq<Register>,
                    ghost before: seq<Option<Register>>, ghost slots: seq<nat>, ghost start: seq<string>)
      returns (r: Result<seq<Register>, GenError>)
      requires Valid() && index < |params|
      requires Loading(params, index, taken, before, slots, start, registers[..], output)
      modifies this, registers
      ensures Valid() && labelIndex == old(labelIndex)
      ensures r.Ok? ==> |r.value| == index + 1 && r.value[..index] == taken
      ensures r.Ok? ==> Loading(params, index + 1, r.value, before, slots, start, registers[..], output)
      ensures r.Err? ==>
        !(&& |params| <= |ParamRegisters[3]|
          && (forall k :: 0 <= k < |params| ==> SizeToInstructionIndex(GetSize(params[k].primitiveType)).Ok?)
          && Occupancy(before) + |params| <= PoolSize)
    {
      ghost var current := registers[..];
      var loaded := LoadArgument(params[index], index);
      if loaded.Err? {
        ArgumentsRejected(params, index, Occupancy(before));
        return Err(loaded.error);
      }
      HoldsExtend(before, current, taken, loaded.value);
      TakeFirstFree(current, loaded.value);
      r := Ok(taken + [loaded.value]);
      AllocatedStep(params, index, taken, slots, current, loaded.value);
      AppendAssociates(start, CallLines(params, index, slots), ArgumentLines(params[index], index, slots[index]));
    }

    /** Taking the lowest free slot for argument `index` extends what is allocated. */
    static lemma AllocatedStep(params: seq<Expression>, index: nat, taken: seq<Register>, slots: seq<nat>,
                               pool: seq<Option<Register>>, reg: Register)
      requires index < |params| && Allocated(params, index, taken, slots, pool)
      requires FirstFree(pool).Some? && reg == Register(GetSize(params[index].primitiveType), FirstFree(pool).value)
      requires FreeFrom(pool, 0) == [reg.index] + FreeFrom(pool[reg.index := Some(reg)], 0)
      ensures index < |slots| && slots[index] == reg.index
      ensures Allocated(params, index + 1, taken + [reg], slots, pool[reg.index := Some(reg)])
    {
      assert slots[index..] == [reg.index] + FreeFrom(pool[reg.index := Some(reg)], 0);
      assert slots[index + 1..] == slots[index..][1..];
    }

    /** An argument that cannot be loaded makes the whole argument list unloadable. */
    static lemma ArgumentsRejected(params: seq<Expression>, index: nat, before: nat)
      requires index < |params|
      requires || SizeToInstructionIndex(GetSize(params[index].primitiveType)).Err?
               || before + index >= PoolSize
               || index >= |ParamRegisters[3]|
      ensures !(&& |params| <= |ParamRegisters[3]|
                && (forall k :: 0 <= k < |params| ==> SizeToInstructionIndex(GetSize(params[k].primitiveType)).Ok?)
                && before + |params| <= PoolSize)
    {
    }

    /** One argument of a call: its width row, its value in a fresh register, and the moves
        into the argument register of position `index`. */
    method LoadArgument(param: Expression, index: nat) returns (r: Result<Register, GenError>)
      requires Valid()
      modifies this, registers
      ensures Valid() && labelIndex == old(labelIndex)
      ensures r.Ok? <==>
        && SizeToInstructionIndex(GetSize(param.primitiveType)).Ok?
        && FirstFree(old(registers[..])).Some?
        && index < |ParamRegisters[3]|
      ensures SizeToInstructionIndex(GetSize(param.primitiveType)).Ok? && FirstFree(old(registers[..])).None? ==>
        Occupancy(old(registers[..])) == PoolSize
      ensures r.Ok? ==> r.value == Register(GetSize(param.primitiveType), FirstFree(old(registers[..])).value)
      ensures r.Ok? ==> registers[..] == old(registers[..])[r.value.index := Some(r.value)]
      ensures r.Ok? ==> output == old(output) + ArgumentLines(param, index, r.value.index)
    {
      var instrIndex :- SizeToInstructionIndex(GetSize(param.primitiveType));
      OccupancyExtremes(registers[..]);
      var expressionReg :- GenExpression(param);
      if index >= |ParamRegisters[3]| {
        return Err(IndexOutOfBounds);
      }
      Write("\txor\t\t" + ParamRegisters[3][index] + "," + ParamRegisters[3][index]);
      Write("\t" + MovInstr[instrIndex] + "\t" + Registers[instrIndex][expressionReg.index] + ", "
        + ParamRegisters[instrIndex][index]);
      r := Ok(expressionReg);
    }

    /** Releases the argument registers of a call, which leaves the pool as it was before the
        arguments were evaluated. */
    method ReleaseArguments(ghost before: seq<Option<Register>>, taken: seq<Register>)
      requires Valid() && Holds(before, registers[..], taken)
      modifies registers
      ensures Valid() && registers[..] == before
    {
      ghost var held := registers[..];
      for m := 0 to |taken|
        invariant Valid()
        invariant ReleasedUpTo(before, registers[..], taken, m)
      {
        ReleaseStep(before, held, registers[..], taken, m);
        var freed := FreeRegister(taken[m]);
        assert freed.Ok?;
      }
      ReleaseDone(before, held, registers[..], taken);
    }

    /** `if` with an optional `else`: two fresh labels, a conditional jump to the else number
        when there is an else branch and to the end number otherwise, and the end number last. */
    method GenIfInstr(condition: Expression, code: Statement, elseCode: Option<Statement>)
      returns (r: Result<(), GenError>)
      requires Valid()
      modifies this, registers
      ensures Valid()
      ensures r.Ok? <==> FirstFree(old(registers[..])).Some? && SizeToInstructionIndex(GetSize(condition.primitiveType)).Ok?
      ensures r.Ok? ==> registers[..] == old(registers[..]) && labelIndex == old(labelIndex) + 2
      ensures r.Ok? ==>
        var elseLabel, endLabel := old(labelIndex), old(labelIndex) + 1;
        var sizeIndex := SizeToInstructionIndex(GetSize(condition.primitiveType)).value;
        output == old(output) + condition.code
          + [CompareWithZero(sizeIndex, FirstFree(old(registers[..])).value)]
          + ["\tjz\t\tL" + IntToString(if elseCode.Some? then elseLabel else endLabel)]
          + Branches(code, elseCode, elseLabel, endLabel)
    {
      var hasElse := elseCode.Some?;
      var conditionReg :- GenExpression(condition);
      var elseLabel := GetLabel();
      var endLabel := GetLabel();
      var instrIndex :- SizeToInstructionIndex(conditionReg.size);
      Write(CompareWithZero(instrIndex, conditionReg.index));
      Write("\tjz\t\tL" + IntToString(if hasElse then elseLabel else endLabel));
      GenBranches(code, elseCode, elseLabel, endLabel);
      var freed := FreeRegister(conditionReg);
      assert freed.Ok?;
      r := Ok(());
    }

    /** The taken branch, the jump past the other one, the else branch under its label if
        there is one, and the end label. */
    method GenBranches(code: Statement, elseCode: Option<Statement>, elseLabel: int, endLabel: int)
      modifies this
      ensures labelIndex == old(labelIndex)
      ensures output == old(output) + Branches(code, elseCode, elseLabel, endLabel)
    {
      ghost var start := output;
      ghost var lines := code.code + ["\tjmp L" + IntToString(endLabel)];
      GenNode(code);
      Write("\tjmp L" + IntToString(endLabel));
      AppendAssociates(start, code.code, ["\tjmp L" + IntToString(endLabel)]);
      if elseCode.Some? {
        Write(LabelLine(elseLabel));
        AppendAssociates(start, lines, [LabelLine(elseLabel)]);
        lines := lines + [LabelLine(elseLabel)];
        GenNode(elseCode.value);
        AppendAssociates(start, lines, elseCode.value.code);
        lines := lines + elseCode.value.code;
      }
      Write(LabelLine(endLabel));
      AppendAssociates(start, lines, [LabelLine(endLabel)]);
    }

    /** The loop body, the jump back to the test, and the label after the loop. */
    method GenLoopBody(code: Statement, startLabel: int, endLabel: int)
      modifies this
      ensures labelIndex == old(labelIndex)
      ensures output == old(output) + code.code + ["\tjmp\t\tL" + IntToString(startLabel)] + [LabelLine(endLabel)]
    {
      GenNode(code);
      Write("\tjmp\t\tL" + IntToString(startLabel));
      Write(LabelLine(endLabel));
    }

    /** `while`: the start number before the condition, a conditional jump to the end number,
        the body, a jump back to the start number and the end number last. */
    method GenWhileInstr(condition: Expression, code: Statement) returns (r: Result<(), GenError>)
      requires Valid()
      modifies this, registers
      ensures Valid()
      ensures labelIndex == old(labelIndex) + 2
      ensures r.Ok? <==> FirstFree(old(registers[..])).Some? && SizeToInstructionIndex(GetSize(condition.primitiveType)).Ok?
      ensures r.Ok? ==> registers[..] == old(registers[..])
      ensures r.Ok? ==>
        var startLabel, endLabel := old(labelIndex), old(labelIndex) + 1;
        var sizeIndex := SizeToInstructionIndex(GetSize(condition.primitiveType)).value;
        output == old(output) + [LabelLine(startLabel)] + condition.code
          + [CompareWithZero(sizeIndex, FirstFree(old(registers[..])).value)]
          + ["\tjz\t\tL" + IntToString(endLabel)]
          + code.code
          + ["\tjmp\t\tL" + IntToString(startLabel)] + [LabelLine(endLabel)]
    {
      var startLabel := GetLabel();
      var endLabel := GetLabel();
      Write(LabelLine(startLabel));
      var conditionReg :- GenExpression(condition);
      var instrIndex :- SizeToInstructionIndex(conditionReg.size);
      Write(CompareWithZero(instrIndex, conditionReg.index));
      Write("\tjz\t\tL" + IntToString(endLabel));
      GenLoopBody(code, startLabel, endLabel);
      var freed := FreeRegister(conditionReg);
      assert freed.Ok?;
      r := Ok(());
    }

    /** A function body between the frame prologue and epilogue; the symbol must be a
        function, and its return type is checked to be void before `ret`. */
    method GenFunctionInstr(symbol: Symbol, code: Statement) returns (r: Result<(), GenError>)
      requires Valid()
      modifies this
      ensures Valid() && unchanged(registers) && labelIndex == old(labelIndex)
      ensures r.Ok? <==> symbol.kind == Function && symbol.primitiveType == Void
      ensures symbol.kind != Function ==> output == old(output)
      ensures symbol.kind == Function ==>
        var body := old(output) + [symbol.name + ":"] + ["\tpush\t%rbp"] + ["\tmov\t\t%rsp, %rbp"] + code.code
          + ["\tmov\t\t%rbp, %rsp"] + ["\tpop\t\t%rbp"];
        output == if symbol.primitiveType == Void then body + ["\tret"] else body
    {
      if symbol.kind != Function {
        return Err(AssertionFailed);
      }
      Write(symbol.name + ":");
      Write("\tpush\t%rbp");
      Write("\tmov\t\t%rsp, %rbp");
      GenNode(code);
      Write("\tmov\t\t%rbp, %rsp");
      Write("\tpop\t\t%rbp");
      if symbol.primitiveType != Void {
        return Err(AssertionFailed);
      }
      Write("\tret");
      r := Ok(());
    }

    /** At the end of a run every register must have been released. */
    method DoPostCheck() returns (ok: bool)
      requires Valid()
      ensures ok <==> Occupancy(registers[..]) == 0
    {
      OccupancyExtremes(registers[..]);
      for i := 0 to registers.Length
        invariant forall j :: 0 <= j < i ==> registers[j].None?
      {
        if registers[i].Some? {
          return false;
        }
      }
      return true;
    }
  }

  // ---------------------------------------------------------------------------------------
  // Runs on a fresh generator

  /** An `if` without `else` on a fresh generator uses labels 0 and 1, jumps to the end
      label, and leaves every register released. */
  method IfLeavesPoolEmpty() returns (ok: bool, labels: int, jump: string)
    ensures ok && labels == 2 && jump == "\tjz\t\tL1"
  {
    var g := new X86CodeGenerator();
    var condition := Expression(Int32, ["\tmovq\t$1, %r8"]);
    var r := g.GenIfInstr(condition, Statement([]), None);
    assert g.registers[..] == [None, None, None, None];
    assert r.Ok?;
    OccupancyExtremes(g.registers[..]);
    ok := g.DoPostCheck();
    labels := g.labelIndex;
    jump := g.output[2];
  }

  /** A call with three arguments passes the guard on the number of rows but has no third
      argument register, so it fails. */
  method ThirdArgumentFails() returns (r: Result<(), GenError>)
    ensures r.Err?
  {
    var g := new X86CodeGenerator();
    var argument := Expression(Int64, []);
    r := g.GenFunctionCallInstr("f", [argument, argument, argument]);
  }

  /** Five registers requested from a fresh pool: the fifth request fails. */
  method FifthRegisterFails() returns (r: Result<Register, GenError>)
    ensures r == Err(OutOfRegisters)
  {
    var g := new X86CodeGenerator();
    var r0 := g.GetRegister(64);
    var r1 := g.GetRegister(64);
    var r2 := g.GetRegister(64);
    var r3 := g.GetRegister(64);
    r := g.GetRegister(64);
  }
}
