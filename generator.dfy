/** The early code generator: a seven-slot register allocator that never releases a slot,
    and a walk over blocks, variable declarations and assignments of 32-bit literals that
    ends by printing the variable `x`. */
module EarlyGenerator {
  import opened Wrappers
  import opened Format
  import opened Ast
  import ScopeTable
  import TypeSystem

  /** Number of allocation slots. */
  const SlotCount: nat := 7

  /** Names of the registers the slots stand for: one fewer than there are slots. */
  const RegisterNames: seq<string> := ["%r10", "%r11", "%r12", "%r13", "%r14", "%r15"]

  /** The fixed lines before the tree's code. */
  const Prologue: seq<string> := [
    ".LC0:",
    "\t.string \"%d\\n\"",
    "\t.globl\tmain",
    "\t.type\tmain, @function",
    "main:",
    "\tpush\t%rbp",
    "\tmov\t%rsp, %rbp"
  ]

  /** The fixed lines after `x` has been loaded into %eax. */
  const Epilogue: seq<string> := [
    "\tmov\t%eax, %esi",
    "\tleaq\t.LC0(%rip), %rdi",
    "\tmov\t$0, %eax",
    "\tcall\tprintf@PLT",
    "\tmov\t$0, %eax",
    "\tpop\t%rbp",
    "\tret"
  ]

  datatype GenError =
    | OutOfRegisters
    | IndexOutOfBounds
    | UnsupportedLiteral
    | UnsupportedNode
    | Redeclaration
    | UnknownIdentifier
    | MissingResultVariable

  /** The symbol table's type for a declared tree type. */
  function SymbolTypeOf(t: Ast.PrimitiveType): (r: TypeSystem.PrimitiveType)
    ensures TypeSystem.GetSize(r) == match t
      case Int8 => 8
      case Int16 => 16
      case Int32 => 32
      case Int64 => 64
  {
    match t
    case Int8 => TypeSystem.PrimitiveType.Int8
    case Int16 => TypeSystem.PrimitiveType.Int16
    case Int32 => TypeSystem.PrimitiveType.Int32
    case Int64 => TypeSystem.PrimitiveType.Int64
  }

  // ---------------------------------------------------------------------------------------
  // The walk as a value

  /** Concatenation of a list of statement lists. */
  function Flatten(parts: seq<seq<AstNode>>): seq<AstNode> {
    if |parts| == 0 then [] else Flatten(parts[..|parts| - 1]) + parts[|parts| - 1]
  }

  /** The declarations and assignments of a tree in the order the walk meets them; every
      other node contributes nothing. */
  function Statements(node: AstNode): seq<AstNode> {
    match node
    case Block(children) => Flatten(seq(|children|, i requires 0 <= i < |children| => Statements(children[i])))
    case VariableDeclaration(_, _) => [node]
    case Assignment(_, _) => [node]
    case _ => []
  }

  /** What the walk has established: the names declared and the slots used. */
  datatype Progress = Progress(declared: set<string>, used: nat)

  /** Evaluating an expression: only a 32-bit literal, which takes the next slot; the
      seventh slot exists but has no register name. */
  function Evaluate(e: AstNode, used: nat): (r: Result<nat, GenError>)
    ensures r.Ok? ==> r.value == used + 1 && r.value <= |RegisterNames|
  {
    if !e.NumericLiteral? then Err(UnsupportedNode)
    else if e.primitiveType != Int32 then Err(UnsupportedLiteral)
    else if used >= SlotCount then Err(OutOfRegisters)
    else if used >= |RegisterNames| then Err(IndexOutOfBounds)
    else Ok(used + 1)
  }

  /** One statement: a declaration of a new name, or an assignment whose value is evaluated
      before its target is looked up. */
  function Step(s: AstNode, p: Progress): Result<Progress, GenError> {
    match s
    case VariableDeclaration(name, _) =>
      if name in p.declared then Err(Redeclaration) else Ok(Progress(p.declared + {name}, p.used))
    case Assignment(target, expression) =>
      var used :- Evaluate(expression, p.used);
      if target !in p.declared then Err(UnknownIdentifier) else Ok(Progress(p.declared, used))
    case _ => Ok(p)
  }

  /** The statements in order, stopping at the first failure. */
  function Run(stmts: seq<AstNode>, p: Progress): Result<Progress, GenError>
    decreases |stmts|
  {
    if |stmts| == 0 then Ok(p)
    else
      var next :- Step(stmts[0], p);
      Run(stmts[1..], next)
  }

  function DeclaredNames(stmts: seq<AstNode>): set<string> {
    if |stmts| == 0 then {}
    else (if stmts[0].VariableDeclaration? then {stmts[0].name} else {}) + DeclaredNames(stmts[1..])
  }

  function AssignmentCount(stmts: seq<AstNode>): nat {
    if |stmts| == 0 then 0
    else (if stmts[0].Assignment? then 1 else 0) + AssignmentCount(stmts[1..])
  }

  lemma {:induction false} FlattenSplit(parts: seq<seq<AstNode>>, i: nat)
    requires i <= |parts|
    ensures Flatten(parts) == Flatten(parts[..i]) + Flatten(parts[i..])
    decreases |parts|
  {
    if i < |parts| {
      var init := parts[..|parts| - 1];
      FlattenSplit(init, i);
      assert init[..i] == parts[..i];
      assert parts[i..][..|parts[i..]| - 1] == init[i..];
    } else {
      assert parts[..i] == parts;
    }
  }

  /** Running two lists one after the other is running their concatenation. */
  lemma {:induction false} RunAppend(a: seq<AstNode>, b: seq<AstNode>, p: Progress)
    ensures Run(a, p).Err? ==> Run(a + b, p) == Run(a, p)
    ensures Run(a, p).Ok? ==> Run(a + b, p) == Run(b, Run(a, p).value)
    decreases |a|
  {
    if |a| == 0 {
      assert a + b == b;
    } else {
      assert (a + b)[0] == a[0] && (a + b)[1..] == a[1..] + b;
      var next := Step(a[0], p);
      if next.Ok? {
        RunAppend(a[1..], b, next.value);
      }
    }
  }

  lemma {:induction false} AssignmentCountAppend(a: seq<AstNode>, b: seq<AstNode>)
    ensures AssignmentCount(a + b) == AssignmentCount(a) + AssignmentCount(b)
    decreases |a|
  {
    if |a| == 0 {
      assert a + b == b;
    } else {
      assert (a + b)[0] == a[0] && (a + b)[1..] == a[1..] + b;
      AssignmentCountAppend(a[1..], b);
    }
  }

  /** A successful walk declares exactly the declared names, takes one slot per assignment,
      and never gets past the sixth slot. */
  lemma {:induction false} RunCounts(stmts: seq<AstNode>, p: Progress)
    requires Run(stmts, p).Ok?
    ensures Run(stmts, p).value.declared == p.declared + DeclaredNames(stmts)
    ensures Run(stmts, p).value.used == p.used + AssignmentCount(stmts)
    ensures AssignmentCount(stmts) > 0 ==> p.used + AssignmentCount(stmts) <= |RegisterNames|
    decreases |stmts|
  {
    if |stmts| > 0 {
      var next := Step(stmts[0], p).value;
      RunCounts(stmts[1..], next);
    }
  }

  /** `n` assignments of the 32-bit literal `v` to `target`. */
  function Stores(target: string, v: int, n: nat): seq<AstNode> {
    seq(n, _ => Assignment(target, NumericLiteral(Int32, v)))
  }

  /** Storing literals into a declared name takes one slot each, and the store that reaches
      the seventh slot fails. */
  lemma {:induction false} RepeatedStores(target: string, v: int, n: nat, p: Progress)
    requires target in p.declared && p.used <= |RegisterNames|
    ensures Run(Stores(target, v, n), p) ==
      if p.used + n <= |RegisterNames| then Ok(Progress(p.declared, p.used + n)) else Err(IndexOutOfBounds)
    decreases n
  {
    var stores := Stores(target, v, n);
    if n > 0 {
      assert stores[0] == Assignment(target, NumericLiteral(Int32, v));
      assert stores[1..] == Stores(target, v, n - 1);
      if p.used < |RegisterNames| {
        RepeatedStores(target, v, n - 1, Progress(p.declared, p.used + 1));
      }
    }
  }

  /** A name declared twice makes the walk fail. */
  lemma {:induction false} DoubleDeclarationFails(stmts: seq<AstNode>, p: Progress, i: nat, j: nat)
    requires i < j < |stmts|
    requires stmts[i].VariableDeclaration? && stmts[j].VariableDeclaration?
    requires stmts[i].name == stmts[j].name
    ensures Run(stmts, p).Err?
    decreases |stmts|
  {
    if Step(stmts[0], p).Ok? {
      var next := Step(stmts[0], p).value;
      if i == 0 {
        DeclaredStaysDeclared(stmts[1..], next, j - 1, stmts[0].name);
      } else {
        DoubleDeclarationFails(stmts[1..], next, i - 1, j - 1);
      }
    }
  }

  /** A name declared before a declaration of it makes that declaration fail. */
  lemma {:induction false} DeclaredStaysDeclared(stmts: seq<AstNode>, p: Progress, j: nat, name: string)
    requires j < |stmts| && name in p.declared
    requires stmts[j].VariableDeclaration? && stmts[j].name == name
    ensures Run(stmts, p).Err?
    decreases |stmts|
  {
    if j > 0 && Step(stmts[0], p).Ok? {
      var next := Step(stmts[0], p).value;
      assert p.declared <= next.declared;
      DeclaredStaysDeclared(stmts[1..], next, j - 1, name);
    }
  }

  /** Assigning to a name that no earlier statement declared makes the walk fail. */
  lemma {:induction false} AssignmentBeforeDeclarationFails(stmts: seq<AstNode>, p: Progress, j: nat)
    requires j < |stmts| && stmts[j].Assignment?
    requires stmts[j].target !in p.declared + DeclaredNames(stmts[..j])
    ensures Run(stmts, p).Err?
    decreases |stmts|
  {
    if Step(stmts[0], p).Ok? && j > 0 {
      var next := Step(stmts[0], p).value;
      assert stmts[..j][0] == stmts[0] && stmts[..j][1..] == stmts[1..][..j - 1];
      AssignmentBeforeDeclarationFails(stmts[1..], next, j - 1);
    }
  }

  // ---------------------------------------------------------------------------------------
  // The generator

  /** Where the prologue, the walk's lines, the load of `x` and the epilogue sit in the
      finished output. */
  lemma OutputLayout(start: seq<string>, afterPrologue: seq<string>, body: seq<string>, load: string,
                     finished: seq<string>)
    requires afterPrologue == start + Prologue
    requires |afterPrologue| <= |body| && body[..|afterPrologue|] == afterPrologue
    requires finished == body + [load] + Epilogue
    ensures |finished| == |body| + 1 + |Epilogue|
    ensures finished[..|start|] == start && finished[|start|..|start| + |Prologue|] == Prologue
    ensures finished[|finished| - |Epilogue| - 1] == load
    ensures finished[|finished| - |Epilogue|..] == Epilogue
  {
    assert finished[..|body|] == body;
    assert finished[..|afterPrologue|] == afterPrologue;
  }

  class CodeGenerator {
    var output: seq<string>
    const scope: ScopeTable.Scope
    const registers: array<bool>
    /** How many slots have been handed out; they are always the lowest ones. */
    ghost var used: nat

    ghost predicate Valid()
      reads this, registers, scope
    {
      && registers.Length == SlotCount
      && used <= SlotCount
      && scope.Valid()
      && forall i :: 0 <= i < SlotCount ==> (registers[i] <==> i < used)
    }

    /** The walk's view of the state: declared names and used slots. */
    ghost function State(): Progress
      reads this, scope
    {
      Progress(scope.symbols.Keys, used)
    }

    constructor ()
      ensures Valid() && fresh(registers) && fresh(scope)
      ensures output == [] && used == 0 && scope.symbols == map[]
    {
      output := [];
      scope := new ScopeTable.Scope();
      registers := new bool[SlotCount](_ => false);
      used := 0;
    }

    method Write(data: string)
      modifies this
      ensures output == old(output) + [data] && used == old(used)
    {
      output := output + [data];
    }

    /** Marks and returns the lowest free slot; fails when all seven are taken. */
    method GetRegister() returns (r: Result<nat, GenError>)
      requires Valid()
      modifies this, registers
      ensures Valid() && output == old(output)
      ensures r.Ok? <==> old(used) < SlotCount
      ensures r.Ok? ==> r.value == old(used) && used == old(used) + 1
      ensures r.Err? ==> r.error == OutOfRegisters && used == old(used)
    {
      for i := 0 to registers.Length
        invariant i <= used
        invariant forall j :: 0 <= j < i ==> registers[j]
      {
        if !registers[i] {
          registers[i] := true;
          used := used + 1;
          return Ok(i);
        }
      }
      return Err(OutOfRegisters);
    }

    /** Releasing a register does nothing: every slot handed out stays taken. */
    method FreeRegister()
      requires Valid()
      ensures Valid()
    {
    }

    /** Only a 32-bit literal can be evaluated: it takes the next slot and is moved into that
        slot's register. */
    method GenExpression(expression: AstNode) returns (r: Result<nat, GenError>)
      requires Valid()
      modifies this, registers
      ensures Valid()
      ensures r.Ok? <==> Evaluate(expression, old(used)).Ok?
      ensures r.Err? ==> r.error == Evaluate(expression, old(used)).error
      ensures r.Ok? ==>
        && r.value == old(used) && used == old(used) + 1 && r.value < |RegisterNames|
        && output == old(output) + ["\tmov\t$" + IntToString(expression.value) + ", " + RegisterNames[r.value]]
    {
      if !expression.NumericLiteral? {
        return Err(UnsupportedNode);
      }
      if expression.primitiveType != Int32 {
        return Err(UnsupportedLiteral);
      }
      var register :- GetRegister();
      if register >= |RegisterNames| {
        return Err(IndexOutOfBounds);
      }
      Write("\tmov\t$" + IntToString(expression.value) + ", " + RegisterNames[register]);
      r := Ok(register);
    }

    /** Declares `name` as a variable; an existing name is an error. */
    method GenDeclaration(name: string, primitiveType: Ast.PrimitiveType) returns (r: Result<(), GenError>)
      requires Valid()
      modifies scope
      ensures Valid()
      ensures r.Ok? <==> name !in old(scope.symbols)
      ensures r.Err? ==> r.error == Redeclaration && scope.symbols == old(scope.symbols)
      ensures r.Ok? ==>
        && scope.symbols.Keys == old(scope.symbols.Keys) + {name}
        && scope.symbols[name].symbolType == ScopeTable.Variable
        && scope.symbols[name].primitiveType == SymbolTypeOf(primitiveType)
        && forall n :: n in old(scope.symbols) ==> scope.symbols[n] == old(scope.symbols[n])
    {
      if scope.Get(name).Some? {
        return Err(Redeclaration);
      }
      scope.Add(name, ScopeTable.Variable, SymbolTypeOf(primitiveType));
      assert forall n :: n in old(scope.symbols) ==> scope.Get(n) == old(scope.Get(n));
      r := Ok(());
    }

    /** Evaluates the expression first, then stores its register into the target's stack
        slot; an unknown target is an error. */
    method GenAssignment(target: string, expression: AstNode) returns (r: Result<(), GenError>)
      requires Valid()
      modifies this, registers
      ensures Valid()
      ensures r.Ok? <==> Step(Assignment(target, expression), old(State())).Ok?
      ensures r.Err? ==> r.error == Step(Assignment(target, expression), old(State())).error
      ensures r.Ok? ==>
        && State() == Step(Assignment(target, expression), old(State())).value
        && output == old(output) + [
          "\tmov\t$" + IntToString(expression.value) + ", " + RegisterNames[old(used)],
          "\tmov\t" + RegisterNames[old(used)] + ", -" + IntToString(scope.symbols[target].offset) + "(%rbp)"]
    {
      var register :- GenExpression(expression);
      var symbol := scope.Get(target);
      if symbol.None? {
        return Err(UnknownIdentifier);
      }
      Write("\tmov\t" + RegisterNames[register] + ", -" + IntToString(symbol.value.offset) + "(%rbp)");
      r := Ok(());
    }

    /** Blocks are walked child by child, declarations and assignments are generated, and
        every other node is passed over. */
    method GenNode(node: AstNode) returns (r: Result<(), GenError>)
      requires Valid()
      modifies this, registers, scope
      ensures Valid()
      ensures r.Ok? <==> Run(Statements(node), old(State())).Ok?
      ensures r.Err? ==> r.error == Run(Statements(node), old(State())).error
      ensures r.Ok? ==>
        && State() == Run(Statements(node), old(State())).value
        && |output| == |old(output)| + 2 * AssignmentCount(Statements(node))
        && output[..|old(output)|] == old(output)
      decreases node, 1
    {
      match node {
        case Block(children) =>
          r := GenBlock(children);
        case VariableDeclaration(name, primitiveType) =>
          r := GenDeclaration(name, primitiveType);
        case Assignment(target, expression) =>
          r := GenAssignment(target, expression);
        case _ =>
          r := Ok(());
      }
    }

    /** The children of a block in order, stopping at the first failure. */
    method GenBlock(children: seq<AstNode>) returns (r: Result<(), GenError>)
      requires Valid()
      modifies this, registers, scope
      ensures Valid()
      ensures r.Ok? <==> Run(Statements(Block(children)), old(State())).Ok?
      ensures r.Err? ==> r.error == Run(Statements(Block(children)), old(State())).error
      ensures r.Ok? ==>
        && State() == Run(Statements(Block(children)), old(State())).value
        && |output| == |old(output)| + 2 * AssignmentCount(Statements(Block(children)))
        && output[..|old(output)|] == old(output)
      decreases Block(children), 0
    {
      ghost var parts := seq(|children|, i requires 0 <= i < |children| => Statements(children[i]));
      assert Statements(Block(children)) == Flatten(parts);
      ghost var start := State();
      for i := 0 to |children|
        invariant Valid()
        invariant Run(Flatten(parts[..i]), start) == Ok(State())
        invariant |output| == |old(output)| + 2 * AssignmentCount(Flatten(parts[..i]))
        invariant output[..|old(output)|] == old(output)
      {
        ghost var before := State();
        ghost var done := Flatten(parts[..i]);
        var child := GenNode(children[i]);
        assert parts[..i + 1][..i] == parts[..i];
        assert Flatten(parts[..i + 1]) == done + parts[i];
        RunAppend(done, parts[i], start);
        if child.Err? {
          FlattenSplit(parts, i + 1);
          RunAppend(Flatten(parts[..i + 1]), Flatten(parts[i + 1..]), start);
          return Err(child.error);
        }
        AssignmentCountAppend(done, parts[i]);
      }
      assert parts[..|children|] == parts;
      r := Ok(());
    }

    /** The whole program: the fixed prologue, the tree's code, then `x` loaded and handed
        to printf; the program must declare `x`. */
    method Gen(node: AstNode) returns (r: Result<(), GenError>)
      requires Valid()
      modifies this, registers, scope
      ensures Valid()
      ensures r.Ok? <==>
        Run(Statements(node), old(State())).Ok? && "x" in Run(Statements(node), old(State())).value.declared
      ensures r.Err? ==>
        var run := Run(Statements(node), old(State()));
        r.error == if run.Err? then run.error else MissingResultVariable
      ensures r.Ok? ==>
        var n := |old(output)|;
        && |output| == n + |Prologue| + 2 * AssignmentCount(Statements(node)) + 1 + |Epilogue|
        && output[..n] == old(output)
        && output[n..n + |Prologue|] == Prologue
        && "x" in scope.symbols
        && output[|output| - |Epilogue| - 1] == "\tmov\t-" + IntToString(scope.symbols["x"].offset) + "(%rbp), %eax"
        && output[|output| - |Epilogue|..] == Epilogue
    {
      WriteAll(Prologue);
      ghost var afterPrologue := output;
      var walked := GenNode(node);
      if walked.Err? {
        return Err(walked.error);
      }
      assert output[..|afterPrologue|] == afterPrologue;
      ghost var body := output;
      r := WriteResult();
      if r.Ok? {
        OutputLayout(old(output), afterPrologue, body,
          "\tmov\t-" + IntToString(scope.symbols["x"].offset) + "(%rbp), %eax", output);
      }
    }

    /** Loads `x` into %eax and prints it; a program that never declared `x` is an error. */
    method WriteResult() returns (r: Result<(), GenError>)
      requires Valid()
      modifies this
      ensures Valid() && used == old(used)
      ensures r.Ok? <==> "x" in scope.symbols
      ensures r.Err? ==> r.error == MissingResultVariable
      ensures r.Ok? ==>
        output == old(output) + ["\tmov\t-" + IntToString(scope.symbols["x"].offset) + "(%rbp), %eax"] + Epilogue
    {
      var x := scope.Get("x");
      if x.None? {
        return Err(MissingResultVariable);
      }
      Write("\tmov\t-" + IntToString(x.value.offset) + "(%rbp), %eax");
      WriteAll(Epilogue);
      r := Ok(());
    }

    /** Writes the lines in order. */
    method WriteAll(lines: seq<string>)
      modifies this
      ensures output == old(output) + lines && used == old(used)
    {
      for i := 0 to |lines|
        invariant output == old(output) + lines[..i] && used == old(used)
      {
        Write(lines[i]);
        assert lines[..i + 1] == lines[..i] + [lines[i]];
      }
    }
  }

  // ---------------------------------------------------------------------------------------
  // Runs on a fresh generator

  /** A block of declarations and assignments contributes exactly those, in order. */
  lemma {:induction false} BlockStatements(children: seq<AstNode>)
    requires forall k :: 0 <= k < |children| ==> children[k].VariableDeclaration? || children[k].Assignment?
    ensures Statements(Block(children)) == children
    decreases |children|
  {
    var parts := seq(|children|, i requires 0 <= i < |children| => Statements(children[i]));
    assert Statements(Block(children)) == Flatten(parts);
    if |children| > 0 {
      var init := children[..|children| - 1];
      BlockStatements(init);
      var initParts := seq(|init|, i requires 0 <= i < |init| => Statements(init[i]));
      assert parts[..|parts| - 1] == initParts;
      assert Statements(Block(init)) == Flatten(initParts);
      assert children == init + [children[|children| - 1]];
    }
  }

  /** `var x: i32; x = 5;` is a whole program: the prologue, two lines for the assignment,
      the load of `x` and the epilogue. */
  method DeclareAndAssign() returns (r: Result<(), GenError>, first: string, lines: nat)
    ensures r.Ok? && first == ".LC0:" && lines == 17
  {
    var g := new CodeGenerator();
    var declare, assign := VariableDeclaration("x", Int32), Assignment("x", NumericLiteral(Int32, 5));
    var program := Block([declare, assign]);
    BlockStatements([declare, assign]);
    assert Statements(program) == [declare, assign];
    assert [declare, assign][1..] == [assign] && [assign][1..] == [];
    var p0, p1, p2 := Progress({}, 0), Progress({"x"}, 0), Progress({"x"}, 1);
    assert g.scope.symbols.Keys == {};
    assert g.State() == p0;
    assert Step(declare, p0).value.declared == {"x"};
    assert Step(declare, p0) == Ok(p1);
    assert Step(assign, p1) == Ok(p2);
    assert Run([], p2) == Ok(p2);
    assert Run([assign], p1) == Ok(p2);
    assert Run([declare, assign], p0) == Ok(p2);
    assert AssignmentCount([]) == 0;
    assert AssignmentCount([assign]) == 1;
    assert AssignmentCount([declare, assign]) == 1;
    r := g.Gen(program);
    first := g.output[0];
    lines := |g.output|;
  }

  /** A program that never declares `x` fails at the end of the walk. */
  method WithoutResultVariable() returns (r: Result<(), GenError>)
    ensures r == Err(MissingResultVariable)
  {
    var g := new CodeGenerator();
    var program := VariableDeclaration("y", Int64);
    assert Statements(program) == [program] && [program][1..] == [];
    var p0 := Progress({}, 0);
    assert g.scope.symbols.Keys == {};
    assert g.State() == p0;
    assert Step(program, p0).value.declared == {"y"};
    assert Step(program, p0) == Ok(Progress({"y"}, 0));
    assert Run([program], p0) == Ok(Progress({"y"}, 0));
    r := g.Gen(program);
  }

  /** The seventh literal gets a slot but no register name. */
  method SeventhLiteralFails() returns (r: Result<(), GenError>)
    ensures r == Err(IndexOutOfBounds)
  {
    var g := new CodeGenerator();
    var children := [VariableDeclaration("x", Int32)] + Stores("x", 1, 7);
    BlockStatements(children);
    var program := Block(children);
    assert Statements(program) == children;
    var p0 := Progress({}, 0);
    assert g.scope.symbols.Keys == {};
    assert g.State() == p0;
    assert Step(children[0], p0).value.declared == {"x"};
    assert Step(children[0], p0) == Ok(Progress({"x"}, 0));
    assert children[1..] == Stores("x", 1, 7);
    RepeatedStores("x", 1, 7, Progress({"x"}, 0));
    r := g.GenNode(program);
  }
}
