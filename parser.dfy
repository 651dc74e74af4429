/** Precedence climbing over integer literals and the four arithmetic operators. */
module Parsing {
  import opened Wrappers
  import opened Format
  import opened Ast
  import opened Lexing

  /** Binding strength of an operator; the enum's discriminants order the variants. */
  datatype OperatorPrecedence = MulDiv | AddSubtract | None {
    function Value(): int {
      match this
      case MulDiv => 100
      case AddSubtract => 50
      case None => 0
    }
  }

  datatype ParseError =
    | UnexpectedEnd
    | NotAnIntLiteral(token: Token)
    | InvalidInteger(token: Token)
    | NotAnOperator(token: Token)

  const MinInt64: int := -0x8000_0000_0000_0000
  const MaxInt64: int := 0x7fff_ffff_ffff_ffff

  /** Reads a 64-bit signed integer: an optional sign followed by at least one decimal
      digit, with a value in range. */
  function ParseInt64(s: string): (r: Option<int>)
    ensures r.Some? ==> MinInt64 <= r.value <= MaxInt64
    ensures r.Some? ==> |s| > 0 && (IsDigit(s[0]) || s[0] == '+' || s[0] == '-')
  {
    var digits := if |s| > 0 && (s[0] == '+' || s[0] == '-') then s[1..] else s;
    if |digits| == 0 || !AllDigits(digits) then Option.None
    else
      var magnitude: int := DigitsValue(digits);
      var v := if |s| > 0 && s[0] == '-' then -magnitude else magnitude;
      if MinInt64 <= v <= MaxInt64 then Some(v) else Option.None
  }

  predicate IsOperatorType(k: TokenType) {
    k == Plus || k == Minus || k == Star || k == Slash
  }

  /** The binary operation an operator token stands for; no other token has one. */
  function TokenTypeToOperator(k: TokenType): (r: Option<BinaryOperationType>)
    ensures r.Some? <==> IsOperatorType(k)
  {
    if k == Plus then Some(Add)
    else if k == Minus then Some(Subtract)
    else if k == Star then Some(Multiply)
    else if k == Slash then Some(Divide)
    else Option.None
  }

  /** How tightly an operator token binds; no other token has a precedence. */
  function GetOperatorPrecedence(k: TokenType): (r: Option<OperatorPrecedence>)
    ensures r.Some? <==> IsOperatorType(k)
    ensures r.Some? ==> r.value != OperatorPrecedence.None
  {
    if k == Plus || k == Minus then Some(AddSubtract)
    else if k == Star || k == Slash then Some(MulDiv)
    else Option.None
  }

  /** The source text of an operation. */
  function OperatorSymbol(op: BinaryOperationType): string {
    match op
    case Add => "+"
    case Subtract => "-"
    case Multiply => "*"
    case Divide => "/"
  }

  /** The precedence of an operation, read off the tree. */
  function PrecedenceOf(op: BinaryOperationType): OperatorPrecedence {
    match op
    case Add | Subtract => AddSubtract
    case Multiply | Divide => MulDiv
  }

  /** An operator token's precedence is that of the operation it stands for, and
      multiplication and division bind tighter than addition and subtraction. */
  lemma OperatorTablesAgree(k: TokenType)
    requires IsOperatorType(k)
    ensures GetOperatorPrecedence(k) == Some(PrecedenceOf(TokenTypeToOperator(k).value))
    ensures MulDiv.Value() > AddSubtract.Value() > OperatorPrecedence.None.Value()
  {
  }

  /** Each operator token is spelled by the symbol of the operation it stands for. */
  lemma OperatorSpelling(k: TokenType)
    requires IsOperatorType(k)
    ensures FixedSpelling(k) == Some(OperatorSymbol(TokenTypeToOperator(k).value))
  {
  }

  // ---------------------------------------------------------------------------------------
  // The token sequences that form an expression, and the trees the parser builds

  predicate IsLiteralToken(t: Token) {
    t.tokenType == IntLiteral && ParseInt64(t.value).Some?
  }

  /** Position `k` holds a literal when it is even and an operator when it is odd. */
  predicate InPlace(ts: seq<Token>, k: nat)
    requires k < |ts|
  {
    if k % 2 == 0 then IsLiteralToken(ts[k]) else IsOperatorType(ts[k].tokenType)
  }

  /** Literals at even positions, operators at odd positions, ending in a literal. */
  predicate Alternating(ts: seq<Token>) {
    && |ts| % 2 == 1
    && forall k :: 0 <= k < |ts| ==> InPlace(ts, k)
  }

  /** The tokens from `i` to the end form one expression. */
  predicate AlternatesFrom(tokens: seq<Token>, i: nat) {
    i <= |tokens| && Alternating(tokens[i..])
  }

  /** A leaf or an operator, as met when reading an expression left to right. */
  datatype Item = Literal(value: int) | Operator(op: BinaryOperationType)

  /** The in-order walk of a tree. */
  function Items(n: AstNode): seq<Item> {
    match n
    case BinaryOperation(op, left, right) => Items(left) + [Operator(op)] + Items(right)
    case NumericLiteral(_, value) => [Literal(value)]
    case _ => []
  }

  function TokenItem(t: Token): Item {
    match TokenTypeToOperator(t.tokenType)
    case Some(op) => Operator(op)
    case None => Literal(ParseInt64(t.value).GetOr(0))
  }

  function TokenItems(ts: seq<Token>): seq<Item> {
    if |ts| == 0 then [] else TokenItems(ts[..|ts| - 1]) + [TokenItem(ts[|ts| - 1])]
  }

  /** Leaves bind tighter than any operator. */
  const AtomPrecedence: int := 1000

  /** The precedence of a tree's root. */
  function TopPrecedence(n: AstNode): int {
    if n.BinaryOperation? then PrecedenceOf(n.op).Value() else AtomPrecedence
  }

  /** The shape precedence climbing gives: 64-bit literal leaves; a left operand binds at
      least as tightly as its parent (left associativity) and a right operand strictly
      more tightly. */
  predicate Canonical(n: AstNode) {
    match n
    case NumericLiteral(t, _) => t == Int64
    case BinaryOperation(op, left, right) =>
      && Canonical(left) && Canonical(right)
      && TopPrecedence(left) >= PrecedenceOf(op).Value()
      && TopPrecedence(right) > PrecedenceOf(op).Value()
    case _ => false
  }

  function OperatorCount(items: seq<Item>): nat {
    if |items| == 0 then 0
    else OperatorCount(items[..|items| - 1]) + (if items[|items| - 1].Operator? then 1 else 0)
  }

  function NodeCount(n: AstNode): nat {
    match n
    case BinaryOperation(_, left, right) => NodeCount(left) + 1 + NodeCount(right)
    case _ => 0
  }

  // ---------------------------------------------------------------------------------------
  // Lemmas about the reference definitions

  lemma {:induction false} TokenItemsAppend(a: seq<Token>, b: seq<Token>)
    ensures TokenItems(a + b) == TokenItems(a) + TokenItems(b)
    decreases |b|
  {
    if |b| == 0 {
      assert a + b == a;
    } else {
      TokenItemsAppend(a, b[..|b| - 1]);
      assert (a + b)[..|a + b| - 1] == a + b[..|b| - 1];
    }
  }

  lemma {:induction false} TokenItemsPointwise(ts: seq<Token>)
    ensures |TokenItems(ts)| == |ts|
    ensures forall k :: 0 <= k < |ts| ==> TokenItems(ts)[k] == TokenItem(ts[k])
  {
    if |ts| > 0 {
      TokenItemsPointwise(ts[..|ts| - 1]);
    }
  }

  lemma {:induction false} OperatorCountAppend(a: seq<Item>, b: seq<Item>)
    ensures OperatorCount(a + b) == OperatorCount(a) + OperatorCount(b)
    decreases |b|
  {
    if |b| == 0 {
      assert a + b == a;
    } else {
      OperatorCountAppend(a, b[..|b| - 1]);
      assert (a + b)[..|a + b| - 1] == a + b[..|b| - 1];
    }
  }

  /** A tree has one operation node per operator in its in-order walk. */
  lemma {:induction false} NodesAreOperators(n: AstNode)
    ensures NodeCount(n) == OperatorCount(Items(n))
  {
    match n
    case BinaryOperation(op, left, right) =>
      NodesAreOperators(left);
      NodesAreOperators(right);
      OperatorCountAppend(Items(left) + [Operator(op)], Items(right));
      OperatorCountAppend(Items(left), [Operator(op)]);
      assert OperatorCount([Operator(op)]) == 1 by {
        assert [Operator(op)][..0] == [];
      }
    case NumericLiteral(_, _) =>
      assert Items(n)[..0] == [];
    case _ =>
  }

  /** A canonical tree's walk alternates leaves and operators, starting and ending with a
      leaf. */
  lemma {:induction false} CanonicalItems(n: AstNode)
    requires Canonical(n)
    ensures LiteralsAtEven(Items(n))
  {
    if n.BinaryOperation? {
      CanonicalItems(n.left);
      CanonicalItems(n.right);
      JoinLiteralsAtEven(Items(n.left), n.op, Items(n.right));
    }
  }

  /** An odd number of items, literals exactly at the even positions. */
  predicate LiteralsAtEven(items: seq<Item>) {
    && |items| % 2 == 1
    && forall k :: 0 <= k < |items| ==> (items[k].Literal? <==> k % 2 == 0)
  }

  lemma JoinLiteralsAtEven(l: seq<Item>, op: BinaryOperationType, r: seq<Item>)
    requires LiteralsAtEven(l) && LiteralsAtEven(r)
    ensures LiteralsAtEven(l + [Operator(op)] + r)
  {
    var items := l + [Operator(op)] + r;
    forall k | 0 <= k < |items| ensures items[k].Literal? <==> k % 2 == 0 {
      ItemAt(items, l, [Operator(op)], r, k);
    }
  }

  lemma {:induction false} OperatorsBelowRoot(n: AstNode)
    requires Canonical(n)
    ensures forall k :: 0 <= k < |Items(n)| && Items(n)[k].Operator? ==>
      PrecedenceOf(Items(n)[k].op).Value() >= TopPrecedence(n)
  {
    if n.BinaryOperation? {
      OperatorsBelowRoot(n.left);
      OperatorsBelowRoot(n.right);
      var l := Items(n.left);
      var items := Items(n);
      forall k | 0 <= k < |items| && items[k].Operator?
        ensures PrecedenceOf(items[k].op).Value() >= TopPrecedence(n)
      {
        if k < |l| {
          assert items[k] == l[k];
        } else if k > |l| {
          assert items[k] == Items(n.right)[k - |l| - 1];
        }
      }
    }
  }

  lemma ItemAt(items: seq<Item>, front: seq<Item>, middle: seq<Item>, back: seq<Item>, k: int)
    requires items == front + middle + back && 0 <= k < |items|
    ensures k < |front| ==> items[k] == front[k]
    ensures |front| <= k < |front| + |middle| ==> items[k] == middle[k - |front|]
    ensures |front| + |middle| <= k ==> items[k] == back[k - |front| - |middle|]
  {
  }

  /** The in-order walk determines a canonical tree: the root is the last of the loosest
      operators. So the parser's tree is the only one that respects precedence and left
      associativity. */
  lemma {:induction false} CanonicalUnique(a: AstNode, b: AstNode)
    requires Canonical(a) && Canonical(b) && Items(a) == Items(b)
    ensures a == b
  {
    CanonicalItems(a);
    CanonicalItems(b);
    match a
    case NumericLiteral(_, _) =>
    case BinaryOperation(op, l, r) =>
      if b.NumericLiteral? {
        CanonicalItems(l);
        CanonicalItems(r);
      } else {
        var op', l', r' := b.op, b.left, b.right;
        var items := Items(a);
        var p, p' := |Items(l)|, |Items(l')|;
        OperatorsBelowRoot(l);
        OperatorsBelowRoot(r);
        OperatorsBelowRoot(l');
        OperatorsBelowRoot(r');
        if p < p' {
          ItemAt(items, Items(l'), [Operator(op')], Items(r'), p);
          ItemAt(items, Items(l), [Operator(op)], Items(r), p');
          assert false;
        } else if p' < p {
          ItemAt(items, Items(l), [Operator(op)], Items(r), p');
          ItemAt(items, Items(l'), [Operator(op')], Items(r'), p);
          assert false;
        }
        assert Items(b) == Items(l') + [Operator(op')] + Items(r');
        assert items[p] == Operator(op) && items[p] == Operator(op');
        assert items[..p] == Items(l) && items[..p] == Items(l');
        assert items[p + 1..] == Items(r) && items[p + 1..] == Items(r');
        CanonicalUnique(l, l');
        CanonicalUnique(r, r');
      }
  }

  /** A token out of place at position `j` spoils the expression starting at `start`. */
  lemma NotAlternating(tokens: seq<Token>, start: nat, j: nat)
    requires start <= j < |tokens|
    requires if (j - start) % 2 == 0 then !IsLiteralToken(tokens[j]) else !IsOperatorType(tokens[j].tokenType)
    ensures !AlternatesFrom(tokens, start)
  {
    assert tokens[start..][j - start] == tokens[j];
    assert !InPlace(tokens[start..], j - start);
  }

  /** An expression cannot start at `start` when the one after the operator ending at
      `rightStart` cannot. */
  lemma AlternatesAfterOperator(tokens: seq<Token>, start: nat, rightStart: nat)
    requires start < rightStart <= |tokens| && Alternating(tokens[start..rightStart - 1])
    requires !AlternatesFrom(tokens, rightStart)
    ensures !AlternatesFrom(tokens, start)
  {
    if AlternatesFrom(tokens, start) {
      var whole := tokens[start..];
      var rest := tokens[rightStart..];
      var m := (rightStart - start) / 2;
      assert rightStart - start == 2 * m;
      forall k | 0 <= k < |rest|
        ensures InPlace(rest, k)
      {
        assert rest[k] == whole[2 * m + k];
        ParityShift(m, k);
        assert InPlace(whole, 2 * m + k);
      }
      assert false;
    }
  }

  /** An expression, an operator and another expression make one expression. */
  lemma ExtendAlternation(tokens: seq<Token>, start: nat, op: nat, end: nat)
    requires start < op < end <= |tokens|
    requires Alternating(tokens[start..op])
    requires IsOperatorType(tokens[op].tokenType)
    requires Alternating(tokens[op + 1..end])
    ensures Alternating(tokens[start..end])
    ensures TokenItems(tokens[start..end]) ==
      TokenItems(tokens[start..op]) + [TokenItem(tokens[op])] + TokenItems(tokens[op + 1..end])
  {
    var a, b := tokens[start..op], tokens[op + 1..end];
    var t := tokens[op];
    assert tokens[start..end] == a + [t] + b;
    JoinAlternating(a, t, b);
    TokenItemsAppend(a + [t], b);
    TokenItemsAppend(a, [t]);
    assert TokenItems([t]) == [TokenItem(t)] by {
      assert [t][..0] == [];
    }
  }

  /** Joining two parsed operands with the operator between them keeps the tree canonical
      and its walk equal to the tokens read. */
  lemma CombineOperands(tokens: seq<Token>, start: nat, op: nat, end: nat,
                        left: AstNode, operation: BinaryOperationType, right: AstNode)
    requires start < op < end <= |tokens|
    requires Alternating(tokens[start..op]) && Alternating(tokens[op + 1..end])
    requires TokenTypeToOperator(tokens[op].tokenType) == Some(operation)
    requires Canonical(left) && Items(left) == TokenItems(tokens[start..op])
    requires Canonical(right) && Items(right) == TokenItems(tokens[op + 1..end])
    requires TopPrecedence(left) >= PrecedenceOf(operation).Value()
    requires TopPrecedence(right) > PrecedenceOf(operation).Value()
    ensures Alternating(tokens[start..end])
    ensures Canonical(BinaryOperation(operation, left, right))
    ensures Items(BinaryOperation(operation, left, right)) == TokenItems(tokens[start..end])
  {
    ExtendAlternation(tokens, start, op, end);
  }

  lemma ParityShift(m: int, j: int)
    ensures (2 * m + j) % 2 == j % 2
  {
  }

  lemma JoinAlternating(a: seq<Token>, op: Token, b: seq<Token>)
    requires Alternating(a) && IsOperatorType(op.tokenType) && Alternating(b)
    ensures Alternating(a + [op] + b)
  {
    var whole := a + [op] + b;
    forall k | 0 <= k < |whole|
      ensures InPlace(whole, k)
    {
      if k < |a| {
        assert whole[k] == a[k];
        assert InPlace(a, k);
      } else if k > |a| {
        var j := k - |a| - 1;
        assert whole[k] == b[j];
        var m := (|a| + 1) / 2;
        assert k == 2 * m + j;
        ParityShift(m, j);
        assert InPlace(b, j);
      }
    }
  }

  /** Writing a 64-bit value in decimal and reading it back gives the value. */
  lemma ParseInt64RoundTrip(v: int)
    requires MinInt64 <= v <= MaxInt64
    ensures ParseInt64(IntToString(v)) == Some(v)
  {
    if v < 0 {
      NegativeRoundTrip(v);
    } else {
      NonNegativeRoundTrip(v);
    }
  }

  lemma NonNegativeRoundTrip(v: int)
    requires 0 <= v <= MaxInt64
    ensures ParseInt64(IntToString(v)) == Some(v)
  {
    var s := IntToString(v);
    assert s == NatToString(v) && s[0] != '-' && s[0] != '+';
    NatToStringRoundTrip(v);
  }

  lemma NegativeRoundTrip(v: int)
    requires MinInt64 <= v < 0
    ensures ParseInt64(IntToString(v)) == Some(v)
  {
    var n: nat := -v;
    var d := NatToString(n);
    var s := "-" + d;
    NatToStringRoundTrip(n);
    assert s[0] == '-' && s[1..] == d;
    NegatedDigits(s);
    assert IntToString(v) == s;
  }

  /** A minus sign before a digit string in range reads as the negated value. */
  lemma NegatedDigits(s: string)
    requires |s| > 1 && s[0] == '-' && AllDigits(s[1..]) && DigitsValue(s[1..]) <= -MinInt64
    ensures ParseInt64(s) == Some(-(DigitsValue(s[1..]) as int))
  {
  }

  lemma {:induction false} OperatorTokensCounted(ts: seq<Token>)
    requires forall k :: 0 <= k < |ts| ==> InPlace(ts, k)
    ensures OperatorCount(TokenItems(ts)) == |ts| / 2
  {
    if |ts| > 0 {
      var n := |ts| - 1;
      var init := ts[..n];
      forall k | 0 <= k < |init|
        ensures InPlace(init, k)
      {
        assert init[k] == ts[k];
        assert InPlace(ts, k);
      }
      OperatorTokensCounted(init);
      var items := TokenItems(ts);
      assert items == TokenItems(init) + [TokenItem(ts[n])];
      assert items[..|items| - 1] == TokenItems(init);
      assert InPlace(ts, n);
      if n % 2 == 0 {
        assert !TokenItem(ts[n]).Operator?;
        assert |ts| / 2 == n / 2;
      } else {
        assert TokenItem(ts[n]).Operator?;
        assert |ts| / 2 == n / 2 + 1;
      }
    }
  }

  /** The tree for an expression has one operation node per operator token. */
  lemma OperationPerOperator(tokens: seq<Token>, n: AstNode)
    requires Alternating(tokens) && Items(n) == TokenItems(tokens)
    ensures NodeCount(n) == |tokens| / 2
  {
    NodesAreOperators(n);
    OperatorTokensCounted(tokens);
  }

  // ---------------------------------------------------------------------------------------
  // The parser

  /** Parsing at precedence `p` stops at the end of the input or before an operator that
      binds no tighter than `p`. */
  predicate StopsAt(tokens: seq<Token>, i: nat, p: OperatorPrecedence) {
    i <= |tokens| &&
    (i == |tokens| ||
     (IsOperatorType(tokens[i].tokenType) && GetOperatorPrecedence(tokens[i].tokenType).value.Value() <= p.Value()))
  }

  class Parser {
    const tokens: seq<Token>
    var index: nat

    ghost predicate Valid()
      reads this
    {
      index <= |tokens|
    }

    constructor (tokens: seq<Token>)
      ensures Valid() && this.tokens == tokens && index == 0
    {
      this.tokens := tokens;
      index := 0;
    }

    /** The token `offset` places ahead of the cursor; looking past the end fails. */
    function Peek(offset: nat): (r: Option<Token>)
      reads this
      ensures r.Some? <==> index + offset < |tokens|
      ensures r.Some? ==> r.value == tokens[index + offset]
    {
      if index + offset < |tokens| then Some(tokens[index + offset]) else Option.None
    }

    method Consume() returns (t: Token)
      requires Valid() && index < |tokens|
      modifies this
      ensures Valid() && t == tokens[old(index)] && index == old(index) + 1
    {
      t := tokens[index];
      index := index + 1;
    }

    /** No token is left to read. */
    predicate Eof(): (r: bool)
      reads this
      ensures !r ==> index < |tokens|
      ensures Valid() ==> (r <==> tokens[index..] == [])
    {
      index >= |tokens|
    }

    /** Reads one integer literal as a 64-bit numeric leaf. */
    method ParseUnaryExpression() returns (r: Result<AstNode, ParseError>)
      requires Valid()
      modifies this
      ensures Valid()
      ensures old(index) == |tokens| ==> r == Err(UnexpectedEnd) && index == old(index)
      ensures old(index) < |tokens| && tokens[old(index)].tokenType != IntLiteral ==>
        r == Err(NotAnIntLiteral(tokens[old(index)])) && index == old(index)
      ensures old(index) < |tokens| && tokens[old(index)].tokenType == IntLiteral ==>
        match ParseInt64(tokens[old(index)].value)
        case Some(v) => r == Ok(NumericLiteral(Int64, v)) && index == old(index) + 1
        case None => r == Err(InvalidInteger(tokens[old(index)])) && index == old(index) + 1
    {
      var current := Peek(0);
      if current.None? {
        return Err(UnexpectedEnd);
      }
      if current.value.tokenType != IntLiteral {
        return Err(NotAnIntLiteral(current.value));
      }
      var t := Consume();
      var value := ParseInt64(t.value);
      if value.None? {
        return Err(InvalidInteger(t));
      }
      r := Ok(NumericLiteral(Int64, value.value));
    }

    /** The first operand of an expression: one literal, which on its own is an expression
        of the tokens read. */
    method ParseOperand() returns (r: Result<AstNode, ParseError>)
      requires Valid()
      modifies this
      ensures Valid() && old(index) <= index
      ensures r.Ok? ==> index == old(index) + 1
      ensures r.Ok? ==> Alternating(tokens[old(index)..index])
      ensures r.Ok? ==> Canonical(r.value) && TopPrecedence(r.value) == AtomPrecedence
      ensures r.Ok? ==> Items(r.value) == TokenItems(tokens[old(index)..index])
      ensures r.Err? ==> !AlternatesFrom(tokens, old(index))
    {
      ghost var start := index;
      var unary := ParseUnaryExpression();
      if unary.Err? {
        if start < |tokens| {
          NotAlternating(tokens, start, start);
        }
        return Err(unary.error);
      }
      assert tokens[start..index] == [tokens[start]];
      assert TokenItems(tokens[start..index]) == [TokenItem(tokens[start])] by {
        assert tokens[start..index][..0] == [];
      }
      r := unary;
    }

    /** The token at the cursor with the operation and the precedence it has as an operator. */
    method PeekOperator() returns (operator: Token, operatorType: Option<BinaryOperationType>,
                                   currentPrecedence: Option<OperatorPrecedence>)
      requires Valid() && index < |tokens|
      ensures operator == tokens[index]
      ensures operatorType.Some? <==> IsOperatorType(operator.tokenType)
      ensures operatorType == TokenTypeToOperator(operator.tokenType)
      ensures currentPrecedence == GetOperatorPrecedence(operator.tokenType)
      ensures operatorType.Some? ==> currentPrecedence == Some(PrecedenceOf(operatorType.value))
    {
      operator := Peek(0).value;
      operatorType := TokenTypeToOperator(operator.tokenType);
      currentPrecedence := GetOperatorPrecedence(operator.tokenType);
      if operatorType.Some? {
        OperatorTablesAgree(operator.tokenType);
      }
    }

    /** Consumes the operator at the cursor, parses the operand after it that binds more
        tightly than the operator, and joins the two operands. */
    method ParseOperation(ghost start: nat, left: AstNode, operation: BinaryOperationType,
                          currentPrecedence: OperatorPrecedence)
      returns (r: Result<AstNode, ParseError>)
      requires Valid() && start < index < |tokens|
      requires Alternating(tokens[start..index])
      requires Canonical(left) && Items(left) == TokenItems(tokens[start..index])
      requires TokenTypeToOperator(tokens[index].tokenType) == Some(operation)
      requires currentPrecedence == PrecedenceOf(operation)
      requires TopPrecedence(left) >= currentPrecedence.Value()
      modifies this
      ensures Valid() && old(index) < index
      ensures r.Ok? ==> r.value.BinaryOperation? && r.value.op == operation && r.value.left == left
      ensures r.Ok? ==> TopPrecedence(r.value) == currentPrecedence.Value()
      ensures r.Ok? ==> Alternating(tokens[start..index])
      ensures r.Ok? ==> Canonical(r.value) && Items(r.value) == TokenItems(tokens[start..index])
      ensures r.Ok? ==> StopsAt(tokens, index, currentPrecedence)
      ensures r.Err? ==> !AlternatesFrom(tokens, start)
      decreases |tokens| - index
    {
      ghost var opIndex := index;
      var _ := Consume();
      var right := ParseExpression(currentPrecedence);
      if right.Err? {
        AlternatesAfterOperator(tokens, start, opIndex + 1);
        return Err(right.error);
      }
      CombineOperands(tokens, start, opIndex, index, left, operation, right.value);
      r := Ok(BinaryOperation(operation, left, right.value));
    }

    /** Parses operands joined by operators that bind more tightly than `precedence`,
        stopping at the end or before a looser operator. */
    method ParseExpression(precedence: OperatorPrecedence) returns (r: Result<AstNode, ParseError>)
      requires Valid()
      modifies this
      ensures Valid() && old(index) <= index
      ensures r.Ok? ==> Alternating(tokens[old(index)..index])
      ensures r.Ok? ==> Canonical(r.value) && TopPrecedence(r.value) > precedence.Value()
      ensures r.Ok? ==> Items(r.value) == TokenItems(tokens[old(index)..index])
      ensures r.Ok? ==> StopsAt(tokens, index, precedence)
      ensures r.Err? ==> !AlternatesFrom(tokens, old(index))
      decreases |tokens| - index
    {
      ghost var start := index;
      var operand := ParseOperand();
      if operand.Err? {
        return Err(operand.error);
      }
      var left := operand.value;
      if Eof() {
        return Ok(left);
      }
      var operator, operatorType, currentPrecedence := PeekOperator();
      if operatorType.None? {
        NotAlternating(tokens, start, index);
        return Err(NotAnOperator(operator));
      }
      while currentPrecedence.value.Value() > precedence.Value()
        invariant Valid() && start < index < |tokens|
        invariant Alternating(tokens[start..index])
        invariant Canonical(left) && TopPrecedence(left) > precedence.Value()
        invariant Items(left) == TokenItems(tokens[start..index])
        invariant operator == tokens[index] && operatorType.Some?
        invariant TokenTypeToOperator(operator.tokenType) == operatorType
        invariant currentPrecedence == Some(PrecedenceOf(operatorType.value))
        invariant TopPrecedence(left) >= currentPrecedence.value.Value()
        decreases |tokens| - index
      {
        var combined := ParseOperation(start, left, operatorType.value, currentPrecedence.value);
        if combined.Err? {
          return Err(combined.error);
        }
        left := combined.value;
        if Eof() {
          break;
        }
        operator, operatorType, currentPrecedence := PeekOperator();
      }
      return Ok(left);
    }
  }

  /** Parses a whole token list as one expression. */
  method ParseAll(tokens: seq<Token>) returns (r: Result<AstNode, ParseError>)
    ensures r.Ok? <==> AlternatesFrom(tokens, 0)
    ensures r.Ok? ==> Canonical(r.value) && Items(r.value) == TokenItems(tokens)
  {
    var parser := new Parser(tokens);
    r := parser.ParseExpression(OperatorPrecedence.None);
    if r.Ok? {
      assert tokens[..] == tokens;
      if parser.index < |tokens| {
        assert false;
      }
      assert tokens[0..parser.index] == tokens;
    }
  }

  // ---------------------------------------------------------------------------------------
  // Worked examples

  function SampleLiteral(digits: string, col: nat): Token {
    Token(IntLiteral, digits, col, 1)
  }

  function SampleOperator(k: TokenType, col: nat): Token {
    Token(k, FixedSpelling(k).GetOr(""), col, 1)
  }

  function Leaf(v: int): AstNode {
    NumericLiteral(Int64, v)
  }

  /** The tokens of `1 o 2 p 3`. */
  function ThreeOperands(o: TokenType, p: TokenType): seq<Token> {
    [SampleLiteral("1", 1), SampleOperator(o, 2), SampleLiteral("2", 3), SampleOperator(p, 4), SampleLiteral("3", 5)]
  }

  lemma ThreeOperandsForm(o: TokenType, p: TokenType)
    requires IsOperatorType(o) && IsOperatorType(p)
    ensures AlternatesFrom(ThreeOperands(o, p), 0)
    ensures TokenItems(ThreeOperands(o, p)) ==
      [Literal(1), Operator(TokenTypeToOperator(o).value), Literal(2), Operator(TokenTypeToOperator(p).value), Literal(3)]
  {
    ThreeOperandsAlternate(o, p);
    ThreeOperandsItems(o, p);
  }

  lemma ThreeOperandsAlternate(o: TokenType, p: TokenType)
    requires IsOperatorType(o) && IsOperatorType(p)
    ensures AlternatesFrom(ThreeOperands(o, p), 0)
  {
    SmallLiterals();
    var tokens := ThreeOperands(o, p);
    assert tokens[0..] == tokens;
    forall k | 0 <= k < 5
      ensures InPlace(tokens, k)
    {
      assert k == 0 || k == 1 || k == 2 || k == 3 || k == 4;
    }
  }

  lemma ThreeOperandsItems(o: TokenType, p: TokenType)
    requires IsOperatorType(o) && IsOperatorType(p)
    ensures TokenItems(ThreeOperands(o, p)) ==
      [Literal(1), Operator(TokenTypeToOperator(o).value), Literal(2), Operator(TokenTypeToOperator(p).value), Literal(3)]
  {
    SmallLiterals();
    TokenItemsPointwise(ThreeOperands(o, p));
  }

  lemma SmallLiterals()
    ensures ParseInt64("1") == Some(1) && ParseInt64("2") == Some(2) && ParseInt64("3") == Some(3)
  {
    assert DigitsValue("1") == 1 && DigitsValue("2") == 2 && DigitsValue("3") == 3;
  }

  /** `1+2*3`: multiplication binds tighter than addition. */
  method PrecedenceExample() returns (r: Result<AstNode, ParseError>)
    ensures r == Ok(BinaryOperation(Add, Leaf(1), BinaryOperation(Multiply, Leaf(2), Leaf(3))))
  {
    ThreeOperandsForm(Plus, Star);
    var expected := BinaryOperation(Add, Leaf(1), BinaryOperation(Multiply, Leaf(2), Leaf(3)));
    RightNested(Add, Multiply);
    r := ParseAll(ThreeOperands(Plus, Star));
    CanonicalUnique(r.value, expected);
  }

  /** `1-2-3`: operators of equal precedence group to the left. */
  method AssociativityExample() returns (r: Result<AstNode, ParseError>)
    ensures r == Ok(BinaryOperation(Subtract, BinaryOperation(Subtract, Leaf(1), Leaf(2)), Leaf(3)))
  {
    ThreeOperandsForm(Minus, Minus);
    var expected := BinaryOperation(Subtract, BinaryOperation(Subtract, Leaf(1), Leaf(2)), Leaf(3));
    LeftNested(Subtract, Subtract);
    r := ParseAll(ThreeOperands(Minus, Minus));
    CanonicalUnique(r.value, expected);
  }

  /** With a tighter second operator, `1 o 2 p 3` groups to the right. */
  lemma RightNested(o: BinaryOperationType, p: BinaryOperationType)
    requires PrecedenceOf(o).Value() < PrecedenceOf(p).Value()
    ensures Canonical(BinaryOperation(o, Leaf(1), BinaryOperation(p, Leaf(2), Leaf(3))))
    ensures Items(BinaryOperation(o, Leaf(1), BinaryOperation(p, Leaf(2), Leaf(3)))) ==
      [Literal(1), Operator(o), Literal(2), Operator(p), Literal(3)]
  {
  }

  /** Otherwise `1 o 2 p 3` groups to the left. */
  lemma LeftNested(o: BinaryOperationType, p: BinaryOperationType)
    requires PrecedenceOf(o).Value() >= PrecedenceOf(p).Value()
    ensures Canonical(BinaryOperation(p, BinaryOperation(o, Leaf(1), Leaf(2)), Leaf(3)))
    ensures Items(BinaryOperation(p, BinaryOperation(o, Leaf(1), Leaf(2)), Leaf(3))) ==
      [Literal(1), Operator(o), Literal(2), Operator(p), Literal(3)]
  {
  }

  /** `1 2`: a literal where an operator belongs is rejected. */
  method MissingOperatorExample() returns (r: Result<AstNode, ParseError>)
    ensures r.Err?
  {
    var tokens := [SampleLiteral("1", 1), SampleLiteral("2", 3)];
    r := ParseAll(tokens);
    NotAlternating(tokens, 0, 1);
  }
}
