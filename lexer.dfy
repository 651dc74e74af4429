/** The tokenizer: a cursor over a sequence of graphemes that tracks line and column,
    skips blanks and `#` comments, and produces maximal-munch tokens. */
module Lexing {
  import opened Wrappers
  import opened Format
  import TypeSystem

  datatype TokenType =
    | IntLiteral
    | Plus | Minus | Star | Slash
    | ExclamationMark
    | Identifier
    | EqualSign
    | LeftParen | RightParen | LeftBrace | RightBrace
    | SemiColon | Colon | Comma
    | Var | If | Else | While | Function | Type
    | DoubleEqualSign | NotEqualSign
    | LessThan | GreaterThan | LessThanOrEqual | GreaterThanOrEqual

  datatype Token = Token(tokenType: TokenType, value: string, col: nat, line: nat)

  /** A user-perceived character: a single code point, or the two-code-point line break. */
  datatype Grapheme = Char(c: char) | CrLf

  function Text(g: Grapheme): string {
    match g
    case Char(c) => [c]
    case CrLf => "\r\n"
  }

  /** The text of a run of graphemes. */
  function Texts(gs: seq<Grapheme>): string {
    if |gs| == 0 then "" else Texts(gs[..|gs| - 1]) + Text(gs[|gs| - 1])
  }

  /** A space or a tab. */
  predicate IsWhitespace(g: Grapheme) {
    g == Char(' ') || g == Char('\t')
  }

  /** A line break, either form. */
  predicate IsNewline(g: Grapheme) {
    g == CrLf || g == Char('\n')
  }

  /** Whitespace is the grapheme whose text is a space or a tab. */
  lemma WhitespaceText(g: Grapheme)
    ensures IsWhitespace(g) <==> Text(g) == " " || Text(g) == "\t"
  {
  }

  /** A line break is the grapheme whose text is `"\r\n"` or `"\n"`. */
  lemma NewlineText(g: Grapheme)
    ensures IsNewline(g) <==> Text(g) == "\r\n" || Text(g) == "\n"
  {
  }

  predicate IsBlank(g: Grapheme) {
    IsWhitespace(g) || IsNewline(g)
  }

  predicate IsAsciiLetter(c: char) {
    'a' <= c <= 'z' || 'A' <= c <= 'Z'
  }

  /** Every character of the grapheme is a letter (ASCII letters only). */
  predicate IsAlphabetic(g: Grapheme): (r: bool)
    ensures r <==> forall k :: 0 <= k < |Text(g)| ==> IsAsciiLetter(Text(g)[k])
  {
    assert Text(g)[0] == if g.Char? then g.c else '\r';
    g.Char? && IsAsciiLetter(g.c)
  }

  /** Every character of the grapheme is a decimal digit. */
  predicate IsNumeric(g: Grapheme): (r: bool)
    ensures r <==> forall k :: 0 <= k < |Text(g)| ==> IsDigit(Text(g)[k])
  {
    assert Text(g)[0] == if g.Char? then g.c else '\r';
    g.Char? && IsDigit(g.c)
  }

  predicate IsAlphanumeric(g: Grapheme) {
    IsAlphabetic(g) || IsNumeric(g)
  }

  predicate IsNotNewline(g: Grapheme) {
    !IsNewline(g)
  }

  // ---------------------------------------------------------------------------------------
  // Positions

  datatype Position = Position(line: nat, col: nat)

  /** The position after one more grapheme: a line break starts the next line at column 1. */
  function Advance(p: Position, g: Grapheme): Position {
    if IsNewline(g) then Position(p.line + 1, 1) else Position(p.line, p.col + 1)
  }

  /** The 1-based line and column just after a prefix of the input. */
  function PositionAfter(gs: seq<Grapheme>): Position {
    if |gs| == 0 then Position(1, 1) else Advance(PositionAfter(gs[..|gs| - 1]), gs[|gs| - 1])
  }

  // ---------------------------------------------------------------------------------------
  // What a token may look like

  const Keywords: set<string> := {"if", "else", "var", "while", "fn"}

  /** Single-grapheme punctuation, each with its own token type. */
  const Punctuation: set<char> := {'+', '-', '*', '/', '(', ')', '{', '}', ';', ':', ','}

  /** Characters that may start a two-character operator ending in `=`. */
  const OperatorStarts: set<char> := {'!', '=', '<', '>'}

  /** The one text a token of a fixed-spelling type has; None for literals, identifiers and
      type names. */
  function FixedSpelling(k: TokenType): Option<string> {
    match k
    case Plus => Some("+")
    case Minus => Some("-")
    case Star => Some("*")
    case Slash => Some("/")
    case ExclamationMark => Some("!")
    case EqualSign => Some("=")
    case LeftParen => Some("(")
    case RightParen => Some(")")
    case LeftBrace => Some("{")
    case RightBrace => Some("}")
    case SemiColon => Some(";")
    case Colon => Some(":")
    case Comma => Some(",")
    case Var => Some("var")
    case If => Some("if")
    case Else => Some("else")
    case While => Some("while")
    case Function => Some("fn")
    case DoubleEqualSign => Some("==")
    case NotEqualSign => Some("!=")
    case LessThan => Some("<")
    case GreaterThan => Some(">")
    case LessThanOrEqual => Some("<=")
    case GreaterThanOrEqual => Some(">=")
    case IntLiteral | Identifier | Type => None
  }

  /** A token whose type agrees with its text. */
  predicate WellFormed(t: Token) {
    && |t.value| > 0
    && match t.tokenType
       case IntLiteral => forall k :: 0 <= k < |t.value| ==> IsDigit(t.value[k])
       case Identifier =>
         && IsAsciiLetter(t.value[0])
         && (forall k :: 0 <= k < |t.value| ==> IsAsciiLetter(t.value[k]) || IsDigit(t.value[k]))
         && t.value !in Keywords && t.value !in TypeSystem.TypeSpellings
       case Type => t.value in TypeSystem.TypeSpellings
       case _ => FixedSpelling(t.tokenType) == Some(t.value)
  }

  /** The types of tokens read as alphanumeric words. */
  predicate IsWordType(k: TokenType) {
    k.Identifier? || k.Var? || k.If? || k.Else? || k.While? || k.Function? || k.Type?
  }

  /** The grapheme after a token cannot extend it. */
  predicate MaximalAt(data: seq<Grapheme>, end: nat, k: TokenType)
    requires end <= |data|
  {
    match k
    case IntLiteral => end == |data| || !IsNumeric(data[end])
    case Identifier | Var | If | Else | While | Function | Type =>
      end == |data| || !IsAlphanumeric(data[end])
    case EqualSign | ExclamationMark | LessThan | GreaterThan =>
      end < |data| && data[end] != Char('=')
    case _ => true
  }

  /** Token `t` was read from `data` starting at grapheme `start`: its text is the input
      there, its line and column are those of its first grapheme, and it is maximal. */
  ghost predicate TokenAt(data: seq<Grapheme>, start: nat, t: Token) {
    && start + |t.value| <= |data|
    && Texts(data[start..start + |t.value|]) == t.value
    && PositionAfter(data[..start]) == Position(t.line, t.col)
    && MaximalAt(data, start + |t.value|, t.tokenType)
  }

  /** A grapheme that can begin a token. */
  predicate IsTokenStart(g: Grapheme) {
    g.Char? && (IsDigit(g.c) || IsAsciiLetter(g.c) || g.c in Punctuation || g.c in OperatorStarts)
  }

  // ---------------------------------------------------------------------------------------
  // The input with its blanks and comments removed

  /** The rest of the input after a comment's closing line break. */
  function AfterComment(gs: seq<Grapheme>): (r: seq<Grapheme>)
    ensures |r| <= |gs|
  {
    if |gs| == 0 then [] else if IsNewline(gs[0]) then gs[1..] else AfterComment(gs[1..])
  }

  /** The text of the input without spaces, tabs, line breaks and `#` comments. */
  function Strip(gs: seq<Grapheme>): string
    decreases |gs|
  {
    if |gs| == 0 then ""
    else if IsBlank(gs[0]) then Strip(gs[1..])
    else if gs[0] == Char('#') then Strip(AfterComment(gs[1..]))
    else Text(gs[0]) + Strip(gs[1..])
  }

  /** All token texts, in order. */
  function Concat(ts: seq<Token>): string {
    if |ts| == 0 then "" else Concat(ts[..|ts| - 1]) + ts[|ts| - 1].value
  }

  /** The index just past the line break that closes a comment whose text starts at `j`,
      or the end of the input when no line break follows. */
  function PastLineBreak(d: seq<Grapheme>, j: nat): (r: nat)
    requires j <= |d|
    ensures j <= r <= |d|
    decreases |d| - j
  {
    if j == |d| then j else if IsNewline(d[j]) then j + 1 else PastLineBreak(d, j + 1)
  }

  /** Where the next token begins: the first grapheme at or after `i` that is neither blank
      nor inside a `#` comment, or the end of the input. */
  function NextSignificant(d: seq<Grapheme>, i: nat): (r: nat)
    requires i <= |d|
    ensures i <= r <= |d|
    ensures r < |d| ==> !IsBlank(d[r]) && d[r] != Char('#')
    decreases |d| - i
  {
    if i == |d| then i
    else if IsBlank(d[i]) then NextSignificant(d, i + 1)
    else if d[i] == Char('#') then NextSignificant(d, PastLineBreak(d, i + 1))
    else i
  }

  predicate OnlyBlanks(d: seq<Grapheme>, i: nat, j: nat)
    requires i <= j <= |d|
  {
    forall k :: i <= k < j ==> IsBlank(d[k])
  }

  /** Skipping from `i` looks past the end of the input: nothing significant is left, but a
      comment is. */
  predicate SkipOverruns(d: seq<Grapheme>, i: nat)
    requires i <= |d|
  {
    NextSignificant(d, i) == |d| && !OnlyBlanks(d, i, |d|)
  }

  /** Where the input before token `i` begins: the end of token `i - 1`, or the start of the
      input for the first token (and, for `i == |ts|`, the input after the last token). */
  function GapStart(ts: seq<Token>, starts: seq<nat>, i: nat): nat
    requires |starts| == |ts| && i <= |ts|
  {
    if i == 0 then 0 else starts[i - 1] + |ts[i - 1].value|
  }

  /** Token `t` is well formed and was read from `data` at `start`, the first significant
      grapheme from `gap` on. */
  ghost predicate Placed(data: seq<Grapheme>, gap: nat, start: nat, t: Token) {
    && WellFormed(t) && TokenAt(data, start, t)
    && gap <= |data| && start == NextSignificant(data, gap)
  }

  /** The tokens were read in input order, each well formed and at the first significant
      grapheme after the one before it. */
  ghost predicate TokensAt(data: seq<Grapheme>, ts: seq<Token>, starts: seq<nat>) {
    && |starts| == |ts|
    && forall i {:trigger Placed(data, GapStart(ts, starts, i), starts[i], ts[i])} :: 0 <= i < |ts| ==> Placed(data, GapStart(ts, starts, i), starts[i], ts[i])
  }

  datatype LexError =
    | UnexpectedCharacter(grapheme: Grapheme, line: nat, col: nat)
    | IndexOutOfBounds

  // ---------------------------------------------------------------------------------------
  // Lemmas about the reference functions

  lemma {:induction false} TextsFront(gs: seq<Grapheme>)
    requires |gs| > 0
    ensures Texts(gs) == Text(gs[0]) + Texts(gs[1..])
    decreases |gs|
  {
    if |gs| > 1 {
      var init := gs[..|gs| - 1];
      TextsFront(init);
      assert init[1..] == gs[1..][..|gs| - 2];
    } else {
      assert gs[..0] == [];
    }
  }

  lemma {:induction false} TextsLength(gs: seq<Grapheme>)
    requires forall k :: 0 <= k < |gs| ==> gs[k].Char?
    ensures |Texts(gs)| == |gs|
  {
    if |gs| > 0 {
      TextsLength(gs[..|gs| - 1]);
    }
  }

  /** Graphemes other than line breaks move the column right by one each. */
  lemma {:induction false} PositionAcrossLine(d: seq<Grapheme>, i: nat, j: nat)
    requires i <= j <= |d|
    requires forall k :: i <= k < j ==> !IsNewline(d[k])
    ensures PositionAfter(d[..j]) ==
      Position(PositionAfter(d[..i]).line, PositionAfter(d[..i]).col + (j - i))
    decreases j - i
  {
    if j > i {
      PositionAcrossLine(d, i, j - 1);
      assert d[..j][..j - 1] == d[..j - 1];
    }
  }

  /** Skipping blanks does not change the significant text. */
  lemma {:induction false} StripBlanks(d: seq<Grapheme>, i: nat, j: nat)
    requires i <= j <= |d|
    requires forall k :: i <= k < j ==> IsBlank(d[k])
    ensures Strip(d[i..]) == Strip(d[j..])
    decreases j - i
  {
    if i < j {
      assert d[i..][1..] == d[i + 1..];
      StripBlanks(d, i + 1, j);
    }
  }

  lemma {:induction false} AfterCommentAt(d: seq<Grapheme>, i: nat, j: nat)
    requires i <= j < |d|
    requires forall k :: i <= k < j ==> !IsNewline(d[k])
    requires IsNewline(d[j])
    ensures AfterComment(d[i..]) == d[j + 1..]
    decreases j - i
  {
    if i < j {
      assert d[i..][1..] == d[i + 1..];
      AfterCommentAt(d, i + 1, j);
    } else {
      assert d[i..][1..] == d[j + 1..];
    }
  }

  /** A comment, from its `#` through its line break, contributes no significant text. */
  lemma StripComment(d: seq<Grapheme>, i: nat, j: nat)
    requires i < j < |d|
    requires d[i] == Char('#')
    requires forall k :: i <= k < j ==> !IsNewline(d[k])
    requires IsNewline(d[j])
    ensures Strip(d[i..]) == Strip(d[j + 1..])
  {
    assert d[i..][1..] == d[i + 1..];
    AfterCommentAt(d, i + 1, j);
  }

  /** A comment's text ends at its first line break, or at the end of the input. */
  lemma {:induction false} PastLineBreakAt(d: seq<Grapheme>, i: nat, j: nat)
    requires i <= j <= |d|
    requires forall k :: i <= k < j ==> !IsNewline(d[k])
    requires j == |d| || IsNewline(d[j])
    ensures PastLineBreak(d, i) == if j == |d| then j else j + 1
    decreases j - i
  {
    if i < j {
      PastLineBreakAt(d, i + 1, j);
    }
  }

  /** Blanks do not move the next significant grapheme. */
  lemma {:induction false} NextSignificantBlanks(d: seq<Grapheme>, i: nat, j: nat)
    requires i <= j <= |d| && OnlyBlanks(d, i, j)
    ensures NextSignificant(d, i) == NextSignificant(d, j)
    decreases j - i
  {
    if i < j {
      NextSignificantBlanks(d, i + 1, j);
    }
  }

  lemma {:induction false} AfterCommentPast(d: seq<Grapheme>, j: nat)
    requires j <= |d|
    ensures AfterComment(d[j..]) == d[PastLineBreak(d, j)..]
    decreases |d| - j
  {
    if j < |d| {
      assert d[j..][0] == d[j] && d[j..][1..] == d[j + 1..];
      if !IsNewline(d[j]) {
        AfterCommentPast(d, j + 1);
      }
    }
  }

  /** What the lexer skips to reach the next token contributes no significant text. */
  lemma {:induction false} NextSignificantStrip(d: seq<Grapheme>, i: nat)
    requires i <= |d|
    ensures Strip(d[i..]) == Strip(d[NextSignificant(d, i)..])
    decreases |d| - i
  {
    if i < |d| && (IsBlank(d[i]) || d[i] == Char('#')) {
      assert d[i..][0] == d[i] && d[i..][1..] == d[i + 1..];
      if IsBlank(d[i]) {
        NextSignificantStrip(d, i + 1);
      } else {
        AfterCommentPast(d, i + 1);
        NextSignificantStrip(d, PastLineBreak(d, i + 1));
      }
    }
  }

  /** A run of token graphemes contributes exactly its own text. */
  lemma {:induction false} StripToken(d: seq<Grapheme>, i: nat, j: nat)
    requires i <= j <= |d|
    requires forall k :: i <= k < j ==> d[k].Char? && !IsBlank(d[k]) && d[k] != Char('#')
    ensures Strip(d[i..]) == Texts(d[i..j]) + Strip(d[j..])
    decreases j - i
  {
    if i < j {
      StripToken(d, i + 1, j);
      assert d[i..][0] == d[i] && d[i..][1..] == d[i + 1..];
      StripKeeps(d[i..]);
      TextsFront(d[i..j]);
      assert d[i..j][0] == d[i] && d[i..j][1..] == d[i + 1..j];
      AppendAssociates(Text(d[i]), Texts(d[i + 1..j]), Strip(d[j..]));
    } else {
      assert d[i..j] == [];
    }
  }

  lemma StripKeeps(gs: seq<Grapheme>)
    requires |gs| > 0 && !IsBlank(gs[0]) && gs[0] != Char('#')
    ensures Strip(gs) == Text(gs[0]) + Strip(gs[1..])
  {
  }

  // ---------------------------------------------------------------------------------------
  // Keyword table and punctuation tables

  /** Keywords map to their own types, the nine type spellings to Type, anything else to
      nothing (the caller then makes an Identifier). */
  function KeywordToTokenType(keyword: string): (r: Option<TokenType>)
    ensures r == Some(Type) <==> keyword in TypeSystem.TypeSpellings
    ensures r == None <==> keyword !in Keywords && keyword !in TypeSystem.TypeSpellings
    ensures r.Some? && r.value != Type ==> keyword in Keywords && FixedSpelling(r.value) == Some(keyword)
    ensures r.Some? ==> IsWordType(r.value)
  {
    match keyword
    case "if" => Some(If)
    case "else" => Some(Else)
    case "var" => Some(Var)
    case "while" => Some(While)
    case "fn" => Some(Function)
    case "i8" => Some(Type)
    case "i16" => Some(Type)
    case "i32" => Some(Type)
    case "i64" => Some(Type)
    case "u8" => Some(Type)
    case "u16" => Some(Type)
    case "u32" => Some(Type)
    case "u64" => Some(Type)
    case "bool" => Some(Type)
    case _ => None
  }

  /** The spellings the lexer tags Type are exactly those the type system can parse. */
  lemma TypeTokensParse(s: string)
    ensures KeywordToTokenType(s) == Some(Type) <==> TypeSystem.FromStr(s).Ok?
  {
    TypeSystem.FromStrExact(s, s);
  }

  /** The token type of a one-grapheme punctuation token. */
  function SingleCharType(c: char): (r: Option<TokenType>)
    ensures r.Some? <==> c in Punctuation
    ensures r.Some? ==> FixedSpelling(r.value) == Some([c])
  {
    match c
    case '+' => Some(Plus)
    case '-' => Some(Minus)
    case '*' => Some(Star)
    case '/' => Some(Slash)
    case '(' => Some(LeftParen)
    case ')' => Some(RightParen)
    case '{' => Some(LeftBrace)
    case '}' => Some(RightBrace)
    case ';' => Some(SemiColon)
    case ':' => Some(Colon)
    case ',' => Some(Comma)
    case _ => None
  }

  /** The single and the compound (`=`-suffixed) token types an operator start yields. */
  function CompoundTypes(c: char): (r: Option<(TokenType, TokenType)>)
    ensures r.Some? <==> c in OperatorStarts
    ensures r.Some? ==> FixedSpelling(r.value.0) == Some([c]) && FixedSpelling(r.value.1) == Some([c, '='])
  {
    match c
    case '!' => Some((ExclamationMark, NotEqualSign))
    case '=' => Some((EqualSign, DoubleEqualSign))
    case '<' => Some((LessThan, LessThanOrEqual))
    case '>' => Some((GreaterThan, GreaterThanOrEqual))
    case _ => None
  }

  // ---------------------------------------------------------------------------------------
  // The lexer

  class Lexer {
    const data: seq<Grapheme>
    var index: nat
    var currentCol: nat
    var currentLine: nat

    /** The cursor is inside the input and the line/column counters describe it. */
    ghost predicate Valid()
      reads this
    {
      index <= |data| && Position(currentLine, currentCol) == PositionAfter(data[..index])
    }

    constructor (input: seq<Grapheme>)
      ensures Valid() && data == input && index == 0
      ensures currentLine == 1 && currentCol == 1
    {
      data := input;
      index := 0;
      currentCol := 1;
      currentLine := 1;
    }

    /** No grapheme is left to read. */
    predicate Eof(): (r: bool)
      reads this
      ensures !r ==> index < |data|
      ensures Valid() ==> (r <==> data[index..] == [])
    {
      index >= |data|
    }

    /** Takes one grapheme: the column moves right by one, or a line break starts the next
        line at column 1. */
    method Consume() returns (g: Grapheme)
      requires Valid() && index < |data|
      modifies this
      ensures Valid()
      ensures g == data[old(index)] && index == old(index) + 1
      ensures IsNewline(g) ==> currentLine == old(currentLine) + 1 && currentCol == 1
      ensures !IsNewline(g) ==> currentLine == old(currentLine) && currentCol == old(currentCol) + 1
    {
      g := data[index];
      index := index + 1;
      currentCol := currentCol + 1;
      if IsNewline(g) {
        currentCol := 1;
        currentLine := currentLine + 1;
      }
      assert data[..index][..index - 1] == data[..index - 1];
    }

    /** Takes the longest run of graphemes satisfying `f`, stopping quietly at the end of
        the input, and returns its text. */
    method ConsumeWhile(f: Grapheme -> bool) returns (result: string)
      requires Valid()
      modifies this
      ensures Valid() && old(index) <= index
      ensures forall k :: old(index) <= k < index ==> f(data[k])
      ensures index == |data| || !f(data[index])
      ensures result == Texts(data[old(index)..index])
    {
      result := "";
      ghost var start := index;
      while true
        invariant Valid() && start <= index
        invariant forall k :: start <= k < index ==> f(data[k])
        invariant result == Texts(data[start..index])
        decreases |data| - index
      {
        if Eof() {
          break;
        }
        var c := data[index];
        if !f(c) {
          break;
        }
        result := ConsumeOnto(start, result);
      }
    }

    /** Takes one grapheme and appends its text to `prefix`, the text read since `start`. */
    method ConsumeOnto(ghost start: nat, prefix: string) returns (result: string)
      requires Valid() && start <= index < |data| && prefix == Texts(data[start..index])
      modifies this
      ensures Valid() && index == old(index) + 1
      ensures result == Texts(data[start..index])
    {
      var g := Consume();
      TextsExtend(data, start, index);
      result := prefix + Text(g);
    }

    method SkipWhitespace()
      requires Valid()
      modifies this
      ensures Valid() && old(index) <= index
      ensures forall k :: old(index) <= k < index ==> IsBlank(data[k])
      ensures index == |data| || !IsBlank(data[index])
    {
      var _ := ConsumeWhile(IsBlank);
    }

    method TokenizeSingleChar(tokenType: TokenType) returns (t: Token)
      requires Valid() && index < |data| && data[index].Char? && !IsNewline(data[index])
      modifies this
      ensures Valid() && index == old(index) + 1
      ensures t == Token(tokenType, [data[old(index)].c], old(currentCol), old(currentLine))
    {
      var g := Consume();
      var value := Text(g);
      t := Token(tokenType, value, currentCol - |value|, currentLine);
    }

    method TokenizeMultichar(condition: Grapheme -> bool, tokenType: TokenType) returns (t: Token)
      requires Valid()
      requires forall g :: condition(g) ==> g.Char? && !IsNewline(g)
      modifies this
      ensures Valid() && old(index) <= index
      ensures forall k :: old(index) <= k < index ==> condition(data[k])
      ensures index == |data| || !condition(data[index])
      ensures t.tokenType == tokenType && t.value == Texts(data[old(index)..index])
      ensures |t.value| == index - old(index)
      ensures t.line == old(currentLine) && t.col == old(currentCol)
    {
      ghost var start := index;
      var value := ConsumeWhile(condition);
      TextsLength(data[start..index]);
      PositionAcrossLine(data, start, index);
      t := Token(tokenType, value, currentCol - |value|, currentLine);
    }

    method TokenizePossibleKeyword() returns (t: Token)
      requires Valid()
      modifies this
      ensures Valid() && old(index) <= index
      ensures forall k :: old(index) <= k < index ==> IsAlphanumeric(data[k])
      ensures index == |data| || !IsAlphanumeric(data[index])
      ensures t.value == Texts(data[old(index)..index]) && |t.value| == index - old(index)
      ensures t.tokenType == KeywordToTokenType(t.value).GetOr(Identifier)
      ensures t.line == old(currentLine) && t.col == old(currentCol)
    {
      ghost var start := index;
      var value := ConsumeWhile(IsAlphanumeric);
      TextsLength(data[start..index]);
      PositionAcrossLine(data, start, index);
      var tokenType := KeywordToTokenType(value).GetOr(Identifier);
      t := Token(tokenType, value, currentCol - |value|, currentLine);
    }

    /** Reads `single`, or `multiple` when the next grapheme is `nextChar`; looking past the
        end of the input is an error. */
    method TokenizePossibleMultichar(singleType: TokenType, multipleType: TokenType, nextChar: Grapheme)
      returns (r: Result<Token, LexError>)
      requires Valid() && index < |data| && data[index].Char? && !IsNewline(data[index])
      requires nextChar.Char? && !IsNewline(nextChar)
      modifies this
      ensures Valid() && old(index) < index
      ensures r.Err? <==> old(index) + 1 == |data|
      ensures r.Err? ==> r.error == IndexOutOfBounds
      ensures r.Ok? && data[old(index) + 1] == nextChar ==>
        r.value == Token(multipleType, [data[old(index)].c, nextChar.c], old(currentCol), old(currentLine))
        && index == old(index) + 2
      ensures r.Ok? && data[old(index) + 1] != nextChar ==>
        r.value == Token(singleType, [data[old(index)].c], old(currentCol), old(currentLine))
        && index == old(index) + 1
    {
      var g := Consume();
      var value := Text(g);
      var tokenType := singleType;
      if Eof() {
        return Err(IndexOutOfBounds);
      }
      if data[index] == nextChar {
        var g' := Consume();
        value := value + Text(g');
        tokenType := multipleType;
      }
      r := Ok(Token(tokenType, value, currentCol - |value|, currentLine));
    }

    /** An integer literal: the run of digits at the cursor. */
    method ReadLiteral() returns (t: Token)
      requires Valid() && index < |data| && data[index].Char? && IsDigit(data[index].c)
      modifies this
      ensures Valid() && index == old(index) + |t.value|
      ensures WellFormed(t) && TokenAt(data, old(index), t)
      ensures Strip(data[old(index)..]) == t.value + Strip(data[index..])
    {
      ghost var start := index;
      t := TokenizeMultichar(IsNumeric, IntLiteral);
      LiteralToken(data, start, index, t);
    }

    /** A keyword, type name or identifier: the alphanumeric run at the cursor. */
    method ReadWord() returns (t: Token)
      requires Valid() && index < |data| && data[index].Char? && IsAsciiLetter(data[index].c)
      modifies this
      ensures Valid() && index == old(index) + |t.value|
      ensures WellFormed(t) && TokenAt(data, old(index), t)
      ensures Strip(data[old(index)..]) == t.value + Strip(data[index..])
    {
      ghost var start := index;
      t := TokenizePossibleKeyword();
      WordToken(data, start, index, t);
    }

    /** A one-character punctuation token. */
    method ReadPunctuation() returns (t: Token)
      requires Valid() && index < |data| && data[index].Char? && data[index].c in Punctuation
      modifies this
      ensures Valid() && index == old(index) + |t.value|
      ensures WellFormed(t) && TokenAt(data, old(index), t)
      ensures Strip(data[old(index)..]) == t.value + Strip(data[index..])
    {
      ghost var start := index;
      t := TokenizeSingleChar(SingleCharType(data[index].c).value);
      OperatorToken(data, start, index, t);
    }

    /** An operator that may be followed by `=`; an operator character that ends the input
        is an error. */
    method ReadOperator() returns (r: Result<Token, LexError>)
      requires Valid() && index < |data| && data[index].Char? && data[index].c in OperatorStarts
      modifies this
      ensures Valid() && old(index) <= index
      ensures r.Ok? ==> index == old(index) + |r.value.value|
      ensures r.Ok? ==> WellFormed(r.value) && TokenAt(data, old(index), r.value)
      ensures r.Ok? ==> Strip(data[old(index)..]) == r.value.value + Strip(data[index..])
      ensures r.Err? ==> r.error == IndexOutOfBounds && old(index) + 1 == |data|
    {
      ghost var start := index;
      var (single, multiple) := CompoundTypes(data[index].c).value;
      r := TokenizePossibleMultichar(single, multiple, Char('='));
      if r.Ok? {
        OperatorToken(data, start, index, r.value);
      }
    }

    /** Reads the token that starts at the cursor, chosen by its first character. */
    method NextToken() returns (r: Result<Token, LexError>)
      requires Valid() && index < |data| && !IsBlank(data[index]) && data[index] != Char('#')
      modifies this
      ensures Valid() && old(index) <= index
      ensures r.Ok? ==> index == old(index) + |r.value.value|
      ensures r.Ok? ==> WellFormed(r.value) && TokenAt(data, old(index), r.value)
      ensures r.Ok? ==> Strip(data[old(index)..]) == r.value.value + Strip(data[index..])
      ensures r.Err? && r.error.UnexpectedCharacter? ==>
        && r.error.grapheme == data[old(index)] && !IsTokenStart(r.error.grapheme)
        && Position(r.error.line, r.error.col) == PositionAfter(data[..old(index)])
      ensures r.Err? && r.error == IndexOutOfBounds ==>
        old(index) + 1 == |data| && data[old(index)].c in OperatorStarts
    {
      ghost var start := index;
      ghost var position := Position(currentLine, currentCol);
      var current := data[index];
      var c := current.c;
      if IsDigit(c) {
        var t := ReadLiteral();
        r := Ok(t);
      } else if IsAsciiLetter(c) {
        var t := ReadWord();
        r := Ok(t);
      } else if c in Punctuation {
        var t := ReadPunctuation();
        r := Ok(t);
      } else if c in OperatorStarts {
        r := ReadOperator();
      } else {
        r := Err(UnexpectedCharacter(current, currentLine, currentCol));
      }
    }

    /** Skips a comment through its line break. Fails, at the end of the input, when no
        line break follows the comment. */
    method SkipCommentLine() returns (ok: bool)
      requires Valid() && index < |data| && data[index] == Char('#')
      modifies this
      ensures Valid() && index == PastLineBreak(data, old(index) + 1)
      ensures ok <==> IsNewline(data[index - 1])
      ensures !ok ==> index == |data| && forall k :: old(index) < k < |data| ==> !IsNewline(data[k])
      ensures ok ==> Strip(data[old(index)..]) == Strip(data[index..])
    {
      ghost var hash := index;
      var _ := ConsumeWhile(IsNotNewline);
      if Eof() {
        PastLineBreakAt(data, hash + 1, index);
        return false;
      }
      var _ := Consume();
      PastLineBreakAt(data, hash + 1, index - 1);
      StripComment(data, hash, index - 1);
      ok := true;
    }

    /** Skips one comment, from '#' through its line break, and the blanks after it. Fails
        when the input ends before another significant grapheme or comment. */
    method SkipComment() returns (ok: bool)
      requires Valid() && index < |data| && data[index] == Char('#')
      modifies this
      ensures Valid() && old(index) < index
      ensures NextSignificant(data, old(index)) == NextSignificant(data, index)
      ensures ok <==> index < |data|
      ensures ok ==> !IsBlank(data[index])
      ensures !ok ==> NextSignificant(data, old(index)) == |data|
      ensures ok ==> Strip(data[old(index)..]) == Strip(data[index..])
    {
      ok := SkipCommentLine();
      if !ok {
        return;
      }
      ghost var afterComment := index;
      SkipWhitespace();
      StripBlanks(data, afterComment, index);
      NextSignificantBlanks(data, afterComment, index);
      if Eof() {
        return false;
      }
      return true;
    }

    /** Skips blanks and comments up to the next token or the end of the input. Fails when
        a comment is skipped and the input ends before the next token. */
    method SkipInsignificant() returns (ok: bool)
      requires Valid()
      modifies this
      ensures Valid() && index == NextSignificant(data, old(index))
      ensures ok <==> !SkipOverruns(data, old(index))
      ensures ok ==> Strip(data[old(index)..]) == Strip(data[index..])
    {
      ghost var start := index;
      SkipWhitespace();
      StripBlanks(data, start, index);
      NextSignificantBlanks(data, start, index);
      while !Eof() && data[index] == Char('#')
        invariant Valid() && start <= index
        invariant Eof() || !IsBlank(data[index])
        invariant Eof() ==> OnlyBlanks(data, start, |data|)
        invariant NextSignificant(data, start) == NextSignificant(data, index)
        invariant Strip(data[start..]) == Strip(data[index..])
        decreases |data| - index
      {
        ghost var hash := index;
        ok := SkipComment();
        if !ok {
          assert !IsBlank(data[hash]);
          return;
        }
      }
      ok := true;
    }

    /** Tokenizes the whole input. `read` and `starts` are the tokens read before the
        lexer stopped and where each began. */
    method Tokenize() returns (r: Result<seq<Token>, LexError>, ghost read: seq<Token>, ghost starts: seq<nat>)
      requires Valid() && index == 0
      modifies this
      ensures Lexed(data, r, read, starts)
      ensures r.Ok? ==> Concat(read) == Strip(data)
    {
      var result: seq<Token> := [];
      starts := [];
      assert data[0..] == data;
      while !Eof()
        invariant Valid()
        invariant TokensAt(data, result, starts)
        invariant GapStart(result, starts, |result|) == index
        invariant Concat(result) + Strip(data[index..]) == Strip(data)
        decreases |data| - index
      {
        var ok := SkipInsignificant();
        if !ok {
          return Err(IndexOutOfBounds), result, starts;
        }
        if Eof() {
          break;
        }
        var start := index;
        var t := NextToken();
        if t.Err? {
          return Err(t.error), result, starts;
        }
        TokensAtAppend(data, result, starts, t.value, start);
        ConcatAppend(result, t.value);
        AppendAssociates(Concat(result), t.value.value, Strip(data[index..]));
        result, starts := result + [t.value], starts + [start];
      }
      return Ok(result), result, starts;
    }
  }

  lemma TextsExtend(d: seq<Grapheme>, i: nat, j: nat)
    requires i < j <= |d|
    ensures Texts(d[i..j]) == Texts(d[i..j - 1]) + Text(d[j - 1])
  {
    assert d[i..j][..j - 1 - i] == d[i..j - 1];
  }

  lemma TokensAtAppend(data: seq<Grapheme>, ts: seq<Token>, starts: seq<nat>, t: Token, start: nat)
    requires TokensAt(data, ts, starts) && |starts| == |ts|
    requires Placed(data, GapStart(ts, starts, |ts|), start, t)
    ensures TokensAt(data, ts + [t], starts + [start])
    ensures GapStart(ts + [t], starts + [start], |ts| + 1) == start + |t.value|
  {
    var ts', starts' := ts + [t], starts + [start];
    forall i | 0 <= i < |ts'|
      ensures Placed(data, GapStart(ts', starts', i), starts'[i], ts'[i])
    {
      GapStartAppend(ts, starts, t, start, i);
      if i < |ts| {
        PlacedKept(data, GapStart(ts, starts, i), GapStart(ts', starts', i), starts[i], starts'[i], ts[i], ts'[i]);
      } else {
        PlacedKept(data, GapStart(ts, starts, i), GapStart(ts', starts', i), start, starts'[i], t, ts'[i]);
      }
    }
  }

  lemma ConcatAppend(ts: seq<Token>, t: Token)
    ensures Concat(ts + [t]) == Concat(ts) + t.value
  {
    assert (ts + [t])[..|ts|] == ts;
  }

  lemma PlacedKept(data: seq<Grapheme>, gap: nat, gap': nat, start: nat, start': nat, t: Token, t': Token)
    requires Placed(data, gap, start, t) && gap == gap' && start == start' && t == t'
    ensures Placed(data, gap', start', t')
  {
  }

  lemma GapStartAppend(ts: seq<Token>, starts: seq<nat>, t: Token, start: nat, i: nat)
    requires |starts| == |ts| && i <= |ts|
    ensures GapStart(ts + [t], starts + [start], i) == GapStart(ts, starts, i)
  {
    if i > 0 {
      assert (ts + [t])[i - 1] == ts[i - 1] && (starts + [start])[i - 1] == starts[i - 1];
    }
  }

  /** `e` reports the first significant grapheme after the tokens `ts`, at its own line
      and column, and that grapheme cannot begin a token. */
  ghost predicate UnexpectedAfter(data: seq<Grapheme>, ts: seq<Token>, starts: seq<nat>, e: LexError)
    requires |starts| == |ts| && GapStart(ts, starts, |ts|) <= |data|
  {
    var next := NextSignificant(data, GapStart(ts, starts, |ts|));
    && e.UnexpectedCharacter?
    && next < |data| && data[next] == e.grapheme && !IsTokenStart(e.grapheme)
    && PositionAfter(data[..next]) == Position(e.line, e.col)
  }

  /** After the tokens `ts` the lexer looks past the end of the input: skipping a comment
      runs off it, or the next significant grapheme is an operator character that ends it. */
  ghost predicate OverrunAfter(data: seq<Grapheme>, ts: seq<Token>, starts: seq<nat>)
    requires |starts| == |ts| && GapStart(ts, starts, |ts|) <= |data|
  {
    var gap := GapStart(ts, starts, |ts|);
    var next := NextSignificant(data, gap);
    || SkipOverruns(data, gap)
    || (next + 1 == |data| && data[next].Char? && data[next].c in OperatorStarts)
  }

  /** The outcome of lexing `data`: the tokens read, in order and where they were found,
      and why the lexer stopped. Success leaves only blanks after the last token. */
  ghost predicate Lexed(data: seq<Grapheme>, r: Result<seq<Token>, LexError>, read: seq<Token>, starts: seq<nat>) {
    && TokensAt(data, read, starts)
    && GapStart(read, starts, |read|) <= |data|
    && (r.Ok? ==> r.value == read && OnlyBlanks(data, GapStart(read, starts, |read|), |data|))
    && (r.Err? && r.error.UnexpectedCharacter? ==> UnexpectedAfter(data, read, starts, r.error))
    && (r.Err? && r.error.IndexOutOfBounds? ==> OverrunAfter(data, read, starts))
  }

  /** An integer literal read as a maximal run of digits. */
  lemma LiteralToken(data: seq<Grapheme>, start: nat, end: nat, t: Token)
    requires start < end <= |data|
    requires forall k :: start <= k < end ==> IsNumeric(data[k])
    requires end == |data| || !IsNumeric(data[end])
    requires t.tokenType == IntLiteral && t.value == Texts(data[start..end])
    requires PositionAfter(data[..start]) == Position(t.line, t.col)
    ensures |t.value| == end - start
    ensures WellFormed(t) && TokenAt(data, start, t)
    ensures Strip(data[start..]) == t.value + Strip(data[end..])
  {
    DigitsText(data, start, end);
    forall k | start <= k < end ensures data[k].Char? && !IsBlank(data[k]) && data[k] != Char('#') {
      assert IsNumeric(data[k]);
    }
    StripToken(data, start, end);
  }

  /** A run of digit graphemes reads as a string of digits, one per grapheme. */
  lemma DigitsText(data: seq<Grapheme>, start: nat, end: nat)
    requires start < end <= |data|
    requires forall k :: start <= k < end ==> IsNumeric(data[k])
    ensures |Texts(data[start..end])| == end - start
    ensures forall k :: 0 <= k < end - start ==> IsDigit(Texts(data[start..end])[k])
  {
    var gs := data[start..end];
    TextsLength(gs);
    forall k | 0 <= k < |gs| ensures IsDigit(Texts(gs)[k]) {
      assert gs[k] == data[start + k];
      TextsAt(gs, k);
    }
  }

  /** A keyword, type name or identifier read as a maximal alphanumeric run that starts
      with a letter. */
  lemma WordToken(data: seq<Grapheme>, start: nat, end: nat, t: Token)
    requires start < end <= |data| && IsAlphabetic(data[start])
    requires forall k :: start <= k < end ==> IsAlphanumeric(data[k])
    requires end == |data| || !IsAlphanumeric(data[end])
    requires t.value == Texts(data[start..end])
    requires t.tokenType == KeywordToTokenType(t.value).GetOr(Identifier)
    requires PositionAfter(data[..start]) == Position(t.line, t.col)
    ensures |t.value| == end - start
    ensures WellFormed(t) && TokenAt(data, start, t)
    ensures Strip(data[start..]) == t.value + Strip(data[end..])
  {
    WordText(data, start, end);
    WordWellFormed(t);
    WordMaximal(data, end, t.tokenType);
    forall k | start <= k < end ensures data[k].Char? && !IsBlank(data[k]) && data[k] != Char('#') {
      assert IsAlphanumeric(data[k]);
    }
    StripToken(data, start, end);
  }

  /** A nonempty run of ASCII letters and digits that starts with a letter. */
  predicate IsWord(s: string) {
    && |s| > 0 && IsAsciiLetter(s[0])
    && forall k :: 0 <= k < |s| ==> IsAsciiLetter(s[k]) || IsDigit(s[k])
  }

  /** The text of an alphanumeric run that starts with a letter is a word. */
  lemma WordText(data: seq<Grapheme>, start: nat, end: nat)
    requires start < end <= |data| && IsAlphabetic(data[start])
    requires forall k :: start <= k < end ==> IsAlphanumeric(data[k])
    ensures |Texts(data[start..end])| == end - start && IsWord(Texts(data[start..end]))
  {
    var gs := data[start..end];
    TextsLength(gs);
    forall k | 0 <= k < |gs| ensures IsAsciiLetter(Texts(gs)[k]) || IsDigit(Texts(gs)[k]) {
      assert gs[k] == data[start + k];
      TextsAt(gs, k);
    }
    TextsAt(gs, 0);
  }

  /** Nothing alphanumeric follows a word, so it is maximal whatever its type. */
  lemma WordMaximal(data: seq<Grapheme>, end: nat, k: TokenType)
    requires end <= |data| && (end == |data| || !IsAlphanumeric(data[end])) && IsWordType(k)
    ensures MaximalAt(data, end, k)
  {
  }

  /** An alphanumeric word that starts with a letter is well formed under the type the
      keyword table gives it. */
  lemma WordWellFormed(t: Token)
    requires IsWord(t.value)
    requires t.tokenType == KeywordToTokenType(t.value).GetOr(Identifier)
    ensures WellFormed(t)
  {
    var r := KeywordToTokenType(t.value);
    if r.Some? && r.value != Type {
      assert FixedSpelling(t.tokenType) == Some(t.value);
    }
  }

  /** A one- or two-character punctuation or operator token. */
  lemma OperatorToken(data: seq<Grapheme>, start: nat, end: nat, t: Token)
    requires start < end <= |data| && end <= start + 2
    requires forall k :: start <= k < end ==> data[k].Char? && !IsBlank(data[k]) && data[k] != Char('#')
    requires t.value == Texts(data[start..end]) || (end == start + 1 && t.value == [data[start].c])
      || (end == start + 2 && t.value == [data[start].c, data[start + 1].c])
    requires WellFormed(t) && MaximalAt(data, end, t.tokenType)
    requires PositionAfter(data[..start]) == Position(t.line, t.col)
    ensures |t.value| == end - start
    ensures TokenAt(data, start, t)
    ensures Strip(data[start..]) == t.value + Strip(data[end..])
  {
    OperatorText(data, start, end, t.value);
    StripToken(data, start, end);
  }

  /** The text of a one- or two-character operator is its characters. */
  lemma OperatorText(data: seq<Grapheme>, start: nat, end: nat, text: string)
    requires start < end <= |data| && end <= start + 2
    requires forall k :: start <= k < end ==> data[k].Char?
    requires text == Texts(data[start..end]) || (end == start + 1 && text == [data[start].c])
      || (end == start + 2 && text == [data[start].c, data[start + 1].c])
    ensures |text| == end - start && Texts(data[start..end]) == text
  {
    var gs := data[start..end];
    ShortTexts(data[start].c, data[end - 1].c);
    if end == start + 1 {
      assert gs == [Char(data[start].c)];
    } else {
      assert gs == [Char(data[start].c), Char(data[start + 1].c)];
    }
  }

  lemma ShortTexts(a: char, b: char)
    ensures Texts([Char(a)]) == [a]
    ensures Texts([Char(a), Char(b)]) == [a, b]
  {
    assert [Char(a)][..0] == [];
    assert [Char(a), Char(b)][..1] == [Char(a)];
  }

  lemma {:induction false} TextsAt(gs: seq<Grapheme>, k: nat)
    requires forall i :: 0 <= i < |gs| ==> gs[i].Char?
    requires k < |gs|
    ensures |Texts(gs)| == |gs| && Texts(gs)[k] == gs[k].c
  {
    TextsLength(gs);
    if k < |gs| - 1 {
      TextsAt(gs[..|gs| - 1], k);
    }
  }

  /** A text without carriage returns is a run of single-character graphemes. */
  lemma {:induction false} TextsChars(gs: seq<Grapheme>, s: string)
    requires Texts(gs) == s
    requires forall k :: 0 <= k < |s| ==> s[k] != '\r'
    ensures |gs| == |s| && forall k :: 0 <= k < |gs| ==> gs[k] == Char(s[k])
  {
    if |gs| > 0 {
      var init := gs[..|gs| - 1];
      if gs[|gs| - 1].CrLf? {
        assert s[|Texts(init)|] == '\r';
      } else {
        assert s == Texts(init) + [gs[|gs| - 1].c];
        forall k | 0 <= k < |Texts(init)| ensures Texts(init)[k] != '\r' {
          assert Texts(init)[k] == s[k];
        }
        TextsChars(init, Texts(init));
      }
    }
  }

  /** A well-formed token begins with a character that starts tokens, has no carriage
      return, and is a literal exactly when it begins with a digit. */
  lemma WellFormedChars(t: Token)
    requires WellFormed(t)
    ensures IsTokenStart(Char(t.value[0]))
    ensures forall k :: 0 <= k < |t.value| ==> t.value[k] != '\r'
    ensures IsDigit(t.value[0]) ==> t.tokenType == IntLiteral
  {
  }

  /** A well-formed token that begins with a letter is a word typed by the keyword table. */
  lemma WordShape(t: Token)
    requires WellFormed(t) && IsAsciiLetter(t.value[0])
    ensures IsWordType(t.tokenType)
    ensures t.tokenType == KeywordToTokenType(t.value).GetOr(Identifier)
    ensures forall k :: 0 <= k < |t.value| ==> IsAsciiLetter(t.value[k]) || IsDigit(t.value[k])
  {
  }

  /** A well-formed token that begins with punctuation is that one character; one that
      begins with an operator character is it alone or followed by `=`. */
  lemma SymbolShape(t: Token)
    requires WellFormed(t) && (t.value[0] in Punctuation || t.value[0] in OperatorStarts)
    ensures t.value[0] in Punctuation ==> |t.value| == 1 && SingleCharType(t.value[0]) == Some(t.tokenType)
    ensures t.value[0] in OperatorStarts ==>
      && CompoundTypes(t.value[0]).Some?
      && (|t.value| == 1 ==> t.tokenType == CompoundTypes(t.value[0]).value.0)
      && (|t.value| != 1 ==>
            |t.value| == 2 && t.value[1] == '=' && t.tokenType == CompoundTypes(t.value[0]).value.1)
  {
  }

  /** What a well-formed token's text looks like, by its first character. */
  lemma WellFormedShape(t: Token)
    requires WellFormed(t)
    ensures IsTokenStart(Char(t.value[0]))
    ensures forall k :: 0 <= k < |t.value| ==> t.value[k] != '\r'
    ensures IsDigit(t.value[0]) ==> t.tokenType == IntLiteral
    ensures IsAsciiLetter(t.value[0]) ==>
      && IsWordType(t.tokenType)
      && t.tokenType == KeywordToTokenType(t.value).GetOr(Identifier)
      && forall k :: 0 <= k < |t.value| ==> IsAsciiLetter(t.value[k]) || IsDigit(t.value[k])
    ensures t.value[0] in Punctuation ==> |t.value| == 1 && SingleCharType(t.value[0]) == Some(t.tokenType)
    ensures t.value[0] in OperatorStarts ==>
      && CompoundTypes(t.value[0]).Some?
      && (|t.value| == 1 ==> t.tokenType == CompoundTypes(t.value[0]).value.0)
      && (|t.value| != 1 ==>
            |t.value| == 2 && t.value[1] == '=' && t.tokenType == CompoundTypes(t.value[0]).value.1)
  {
    WellFormedChars(t);
    if IsAsciiLetter(t.value[0]) {
      WordShape(t);
    }
    if t.value[0] in Punctuation || t.value[0] in OperatorStarts {
      SymbolShape(t);
    }
  }

  /** A well-formed token read at `start` is spelled grapheme by grapheme in the input. */
  lemma TokenGraphemes(data: seq<Grapheme>, start: nat, t: Token)
    requires WellFormed(t) && TokenAt(data, start, t)
    ensures forall j :: start <= j < start + |t.value| ==> data[j] == Char(t.value[j - start])
  {
    WellFormedShape(t);
    TextsChars(data[start..start + |t.value|], t.value);
    forall j | start <= j < start + |t.value| ensures data[j] == Char(t.value[j - start]) {
      assert data[j] == data[start..start + |t.value|][j - start];
    }
  }

  /** A maximal run of graphemes satisfying `p` cannot be outrun by another such run from
      the same place. */
  lemma MaximalRunBound(data: seq<Grapheme>, start: nat, end1: nat, end2: nat, p: Grapheme -> bool)
    requires start <= end1 <= |data| && end2 <= |data|
    requires end1 == |data| || !p(data[end1])
    requires forall j :: start <= j < end2 ==> p(data[j])
    ensures end2 <= end1
  {
  }

  /** A maximal word is followed by the end of the input or a non-alphanumeric grapheme. */
  lemma WordEnds(data: seq<Grapheme>, end: nat, k: TokenType)
    requires end <= |data| && IsWordType(k) && MaximalAt(data, end, k)
    ensures end == |data| || !IsAlphanumeric(data[end])
  {
  }

  /** Of two well-formed tokens read at the same place, neither is longer: each is maximal. */
  lemma TokenNotShorter(data: seq<Grapheme>, start: nat, t1: Token, t2: Token)
    requires WellFormed(t1) && TokenAt(data, start, t1)
    requires WellFormed(t2) && TokenAt(data, start, t2)
    ensures |t2.value| <= |t1.value|
  {
    TokenGraphemes(data, start, t1);
    TokenGraphemes(data, start, t2);
    var c := t1.value[0];
    assert data[start] == Char(c) == Char(t2.value[0]);
    if IsDigit(c) {
      LiteralNotShorter(data, start, t1, t2);
    } else if IsAsciiLetter(c) {
      WordNotShorter(data, start, t1, t2);
    } else {
      WellFormedShape(t1);
      WellFormedShape(t2);
      if c in OperatorStarts && |t2.value| == 2 {
        assert data[start + 1] == Char('=');
      }
    }
  }

  /** The digit case of TokenNotShorter: an integer literal is a maximal run of digits, and
      no run of digits from the same place goes past it. */
  lemma LiteralNotShorter(data: seq<Grapheme>, start: nat, t1: Token, t2: Token)
    requires WellFormed(t1) && IsDigit(t1.value[0])
    requires start + |t1.value| <= |data| && MaximalAt(data, start + |t1.value|, t1.tokenType)
    requires WellFormed(t2) && t2.value[0] == t1.value[0] && start + |t2.value| <= |data|
    requires forall j :: start <= j < start + |t2.value| ==> data[j] == Char(t2.value[j - start])
    ensures |t2.value| <= |t1.value|
  {
    WellFormedChars(t1);
    WellFormedChars(t2);
    var end1, end2 := start + |t1.value|, start + |t2.value|;
    forall j | start <= j < end2 ensures IsNumeric(data[j]) {
      assert IsDigit(t2.value[j - start]);
    }
    MaximalRunBound(data, start, end1, end2, IsNumeric);
  }

  /** The letter case of TokenNotShorter: a word is a maximal alphanumeric run, and no
      alphanumeric run from the same place goes past it. */
  lemma WordNotShorter(data: seq<Grapheme>, start: nat, t1: Token, t2: Token)
    requires WellFormed(t1) && IsAsciiLetter(t1.value[0])
    requires start + |t1.value| <= |data| && MaximalAt(data, start + |t1.value|, t1.tokenType)
    requires WellFormed(t2) && t2.value[0] == t1.value[0] && start + |t2.value| <= |data|
    requires forall j :: start <= j < start + |t2.value| ==> data[j] == Char(t2.value[j - start])
    ensures |t2.value| <= |t1.value|
  {
    WordShape(t1);
    WordShape(t2);
    var end1, end2 := start + |t1.value|, start + |t2.value|;
    forall j | start <= j < end2 ensures IsAlphanumeric(data[j]) {
      assert IsAsciiLetter(t2.value[j - start]) || IsDigit(t2.value[j - start]);
    }
    WordEnds(data, end1, t1.tokenType);
  }

  /** The input determines the token read at a place. */
  lemma TokenUnique(data: seq<Grapheme>, start: nat, t1: Token, t2: Token)
    requires WellFormed(t1) && TokenAt(data, start, t1)
    requires WellFormed(t2) && TokenAt(data, start, t2)
    ensures t1 == t2
  {
    TokenNotShorter(data, start, t1, t2);
    TokenNotShorter(data, start, t2, t1);
    TokenGraphemes(data, start, t1);
    TokenGraphemes(data, start, t2);
    assert t1.value == t2.value;
    WellFormedShape(t1);
    WellFormedShape(t2);
  }

  /** A well-formed token begins at a grapheme that starts tokens, and one that begins with
      an operator character is not the last grapheme. */
  lemma TokenBegins(data: seq<Grapheme>, start: nat, t: Token)
    requires WellFormed(t) && TokenAt(data, start, t)
    ensures start < |data| && IsTokenStart(data[start])
    ensures data[start].Char? && data[start].c in OperatorStarts ==> start + 1 < |data|
  {
    TokenGraphemes(data, start, t);
    WellFormedShape(t);
  }

  /** Two readings of the same input agree on the tokens both have read. */
  lemma {:induction false} TokensAgree(data: seq<Grapheme>, ts1: seq<Token>, s1: seq<nat>,
                                        ts2: seq<Token>, s2: seq<nat>, n: nat)
    requires TokensAt(data, ts1, s1) && TokensAt(data, ts2, s2)
    requires n <= |ts1| && n <= |ts2|
    ensures forall k :: 0 <= k < n ==> ts1[k] == ts2[k] && s1[k] == s2[k]
    ensures GapStart(ts1, s1, n) == GapStart(ts2, s2, n)
    decreases n
  {
    if n > 0 {
      var k := n - 1;
      TokensAgree(data, ts1, s1, ts2, s2, k);
      PlacedUnique(data, GapStart(ts1, s1, k), s1[k], ts1[k], s2[k], ts2[k]);
      forall j | 0 <= j < n ensures ts1[j] == ts2[j] && s1[j] == s2[j] {
        if j < k {}
      }
    }
  }

  /** Two tokens placed after the same gap are the same token at the same place. */
  lemma PlacedUnique(data: seq<Grapheme>, gap: nat, start1: nat, t1: Token, start2: nat, t2: Token)
    requires Placed(data, gap, start1, t1) && Placed(data, gap, start2, t2)
    ensures start1 == start2 && t1 == t2
  {
    TokenUnique(data, start1, t1, t2);
  }

  /** A reading that stopped cannot be outrun by another reading of the same input. */
  lemma LexedNotShorter(data: seq<Grapheme>, r1: Result<seq<Token>, LexError>, ts1: seq<Token>, s1: seq<nat>,
                        ts2: seq<Token>, s2: seq<nat>)
    requires Lexed(data, r1, ts1, s1) && TokensAt(data, ts2, s2)
    ensures |ts2| <= |ts1|
  {
    var n := |ts1|;
    var gap := GapStart(ts1, s1, n);
    if OnlyBlanks(data, gap, |data|) {
      NextSignificantBlanks(data, gap, |data|);
    }
    if n < |ts2| {
      TokensAgree(data, ts1, s1, ts2, s2, n);
      assert Placed(data, GapStart(ts2, s2, n), s2[n], ts2[n]);
      TokenBegins(data, s2[n], ts2[n]);
      assert false;
    }
  }

  /** The input determines the outcome of lexing it: the tokens read, where each began,
      and how the lexer stopped. */
  lemma LexedUnique(data: seq<Grapheme>, r1: Result<seq<Token>, LexError>, read1: seq<Token>, starts1: seq<nat>,
                    r2: Result<seq<Token>, LexError>, read2: seq<Token>, starts2: seq<nat>)
    requires Lexed(data, r1, read1, starts1) && Lexed(data, r2, read2, starts2)
    ensures read1 == read2 && starts1 == starts2 && r1 == r2
  {
    LexedNotShorter(data, r1, read1, starts1, read2, starts2);
    LexedNotShorter(data, r2, read2, starts2, read1, starts1);
    var n := |read1|;
    TokensAgree(data, read1, starts1, read2, starts2, n);
    var gap := GapStart(read1, starts1, n);
    if OnlyBlanks(data, gap, |data|) {
      NextSignificantBlanks(data, gap, |data|);
    }
  }

  /** Tokenizes a whole source text: a fresh lexer run to the end of its input. */
  method Lex(input: seq<Grapheme>) returns (r: Result<seq<Token>, LexError>, ghost read: seq<Token>, ghost starts: seq<nat>)
    ensures Lexed(input, r, read, starts)
    ensures r.Ok? ==> Concat(read) == Strip(input)
  {
    var lexer := new Lexer(input);
    r, read, starts := lexer.Tokenize();
  }
}
