/** The syntax tree (lib/ast). Nodes are values: the parser fills in their fields once and nothing
    changes them afterwards. A JavaScript `null` sub-node (what a failed rule returns) is `Missing`,
    and a `null` list is `None`. `Render` is `getString` without the terminal colour codes on trees
    whose sub-nodes are all present; where `getString` would call a method on a `null` sub-node,
    `Render` prints "undefined" (or nothing, for a missing list) instead. */
module Ast {
  import opened Wrappers
  import opened Tokens
  import opened Strings

  datatype Expression =
    | Missing
    | Identifier(token: Token)
    | IntegerLiteral(token: Token, intValue: int)
    | BooleanLiteral(token: Token, boolValue: bool)
    | StringLiteral(token: Token)
    | Prefix(token: Token, right: Expression)
    | Infix(token: Token, left: Expression, right: Expression)
    | If(token: Token, condition: Expression, consequence: Block, alternative: Option<Block>)
    | FunctionLiteral(token: Token, parameters: Option<seq<Token>>, body: Block)
    | Call(token: Token, callee: Expression, arguments: ExpressionList)
    | ArrayLiteral(token: Token, elements: ExpressionList)
    | Index(token: Token, left: Expression, index: Expression)
    | HashLiteral(token: Token, pairs: seq<(Expression, Expression)>)

  /** The result of `parseExpressionList`: `NoList` is its `null`. */
  datatype ExpressionList = NoList | ListOf(items: seq<Expression>)

  datatype Statement =
    | Let(token: Token, name: Token, value: Expression)
    | Return(token: Token, value: Expression)
    | ExpressionStatement(token: Token, expression: Expression)
  {
    /** Every statement's `tokenLiteral` is its own token's literal. */
    function TokenLiteral(): (r: string)
      ensures r == token.literal
    {
      match this
      case Let(tok, _, _) => tok.literal
      case Return(tok, _) => tok.literal
      case ExpressionStatement(tok, _) => tok.literal
    }
  }

  /** A block statement: the token that opened it and the statements `add` collected. */
  datatype Block = Block(token: Token, statements: seq<Statement>)
  {
    /** `add`: the statement goes at the end and the earlier ones are untouched. */
    function Add(s: Statement): (b: Block)
      ensures b.token == token
      ensures |b.statements| == |statements| + 1 && b.statements[|statements|] == s
      ensures b.statements[..|statements|] == statements
    {
      Block(token, statements + [s])
    }

    function TokenLiteral(): string {
      token.literal
    }
  }

  /** A new block holds no statements. */
  function NewBlock(tok: Token): (b: Block)
    ensures b.token == tok && |b.statements| == 0
  {
    Block(tok, [])
  }

  /** `new IntegerLiteral(token)`: `value` is `Number(literal)`, the decimal value of the digits. */
  function NewIntegerLiteral(tok: Token): (e: Expression)
    ensures e.IntegerLiteral? && e.token == tok && e.intValue >= 0
    ensures tok.literal == "" ==> e.intValue == 0
  {
    IntegerLiteral(tok, DecimalValue(tok.literal))
  }

  /** `new BooleanLiteral(token)`: `value` is `!!literal`, true for every non-empty literal. */
  function NewBooleanLiteral(tok: Token): (e: Expression)
    ensures e.BooleanLiteral? && e.token == tok
    ensures e.boolValue <==> tok.literal != ""
  {
    BooleanLiteral(tok, tok.literal != "")
  }

  /** `getString` of an expression node. Operator and index nodes are wrapped in one pair of
      parentheses, array literals in brackets and hash literals in braces; a missing sub-node
      prints as "undefined", as `${undefined}` does. */
  function Render(e: Expression): (r: string)
    ensures e.Missing? ==> r == "undefined"
    ensures e.Identifier? || e.StringLiteral? ==> r == e.token.literal
    ensures e.IntegerLiteral? || e.BooleanLiteral? ==> |r| > 0
    ensures e.Prefix? || e.Infix? || e.Index? ==> |r| >= 2 && r[0] == '(' && r[|r| - 1] == ')'
    ensures e.ArrayLiteral? ==> |r| >= 2 && r[0] == '[' && r[|r| - 1] == ']'
    ensures e.HashLiteral? ==> |r| >= 2 && r[0] == '{' && r[|r| - 1] == '}'
    ensures e.If? ==> |r| >= 3 && r[..3] == "if "
    decreases e
  {
    match e
    case Missing => "undefined"
    case Identifier(tok) => tok.literal
    case IntegerLiteral(_, v) => IntToString(v)
    case BooleanLiteral(_, v) => if v then "true" else "false"
    case StringLiteral(tok) => tok.literal
    case Prefix(tok, right) => "(" + tok.literal + " " + Render(right) + ")"
    case Infix(tok, left, right) => "(" + Render(left) + " " + tok.literal + " " + Render(right) + ")"
    case If(_, cond, cons, alt) =>
      "if " + Render(cond) + " " + RenderBlock(cons) + " "
      + (if alt.Some? then "else " + RenderBlock(alt.value) else "")
    case FunctionLiteral(tok, params, body) =>
      tok.literal + "(" + Join(ParameterNames(params), ", ") + ") {" + RenderBlock(body) + "}"
    case Call(_, f, args) =>
      var rendered := if args.NoList? then [] else
        seq(|args.items|, i requires 0 <= i < |args.items| => Render(args.items[i]));
      Render(f) + "(" + Join(rendered, ", ") + ")"
    case ArrayLiteral(_, elements) =>
      var rendered := if elements.NoList? then [] else
        seq(|elements.items|, i requires 0 <= i < |elements.items| => Render(elements.items[i]));
      "[" + Join(rendered, ",") + "]"
    case Index(_, left, index) => "(" + Render(left) + "[" + Render(index) + "])"
    case HashLiteral(_, pairs) =>
      var rendered := seq(|pairs|, i requires 0 <= i < |pairs| => Render(pairs[i].0) + ": " + Render(pairs[i].1));
      "{" + Join(rendered, ", ") + "}"
  }

  function ParameterNames(params: Option<seq<Token>>): seq<string> {
    if params.None? then [] else seq(|params.value|, i requires 0 <= i < |params.value| => params.value[i].literal)
  }

  /** `getString` of a statement: `let` and `return` statements keep their keyword in front of
      the rendered value, and an expression statement is its expression. */
  function RenderStatement(s: Statement): (r: string)
    ensures s.Let? ==> |r| >= 4 && r[..4] == "let "
    ensures s.Return? ==> |r| >= 7 && r[..7] == "return "
    ensures s.ExpressionStatement? ==> r == Render(s.expression)
    decreases s
  {
    match s
    case Let(_, name, value) => "let " + name.literal + " = " + Render(value)
    case Return(_, value) => "return " + Render(value)
    case ExpressionStatement(_, expression) => Render(expression)
  }

  function RenderStatements(ss: seq<Statement>): seq<string>
    decreases ss
  {
    seq(|ss|, i requires 0 <= i < |ss| => RenderStatement(ss[i]))
  }

  /** `getString` of a block: its statements joined by ", "; a block of one statement is that
      statement and an empty block is nothing. */
  function RenderBlock(b: Block): (r: string)
    ensures |b.statements| == 0 ==> r == ""
    ensures |b.statements| == 1 ==> r == RenderStatement(b.statements[0])
    decreases b
  {
    Join(RenderStatements(b.statements), ", ")
  }

  /** `add` then `getString`: the new statement's text follows the block's old text after ", ". */
  lemma RenderBlockAdd(b: Block, s: Statement)
    ensures RenderBlock(b.Add(s))
         == if |b.statements| == 0 then RenderStatement(s) else RenderBlock(b) + ", " + RenderStatement(s)
  {
    var ss := RenderStatements(b.statements);
    assert RenderStatements(b.statements + [s]) == ss + [RenderStatement(s)];
    if |b.statements| > 0 {
      JoinSnoc(ss, RenderStatement(s), ", ");
    }
  }

  /** `add` then `getString` of a program: the new statement's text follows on a line of its own. */
  lemma RenderProgramAdd(ss: seq<Statement>, s: Statement)
    ensures Join(RenderStatements(ss + [s]), "\n")
         == if |ss| == 0 then RenderStatement(s) else Join(RenderStatements(ss), "\n") + "\n" + RenderStatement(s)
  {
    var rs := RenderStatements(ss);
    assert RenderStatements(ss + [s]) == rs + [RenderStatement(s)];
    if |ss| > 0 {
      JoinSnoc(rs, RenderStatement(s), "\n");
    }
  }

  // ---- What each node's `getString` prints, given what its parts print. ----

  /** Two texts joined: the separator between them. */
  lemma JoinTwo(a: string, b: string, sep: string)
    ensures Join([a, b], sep) == a + sep + b
  {
    assert [a, b][1..] == [b];
  }

  /** `-x`, `!x`: the operator, one space and the operand, inside one pair of parentheses. */
  lemma PrefixRenders(op: Token, right: Expression, r: string)
    requires Render(right) == r
    ensures Render(Prefix(op, right)) == "(" + op.literal + " " + r + ")"
  {
  }

  /** `a[i]`: the indexed value, then the index in brackets, inside one pair of parentheses. */
  lemma IndexRenders(tok: Token, left: Expression, index: Expression, l: string, i: string)
    requires Render(left) == l && Render(index) == i
    ensures Render(Index(tok, left, index)) == "(" + l + "[" + i + "])"
  {
  }

  /** `f(a, b)`: the callee, then the arguments' texts joined by ", " inside parentheses; a `null`
      argument list prints nothing between them. */
  lemma CallRenders(tok: Token, f: Expression, args: seq<Expression>, callee: string, texts: seq<string>)
    requires Render(f) == callee
    requires |texts| == |args| && forall i | 0 <= i < |args| :: Render(args[i]) == texts[i]
    ensures Render(Call(tok, f, ListOf(args))) == callee + "(" + Join(texts, ", ") + ")"
    ensures Render(Call(tok, f, NoList)) == callee + "()"
  {
    assert seq(|args|, i requires 0 <= i < |args| => Render(args[i])) == texts;
  }

  /** Two arguments: `f(a, b)`. */
  lemma CallOfTwoRenders(tok: Token, f: Expression, a: Expression, b: Expression)
    ensures Render(Call(tok, f, ListOf([a, b]))) == Render(f) + "(" + (Render(a) + ", " + Render(b)) + ")"
  {
    CallRenders(tok, f, [a, b], Render(f), [Render(a), Render(b)]);
    JoinTwo(Render(a), Render(b), ", ");
  }

  /** `[a,b]`: the elements' texts joined by "," with no space, inside brackets; a `null` element
      list prints as `[]`. */
  lemma ArrayRenders(tok: Token, elements: seq<Expression>, texts: seq<string>)
    requires |texts| == |elements| && forall i | 0 <= i < |elements| :: Render(elements[i]) == texts[i]
    ensures Render(ArrayLiteral(tok, ListOf(elements))) == "[" + Join(texts, ",") + "]"
    ensures Render(ArrayLiteral(tok, NoList)) == "[]"
  {
    assert seq(|elements|, i requires 0 <= i < |elements| => Render(elements[i])) == texts;
  }

  /** Two elements: `[a,b]`. */
  lemma ArrayOfTwoRenders(tok: Token, a: Expression, b: Expression)
    ensures Render(ArrayLiteral(tok, ListOf([a, b]))) == "[" + (Render(a) + "," + Render(b)) + "]"
  {
    ArrayRenders(tok, [a, b], [Render(a), Render(b)]);
    JoinTwo(Render(a), Render(b), ",");
  }

  /** `{k: v, ...}`: each pair as its key's text, ": " and its value's text, in the order the
      pairs were parsed, joined by ", " inside braces. */
  lemma HashRenders(tok: Token, pairs: seq<(Expression, Expression)>, texts: seq<string>)
    requires |texts| == |pairs|
    requires forall i | 0 <= i < |pairs| :: Render(pairs[i].0) + ": " + Render(pairs[i].1) == texts[i]
    ensures Render(HashLiteral(tok, pairs)) == "{" + Join(texts, ", ") + "}"
  {
    assert seq(|pairs|, i requires 0 <= i < |pairs| => Render(pairs[i].0) + ": " + Render(pairs[i].1)) == texts;
  }

  /** Two pairs: `{k1: v1, k2: v2}`. */
  lemma HashOfTwoRenders(tok: Token, k1: Expression, v1: Expression, k2: Expression, v2: Expression)
    ensures Render(HashLiteral(tok, [(k1, v1), (k2, v2)]))
         == "{" + ((Render(k1) + ": " + Render(v1)) + ", " + (Render(k2) + ": " + Render(v2))) + "}"
  {
    var pairs := [(k1, v1), (k2, v2)];
    var p1, p2 := Render(k1) + ": " + Render(v1), Render(k2) + ": " + Render(v2);
    var texts := [p1, p2];
    forall i | 0 <= i < 2
      ensures Render(pairs[i].0) + ": " + Render(pairs[i].1) == texts[i]
    {
      if i == 0 {
        assert pairs[i] == (k1, v1);
      } else {
        assert pairs[i] == (k2, v2);
      }
    }
    HashRenders(tok, pairs, texts);
    JoinTwo(p1, p2, ", ");
  }

  /** `fn(x, y) {body}`: the `fn` token's literal, the parameter names joined by ", " in
      parentheses, then the body's text in braces after one space; a `null` parameter list
      prints nothing between the parentheses. */
  lemma FunctionRenders(tok: Token, params: seq<Token>, body: Block, names: seq<string>, b: string)
    requires |names| == |params| && forall i | 0 <= i < |params| :: params[i].literal == names[i]
    requires RenderBlock(body) == b
    ensures Render(FunctionLiteral(tok, Some(params), body)) == tok.literal + "(" + Join(names, ", ") + ") {" + b + "}"
    ensures Render(FunctionLiteral(tok, None, body)) == tok.literal + "() {" + b + "}"
  {
    assert ParameterNames(Some(params)) == names;
  }

  /** `if c {cons} else {alt}`: "if ", the condition, the consequence's text and a space; with
      an alternative, "else " and its text follow. */
  lemma IfRenders(tok: Token, cond: Expression, cons: Block, alt: Block, c: string, k: string, a: string)
    requires Render(cond) == c && RenderBlock(cons) == k && RenderBlock(alt) == a
    ensures Render(If(tok, cond, cons, None)) == "if " + c + " " + k + " "
    ensures Render(If(tok, cond, cons, Some(alt))) == "if " + c + " " + k + " " + "else " + a
  {
  }

  /** `let x = v`: the keyword, the name, " = " and the value's text. */
  lemma LetRenders(tok: Token, name: Token, value: Expression, v: string)
    requires Render(value) == v
    ensures RenderStatement(Let(tok, name, value)) == "let " + name.literal + " = " + v
  {
  }

  /** `return v`: the keyword, one space and the value's text. */
  lemma ReturnRenders(tok: Token, value: Expression, v: string)
    requires Render(value) == v
    ensures RenderStatement(Return(tok, value)) == "return " + v
  {
  }

  /** `${value}` of a number prints it without leading zeros, so an integer literal renders as its
      digits exactly when they are written without leading zeros. */
  lemma IntegerLiteralRendersCanonically(n: nat)
    ensures Render(NewIntegerLiteral(Token(INT, NatToString(n)))) == NatToString(n)
    ensures Render(NewIntegerLiteral(Token(INT, "007"))) == "7"
  {
    DecimalValueOfNatToString(n);
    assert DecimalValue("007") == 7 by {
      assert "007"[..2] == "00";
      assert "00"[..1] == "0";
    }
    assert NatToString(7) == "7";
  }

  /** The lexer gives `true` and `false` nonempty literals, so both render as "true". */
  lemma BooleanLiteralsRenderTrue()
    ensures Render(NewBooleanLiteral(Token(TRUE, "true"))) == "true"
    ensures Render(NewBooleanLiteral(Token(FALSE, "false"))) == "true"
  {
  }

  /** The operator fragment: identifiers, integers and prefix/infix operators whose texts hold no
      parentheses, as the lexer produces them. */
  predicate OperatorTree(e: Expression)
    decreases e
  {
    match e
    case Identifier(tok) => NoParens(tok.literal)
    case IntegerLiteral(_, v) => true
    case Prefix(tok, right) => NoParens(tok.literal) && OperatorTree(right)
    case Infix(tok, left, right) => NoParens(tok.literal) && OperatorTree(left) && OperatorTree(right)
    case _ => false
  }

  /** Number of prefix and infix nodes. */
  function Operators(e: Expression): nat
    decreases e
  {
    match e
    case Prefix(_, right) => 1 + Operators(right)
    case Infix(_, left, right) => 1 + Operators(left) + Operators(right)
    case _ => 0
  }

  predicate NoParens(s: string) {
    forall i | 0 <= i < |s| :: s[i] != '(' && s[i] != ')'
  }

  function Occurrences(s: string, c: char): nat {
    if s == [] then 0 else (if s[0] == c then 1 else 0) + Occurrences(s[1..], c)
  }

  lemma {:induction false} OccurrencesAppend(a: string, b: string, c: char)
    ensures Occurrences(a + b, c) == Occurrences(a, c) + Occurrences(b, c)
  {
    if a == [] {
      assert a + b == b;
    } else {
      assert (a + b)[1..] == a[1..] + b;
      OccurrencesAppend(a[1..], b, c);
    }
  }

  lemma {:induction false} NoParensHasNone(s: string)
    requires NoParens(s)
    ensures Occurrences(s, '(') == 0 && Occurrences(s, ')') == 0
  {
    if s != [] {
      NoParensHasNone(s[1..]);
    }
  }

  lemma DigitsHaveNoParens(n: int)
    ensures NoParens(IntToString(n))
  {
    var digits := NatToString(if n < 0 then -n else n);
    assert forall i | 0 <= i < |digits| :: IsDigitChar(digits[i]);
    if n < 0 {
      assert IntToString(n) == "-" + digits;
    }
  }

  lemma AppendThree(a: string, b: string, c: string, ch: char)
    ensures Occurrences(a + b + c, ch) == Occurrences(a, ch) + Occurrences(b, ch) + Occurrences(c, ch)
  {
    OccurrencesAppend(a, b, ch);
    OccurrencesAppend(a + b, c, ch);
  }

  lemma PrefixParens(tok: Token, right: Expression)
    requires NoParens(tok.literal)
    ensures Occurrences(Render(Prefix(tok, right)), '(') == 1 + Occurrences(Render(right), '(')
    ensures Occurrences(Render(Prefix(tok, right)), ')') == 1 + Occurrences(Render(right), ')')
  {
    var mid := tok.literal + " ";
    assert NoParens(mid);
    NoParensHasNone(mid);
    assert Render(Prefix(tok, right)) == "(" + mid + Render(right) + ")";
    AppendThree("(" + mid, Render(right), ")", '(');
    AppendThree("(" + mid, Render(right), ")", ')');
    OccurrencesAppend("(", mid, '(');
    OccurrencesAppend("(", mid, ')');
  }

  lemma InfixParens(tok: Token, left: Expression, right: Expression)
    requires NoParens(tok.literal)
    ensures Occurrences(Render(Infix(tok, left, right)), '(')
         == 1 + Occurrences(Render(left), '(') + Occurrences(Render(right), '(')
    ensures Occurrences(Render(Infix(tok, left, right)), ')')
         == 1 + Occurrences(Render(left), ')') + Occurrences(Render(right), ')')
  {
    var mid := " " + tok.literal + " ";
    assert NoParens(mid);
    NoParensHasNone(mid);
    var l, r := Render(left), Render(right);
    assert Render(Infix(tok, left, right)) == ("(" + l + mid) + r + ")";
    AppendThree("(" + l + mid, r, ")", '(');
    AppendThree("(" + l + mid, r, ")", ')');
    AppendThree("(", l, mid, '(');
    AppendThree("(", l, mid, ')');
  }

  /** Rendering fully parenthesises the operator fragment: each prefix or infix node contributes
      exactly one "(" and one ")", so the rendering is balanced and shows every grouping. */
  lemma {:induction false} OperatorRenderingIsParenthesised(e: Expression)
    requires OperatorTree(e)
    ensures Occurrences(Render(e), '(') == Operators(e)
    ensures Occurrences(Render(e), ')') == Operators(e)
    decreases e
  {
    match e
    case Identifier(tok) =>
      NoParensHasNone(tok.literal);
    case IntegerLiteral(_, v) =>
      DigitsHaveNoParens(v);
      NoParensHasNone(IntToString(v));
    case Prefix(tok, right) =>
      OperatorRenderingIsParenthesised(right);
      PrefixParens(tok, right);
    case Infix(tok, left, right) =>
      OperatorRenderingIsParenthesised(left);
      OperatorRenderingIsParenthesised(right);
      InfixParens(tok, left, right);
  }

  /** The whole program: the statements `parse` collected, in order. */
  class Program {
    var statements: seq<Statement>

    /** A new program has no statements. */
    constructor ()
      ensures statements == []
    {
      statements := [];
    }

    /** `add` appends at the end. */
    method Add(s: Statement)
      modifies this
      ensures statements == old(statements) + [s]
    {
      statements := statements + [s];
    }

    /** The first statement's token literal, or the empty string. */
    function TokenLiteral(): (r: string)
      reads this
      ensures |statements| > 0 ==> r == statements[0].token.literal
      ensures |statements| == 0 ==> r == ""
    {
      if |statements| > 0 then statements[0].TokenLiteral() else ""
    }

    /** `getString`: one line per statement; a program of one statement is that statement. */
    function Render(): (r: string)
      reads this
      ensures |statements| == 0 ==> r == ""
      ensures |statements| == 1 ==> r == RenderStatement(statements[0])
    {
      Join(RenderStatements(statements), "\n")
    }
  }
}
