/** The grammar of expressions without numbers for the operators: ten classes, each tighter than the one before. */
module Precedence {
  import opened Grammar
  import Ast
  import Bytecode
  import Vm
  import Semantics
  import opened ParserImpl

  function Class(n: int): set<Token> {
    match n
    case 0 => {OROR}
    case 1 => {ANDAND}
    case 2 => {PIPE}
    case 3 => {CARET}
    case 4 => {AMP}
    case 5 => {EQ, NE}
    case 6 => {LT, LE, GT, GE}
    case 7 => {SHL, SHR}
    case 8 => {PLUS, MINUS}
    case 9 => {STAR, SLASH, PERCENT}
    case _ => {}
  }

  predicate InClass(n: int, tok: Token) { tok in Class(n) }

  ghost predicate IsOperator(tok: Token) { exists n :: InClass(n, tok) }

  /** a is of a later class than b. */
  ghost predicate Tighter(a: Token, b: Token) { exists m, n :: m < n && InClass(m, b) && InClass(n, a) }

  lemma ClassNumber(tok: Token)
    ensures forall n :: InClass(n, tok) <==> 0 <= n && n + 1 == PrecOf(tok)
  {
    forall n
      ensures InClass(n, tok) <==> 0 <= n && n + 1 == PrecOf(tok)
    {
      ClassIs(n, tok);
    }
  }

  lemma ClassIs(n: int, tok: Token)
    ensures InClass(n, tok) <==> 0 <= n && n + 1 == PrecOf(tok)
  {
  }

  lemma OperatorNumber(tok: Token)
    ensures IsOperator(tok) <==> PrecOf(tok) > 0
  {
    ClassNumber(tok);
    hide InClass, PrecOf;
    if PrecOf(tok) > 0 {
      assert InClass(PrecOf(tok) - 1, tok);
    }
  }

  lemma TighterNumber(a: Token, b: Token)
    requires IsOperator(a) && IsOperator(b)
    ensures Tighter(a, b) <==> PrecOf(a) > PrecOf(b)
  {
    ClassNumber(a);
    ClassNumber(b);
    OperatorNumber(a);
    OperatorNumber(b);
    hide InClass, PrecOf, IsOperator;
    if PrecOf(a) > PrecOf(b) {
      assert InClass(PrecOf(b) - 1, b) && InClass(PrecOf(a) - 1, a);
    }
  }

  /** Calls, indices and fields apply to what is neither an operation nor a choice. */
  predicate Tight(t: Tree) { !t.Cond? && !t.Bin? && !t.Un? }

  /**
   The trees of the grammar: operands of unary operators are unary or tight; a left operand of a binary operator is no
   choice, and no operation of an earlier class; a right one only an operation of a later class.
   */
  ghost predicate Proper(t: Tree)
    decreases t, 0
  {
    match t
    case Atom(tok) => tok.IDENT? || tok.INT? || tok.FLOAT? || tok.STRING? || tok == TRUE || tok == FALSE || tok == NULL
    case Paren(x) => Proper(x)
    case Un(tok, x) => (tok == BANG || tok == MINUS || tok == TILDE) && Proper(x) && (x.Un? || Tight(x))
    case Bin(tok, l, r) =>
      && IsOperator(tok) && Proper(l) && Proper(r)
      && !l.Cond? && (l.Bin? ==> !Tighter(tok, l.tok))
      && !r.Cond? && (r.Bin? ==> Tighter(r.tok, tok))
    case Cond(c, a, b) => Proper(c) && Proper(a) && Proper(b) && !c.Cond?
    case Call(f, args) => Proper(f) && Tight(f) && AllProper(args)
    case Idx(x, i) => Proper(x) && Tight(x) && Proper(i)
    case Dot(x, name) => Proper(x) && Tight(x) && name.IDENT?
    case Arr(elts, trailing) => AllProper(elts) && (trailing ==> elts != [])
    case Map(entries, trailing) => ProperEntries(entries) && (trailing ==> entries != [])
  }

  ghost predicate AllProper(ts: seq<Tree>)
    decreases ts, 0
  {
    ts == [] || (Proper(ts[0]) && AllProper(ts[1..]))
  }

  ghost predicate ProperEntries(es: seq<Entry>)
    decreases es, 0
  {
    es == [] || (ProperEntry(es[0]) && ProperEntries(es[1..]))
  }

  /** A key that starts with a name or a string is that name or string. */
  ghost predicate ProperEntry(e: Entry)
    decreases e, 0
  {
    && Proper(e.val)
    && match e.key
       case Name(tok) => tok.IDENT? || tok.STRING?
       case Computed(t) => Proper(t) && !Flatten(t)[0].IDENT? && !Flatten(t)[0].STRING?
  }

  // ---- the numbered grammar is this one ----

  lemma {:induction false} ShapeProper(t: Tree)
    ensures Shape(t) <==> Proper(t)
    decreases t, 1
  {
    match t
    case Atom(tok) =>
    case Paren(x) => ShapeProper(x);
    case Un(_, x) =>
      ShapeProper(x);
      LevelIs(x);
    case Bin(_, _, _) => ShapeBin(t);
    case Cond(c, a, b) =>
      ShapeProper(c);
      ShapeProper(a);
      ShapeProper(b);
      LevelIs(c);
    case Call(f, args) =>
      ShapeProper(f);
      LevelIs(f);
      ShapesProper(args);
    case Idx(x, i) =>
      ShapeProper(x);
      LevelIs(x);
      ShapeProper(i);
    case Dot(x, _) =>
      ShapeProper(x);
      LevelIs(x);
    case Arr(elts, _) => ShapesProper(elts);
    case Map(entries, _) => EntriesProper(entries);
  }

  lemma LevelIs(t: Tree)
    ensures Level(t) == 12 <==> Tight(t)
    ensures Level(t) >= 11 <==> t.Un? || Tight(t)
    ensures (t.Bin? ==> PrecOf(t.tok) > 0) ==> (Level(t) >= 1 <==> !t.Cond?)
    ensures Shape(t) && t.Bin? ==> PrecOf(t.tok) > 0
  {
    hide PrecOf, IsUnary;
  }

  lemma {:induction false} ShapeBin(t: Tree)
    requires t.Bin?
    ensures Shape(t) <==> Proper(t)
    decreases t, 0
  {
    hide PrecOf, IsOperator, Tighter;
    ShapeProper(t.l);
    ShapeProper(t.r);
    LevelIs(t.l);
    LevelIs(t.r);
    OperatorNumber(t.tok);
    if t.l.Bin? {
      OperatorNumber(t.l.tok);
    }
    if t.r.Bin? {
      OperatorNumber(t.r.tok);
    }
    if t.l.Bin? && IsOperator(t.tok) && IsOperator(t.l.tok) {
      TighterNumber(t.tok, t.l.tok);
    }
    if t.r.Bin? && IsOperator(t.tok) && IsOperator(t.r.tok) {
      TighterNumber(t.r.tok, t.tok);
    }
  }

  lemma {:induction false} ShapesProper(ts: seq<Tree>)
    ensures Shapes(ts) <==> AllProper(ts)
    decreases ts, 0
  {
    if ts != [] {
      ShapeProper(ts[0]);
      ShapesProper(ts[1..]);
    }
  }

  lemma {:induction false} EntriesProper(es: seq<Entry>)
    ensures ShapeEntries(es) <==> ProperEntries(es)
    decreases es, 0
  {
    if es != [] {
      EntryProper(es[0]);
      EntriesProper(es[1..]);
    }
  }

  lemma {:induction false} EntryProper(e: Entry)
    ensures ShapeEntry(e) <==> ProperEntry(e)
    decreases e, 0
  {
    ShapeProper(e.val);
    match e.key
    case Name(_) =>
    case Computed(t) => ShapeProper(t);
  }

  // ---- the parser ----

  /** What can go on after an expression: an operator, a choice, a call, an index, a field. */
  ghost predicate CanContinue(tok: Token) {
    IsOperator(tok) || tok == QUESTION || tok == LPAREN || tok == LBRACK || tok == DOT
  }

  /**
   From any position, the parser finds tree t and stops at j exactly when t is a tree of the grammar, its tokens are the
   ones between, and the token at j cannot continue an expression.
   */
  lemma ParserFinds(toks: seq<Token>, i: nat, t: Tree, j: int)
    ensures ParseTernary(toks, i) == Ok(t, j) <==>
      Proper(t) && At(toks, i, Flatten(t)) && j == i + |Flatten(t)| && !CanContinue(Tok(toks, j))
  {
    hide Proper, Shape, Flatten, ParseTernary, At, IsOperator, PrecOf;
    ParserExact(toks, i, t, j);
    ShapeProper(t);
    OperatorNumber(Tok(toks, j));
  }

  lemma ParserFindsAll(toks: seq<Token>, t: Tree)
    ensures ParseTernary(toks, 0) == Ok(t, |toks|) <==> Proper(t) && Flatten(t) == toks
  {
    hide Proper, Shape, Flatten, ParseTernary;
    ParsesWhole(toks, t);
    ShapeProper(t);
  }

  ghost predicate IsOperand(tok: Token) { Proper(Atom(tok)) }

  /** `x o1 y o2 z`: the second operator takes y exactly when it is of a later class than the first. */
  lemma ThreeOperands(x: Token, o1: Token, y: Token, o2: Token, z: Token)
    requires IsOperand(x) && IsOperand(y) && IsOperand(z) && IsOperator(o1) && IsOperator(o2)
    ensures ParseTernary([x, o1, y, o2, z], 0) == Ok(
      if Tighter(o2, o1) then Bin(o1, Atom(x), Bin(o2, Atom(y), Atom(z)))
      else Bin(o2, Bin(o1, Atom(x), Atom(y)), Atom(z)), 5)
  {
    hide ParseTernary, IsOperator, Tighter;
    var right, left := Bin(o1, Atom(x), Bin(o2, Atom(y), Atom(z))), Bin(o2, Bin(o1, Atom(x), Atom(y)), Atom(z));
    assert Flatten(Bin(o2, Atom(y), Atom(z))) == [y, o2, z] && Flatten(Bin(o1, Atom(x), Atom(y))) == [x, o1, y];
    assert Flatten(right) == [x, o1, y, o2, z] && Flatten(left) == [x, o1, y, o2, z];
    ParserFindsAll([x, o1, y, o2, z], if Tighter(o2, o1) then right else left);
  }

  /** An operand is the whole expression as soon as the token behind it cannot continue one. */
  lemma OneOperand(toks: seq<Token>)
    requires toks != [] && IsOperand(toks[0]) && !CanContinue(Tok(toks, 1))
    ensures ParseTernary(toks, 0) == Ok(Atom(toks[0]), 1)
  {
    hide ParseTernary, IsOperator;
    assert toks[0..1] == [toks[0]];
    ParserFinds(toks, 0, Atom(toks[0]), 1);
  }

  // ---- what the syntax tree says ----

  /** How an operator is written, for the parser's tokens and for the tree's operators. */
  function Written(tok: Token): string {
    match tok
    case PLUS => "+" case MINUS => "-" case STAR => "*" case SLASH => "/" case PERCENT => "%"
    case AMP => "&" case PIPE => "|" case CARET => "^" case SHL => "<<" case SHR => ">>"
    case EQ => "==" case NE => "!=" case LT => "<" case LE => "<=" case GT => ">" case GE => ">="
    case ANDAND => "&&" case OROR => "||" case BANG => "!" case TILDE => "~"
    case _ => "?"
  }

  function BinWritten(op: Ast.BinOp): string {
    match op
    case OrOr => "||" case AndAnd => "&&"
    case BitOr => "|" case BitXor => "^" case BitAnd => "&"
    case EqEq => "==" case NotEq => "!=" case Lt => "<" case Le => "<=" case Gt => ">" case Ge => ">="
    case Shl => "<<" case Shr => ">>"
    case Plus => "+" case Minus => "-" case Star => "*" case Slash => "/" case Percent => "%"
  }

  function UnWritten(op: Ast.UnOp): string { match op case Bang => "!" case Neg => "-" case Tilde => "~" }

  /** The tree has the operator that was written. */
  lemma OperatorKept(tok: Token)
    ensures IsOperator(tok) ==> BinWritten(BinOpOf(tok)) == Written(tok)
    ensures tok == BANG || tok == MINUS || tok == TILDE ==> UnWritten(UnOpOf(tok)) == Written(tok)
  {
    OperatorNumber(tok);
    hide IsOperator;
  }

  /** A literal evaluates to what its token says. */
  lemma LiteralMeans(tok: Token, P: Semantics.Prog, E: Semantics.Scope, w: Semantics.World, fuel: nat)
    ensures var r := Semantics.Eval(P, E, AtomExpr(tok), w, fuel);
      && (tok.INT? ==> r == Semantics.Val(Vm.Int(tok.value), w))
      && (tok.FLOAT? ==> r == Semantics.Val(Vm.Pooled(Bytecode.CFloat(tok.bits)), w))
      && (tok.STRING? ==> r == Semantics.Val(Vm.Str(tok.lit), w))
      && (tok == TRUE ==> r == Semantics.Val(Vm.Bool(true), w))
      && (tok == FALSE ==> r == Semantics.Val(Vm.Bool(false), w))
      && (tok == NULL ==> r == Semantics.Val(Vm.Null, w))
  {
  }
}
