/** The expression parser (internal/parser/parser.go): what it accepts, and the tree it builds, brackets included. */
module Grammar {
  import Bytecode

  type Text = Bytecode.Text

  /** What the lexer delivers; a number comes with the value strconv gives it. */
  datatype Token =
    | EOF | ILLEGAL
    | IDENT(lit: Text) | INT(value: Bytecode.I64) | FLOAT(bits: Bytecode.U64) | STRING(lit: Text) | TRUE | FALSE | NULL
    | FN | KEYWORD(lit: Text)
    | PLUS | MINUS | STAR | SLASH | PERCENT | AMP | PIPE | CARET | TILDE | BANG
    | EQ | NE | LT | LE | GT | GE | ANDAND | OROR | SHL | SHR | ASSIGN | QUESTION
    | LPAREN | RPAREN | LBRACE | RBRACE | LBRACK | RBRACK | COMMA | COLON | SEMI | DOT

  function PrecOf(tok: Token): (p: nat)
    ensures p <= 10
  {
    match tok
    case OROR => 1
    case ANDAND => 2
    case PIPE => 3
    case CARET => 4
    case AMP => 5
    case EQ => 6
    case NE => 6
    case LT => 7
    case LE => 7
    case GT => 7
    case GE => 7
    case SHL => 8
    case SHR => 8
    case PLUS => 9
    case MINUS => 9
    case STAR => 10
    case SLASH => 10
    case PERCENT => 10
    case _ => 0
  }

  predicate IsAtom(tok: Token) {
    tok.IDENT? || tok.INT? || tok.FLOAT? || tok.STRING? || tok.TRUE? || tok.FALSE? || tok.NULL?
  }

  predicate IsUnary(tok: Token) { tok.BANG? || tok.MINUS? || tok.TILDE? }

  /** A token that continues a postfix expression. */
  predicate Continues(tok: Token) { tok.LPAREN? || tok.LBRACK? || tok.DOT? }

  predicate IsName(tok: Token) { tok.IDENT? || tok.STRING? }

  /** An expression with everything its tokens say. */
  datatype Tree =
    | Atom(tok: Token)
    | Paren(x: Tree)
    | Un(tok: Token, x: Tree)
    | Bin(tok: Token, l: Tree, r: Tree)
    | Cond(c: Tree, t: Tree, e: Tree)
    | Call(f: Tree, args: seq<Tree>)
    | Idx(x: Tree, i: Tree)
    | Dot(x: Tree, name: Token)
    | Arr(elts: seq<Tree>, trailing: bool)
    | Map(entries: seq<Entry>, trailing: bool)

  datatype Key = Name(tok: Token) | Computed(t: Tree)

  datatype Entry = Entry(key: Key, val: Tree)

  /** How tightly the tree's outermost operator binds; brackets and names bind tightest. */
  function Level(t: Tree): nat {
    match t
    case Cond(_, _, _) => 0
    case Bin(tok, _, _) => PrecOf(tok)
    case Un(_, _) => 11
    case _ => 12
  }

  // ---- the tokens of a tree ----

  function Flatten(t: Tree): (s: seq<Token>)
    ensures |s| >= 1
    decreases t, 0
  {
    match t
    case Atom(tok) => [tok]
    case Paren(x) => [LPAREN] + Flatten(x) + [RPAREN]
    case Un(tok, x) => [tok] + Flatten(x)
    case Bin(tok, l, r) => Flatten(l) + [tok] + Flatten(r)
    case Cond(c, a, b) => Flatten(c) + [QUESTION] + Flatten(a) + [COLON] + Flatten(b)
    case Call(f, args) => Flatten(f) + [LPAREN] + FlattenList(args) + [RPAREN]
    case Idx(x, i) => Flatten(x) + [LBRACK] + Flatten(i) + [RBRACK]
    case Dot(x, name) => Flatten(x) + [DOT, name]
    case Arr(elts, trailing) => [LBRACK] + FlattenList(elts) + Comma(trailing) + [RBRACK]
    case Map(entries, trailing) => [LBRACE] + FlattenEntries(entries) + Comma(trailing) + [RBRACE]
  }

  function Comma(trailing: bool): seq<Token> { if trailing then [COMMA] else [] }

  /** Separated by commas. */
  function FlattenList(ts: seq<Tree>): (s: seq<Token>)
    ensures ts != [] ==> |s| >= 1
    decreases ts, 0
  {
    if ts == [] then []
    else if |ts| == 1 then Flatten(ts[0])
    else Flatten(ts[0]) + [COMMA] + FlattenList(ts[1..])
  }

  function FlattenEntries(es: seq<Entry>): (s: seq<Token>)
    ensures es != [] ==> |s| >= 1
    decreases es, 0
  {
    if es == [] then []
    else if |es| == 1 then FlattenEntry(es[0])
    else FlattenEntry(es[0]) + [COMMA] + FlattenEntries(es[1..])
  }

  function FlattenEntry(e: Entry): (s: seq<Token>)
    ensures |s| >= 1
    decreases e, 0
  {
    FlattenKey(e.key) + [COLON] + Flatten(e.val)
  }

  function FlattenKey(k: Key): (s: seq<Token>)
    ensures |s| >= 1
    decreases k, 0
  {
    match k
    case Name(tok) => [tok]
    case Computed(t) => Flatten(t)
  }

  // ---- the trees the grammar admits ----

  /** Precedence is respected: a left operand binds at least as tightly as its operator, a right operand more. */
  predicate Shape(t: Tree)
    decreases t, 0
  {
    match t
    case Atom(tok) => IsAtom(tok)
    case Paren(x) => Shape(x)
    case Un(tok, x) => IsUnary(tok) && Shape(x) && Level(x) >= 11
    case Bin(tok, l, r) => PrecOf(tok) > 0 && Shape(l) && Shape(r) && Level(l) >= PrecOf(tok) && Level(r) > PrecOf(tok)
    case Cond(c, a, b) => Shape(c) && Shape(a) && Shape(b) && Level(c) >= 1
    case Call(f, args) => Shape(f) && Level(f) == 12 && Shapes(args)
    case Idx(x, i) => Shape(x) && Level(x) == 12 && Shape(i)
    case Dot(x, name) => Shape(x) && Level(x) == 12 && name.IDENT?
    case Arr(elts, trailing) => Shapes(elts) && (trailing ==> elts != [])
    case Map(entries, trailing) => ShapeEntries(entries) && (trailing ==> entries != [])
  }

  predicate Shapes(ts: seq<Tree>)
    decreases ts, 0
  {
    ts == [] || (Shape(ts[0]) && Shapes(ts[1..]))
  }

  predicate ShapeEntries(es: seq<Entry>)
    decreases es, 0
  {
    es == [] || (ShapeEntry(es[0]) && ShapeEntries(es[1..]))
  }

  /** A key that starts with a name or a string is that name or string. */
  predicate ShapeEntry(e: Entry)
    decreases e, 0
  {
    ShapeKey(e.key) && Shape(e.val)
  }

  predicate ShapeKey(k: Key)
    decreases k, 0
  {
    match k
    case Name(tok) => IsName(tok)
    case Computed(t) => Shape(t) && !IsName(Flatten(t)[0])
  }

  // ---- the parser ----

  /** Position i is past the end when the tokens have run out. */
  function Tok(toks: seq<Token>, i: int): Token { if 0 <= i < |toks| then toks[i] else EOF }

  datatype Out = Ok(t: Tree, next: int) | Fail

  datatype OutList = Oks(ts: seq<Tree>, trailing: bool, next: int) | FailList

  datatype OutEntries = Entries(es: seq<Entry>, trailing: bool, next: int) | FailEntries

  function ParseTernary(toks: seq<Token>, i: nat): (r: Out)
    ensures r.Ok? ==> i < r.next <= |toks|
    decreases |toks| - i, 6
  {
    var c := ParseBinary(toks, i, 1);
    if c.Fail? || Tok(toks, c.next) != QUESTION then c else
    var a := ParseTernary(toks, c.next + 1);
    if a.Fail? || Tok(toks, a.next) != COLON then Fail else
    var b := ParseTernary(toks, a.next + 1);
    if b.Fail? then Fail else Ok(Cond(c.t, a.t, b.t), b.next)
  }

  function ParseBinary(toks: seq<Token>, i: nat, minPrec: nat): (r: Out)
    ensures r.Ok? ==> i < r.next <= |toks|
    decreases |toks| - i, 5
  {
    var u := ParseUnary(toks, i);
    if u.Fail? then Fail else Climb(toks, u.t, u.next, minPrec)
  }

  /** The loop of parseBinary, with what it has built so far. */
  function Climb(toks: seq<Token>, left: Tree, j: nat, minPrec: nat): (r: Out)
    requires j <= |toks|
    ensures r.Ok? ==> j <= r.next <= |toks|
    decreases |toks| - j, 7
  {
    var pr := PrecOf(Tok(toks, j));
    if pr < minPrec || pr == 0 then Ok(left, j) else
    var right := ParseBinary(toks, j + 1, pr + 1);
    if right.Fail? then Fail else Climb(toks, Bin(Tok(toks, j), left, right.t), right.next, minPrec)
  }

  function ParseUnary(toks: seq<Token>, i: nat): (r: Out)
    ensures r.Ok? ==> i < r.next <= |toks|
    decreases |toks| - i, 4
  {
    if IsUnary(Tok(toks, i)) then
      var x := ParseUnary(toks, i + 1);
      if x.Fail? then Fail else Ok(Un(Tok(toks, i), x.t), x.next)
    else ParsePostfix(toks, i)
  }

  function ParsePostfix(toks: seq<Token>, i: nat): (r: Out)
    ensures r.Ok? ==> i < r.next <= |toks|
    decreases |toks| - i, 3
  {
    var p := ParsePrimary(toks, i);
    if p.Fail? then Fail else PostLoop(toks, p.t, p.next)
  }

  /** The loop of parsePostfix, with what it has built so far. */
  function PostLoop(toks: seq<Token>, x: Tree, j: nat): (r: Out)
    requires j <= |toks|
    ensures r.Ok? ==> j <= r.next <= |toks|
    decreases |toks| - j, 8
  {
    match Tok(toks, j)
    case LPAREN =>
      var args := if Tok(toks, j + 1) == RPAREN then Oks([], false, j + 1) else ParseArgs(toks, j + 1);
      if args.FailList? || Tok(toks, args.next) != RPAREN then Fail else PostLoop(toks, Call(x, args.ts), args.next + 1)
    case LBRACK =>
      var i := ParseTernary(toks, j + 1);
      if i.Fail? || Tok(toks, i.next) != RBRACK then Fail else PostLoop(toks, Idx(x, i.t), i.next + 1)
    case DOT =>
      if Tok(toks, j + 1).IDENT? then PostLoop(toks, Dot(x, Tok(toks, j + 1)), j + 2) else Fail
    case _ => Ok(x, j)
  }

  function ParseArgs(toks: seq<Token>, i: nat): (r: OutList)
    ensures r.Oks? ==> i < r.next <= |toks| && r.ts != [] && !r.trailing
    decreases |toks| - i, 7
  {
    var a := ParseTernary(toks, i);
    if a.Fail? then FailList
    else if Tok(toks, a.next) != COMMA then Oks([a.t], false, a.next) else
    var rest := ParseArgs(toks, a.next + 1);
    if rest.FailList? then FailList else Oks([a.t] + rest.ts, false, rest.next)
  }

  function ParsePrimary(toks: seq<Token>, i: nat): (r: Out)
    ensures r.Ok? ==> i < r.next <= |toks|
    decreases |toks| - i, 2
  {
    var tok := Tok(toks, i);
    if IsAtom(tok) then Ok(Atom(tok), i + 1)
    else if tok == LPAREN then
      var x := ParseTernary(toks, i + 1);
      if x.Fail? || Tok(toks, x.next) != RPAREN then Fail else Ok(Paren(x.t), x.next + 1)
    else if tok == LBRACK then
      var es := if Tok(toks, i + 1) == RBRACK then Oks([], false, i + 1) else ParseElts(toks, i + 1);
      if es.FailList? || Tok(toks, es.next) != RBRACK then Fail else Ok(Arr(es.ts, es.trailing), es.next + 1)
    else if tok == LBRACE then
      var es := if Tok(toks, i + 1) == RBRACE then Entries([], false, i + 1) else ParseEntries(toks, i + 1);
      if es.FailEntries? || Tok(toks, es.next) != RBRACE then Fail else Ok(Map(es.es, es.trailing), es.next + 1)
    else Fail
  }

  /** The elements of an array, perhaps with a comma after the last. */
  function ParseElts(toks: seq<Token>, i: nat): (r: OutList)
    ensures r.Oks? ==> i < r.next <= |toks| && r.ts != []
    decreases |toks| - i, 7
  {
    var a := ParseTernary(toks, i);
    if a.Fail? then FailList
    else if Tok(toks, a.next) != COMMA then Oks([a.t], false, a.next)
    else if Tok(toks, a.next + 1) == RBRACK then Oks([a.t], true, a.next + 1) else
    var rest := ParseElts(toks, a.next + 1);
    if rest.FailList? then FailList else Oks([a.t] + rest.ts, rest.trailing, rest.next)
  }

  function ParseEntries(toks: seq<Token>, i: nat): (r: OutEntries)
    ensures r.Entries? ==> i < r.next <= |toks| && r.es != []
    decreases |toks| - i, 7
  {
    var k := if IsName(Tok(toks, i)) then Ok(Atom(Tok(toks, i)), i + 1) else ParseTernary(toks, i);
    if k.Fail? || Tok(toks, k.next) != COLON then FailEntries else
    var v := ParseTernary(toks, k.next + 1);
    if v.Fail? then FailEntries else
    var e := Entry(if IsName(Tok(toks, i)) then Name(Tok(toks, i)) else Computed(k.t), v.t);
    if Tok(toks, v.next) != COMMA then Entries([e], false, v.next)
    else if Tok(toks, v.next + 1) == RBRACE then Entries([e], true, v.next + 1) else
    var rest := ParseEntries(toks, v.next + 1);
    if rest.FailEntries? then FailEntries else Entries([e] + rest.es, rest.trailing, rest.next)
  }

  // ---- where tokens stand ----

  predicate At(toks: seq<Token>, i: int, s: seq<Token>) { 0 <= i && i + |s| <= |toks| && toks[i..i + |s|] == s }

  lemma {:induction false} AtTok(toks: seq<Token>, i: int, tok: Token)
    ensures At(toks, i, [tok]) <==> 0 <= i < |toks| && Tok(toks, i) == tok
    ensures tok != EOF ==> (At(toks, i, [tok]) <==> Tok(toks, i) == tok)
  {
    if At(toks, i, [tok]) {
      assert toks[i..i + 1][0] == tok;
    }
  }

  lemma {:induction false} AtFirst(toks: seq<Token>, i: int, s: seq<Token>)
    requires At(toks, i, s) && s != []
    ensures Tok(toks, i) == s[0]
  {
    assert toks[i..i + |s|][0] == s[0];
  }

  lemma {:induction false} At2(toks: seq<Token>, i: int, s: seq<Token>, t: seq<Token>)
    ensures At(toks, i, s + t) <==> At(toks, i, s) && At(toks, i + |s|, t)
  {
    var n := |s| + |t|;
    if 0 <= i && i + n <= |toks| {
      assert toks[i..i + n] == toks[i..i + |s|] + toks[i + |s|..i + n];
      if At(toks, i, s + t) {
        assert toks[i..i + |s|] == (s + t)[..|s|] == s;
        assert toks[i + |s|..i + n] == (s + t)[|s|..] == t;
      }
    }
  }

  lemma {:induction false} At3(toks: seq<Token>, i: int, s: seq<Token>, t: seq<Token>, u: seq<Token>)
    ensures At(toks, i, s + t + u) <==> At(toks, i, s) && At(toks, i + |s|, t) && At(toks, i + |s| + |t|, u)
  {
    hide At;
    At2(toks, i, s + t, u);
    At2(toks, i, s, t);
  }

  lemma {:induction false} At4(toks: seq<Token>, i: int, s: seq<Token>, t: seq<Token>, u: seq<Token>, v: seq<Token>)
    ensures At(toks, i, s + t + u + v) <==>
            At(toks, i, s) && At(toks, i + |s|, t) && At(toks, i + |s| + |t|, u) && At(toks, i + |s| + |t| + |u|, v)
  {
    hide At;
    At2(toks, i, s + t + u, v);
    At3(toks, i, s, t, u);
  }

  lemma {:induction false} At5(toks: seq<Token>, i: int, s: seq<Token>, t: seq<Token>, u: seq<Token>, v: seq<Token>,
    w: seq<Token>)
    ensures At(toks, i, s + t + u + v + w) <==>
            At(toks, i, s) && At(toks, i + |s|, t) && At(toks, i + |s| + |t|, u) && At(toks, i + |s| + |t| + |u|, v) &&
            At(toks, i + |s| + |t| + |u| + |v|, w)
  {
    hide At;
    At2(toks, i, s + t + u + v, w);
    At4(toks, i, s, t, u, v);
  }

  /** A well shaped tree's tokens stand at i and end before j. */
  predicate Stands(toks: seq<Token>, i: int, t: Tree, j: int) {
    Shape(t) && At(toks, i, Flatten(t)) && j == i + |Flatten(t)|
  }

  predicate Stand(toks: seq<Token>, i: int, ts: seq<Tree>, trailing: bool, j: int) {
    Shapes(ts) && At(toks, i, FlattenList(ts) + Comma(trailing)) && j == i + |FlattenList(ts) + Comma(trailing)|
  }

  lemma {:induction false} StandRange(toks: seq<Token>, i: int, ts: seq<Tree>, trailing: bool, j: int)
    requires Stand(toks, i, ts, trailing, j)
    ensures 0 <= i <= j <= |toks|
  {
  }

  predicate StandAll(toks: seq<Token>, i: int, es: seq<Entry>, trailing: bool, j: int) {
    ShapeEntries(es) && At(toks, i, FlattenEntries(es) + Comma(trailing))
      && j == i + |FlattenEntries(es) + Comma(trailing)|
  }

  /** One step of the grammar at a time: where a tree stands in terms of where its parts stand. */
  lemma {:induction false} StandsAtom(toks: seq<Token>, i: int, tok: Token, j: int)
    ensures Stands(toks, i, Atom(tok), j) <==> IsAtom(tok) && 0 <= i < |toks| && Tok(toks, i) == tok && j == i + 1
  {
    AtTok(toks, i, tok);
  }

  lemma {:induction false} StandsParen(toks: seq<Token>, i: int, x: Tree, j: int)
    ensures Stands(toks, i, Paren(x), j) <==>
            i >= 0 && Tok(toks, i) == LPAREN && Stands(toks, i + 1, x, j - 1) && Tok(toks, j - 1) == RPAREN
  {
    hide At, Tok;
    At3(toks, i, [LPAREN], Flatten(x), [RPAREN]);
    AtTok(toks, i, LPAREN);
    AtTok(toks, i + 1 + |Flatten(x)|, RPAREN);
    assert Flatten(Paren(x)) == [LPAREN] + Flatten(x) + [RPAREN];
  }

  lemma {:induction false} StandsUn(toks: seq<Token>, i: int, tok: Token, x: Tree, j: int)
    ensures Stands(toks, i, Un(tok, x), j) <==>
            IsUnary(tok) && Level(x) >= 11 && i >= 0 && Tok(toks, i) == tok && Stands(toks, i + 1, x, j)
  {
    hide At, Tok;
    At2(toks, i, [tok], Flatten(x));
    AtTok(toks, i, tok);
    assert Flatten(Un(tok, x)) == [tok] + Flatten(x);
  }

  lemma {:induction false} StandsBin(toks: seq<Token>, i: int, tok: Token, l: Tree, r: Tree, k: int, j: int)
    requires k == i + |Flatten(l)|
    ensures Stands(toks, i, Bin(tok, l, r), j) <==>
            Tok(toks, k) == tok && Stands(toks, i, l, k) && Stands(toks, k + 1, r, j) &&
            PrecOf(tok) > 0 && Level(l) >= PrecOf(tok) && Level(r) > PrecOf(tok)
  {
    hide At, Tok;
    At3(toks, i, Flatten(l), [tok], Flatten(r));
    AtTok(toks, k, tok);
    assert Flatten(Bin(tok, l, r)) == Flatten(l) + [tok] + Flatten(r);
  }

  lemma {:induction false} StandsCond(toks: seq<Token>, i: int, c: Tree, a: Tree, b: Tree, k: int, m: int, j: int)
    requires k == i + |Flatten(c)| && m == k + 1 + |Flatten(a)|
    ensures Stands(toks, i, Cond(c, a, b), j) <==>
            Level(c) >= 1 && Stands(toks, i, c, k) && Tok(toks, k) == QUESTION && Stands(toks, k + 1, a, m) &&
            Tok(toks, m) == COLON && Stands(toks, m + 1, b, j)
  {
    hide At, Tok;
    At5(toks, i, Flatten(c), [QUESTION], Flatten(a), [COLON], Flatten(b));
    AtTok(toks, k, QUESTION);
    AtTok(toks, m, COLON);
    assert Flatten(Cond(c, a, b)) == Flatten(c) + [QUESTION] + Flatten(a) + [COLON] + Flatten(b);
  }

  lemma {:induction false} StandsCall(toks: seq<Token>, i: int, f: Tree, args: seq<Tree>, k: int, j: int)
    requires k == i + |Flatten(f)|
    ensures Stands(toks, i, Call(f, args), j) <==>
            Level(f) == 12 && Stands(toks, i, f, k) && Tok(toks, k) == LPAREN
              && Stand(toks, k + 1, args, false, j - 1) &&
            Tok(toks, j - 1) == RPAREN
  {
    hide At, Tok;
    At4(toks, i, Flatten(f), [LPAREN], FlattenList(args), [RPAREN]);
    AtTok(toks, k, LPAREN);
    AtTok(toks, k + 1 + |FlattenList(args)|, RPAREN);
    assert FlattenList(args) + Comma(false) == FlattenList(args);
    assert Flatten(Call(f, args)) == Flatten(f) + [LPAREN] + FlattenList(args) + [RPAREN];
  }

  lemma {:induction false} StandsIdx(toks: seq<Token>, i: int, x: Tree, e: Tree, k: int, j: int)
    requires k == i + |Flatten(x)|
    ensures Stands(toks, i, Idx(x, e), j) <==>
            Level(x) == 12 && Stands(toks, i, x, k) && Tok(toks, k) == LBRACK && Stands(toks, k + 1, e, j - 1)
              && Tok(toks, j - 1) == RBRACK
  {
    hide At, Tok;
    At4(toks, i, Flatten(x), [LBRACK], Flatten(e), [RBRACK]);
    AtTok(toks, k, LBRACK);
    AtTok(toks, k + 1 + |Flatten(e)|, RBRACK);
    assert Flatten(Idx(x, e)) == Flatten(x) + [LBRACK] + Flatten(e) + [RBRACK];
  }

  lemma {:induction false} StandsDot(toks: seq<Token>, i: int, x: Tree, name: Token, k: int, j: int)
    requires k == i + |Flatten(x)|
    ensures Stands(toks, i, Dot(x, name), j) <==>
            Level(x) == 12 && Stands(toks, i, x, k) && Tok(toks, k) == DOT && name.IDENT? && Tok(toks, k + 1) == name
              && j == k + 2
  {
    hide At, Tok;
    At3(toks, i, Flatten(x), [DOT], [name]);
    AtTok(toks, k, DOT);
    AtTok(toks, k + 1, name);
    assert Flatten(Dot(x, name)) == Flatten(x) + [DOT] + [name];
  }

  lemma {:induction false} StandsArr(toks: seq<Token>, i: int, es: seq<Tree>, trailing: bool, j: int)
    ensures Stands(toks, i, Arr(es, trailing), j) <==>
            (trailing ==> es != []) && i >= 0 && Tok(toks, i) == LBRACK && Stand(toks, i + 1, es, trailing, j - 1)
              && Tok(toks, j - 1) == RBRACK
  {
    hide At, Tok;
    var s := FlattenList(es) + Comma(trailing);
    At3(toks, i, [LBRACK], s, [RBRACK]);
    AtTok(toks, i, LBRACK);
    AtTok(toks, i + 1 + |s|, RBRACK);
    assert Flatten(Arr(es, trailing)) == [LBRACK] + s + [RBRACK];
  }

  lemma {:induction false} StandsMap(toks: seq<Token>, i: int, es: seq<Entry>, trailing: bool, j: int)
    ensures Stands(toks, i, Map(es, trailing), j) <==>
            (trailing ==> es != []) && i >= 0 && Tok(toks, i) == LBRACE && StandAll(toks, i + 1, es, trailing, j - 1)
              && Tok(toks, j - 1) == RBRACE
  {
    hide At, Tok;
    var s := FlattenEntries(es) + Comma(trailing);
    At3(toks, i, [LBRACE], s, [RBRACE]);
    AtTok(toks, i, LBRACE);
    AtTok(toks, i + 1 + |s|, RBRACE);
    assert Flatten(Map(es, trailing)) == [LBRACE] + s + [RBRACE];
  }

  lemma {:induction false} OneTree(t: Tree)
    ensures FlattenList([t]) == Flatten(t) && (Shapes([t]) <==> Shape(t)) && Flatten(t) + [] == Flatten(t)
  {
    hide Flatten, Shape;
    assert Shapes([t]) == (Shape(t) && Shapes([t][1..]));
  }

  lemma {:induction false} MoreTrees(t: Tree, ts: seq<Tree>, trailing: bool)
    requires ts != []
    ensures FlattenList([t] + ts) + Comma(trailing) == Flatten(t) + [COMMA] + (FlattenList(ts) + Comma(trailing))
    ensures Shapes([t] + ts) <==> Shape(t) && Shapes(ts)
  {
    hide Flatten, Shape;
    assert ([t] + ts)[1..] == ts && ([t] + ts)[0] == t;
  }

  lemma {:induction false} StandOne(toks: seq<Token>, i: int, t: Tree, trailing: bool, j: int)
    ensures Stand(toks, i, [t], trailing, j) <==>
            if trailing then Stands(toks, i, t, j - 1) && Tok(toks, j - 1) == COMMA else Stands(toks, i, t, j)
  {
    hide At, Flatten, Shape;
    At2(toks, i, Flatten(t), Comma(trailing));
    AtTok(toks, i + |Flatten(t)|, COMMA);
    OneTree(t);
  }

  lemma {:induction false} StandMore(toks: seq<Token>, i: int, t: Tree, ts: seq<Tree>, trailing: bool, k: int, j: int)
    requires ts != [] && k == i + |Flatten(t)|
    ensures Stand(toks, i, [t] + ts, trailing, j) <==>
      Stands(toks, i, t, k) && Tok(toks, k) == COMMA && Stand(toks, k + 1, ts, trailing, j)
  {
    hide At, Flatten, Shape;
    var s := FlattenList(ts) + Comma(trailing);
    MoreTrees(t, ts, trailing);
    At3(toks, i, Flatten(t), [COMMA], s);
    AtTok(toks, k, COMMA);
  }

  lemma {:induction false} StandNone(toks: seq<Token>, i: int, j: int)
    ensures Stand(toks, i, [], false, j) <==> 0 <= i <= |toks| && j == i
    ensures StandAll(toks, i, [], false, j) <==> 0 <= i <= |toks| && j == i
  {
  }

  /** A map entry stands at i, its colon at k. */
  predicate StandsEntry(toks: seq<Token>, i: int, e: Entry, k: int, j: int) {
    && (match e.key
        case Name(tok) => IsName(tok) && 0 <= i && Tok(toks, i) == tok && k == i + 1
        case Computed(t) => Stands(toks, i, t, k) && !IsName(Tok(toks, i)))
    && Tok(toks, k) == COLON
    && Stands(toks, k + 1, e.val, j)
  }

  lemma {:induction false} EntryAt(toks: seq<Token>, i: int, e: Entry, k: int, j: int)
    requires k == i + |FlattenKey(e.key)|
    ensures StandsEntry(toks, i, e, k, j) <==>
      ShapeEntry(e) && At(toks, i, FlattenEntry(e)) && j == i + |FlattenEntry(e)|
  {
    hide At, Flatten, Shape, IsName;
    At3(toks, i, FlattenKey(e.key), [COLON], Flatten(e.val));
    AtTok(toks, k, COLON);
    match e.key {
      case Name(tok) => AtTok(toks, i, tok);
      case Computed(t) =>
        if At(toks, i, Flatten(t)) {
          AtFirst(toks, i, Flatten(t));
        }
    }
    assert FlattenEntry(e) == FlattenKey(e.key) + [COLON] + Flatten(e.val);
  }

  lemma {:induction false} OneEntry(e: Entry)
    ensures FlattenEntries([e]) == FlattenEntry(e) && (ShapeEntries([e]) <==> ShapeEntry(e))
      && FlattenEntry(e) + [] == FlattenEntry(e)
  {
    hide FlattenEntry, ShapeEntry;
    assert ShapeEntries([e]) == (ShapeEntry(e) && ShapeEntries([e][1..]));
  }

  lemma {:induction false} MoreEntries(e: Entry, es: seq<Entry>, trailing: bool)
    requires es != []
    ensures FlattenEntries([e] + es) + Comma(trailing) == FlattenEntry(e) + [COMMA]
      + (FlattenEntries(es) + Comma(trailing))
    ensures ShapeEntries([e] + es) <==> ShapeEntry(e) && ShapeEntries(es)
  {
    hide FlattenEntry, ShapeEntry;
    assert ([e] + es)[1..] == es && ([e] + es)[0] == e;
  }

  lemma {:induction false} StandAllOne(toks: seq<Token>, i: int, e: Entry, trailing: bool, k: int, j: int)
    requires k == i + |FlattenKey(e.key)|
    ensures StandAll(toks, i, [e], trailing, j) <==>
            if trailing then StandsEntry(toks, i, e, k, j - 1) && Tok(toks, j - 1) == COMMA
              else StandsEntry(toks, i, e, k, j)
  {
    hide At, FlattenKey, FlattenEntry, StandsEntry, ShapeEntry;
    EntryAt(toks, i, e, k, if trailing then j - 1 else j);
    At2(toks, i, FlattenEntry(e), Comma(trailing));
    AtTok(toks, i + |FlattenEntry(e)|, COMMA);
    OneEntry(e);
  }

  lemma {:induction false} StandAllMore(toks: seq<Token>, i: int, e: Entry, es: seq<Entry>, trailing: bool, k: int,
    m: int, j: int)
    requires es != [] && k == i + |FlattenKey(e.key)| && m == i + |FlattenEntry(e)|
    ensures StandAll(toks, i, [e] + es, trailing, j) <==>
            StandsEntry(toks, i, e, k, m) && Tok(toks, m) == COMMA && StandAll(toks, m + 1, es, trailing, j)
  {
    hide At, FlattenKey, FlattenEntry, StandsEntry, ShapeEntry;
    var s := FlattenEntries(es) + Comma(trailing);
    MoreEntries(e, es, trailing);
    EntryAt(toks, i, e, k, m);
    At3(toks, i, FlattenEntry(e), [COMMA], s);
    AtTok(toks, m, COMMA);
  }

  // ---- soundness: the tree is well shaped, and its tokens are exactly those consumed ----

  /** A token that ends an expression: no operator can go on from here. */
  predicate Stops(tok: Token) { !Continues(tok) && PrecOf(tok) == 0 && tok != QUESTION }

  lemma {:induction false} TernarySound(toks: seq<Token>, i: nat)
    requires ParseTernary(toks, i).Ok?
    ensures Stands(toks, i, ParseTernary(toks, i).t, ParseTernary(toks, i).next)
    ensures Stops(Tok(toks, ParseTernary(toks, i).next))
    decreases |toks| - i, 6
  {
    hide *;
    TernaryIs(toks, i);
    BinarySound(toks, i, 1);
    var c := ParseBinary(toks, i, 1);
    if Tok(toks, c.next) == QUESTION {
      var a := ParseTernary(toks, c.next + 1);
      var b := ParseTernary(toks, a.next + 1);
      TernarySound(toks, c.next + 1);
      TernarySound(toks, a.next + 1);
      StandsEnd(toks, i, c.t, c.next);
      StandsEnd(toks, c.next + 1, a.t, a.next);
      StandsCond(toks, i, c.t, a.t, b.t, c.next, a.next, b.next);
    } else {
      StopsIs(Tok(toks, c.next));
    }
  }

  lemma {:induction false} StopsIs(tok: Token)
    ensures Stops(tok) <==> !Continues(tok) && PrecOf(tok) == 0 && tok != QUESTION
  {
  }

  lemma {:induction false} StandsEnd(toks: seq<Token>, i: int, t: Tree, j: int)
    requires Stands(toks, i, t, j)
    ensures j == i + |Flatten(t)| && 0 <= i < j <= |toks|
  {
  }

  lemma {:induction false} TernaryIs(toks: seq<Token>, i: nat)
    ensures
      var c := ParseBinary(toks, i, 1);
      ParseTernary(toks, i) ==
      if c.Fail? || Tok(toks, c.next) != QUESTION then c else
      var a := ParseTernary(toks, c.next + 1);
      if a.Fail? || Tok(toks, a.next) != COLON then Fail else
      var b := ParseTernary(toks, a.next + 1);
      if b.Fail? then Fail else Ok(Cond(c.t, a.t, b.t), b.next)
  {
  }

  lemma {:induction false} BinarySound(toks: seq<Token>, i: nat, minPrec: nat)
    requires ParseBinary(toks, i, minPrec).Ok? && minPrec <= 11
    ensures Stands(toks, i, ParseBinary(toks, i, minPrec).t, ParseBinary(toks, i, minPrec).next)
    ensures Level(ParseBinary(toks, i, minPrec).t) >= minPrec && Level(ParseBinary(toks, i, minPrec).t) >= 1
    ensures !Continues(Tok(toks, ParseBinary(toks, i, minPrec).next))
    ensures PrecOf(Tok(toks, ParseBinary(toks, i, minPrec).next)) < minPrec
      || PrecOf(Tok(toks, ParseBinary(toks, i, minPrec).next)) == 0
    decreases |toks| - i, 5
  {
    hide Stands, ParseUnary, Climb, Tok, Continues, Level, PrecOf;
    UnarySound(toks, i);
    var u := ParseUnary(toks, i);
    PrecMost(Tok(toks, u.next));
    StandsEnd(toks, i, u.t, u.next);
    ClimbSound(toks, i, u.t, u.next, minPrec);
  }

  lemma {:induction false} PrecMost(tok: Token)
    ensures PrecOf(tok) <= 10
  {
  }

  lemma {:induction false} ClimbSound(toks: seq<Token>, i: nat, left: Tree, j: nat, minPrec: nat)
    requires i < j <= |toks| && Stands(toks, i, left, j) && Level(left) >= minPrec && Level(left) >= 1 && minPrec <= 11
    requires !Continues(Tok(toks, j)) && Level(left) >= PrecOf(Tok(toks, j))
    requires Climb(toks, left, j, minPrec).Ok?
    ensures Stands(toks, i, Climb(toks, left, j, minPrec).t, Climb(toks, left, j, minPrec).next)
    ensures Level(Climb(toks, left, j, minPrec).t) >= minPrec && Level(Climb(toks, left, j, minPrec).t) >= 1
    ensures !Continues(Tok(toks, Climb(toks, left, j, minPrec).next))
    ensures PrecOf(Tok(toks, Climb(toks, left, j, minPrec).next)) < minPrec
      || PrecOf(Tok(toks, Climb(toks, left, j, minPrec).next)) == 0
    decreases |toks| - j, 7
  {
    hide Stands, ParseBinary, Continues, PrecOf, Flatten;
    var tok := Tok(toks, j);
    var pr := PrecOf(tok);
    PrecMost(tok);
    if pr >= minPrec && pr > 0 {
      var right := ParseBinary(toks, j + 1, pr + 1);
      BinarySound(toks, j + 1, pr + 1);
      StandsEnd(toks, i, left, j);
      StandsBin(toks, i, tok, left, right.t, j, right.next);
      ClimbSound(toks, i, Bin(tok, left, right.t), right.next, minPrec);
    }
  }

  lemma {:induction false} UnarySound(toks: seq<Token>, i: nat)
    requires ParseUnary(toks, i).Ok?
    ensures Stands(toks, i, ParseUnary(toks, i).t, ParseUnary(toks, i).next) && Level(ParseUnary(toks, i).t) >= 11
    ensures !Continues(Tok(toks, ParseUnary(toks, i).next))
    decreases |toks| - i, 4
  {
    hide Stands, ParsePostfix, Continues;
    if IsUnary(Tok(toks, i)) {
      var x := ParseUnary(toks, i + 1);
      UnarySound(toks, i + 1);
      StandsUn(toks, i, Tok(toks, i), x.t, x.next);
    } else {
      PostfixSound(toks, i);
    }
  }

  lemma {:induction false} PostfixSound(toks: seq<Token>, i: nat)
    requires ParsePostfix(toks, i).Ok?
    ensures Stands(toks, i, ParsePostfix(toks, i).t, ParsePostfix(toks, i).next) && Level(ParsePostfix(toks, i).t) == 12
    ensures !Continues(Tok(toks, ParsePostfix(toks, i).next))
    decreases |toks| - i, 3
  {
    hide Stands, ParsePrimary, PostLoop, Continues, Level, Tok;
    PrimarySound(toks, i);
    PostLoopSound(toks, i, ParsePrimary(toks, i).t, ParsePrimary(toks, i).next);
  }

  lemma {:induction false} PostLoopSound(toks: seq<Token>, i: nat, x: Tree, j: nat)
    requires i < j <= |toks| && Stands(toks, i, x, j) && Level(x) == 12 && PostLoop(toks, x, j).Ok?
    ensures Stands(toks, i, PostLoop(toks, x, j).t, PostLoop(toks, x, j).next) && Level(PostLoop(toks, x, j).t) == 12
    ensures !Continues(Tok(toks, PostLoop(toks, x, j).next))
    decreases |toks| - j, 8
  {
    hide PostLoop, Stands, Level, Tok;
    if Continues(Tok(toks, j)) {
      var r := PostStep(toks, i, x, j);
      PostLoopSound(toks, i, r.0, r.1);
    } else {
      PostStops(toks, x, j);
    }
  }

  /** One round of the loop. */
  lemma {:induction false} PostStep(toks: seq<Token>, i: nat, x: Tree, j: nat) returns (r: (Tree, int))
    requires i < j <= |toks| && Stands(toks, i, x, j) && Level(x) == 12 && PostLoop(toks, x, j).Ok?
      && Continues(Tok(toks, j))
    ensures Stands(toks, i, r.0, r.1) && Level(r.0) == 12 && j < r.1 <= |toks|
      && PostLoop(toks, x, j) == PostLoop(toks, r.0, r.1)
    decreases |toks| - j, 7
  {
    hide PostLoop, Stands, Level, Tok;
    if Tok(toks, j) == LPAREN {
      r := CallStep(toks, i, x, j);
    } else if Tok(toks, j) == LBRACK {
      r := IdxStep(toks, i, x, j);
    } else {
      r := DotStep(toks, i, x, j);
    }
  }

  lemma {:induction false} CallStep(toks: seq<Token>, i: nat, x: Tree, j: nat) returns (r: (Tree, int))
    requires i < j <= |toks| && Stands(toks, i, x, j) && Level(x) == 12 && PostLoop(toks, x, j).Ok?
      && Tok(toks, j) == LPAREN
    ensures Stands(toks, i, r.0, r.1) && Level(r.0) == 12 && j < r.1 <= |toks|
      && PostLoop(toks, x, j) == PostLoop(toks, r.0, r.1)
    decreases |toks| - j, 6
  {
    hide Stands, Stand, ParseArgs, Flatten;
    StandsEnd(toks, i, x, j);
    if Tok(toks, j + 1) == RPAREN {
      StandNone(toks, j + 1, j + 1);
      StandsCall(toks, i, x, [], j, j + 2);
      r := (Call(x, []), j + 2);
    } else {
      var args := ParseArgs(toks, j + 1);
      ArgsSound(toks, j + 1);
      StandsCall(toks, i, x, args.ts, j, args.next + 1);
      r := (Call(x, args.ts), args.next + 1);
    }
  }

  lemma {:induction false} IdxStep(toks: seq<Token>, i: nat, x: Tree, j: nat) returns (r: (Tree, int))
    requires i < j <= |toks| && Stands(toks, i, x, j) && Level(x) == 12 && PostLoop(toks, x, j).Ok?
      && Tok(toks, j) == LBRACK
    ensures Stands(toks, i, r.0, r.1) && Level(r.0) == 12 && j < r.1 <= |toks|
      && PostLoop(toks, x, j) == PostLoop(toks, r.0, r.1)
    decreases |toks| - j, 6
  {
    hide Stands, ParseTernary, Flatten;
    StandsEnd(toks, i, x, j);
    var e := ParseTernary(toks, j + 1);
    TernarySound(toks, j + 1);
    StandsIdx(toks, i, x, e.t, j, e.next + 1);
    r := (Idx(x, e.t), e.next + 1);
  }

  lemma {:induction false} DotStep(toks: seq<Token>, i: nat, x: Tree, j: nat) returns (r: (Tree, int))
    requires i < j <= |toks| && Stands(toks, i, x, j) && Level(x) == 12 && PostLoop(toks, x, j).Ok?
      && Tok(toks, j) == DOT
    ensures Stands(toks, i, r.0, r.1) && Level(r.0) == 12 && j < r.1 <= |toks|
      && PostLoop(toks, x, j) == PostLoop(toks, r.0, r.1)
  {
    hide Stands, Flatten;
    StandsEnd(toks, i, x, j);
    StandsDot(toks, i, x, Tok(toks, j + 1), j, j + 2);
    r := (Dot(x, Tok(toks, j + 1)), j + 2);
  }

  lemma {:induction false} ArgsSound(toks: seq<Token>, i: nat)
    requires ParseArgs(toks, i).Oks?
    ensures Stand(toks, i, ParseArgs(toks, i).ts, false, ParseArgs(toks, i).next)
    decreases |toks| - i, 7
  {
    hide Stands, Stand, ParseTernary, Flatten;
    var a := ParseTernary(toks, i);
    TernarySound(toks, i);
    StandsEnd(toks, i, a.t, a.next);
    if Tok(toks, a.next) == COMMA {
      var rest := ParseArgs(toks, a.next + 1);
      ArgsSound(toks, a.next + 1);
      StandMore(toks, i, a.t, rest.ts, false, a.next, rest.next);
    } else {
      StandOne(toks, i, a.t, false, a.next);
    }
  }

  lemma {:induction false} PrimarySound(toks: seq<Token>, i: nat)
    requires ParsePrimary(toks, i).Ok?
    ensures Stands(toks, i, ParsePrimary(toks, i).t, ParsePrimary(toks, i).next) && Level(ParsePrimary(toks, i).t) == 12
    decreases |toks| - i, 2
  {
    hide Stands, ParseTernary, ParseElts, ParseEntries, Flatten;
    var tok := Tok(toks, i);
    if IsAtom(tok) {
      StandsAtom(toks, i, tok, i + 1);
    } else if tok == LPAREN {
      TernarySound(toks, i + 1);
      StandsParen(toks, i, ParseTernary(toks, i + 1).t, ParseTernary(toks, i + 1).next + 1);
    } else if tok == LBRACK {
      ArrSound(toks, i);
    } else {
      MapSound(toks, i);
    }
  }

  lemma {:induction false} ArrSound(toks: seq<Token>, i: nat)
    requires ParsePrimary(toks, i).Ok? && Tok(toks, i) == LBRACK
    ensures Stands(toks, i, ParsePrimary(toks, i).t, ParsePrimary(toks, i).next) && Level(ParsePrimary(toks, i).t) == 12
    decreases |toks| - i, 1
  {
    hide Stands, Stand, ParseElts, Flatten;
    if Tok(toks, i + 1) == RBRACK {
      StandNone(toks, i + 1, i + 1);
      StandsArr(toks, i, [], false, i + 2);
    } else {
      var es := ParseElts(toks, i + 1);
      EltsSound(toks, i + 1);
      StandsArr(toks, i, es.ts, es.trailing, es.next + 1);
    }
  }

  lemma {:induction false} MapSound(toks: seq<Token>, i: nat)
    requires ParsePrimary(toks, i).Ok? && Tok(toks, i) == LBRACE
    ensures Stands(toks, i, ParsePrimary(toks, i).t, ParsePrimary(toks, i).next) && Level(ParsePrimary(toks, i).t) == 12
    decreases |toks| - i, 1
  {
    hide Stands, StandAll, ParseEntries, Flatten;
    if Tok(toks, i + 1) == RBRACE {
      StandNone(toks, i + 1, i + 1);
      StandsMap(toks, i, [], false, i + 2);
    } else {
      var es := ParseEntries(toks, i + 1);
      EntriesSound(toks, i + 1);
      StandsMap(toks, i, es.es, es.trailing, es.next + 1);
    }
  }

  lemma {:induction false} EltsSound(toks: seq<Token>, i: nat)
    requires ParseElts(toks, i).Oks?
    ensures Stand(toks, i, ParseElts(toks, i).ts, ParseElts(toks, i).trailing, ParseElts(toks, i).next)
    decreases |toks| - i, 7
  {
    hide Stands, Stand, ParseTernary, Flatten;
    var a := ParseTernary(toks, i);
    TernarySound(toks, i);
    StandsEnd(toks, i, a.t, a.next);
    if Tok(toks, a.next) != COMMA {
      StandOne(toks, i, a.t, false, a.next);
    } else if Tok(toks, a.next + 1) == RBRACK {
      StandOne(toks, i, a.t, true, a.next + 1);
    } else {
      var rest := ParseElts(toks, a.next + 1);
      EltsSound(toks, a.next + 1);
      StandMore(toks, i, a.t, rest.ts, rest.trailing, a.next, rest.next);
    }
  }

  lemma {:induction false} EntryLen(e: Entry)
    ensures |FlattenEntry(e)| == |FlattenKey(e.key)| + 1 + |Flatten(e.val)|
    ensures |FlattenKey(e.key)| == match e.key case Name(_) => 1 case Computed(t) => |Flatten(t)|
  {
    hide Flatten;
  }

  lemma {:induction false} EntryHere(toks: seq<Token>, i: nat, name: bool, k: Out, v: Out, e: Entry)
    requires k.Ok? && v.Ok? && name == IsName(Tok(toks, i)) && Tok(toks, k.next) == COLON
    requires if name then k.next == i + 1 else Stands(toks, i, k.t, k.next)
    requires Stands(toks, k.next + 1, v.t, v.next)
      && e == Entry(if name then Name(Tok(toks, i)) else Computed(k.t), v.t)
    ensures StandsEntry(toks, i, e, k.next, v.next)
  {
    hide Stands, IsName, Tok;
  }

  lemma {:induction false} EntriesIs(toks: seq<Token>, i: nat)
    ensures ParseEntries(toks, i) ==
      (var k := if IsName(Tok(toks, i)) then Ok(Atom(Tok(toks, i)), i + 1) else ParseTernary(toks, i);
    if k.Fail? || Tok(toks, k.next) != COLON then FailEntries else
    var v := ParseTernary(toks, k.next + 1);
    if v.Fail? then FailEntries else
    var e := Entry(if IsName(Tok(toks, i)) then Name(Tok(toks, i)) else Computed(k.t), v.t);
    if Tok(toks, v.next) != COMMA then Entries([e], false, v.next)
    else if Tok(toks, v.next + 1) == RBRACE then Entries([e], true, v.next + 1) else
    var rest := ParseEntries(toks, v.next + 1);
    if rest.FailEntries? then FailEntries else Entries([e] + rest.es, rest.trailing, rest.next))
  {
    hide ParseTernary, IsName, Tok;
  }

  lemma {:induction false} EntriesSound(toks: seq<Token>, i: nat)
    requires ParseEntries(toks, i).Entries?
    ensures StandAll(toks, i, ParseEntries(toks, i).es, ParseEntries(toks, i).trailing, ParseEntries(toks, i).next)
    decreases |toks| - i, 7
  {
    hide ParseEntries, Stands, StandAll, ParseTernary, FlattenEntry, FlattenKey, Flatten, FlattenEntries, IsName,
      IsAtom, PrecOf, StandsEntry, Tok, Shape, ShapeEntry, Stops;
    EntriesIs(toks, i);
    var name := IsName(Tok(toks, i));
    var k := if name then Ok(Atom(Tok(toks, i)), i + 1) else ParseTernary(toks, i);
    if !name {
      TernarySound(toks, i);
      StandsEnd(toks, i, k.t, k.next);
    }
    var v := ParseTernary(toks, k.next + 1);
    TernarySound(toks, k.next + 1);
    StandsEnd(toks, k.next + 1, v.t, v.next);
    var e := Entry(if name then Name(Tok(toks, i)) else Computed(k.t), v.t);
    EntryLen(e);
    EntryHere(toks, i, name, k, v, e);
    if Tok(toks, v.next) != COMMA {
      StandAllOne(toks, i, e, false, k.next, v.next);
    } else if Tok(toks, v.next + 1) == RBRACE {
      StandAllOne(toks, i, e, true, k.next, v.next + 1);
    } else {
      var rest := ParseEntries(toks, v.next + 1);
      EntriesSound(toks, v.next + 1);
      StandAllMore(toks, i, e, rest.es, rest.trailing, k.next, v.next, rest.next);
    }
  }

  // ---- completeness: every well shaped tree is found again from its tokens ----

  predicate Starts(tok: Token) { IsAtom(tok) || IsUnary(tok) || tok == LPAREN || tok == LBRACK || tok == LBRACE }

  lemma {:induction false} First(t: Tree)
    requires Shape(t)
    ensures Starts(Flatten(t)[0])
    ensures Level(t) == 12 ==> !IsUnary(Flatten(t)[0])
    decreases t
  {
    match t
    case Atom(_) =>
    case Paren(_) =>
    case Un(_, _) =>
    case Bin(_, l, _) => First(l);
    case Cond(c, _, _) => First(c);
    case Call(f, _) => First(f);
    case Idx(x, _) => First(x);
    case Dot(x, _) => First(x);
    case Arr(_, _) =>
    case Map(_, _) =>
  }

  lemma {:induction false} FirstAt(toks: seq<Token>, i: int, t: Tree, j: int)
    requires Stands(toks, i, t, j)
    ensures Starts(Tok(toks, i)) && (Level(t) == 12 ==> !IsUnary(Tok(toks, i)))
  {
    hide Starts, Level, IsUnary, Shape;
    First(t);
    AtFirst(toks, i, Flatten(t));
  }

  lemma {:induction false} TernaryComplete(toks: seq<Token>, i: nat, t: Tree, j: int)
    requires Stands(toks, i, t, j) && Stops(Tok(toks, j))
    ensures ParseTernary(toks, i) == Ok(t, j)
    decreases t, 6
  {
    hide Stands, ParseBinary, Climb, Flatten, Continues, PrecOf;
    if t.Cond? {
      var k := i + |Flatten(t.c)|;
      var m := k + 1 + |Flatten(t.t)|;
      StandsCond(toks, i, t.c, t.t, t.e, k, m, j);
      OtherStops();
      BinaryComplete(toks, i, t.c, k, 1);
      ClimbStops(toks, t.c, k, 1);
      TernaryComplete(toks, k + 1, t.t, m);
      TernaryComplete(toks, m + 1, t.e, j);
    } else {
      LevelMost(toks, i, t, j);
      StandsEnd(toks, i, t, j);
      BinaryComplete(toks, i, t, j, 1);
      ClimbStops(toks, t, j, 1);
    }
  }

  lemma {:induction false} OtherStops()
    ensures !Continues(QUESTION) && PrecOf(QUESTION) == 0 && Stops(COLON) && Stops(RPAREN) && Stops(RBRACK)
      && Stops(RBRACE) && Stops(COMMA) && Stops(EOF)
  {
  }

  lemma {:induction false} LevelMost(toks: seq<Token>, i: int, t: Tree, j: int)
    requires !t.Cond? && Stands(toks, i, t, j)
    ensures Level(t) >= 1
  {
    hide Flatten, At;
  }

  lemma {:induction false} ClimbStops(toks: seq<Token>, t: Tree, j: int, minPrec: nat)
    requires 0 <= j <= |toks| && (PrecOf(Tok(toks, j)) == 0 || PrecOf(Tok(toks, j)) < minPrec)
    ensures Climb(toks, t, j, minPrec) == Ok(t, j)
  {
  }

  lemma {:induction false} ClimbGoes(toks: seq<Token>, l: Tree, k: int, minPrec: nat, r: Tree, j: int)
    requires 0 <= k < j <= |toks| && PrecOf(Tok(toks, k)) >= minPrec && PrecOf(Tok(toks, k)) > 0
    requires ParseBinary(toks, k + 1, PrecOf(Tok(toks, k)) + 1) == Ok(r, j)
    ensures Climb(toks, l, k, minPrec) == Climb(toks, Bin(Tok(toks, k), l, r), j, minPrec)
  {
    hide ParseBinary, PrecOf, Tok;
  }

  /** The parser reaches the loop with t already built, whatever loop it is that then goes on. */
  lemma {:induction false} BinaryComplete(toks: seq<Token>, i: nat, t: Tree, j: nat, minPrec: nat)
    requires j <= |toks| && Stands(toks, i, t, j) && Level(t) >= minPrec && Level(t) >= 1 && !Continues(Tok(toks, j))
    requires t.Bin? ==> PrecOf(Tok(toks, j)) <= PrecOf(t.tok)
    ensures ParseBinary(toks, i, minPrec) == Climb(toks, t, j, minPrec)
    decreases t, 5
  {
    hide Stands, ParseUnary, Climb, Flatten, Continues, PrecOf;
    if t.Bin? {
      var k := i + |Flatten(t.l)|;
      StandsBin(toks, i, t.tok, t.l, t.r, k, j);
      StandsEnd(toks, i, t.l, k);
      StandsEnd(toks, k + 1, t.r, j);
      OpGoesOn(t.tok);
      BinaryComplete(toks, i, t.l, k, minPrec);
      BinaryComplete(toks, k + 1, t.r, j, PrecOf(t.tok) + 1);
      ClimbStops(toks, t.r, j, PrecOf(t.tok) + 1);
      ClimbGoes(toks, t.l, k, minPrec, t.r, j);
    } else {
      UnaryComplete(toks, i, t, j);
    }
  }

  lemma {:induction false} OpGoesOn(tok: Token)
    requires PrecOf(tok) > 0
    ensures !Continues(tok)
  {
  }

  lemma {:induction false} UnaryComplete(toks: seq<Token>, i: nat, t: Tree, j: int)
    requires Stands(toks, i, t, j) && Level(t) >= 11 && !Continues(Tok(toks, j))
    ensures ParseUnary(toks, i) == Ok(t, j)
    decreases t, 4
  {
    hide Stands, ParsePostfix, PostLoop, Continues;
    StandsEnd(toks, i, t, j);
    if t.Un? {
      StandsUn(toks, i, t.tok, t.x, j);
      UnaryComplete(toks, i + 1, t.x, j);
    } else {
      NotBin(t);
      FirstAt(toks, i, t, j);
      PostfixComplete(toks, i, t, j);
      PostStops(toks, t, j);
    }
  }

  lemma {:induction false} NotBin(t: Tree)
    requires Level(t) >= 11 && !t.Un?
    ensures Level(t) == 12
  {
  }

  lemma {:induction false} PostStops(toks: seq<Token>, t: Tree, j: int)
    requires 0 <= j <= |toks| && !Continues(Tok(toks, j))
    ensures PostLoop(toks, t, j) == Ok(t, j)
  {
  }

  lemma {:induction false} PostfixComplete(toks: seq<Token>, i: nat, t: Tree, j: nat)
    requires j <= |toks| && Stands(toks, i, t, j) && Level(t) == 12
    ensures ParsePostfix(toks, i) == PostLoop(toks, t, j)
    decreases t, 3
  {
    hide Stands, PostLoop, ParsePostfix, Flatten;
    if t.Call? {
      CallComplete(toks, i, t.f, t.args, j);
    } else if t.Idx? {
      IdxComplete(toks, i, t.x, t.i, j);
    } else if t.Dot? {
      var k := i + |Flatten(t.x)|;
      StandsDot(toks, i, t.x, t.name, k, j);
      StandsEnd(toks, i, t.x, k);
      PostfixComplete(toks, i, t.x, k);
      PostDot(toks, t.x, k);
    } else {
      PrimaryComplete(toks, i, t, j);
      PostfixIs(toks, i);
    }
  }

  lemma {:induction false} PostfixIs(toks: seq<Token>, i: nat)
    requires ParsePrimary(toks, i).Ok?
    ensures ParsePostfix(toks, i) == PostLoop(toks, ParsePrimary(toks, i).t, ParsePrimary(toks, i).next)
  {
    hide ParsePrimary, PostLoop;
  }

  lemma {:induction false} CallComplete(toks: seq<Token>, i: nat, f: Tree, args: seq<Tree>, j: nat)
    requires j <= |toks| && Stands(toks, i, Call(f, args), j)
    ensures ParsePostfix(toks, i) == PostLoop(toks, Call(f, args), j)
    decreases Call(f, args), 2
  {
    hide Stands, Stand, PostLoop, ParsePostfix, Flatten;
    var k := i + |Flatten(f)|;
    StandsCall(toks, i, f, args, k, j);
    StandsEnd(toks, i, f, k);
    PostfixComplete(toks, i, f, k);
    StandRange(toks, k + 1, args, false, j - 1);
    PostCall(toks, f, k, args, j);
  }

  lemma {:induction false} IdxComplete(toks: seq<Token>, i: nat, x: Tree, e: Tree, j: nat)
    requires j <= |toks| && Stands(toks, i, Idx(x, e), j)
    ensures ParsePostfix(toks, i) == PostLoop(toks, Idx(x, e), j)
    decreases Idx(x, e), 2
  {
    hide Stands, PostLoop, ParsePostfix, Flatten, Stops;
    var k := i + |Flatten(x)|;
    StandsIdx(toks, i, x, e, k, j);
    StandsEnd(toks, i, x, k);
    StandsEnd(toks, k + 1, e, j - 1);
    PostfixComplete(toks, i, x, k);
    OtherStops();
    TernaryComplete(toks, k + 1, e, j - 1);
    PostIdx(toks, x, k, e, j);
  }

  lemma {:induction false} PostCall(toks: seq<Token>, f: Tree, k: nat, args: seq<Tree>, j: int)
    requires k < j <= |toks| && Tok(toks, k) == LPAREN && Stand(toks, k + 1, args, false, j - 1)
      && Tok(toks, j - 1) == RPAREN
    ensures PostLoop(toks, f, k) == PostLoop(toks, Call(f, args), j)
    decreases args, 8
  {
    hide Stand, ParseArgs;
    if args == [] {
      StandNone(toks, k + 1, j - 1);
    } else {
      ListFirst(toks, k + 1, args, false, j - 1);
      ArgsComplete(toks, k + 1, args, j - 1);
    }
    PostCallIs(toks, f, k, args, j);
  }

  lemma {:induction false} PostCallIs(toks: seq<Token>, f: Tree, k: nat, args: seq<Tree>, j: int)
    requires k < j <= |toks| && Tok(toks, k) == LPAREN && Tok(toks, j - 1) == RPAREN
    requires if args == [] then j == k + 2
      else
        Tok(toks, k + 1) != RPAREN && ParseArgs(toks, k + 1) == Oks(args, false, j - 1)
    ensures PostLoop(toks, f, k) == PostLoop(toks, Call(f, args), j)
  {
    hide ParseArgs;
  }

  lemma {:induction false} PostIdx(toks: seq<Token>, x: Tree, k: nat, e: Tree, j: int)
    requires k < j <= |toks| && Tok(toks, k) == LBRACK && ParseTernary(toks, k + 1) == Ok(e, j - 1)
      && Tok(toks, j - 1) == RBRACK
    ensures PostLoop(toks, x, k) == PostLoop(toks, Idx(x, e), j)
  {
    hide ParseTernary;
  }

  lemma {:induction false} PostDot(toks: seq<Token>, x: Tree, k: nat)
    requires k + 2 <= |toks| && Tok(toks, k) == DOT && Tok(toks, k + 1).IDENT?
    ensures PostLoop(toks, x, k) == PostLoop(toks, Dot(x, Tok(toks, k + 1)), k + 2)
  {
  }

  lemma {:induction false} ListFirst(toks: seq<Token>, i: int, ts: seq<Tree>, trailing: bool, j: int)
    requires Stand(toks, i, ts, trailing, j) && ts != []
    ensures Starts(Tok(toks, i))
  {
    hide Starts;
    var t := ts[0];
    assert ts == [t] + ts[1..];
    if ts[1..] == [] {
      assert ts == [t];
      StandOne(toks, i, t, trailing, j);
      FirstAt(toks, i, t, if trailing then j - 1 else j);
    } else {
      StandMore(toks, i, t, ts[1..], trailing, i + |Flatten(t)|, j);
      FirstAt(toks, i, t, i + |Flatten(t)|);
    }
  }

  lemma {:induction false} ArgsComplete(toks: seq<Token>, i: nat, ts: seq<Tree>, j: int)
    requires Stand(toks, i, ts, false, j) && ts != [] && Tok(toks, j) == RPAREN
    ensures ParseArgs(toks, i) == Oks(ts, false, j)
    decreases ts, 7
  {
    hide Stands, Stand, ParseTernary, Flatten, Stops;
    OtherStops();
    var t := ts[0];
    if |ts| == 1 {
      assert ts == [t];
      StandOne(toks, i, t, false, j);
      TernaryComplete(toks, i, t, j);
    } else {
      assert ts == [t] + ts[1..];
      var k := i + |Flatten(t)|;
      StandMore(toks, i, t, ts[1..], false, k, j);
      TernaryComplete(toks, i, t, k);
      StandsEnd(toks, i, t, k);
      ArgsComplete(toks, k + 1, ts[1..], j);
    }
  }

  lemma {:induction false} PrimaryComplete(toks: seq<Token>, i: nat, t: Tree, j: int)
    requires Stands(toks, i, t, j) && (t.Atom? || t.Paren? || t.Arr? || t.Map?)
    ensures ParsePrimary(toks, i) == Ok(t, j)
    decreases t, 2
  {
    hide Stands, ParsePrimary;
    if t.Atom? {
      AtomComplete(toks, i, t.tok, j);
    } else if t.Paren? {
      ParenComplete(toks, i, t.x, j);
    } else if t.Arr? {
      ArrComplete(toks, i, t.elts, t.trailing, j);
    } else {
      MapComplete(toks, i, t.entries, t.trailing, j);
    }
  }

  lemma {:induction false} AtomComplete(toks: seq<Token>, i: nat, tok: Token, j: int)
    requires Stands(toks, i, Atom(tok), j)
    ensures ParsePrimary(toks, i) == Ok(Atom(tok), j)
  {
    StandsAtom(toks, i, tok, j);
  }

  lemma {:induction false} ParenComplete(toks: seq<Token>, i: nat, x: Tree, j: int)
    requires Stands(toks, i, Paren(x), j)
    ensures ParsePrimary(toks, i) == Ok(Paren(x), j)
    decreases x, 8
  {
    hide Stands, ParseTernary, Flatten, Stops;
    OtherStops();
    StandsParen(toks, i, x, j);
    TernaryComplete(toks, i + 1, x, j - 1);
  }

  lemma {:induction false} ArrComplete(toks: seq<Token>, i: nat, es: seq<Tree>, trailing: bool, j: int)
    requires Stands(toks, i, Arr(es, trailing), j)
    ensures ParsePrimary(toks, i) == Ok(Arr(es, trailing), j)
    decreases es, 8
  {
    hide Stands, Stand, ParseElts, Flatten;
    StandsArr(toks, i, es, trailing, j);
    if es == [] {
      StandNone(toks, i + 1, j - 1);
    } else {
      ListFirst(toks, i + 1, es, trailing, j - 1);
      EltsComplete(toks, i + 1, es, trailing, j - 1);
    }
  }

  lemma {:induction false} MapComplete(toks: seq<Token>, i: nat, es: seq<Entry>, trailing: bool, j: int)
    requires Stands(toks, i, Map(es, trailing), j)
    ensures ParsePrimary(toks, i) == Ok(Map(es, trailing), j)
    decreases es, 8
  {
    hide Stands, StandAll, ParseEntries, Flatten;
    StandsMap(toks, i, es, trailing, j);
    if es == [] {
      StandNone(toks, i + 1, j - 1);
    } else {
      EntriesFirst(toks, i + 1, es, trailing, j - 1);
      EntriesComplete(toks, i + 1, es, trailing, j - 1);
    }
  }

  lemma {:induction false} EltsComplete(toks: seq<Token>, i: nat, ts: seq<Tree>, trailing: bool, j: int)
    requires Stand(toks, i, ts, trailing, j) && ts != [] && Tok(toks, j) == RBRACK
    ensures ParseElts(toks, i) == Oks(ts, trailing, j)
    decreases ts, 7
  {
    hide Stands, Stand, ParseTernary, Flatten, Stops;
    OtherStops();
    var t := ts[0];
    if |ts| == 1 {
      assert ts == [t];
      StandOne(toks, i, t, trailing, j);
      TernaryComplete(toks, i, t, if trailing then j - 1 else j);
    } else {
      assert ts == [t] + ts[1..];
      var k := i + |Flatten(t)|;
      StandMore(toks, i, t, ts[1..], trailing, k, j);
      TernaryComplete(toks, i, t, k);
      StandsEnd(toks, i, t, k);
      ListFirst(toks, k + 1, ts[1..], trailing, j);
      EltsComplete(toks, k + 1, ts[1..], trailing, j);
    }
  }

  lemma {:induction false} EntryFirst(toks: seq<Token>, i: int, e: Entry, k: int, j: int)
    requires StandsEntry(toks, i, e, k, j)
    ensures Starts(Tok(toks, i))
  {
    hide Stands;
    if e.key.Computed? {
      FirstAt(toks, i, e.key.t, k);
    }
  }

  lemma {:induction false} EntriesFirst(toks: seq<Token>, i: int, es: seq<Entry>, trailing: bool, j: int)
    requires StandAll(toks, i, es, trailing, j) && es != []
    ensures Starts(Tok(toks, i))
  {
    hide Starts, StandAll, StandsEntry;
    var e := es[0];
    var k := i + |FlattenKey(e.key)|;
    if |es| == 1 {
      assert es == [e];
      StandAllOne(toks, i, e, trailing, k, j);
      EntryFirst(toks, i, e, k, if trailing then j - 1 else j);
    } else {
      assert es == [e] + es[1..];
      StandAllMore(toks, i, e, es[1..], trailing, k, i + |FlattenEntry(e)|, j);
      EntryFirst(toks, i, e, k, i + |FlattenEntry(e)|);
    }
  }

  lemma {:induction false} EntriesComplete(toks: seq<Token>, i: nat, es: seq<Entry>, trailing: bool, j: int)
    requires StandAll(toks, i, es, trailing, j) && es != [] && Tok(toks, j) == RBRACE
    ensures ParseEntries(toks, i) == Entries(es, trailing, j)
    decreases es, 7
  {
    hide *;
    OtherStops();
    EntryLen(es[0]);
    var e := es[0];
    var k := i + |FlattenKey(e.key)|;
    var m := i + |FlattenEntry(e)|;
    if |es| == 1 {
      assert es == [e];
      StandAllOne(toks, i, e, trailing, k, j);
      EntryComplete(toks, i, e, k, if trailing then j - 1 else j);
      EntriesEnd(toks, i, e, k, trailing, j);
    } else {
      assert es == [e] + es[1..];
      StandAllMore(toks, i, e, es[1..], trailing, k, m, j);
      EntryComplete(toks, i, e, k, m);
      EntriesFirst(toks, m + 1, es[1..], trailing, j);
      StartsNot(Tok(toks, m + 1));
      EntriesComplete(toks, m + 1, es[1..], trailing, j);
      EntriesOn(toks, i, e, k, m, es[1..], trailing, j);
    }
  }

  lemma {:induction false} StartsNot(tok: Token)
    requires Starts(tok)
    ensures tok != RPAREN && tok != RBRACK && tok != RBRACE
  {
  }

  /** The parser reads one entry between i and j. */
  predicate Reads(toks: seq<Token>, i: nat, e: Entry, k: int, j: int) {
    && (match e.key
        case Name(tok) => IsName(Tok(toks, i)) && Tok(toks, i) == tok && k == i + 1
        case Computed(t) => !IsName(Tok(toks, i)) && ParseTernary(toks, i) == Ok(t, k))
    && 0 <= k < j <= |toks| && Tok(toks, k) == COLON && ParseTernary(toks, k + 1) == Ok(e.val, j)
  }

  lemma {:induction false} EntriesEnd(toks: seq<Token>, i: nat, e: Entry, k: int, trailing: bool, j: int)
    requires Tok(toks, j) == RBRACE
    requires if trailing then Reads(toks, i, e, k, j - 1) && Tok(toks, j - 1) == COMMA else Reads(toks, i, e, k, j)
    ensures ParseEntries(toks, i) == Entries([e], trailing, j)
  {
    hide ParseTernary, Tok;
  }

  lemma {:induction false} EntriesOn(toks: seq<Token>, i: nat, e: Entry, k: int, m: int, es: seq<Entry>, trailing: bool,
    j: int)
    requires Reads(toks, i, e, k, m) && Tok(toks, m) == COMMA && Tok(toks, m + 1) != RBRACE
      && ParseEntries(toks, m + 1) == Entries(es, trailing, j)
    ensures ParseEntries(toks, i) == Entries([e] + es, trailing, j)
  {
    hide ParseTernary, ParseEntries, Tok, IsName;
    EntriesIs(toks, i);
    var name := IsName(Tok(toks, i));
    var k0 := if name then Ok(Atom(Tok(toks, i)), i + 1) else ParseTernary(toks, i);
    assert k0.Ok? && k0.next == k;
    assert Entry(if name then Name(Tok(toks, i)) else Computed(k0.t), e.val) == e;
  }

  lemma {:induction false} EntryComplete(toks: seq<Token>, i: nat, e: Entry, k: int, j: int)
    requires StandsEntry(toks, i, e, k, j) && Stops(Tok(toks, j))
    ensures Reads(toks, i, e, k, j)
    decreases e, 7
  {
    hide Stands, ParseTernary, Stops, IsName;
    OtherStops();
    StandsEnd(toks, k + 1, e.val, j);
    TernaryComplete(toks, k + 1, e.val, j);
    match e.key
    case Name(_) =>
    case Computed(t) =>
      StandsEnd(toks, i, t, k);
      TernaryComplete(toks, i, t, k);
  }

  // ---- the parser is exact ----

  /**
   From any position, the parser finds tree t and stops at j exactly when t is well shaped, its tokens are the ones
   between, and the token at j cannot continue an expression.
   */
  lemma {:induction false} ParserExact(toks: seq<Token>, i: nat, t: Tree, j: int)
    ensures ParseTernary(toks, i) == Ok(t, j) <==> Stands(toks, i, t, j) && Stops(Tok(toks, j))
  {
    hide Stands, ParseTernary, Stops;
    if ParseTernary(toks, i) == Ok(t, j) {
      TernarySound(toks, i);
    }
    if Stands(toks, i, t, j) && Stops(Tok(toks, j)) {
      TernaryComplete(toks, i, t, j);
    }
  }

  /** Taken as a whole expression, a token list parses to t exactly when t is well shaped and flattens to it. */
  lemma {:induction false} ParsesWhole(toks: seq<Token>, t: Tree)
    ensures ParseTernary(toks, 0) == Ok(t, |toks|) <==> Shape(t) && Flatten(t) == toks
  {
    hide Shape, Flatten, ParseTernary;
    ParserExact(toks, 0, t, |toks|);
    OtherStops();
    assert toks[0..|toks|] == toks;
  }

  /** No two well shaped trees have the same tokens: the precedence rules leave one reading. */
  lemma {:induction false} OneReading(t: Tree, u: Tree)
    requires Shape(t) && Shape(u) && Flatten(t) == Flatten(u)
    ensures t == u
  {
    hide Shape, Flatten, ParseTernary;
    ParsesWhole(Flatten(t), t);
    ParsesWhole(Flatten(t), u);
  }
}
