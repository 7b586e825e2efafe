/**
 The recursive-descent parser itself (internal/parser/parser.go): two tokens in hand, errors collected on the way.
 It is proved against `Grammar`: no error is added exactly when the specification accepts, and then the result is the
 accepted tree without its brackets.
 */
module ParserImpl {
  import Bytecode
  import Ast
  import opened Grammar

  function UnOpOf(tok: Token): Ast.UnOp {
    if tok == BANG then Ast.Bang else if tok == MINUS then Ast.Neg else Ast.Tilde
  }

  function BinOpOf(tok: Token): Ast.BinOp {
    match tok
    case OROR => Ast.OrOr
    case ANDAND => Ast.AndAnd
    case PIPE => Ast.BitOr
    case CARET => Ast.BitXor
    case AMP => Ast.BitAnd
    case EQ => Ast.EqEq
    case NE => Ast.NotEq
    case LT => Ast.Lt
    case LE => Ast.Le
    case GT => Ast.Gt
    case GE => Ast.Ge
    case SHL => Ast.Shl
    case SHR => Ast.Shr
    case PLUS => Ast.Plus
    case MINUS => Ast.Minus
    case STAR => Ast.Star
    case SLASH => Ast.Slash
    case _ => Ast.Percent
  }

  /** The expression an atom stands for. */
  function AtomExpr(tok: Token): Ast.Expr {
    match tok
    case IDENT(lit) => Ast.Ident(lit)
    case INT(value) => Ast.Lit(Ast.LInt(value))
    case FLOAT(bits) => Ast.Lit(Ast.LFloat(bits))
    case STRING(lit) => Ast.Lit(Ast.LStr(lit))
    case TRUE => Ast.Lit(Ast.LBool(true))
    case FALSE => Ast.Lit(Ast.LBool(false))
    case _ => Ast.Lit(Ast.LNull)
  }

  function NameText(tok: Token): Text { if tok.IDENT? || tok.STRING? then tok.lit else [] }

  /** The syntax tree of a concrete tree: brackets and trailing commas leave no trace. */
  function Strip(t: Tree): Ast.Expr
    decreases t, 0
  {
    match t
    case Atom(tok) => AtomExpr(tok)
    case Paren(x) => Strip(x)
    case Un(tok, x) => Ast.Unary(UnOpOf(tok), Strip(x))
    case Bin(tok, l, r) => Ast.Binary(BinOpOf(tok), Strip(l), Strip(r))
    case Cond(c, a, b) => Ast.Ternary(Strip(c), Strip(a), Strip(b))
    case Call(f, args) => Ast.Call(Strip(f), StripList(args))
    case Idx(x, i) => Ast.Index(Strip(x), Strip(i))
    case Dot(x, name) => Ast.Field(Strip(x), NameText(name))
    case Arr(elts, _) => Ast.ArrayLit(StripList(elts))
    case Map(entries, _) => Ast.MapLit(StripEntries(entries))
  }

  function StripList(ts: seq<Tree>): (r: seq<Ast.Expr>)
    ensures |r| == |ts|
    decreases ts, 0
  {
    if ts == [] then [] else [Strip(ts[0])] + StripList(ts[1..])
  }

  function StripKey(k: Key): Ast.Expr
    decreases k, 0
  {
    match k
    case Name(tok) => Ast.Lit(Ast.LStr(NameText(tok)))
    case Computed(t) => Strip(t)
  }

  function StripEntry(e: Entry): Ast.Entry
    decreases e, 0
  {
    Ast.Entry(StripKey(e.key), Strip(e.val))
  }

  function StripEntries(es: seq<Entry>): (r: seq<Ast.Entry>)
    ensures |r| == |es|
    decreases es, 0
  {
    if es == [] then [] else [StripEntry(es[0])] + StripEntries(es[1..])
  }

  lemma {:induction false} StripListMore(ts: seq<Tree>, t: Tree)
    ensures StripList(ts + [t]) == StripList(ts) + [Strip(t)]
    decreases |ts|
  {
    hide Strip;
    if ts == [] {
      assert [t][1..] == [];
      assert ts + [t] == [t];
    } else {
      assert (ts + [t])[1..] == ts[1..] + [t] && (ts + [t])[0] == ts[0];
      StripListMore(ts[1..], t);
    }
  }

  lemma {:induction false} StripEntriesMore(es: seq<Entry>, e: Entry)
    ensures StripEntries(es + [e]) == StripEntries(es) + [StripEntry(e)]
    decreases |es|
  {
    hide StripEntry;
    if es == [] {
      assert [e][1..] == [];
      assert es + [e] == [e];
    } else {
      assert (es + [e])[1..] == es[1..] + [e] && (es + [e])[0] == es[0];
      StripEntriesMore(es[1..], e);
    }
  }

  /** A list that is read after `done`. */
  function After(done: seq<Tree>, r: OutList): OutList {
    if r.FailList? then FailList else Oks(done + r.ts, r.trailing, r.next)
  }

  function AfterEntries(done: seq<Entry>, r: OutEntries): OutEntries {
    if r.FailEntries? then FailEntries else Entries(done + r.es, r.trailing, r.next)
  }

  function ArgList(toks: seq<Token>, i: nat): OutList {
    if Tok(toks, i) == RPAREN then Oks([], false, i) else ParseArgs(toks, i)
  }

  function EltList(toks: seq<Token>, i: nat): OutList {
    if Tok(toks, i) == RBRACK then Oks([], false, i) else ParseElts(toks, i)
  }

  function EntryList(toks: seq<Token>, i: nat): OutEntries {
    if Tok(toks, i) == RBRACE then Entries([], false, i) else ParseEntries(toks, i)
  }

  function ReadKey(toks: seq<Token>, i: nat): (r: Out)
    ensures r.Ok? ==> i < r.next <= |toks|
  {
    if IsName(Tok(toks, i)) then Ok(Atom(Tok(toks, i)), i + 1) else ParseTernary(toks, i)
  }

  /** One entry of a map, what follows it left unread. */
  function ReadEntry(toks: seq<Token>, i: nat): (r: OutEntries)
    ensures r.Entries? ==> i < r.next <= |toks| && |r.es| == 1
  {
    var k := ReadKey(toks, i);
    if k.Fail? || Tok(toks, k.next) != COLON then FailEntries else
    var v := ParseTernary(toks, k.next + 1);
    if v.Fail? then FailEntries
    else Entries([Entry(if IsName(Tok(toks, i)) then Name(Tok(toks, i)) else Computed(k.t), v.t)], false, v.next)
  }

  // ---- one step of the specification, one step of Strip ----

  /** What parseTernary makes of a condition with a question mark behind. */
  function CondFrom(toks: seq<Token>, c: Out): Out
    requires c.Ok? ==> 0 <= c.next
  {
    if c.Fail? then Fail else
    var a := ParseTernary(toks, c.next + 1);
    if a.Fail? || Tok(toks, a.next) != COLON then Fail else
    var b := ParseTernary(toks, a.next + 1);
    if b.Fail? then Fail else Ok(Cond(c.t, a.t, b.t), b.next)
  }

  lemma {:induction false} TernaryRest(toks: seq<Token>, i: nat)
    ensures
      var c := ParseBinary(toks, i, 1);
      ParseTernary(toks, i) == if c.Fail? || Tok(toks, c.next) != QUESTION then c else CondFrom(toks, c)
  {
    hide ParseTernary, ParseBinary;
    TernaryIs(toks, i);
  }

  lemma {:induction false} BinaryIs(toks: seq<Token>, i: nat, minPrec: nat)
    ensures var u := ParseUnary(toks, i); ParseBinary(toks, i, minPrec) == if u.Fail? then Fail
      else Climb(toks, u.t, u.next, minPrec)
  {
  }

  lemma {:induction false} ClimbIs(toks: seq<Token>, t: Tree, j: nat, minPrec: nat)
    requires j <= |toks|
    ensures
      var pr := PrecOf(Tok(toks, j));
      Climb(toks, t, j, minPrec) ==
      if pr < minPrec || pr == 0 then Ok(t, j) else
      var right := ParseBinary(toks, j + 1, pr + 1);
      if right.Fail? then Fail else Climb(toks, Bin(Tok(toks, j), t, right.t), right.next, minPrec)
  {
  }

  lemma {:induction false} PostfixStarts(toks: seq<Token>, i: nat)
    ensures
      var p := ParsePrimary(toks, i);
      ParsePostfix(toks, i) == if p.Fail? then Fail else PostLoop(toks, p.t, p.next)
  {
  }

  lemma {:induction false} PostLoopIs(toks: seq<Token>, x: Tree, j: nat)
    requires j <= |toks|
    ensures Tok(toks, j) == LPAREN ==>
      var args := ArgList(toks, j + 1);
      PostLoop(toks, x, j) ==
      if args.FailList? || Tok(toks, args.next) != RPAREN then Fail else PostLoop(toks, Call(x, args.ts), args.next + 1)
    ensures Tok(toks, j) == LBRACK ==>
      var i := ParseTernary(toks, j + 1);
      PostLoop(toks, x, j) ==
      if i.Fail? || Tok(toks, i.next) != RBRACK then Fail else PostLoop(toks, Idx(x, i.t), i.next + 1)
    ensures Tok(toks, j) == DOT ==>
      PostLoop(toks, x, j) ==
      if Tok(toks, j + 1).IDENT? then PostLoop(toks, Dot(x, Tok(toks, j + 1)), j + 2) else Fail
    ensures !Continues(Tok(toks, j)) ==> PostLoop(toks, x, j) == Ok(x, j)
  {
    hide ParseTernary, ParseArgs, Tok, PrecOf;
  }

  /** From tree t at i, standing for f, the loop of parsePostfix has got to u at j, standing for e; or it fails. */
  predicate Stepped(toks: seq<Token>, i: nat, f: Ast.Expr, t: Tree, ok: bool, e: Ast.Expr, u: Tree, j: nat)
    requires i <= |toks|
  {
    f == Strip(t) ==>
      if ok then j <= |toks| && e == Strip(u) && PostLoop(toks, t, i) == PostLoop(toks, u, j)
        else PostLoop(toks, t, i).Fail?
  }

  /** The loop cannot go on from here. */
  predicate Stuck(toks: seq<Token>, i: nat, t: Tree)
    requires i <= |toks|
  {
    PostLoop(toks, t, i).Fail?
  }

  lemma {:induction false} StepFails(toks: seq<Token>, i: nat, f: Ast.Expr, t: Tree, e: Ast.Expr, u: Tree, j: nat)
    requires i <= |toks| && Stuck(toks, i, t)
    ensures Stepped(toks, i, f, t, false, e, u, j)
  {
  }

  /** What remains of the outcome r of parsePostfix: the loop, from t at j. */
  predicate Along(toks: seq<Token>, r: Out, e: Ast.Expr, t: Tree, j: nat) {
    j <= |toks| && e == Strip(t) && r == PostLoop(toks, t, j)
  }

  lemma {:induction false} AlongStarts(toks: seq<Token>, r: Out, e: Ast.Expr, t: Tree, j: nat)
    requires j <= |toks| && e == Strip(t) && r == PostLoop(toks, t, j)
    ensures Along(toks, r, e, t, j)
  {
  }

  lemma {:induction false} AlongGoes(toks: seq<Token>, r: Out, i: nat, f: Ast.Expr, t: Tree, ok: bool, e: Ast.Expr,
    u: Tree, j: nat)
    requires Along(toks, r, f, t, i) && Stepped(toks, i, f, t, ok, e, u, j)
    ensures if ok then Along(toks, r, e, u, j) else r.Fail?
  {
    hide Strip, PostLoop;
  }

  lemma {:induction false} AlongEnds(toks: seq<Token>, r: Out, e: Ast.Expr, t: Tree, j: nat)
    requires Along(toks, r, e, t, j)
    ensures j <= |toks|
    ensures !Continues(Tok(toks, j)) ==> r.Ok? && e == Strip(r.t) && r.next == j
  {
    hide Strip, PostLoop;
    PostLoopIs(toks, t, j);
  }

  /** What remains of a list r: `rest`, after the trees `done`, which stand for es. */
  predicate Ahead(r: OutList, done: seq<Tree>, es: seq<Ast.Expr>, rest: OutList) {
    es == StripList(done) && r == After(done, rest)
  }

  predicate Reached(r: OutList, es: seq<Ast.Expr>, j: nat) {
    r.Oks? && es == StripList(r.ts) && j == r.next
  }

  lemma {:induction false} ReachedIs(r: OutList, es: seq<Ast.Expr>, j: nat)
    requires Reached(r, es, j)
    ensures r.Oks? && es == StripList(r.ts) && j == r.next
  {
  }

  lemma {:induction false} AheadStarts(r: OutList)
    ensures Ahead(r, [], [], r)
  {
    if r.Oks? {
      assert [] + r.ts == r.ts;
    }
  }

  lemma {:induction false} ArgsGo(toks: seq<Token>, i: nat, r: OutList, done: seq<Tree>, es: seq<Ast.Expr>)
    requires Ahead(r, done, es, ParseArgs(toks, i))
    ensures
      var a := ParseTernary(toks, i);
      if a.Fail? then r.FailList?
      else if Tok(toks, a.next) != COMMA then Reached(r, es + [Strip(a.t)], a.next)
      else Ahead(r, done + [a.t], es + [Strip(a.t)], ParseArgs(toks, a.next + 1))
  {
    hide ParseTernary, ParseArgs, Strip, StripList, Tok;
    ArgsAre(toks, i);
    var a := ParseTernary(toks, i);
    if a.Ok? {
      StripListMore(done, a.t);
      AfterMore(done, a.t, ParseArgs(toks, a.next + 1));
    }
  }

  lemma {:induction false} EltsGo(toks: seq<Token>, i: nat, r: OutList, done: seq<Tree>, es: seq<Ast.Expr>)
    requires Ahead(r, done, es, ParseElts(toks, i))
    ensures
      var a := ParseTernary(toks, i);
      if a.Fail? then r.FailList?
      else if Tok(toks, a.next) != COMMA then Reached(r, es + [Strip(a.t)], a.next)
      else if Tok(toks, a.next + 1) == RBRACK then Reached(r, es + [Strip(a.t)], a.next + 1)
      else Ahead(r, done + [a.t], es + [Strip(a.t)], ParseElts(toks, a.next + 1))
  {
    hide ParseTernary, ParseElts, Strip, StripList, Tok;
    EltsAre(toks, i);
    var a := ParseTernary(toks, i);
    if a.Ok? {
      StripListMore(done, a.t);
      AfterMore(done, a.t, ParseElts(toks, a.next + 1));
    }
  }

  predicate AheadEntries(r: OutEntries, done: seq<Entry>, es: seq<Ast.Entry>, rest: OutEntries) {
    es == StripEntries(done) && r == AfterEntries(done, rest)
  }

  predicate ReachedEntries(r: OutEntries, es: seq<Ast.Entry>, j: nat) {
    r.Entries? && es == StripEntries(r.es) && j == r.next
  }

  lemma {:induction false} ReachedEntriesIs(r: OutEntries, es: seq<Ast.Entry>, j: nat)
    requires ReachedEntries(r, es, j)
    ensures r.Entries? && es == StripEntries(r.es) && j == r.next
  {
  }

  lemma {:induction false} AheadEntriesStarts(r: OutEntries)
    ensures AheadEntries(r, [], [], r)
  {
    if r.Entries? {
      assert [] + r.es == r.es;
    }
  }

  lemma {:induction false} EntriesGo(toks: seq<Token>, i: nat, r: OutEntries, done: seq<Entry>, es: seq<Ast.Entry>)
    requires AheadEntries(r, done, es, ParseEntries(toks, i))
    ensures
      var a := ReadEntry(toks, i);
      if a.FailEntries? then r.FailEntries?
      else if Tok(toks, a.next) != COMMA then ReachedEntries(r, es + [StripEntry(a.es[0])], a.next)
      else if Tok(toks, a.next + 1) == RBRACE then ReachedEntries(r, es + [StripEntry(a.es[0])], a.next + 1)
      else AheadEntries(r, done + [a.es[0]], es + [StripEntry(a.es[0])], ParseEntries(toks, a.next + 1))
  {
    hide ReadEntry, ParseEntries, StripEntry, StripEntries, Tok;
    EntriesAre(toks, i);
    var a := ReadEntry(toks, i);
    if a.Entries? {
      assert a.es == [a.es[0]];
      StripEntriesMore(done, a.es[0]);
      AfterEntriesMore(done, a.es[0], ParseEntries(toks, a.next + 1));
    }
  }

  lemma {:induction false} CallStepped(toks: seq<Token>, i: nat, f: Ast.Expr, t: Tree)
    requires Tok(toks, i) == LPAREN
    ensures
      var list := ArgList(toks, i + 1);
      if list.Oks? && Tok(toks, list.next) == RPAREN
      then Stepped(toks, i, f, t, true, Ast.Call(f, StripList(list.ts)), Call(t, list.ts), list.next + 1)
      else Stuck(toks, i, t)
  {
    hide Strip, PostLoop, ParseArgs, StripList, ArgList;
    PostLoopIs(toks, t, i);
    var list := ArgList(toks, i + 1);
    if list.Oks? {
      StripCall(t, list.ts);
    }
  }

  lemma {:induction false} IdxStepped(toks: seq<Token>, i: nat, x: Ast.Expr, t: Tree)
    requires Tok(toks, i) == LBRACK
    ensures
      var r := ParseTernary(toks, i + 1);
      if r.Ok? && Tok(toks, r.next) == RBRACK
      then Stepped(toks, i, x, t, true, Ast.Index(x, Strip(r.t)), Idx(t, r.t), r.next + 1)
      else Stuck(toks, i, t)
  {
    hide Strip, PostLoop, ParseTernary;
    PostLoopIs(toks, t, i);
    var r := ParseTernary(toks, i + 1);
    if r.Ok? {
      StripIdx(t, r.t);
    }
  }

  lemma {:induction false} DotStepped(toks: seq<Token>, i: nat, x: Ast.Expr, t: Tree)
    requires Tok(toks, i) == DOT
    ensures
      var name := Tok(toks, i + 1);
      if name.IDENT? then Stepped(toks, i, x, t, true, Ast.Field(x, NameText(name)), Dot(t, name), i + 2)
        else Stuck(toks, i, t)
  {
    hide Strip, PostLoop;
    PostLoopIs(toks, t, i);
    StripDot(t, Tok(toks, i + 1));
  }

  lemma {:induction false} ArgsAre(toks: seq<Token>, i: nat)
    ensures
      var a := ParseTernary(toks, i);
      ParseArgs(toks, i) ==
      if a.Fail? then FailList
      else if Tok(toks, a.next) != COMMA then Oks([a.t], false, a.next)
      else After([a.t], ParseArgs(toks, a.next + 1))
  {
    hide ParseTernary;
  }

  lemma {:induction false} EltsAre(toks: seq<Token>, i: nat)
    ensures
      var a := ParseTernary(toks, i);
      ParseElts(toks, i) ==
      if a.Fail? then FailList
      else if Tok(toks, a.next) != COMMA then Oks([a.t], false, a.next)
      else if Tok(toks, a.next + 1) == RBRACK then Oks([a.t], true, a.next + 1)
      else After([a.t], ParseElts(toks, a.next + 1))
  {
    hide ParseTernary;
  }

  lemma {:induction false} EntriesAre(toks: seq<Token>, i: nat)
    ensures
      var a := ReadEntry(toks, i);
      ParseEntries(toks, i) ==
      if a.FailEntries? then FailEntries
      else if Tok(toks, a.next) != COMMA then Entries(a.es, false, a.next)
      else if Tok(toks, a.next + 1) == RBRACE then Entries(a.es, true, a.next + 1)
      else AfterEntries(a.es, ParseEntries(toks, a.next + 1))
  {
    hide ParseTernary, IsName;
  }

  lemma {:induction false} AfterMore(done: seq<Tree>, t: Tree, rest: OutList)
    ensures After(done, After([t], rest)) == After(done + [t], rest)
  {
    if rest.Oks? {
      assert done + ([t] + rest.ts) == done + [t] + rest.ts;
    }
  }

  lemma {:induction false} AfterEntriesMore(done: seq<Entry>, e: Entry, rest: OutEntries)
    ensures AfterEntries(done, AfterEntries([e], rest)) == AfterEntries(done + [e], rest)
  {
    if rest.Entries? {
      assert done + ([e] + rest.es) == done + [e] + rest.es;
    }
  }

  lemma {:induction false} TokIn(toks: seq<Token>, i: nat)
    ensures Tok(toks, i) != EOF ==> i < |toks|
  {
  }

  lemma {:induction false} StripNone()
    ensures StripList([]) == [] && StripEntries([]) == []
  {
  }

  lemma {:induction false} StripAtom(tok: Token)
    ensures Strip(Atom(tok)) == AtomExpr(tok)
  {
  }

  lemma {:induction false} StripParen(x: Tree)
    ensures Strip(Paren(x)) == Strip(x)
  {
  }

  lemma {:induction false} StripUn(op: Token, x: Tree)
    ensures Strip(Un(op, x)) == Ast.Unary(UnOpOf(op), Strip(x))
  {
  }

  lemma {:induction false} StripBin(op: Token, l: Tree, r: Tree)
    ensures Strip(Bin(op, l, r)) == Ast.Binary(BinOpOf(op), Strip(l), Strip(r))
  {
  }

  lemma {:induction false} StripCond(c: Tree, a: Tree, b: Tree)
    ensures Strip(Cond(c, a, b)) == Ast.Ternary(Strip(c), Strip(a), Strip(b))
  {
  }

  lemma {:induction false} StripCall(f: Tree, args: seq<Tree>)
    ensures Strip(Call(f, args)) == Ast.Call(Strip(f), StripList(args))
  {
  }

  lemma {:induction false} StripIdx(x: Tree, i: Tree)
    ensures Strip(Idx(x, i)) == Ast.Index(Strip(x), Strip(i))
  {
  }

  lemma {:induction false} StripDot(x: Tree, name: Token)
    ensures Strip(Dot(x, name)) == Ast.Field(Strip(x), NameText(name))
  {
  }

  lemma {:induction false} StripArr(ts: seq<Tree>, trailing: bool)
    ensures Strip(Arr(ts, trailing)) == Ast.ArrayLit(StripList(ts))
  {
  }

  lemma {:induction false} StripMap(es: seq<Entry>, trailing: bool)
    ensures Strip(Map(es, trailing)) == Ast.MapLit(StripEntries(es))
  {
  }

  lemma {:induction false} StripEntryIs(e: Entry)
    ensures StripEntry(e) ==
      Ast.Entry(match e.key case Name(tok) => Ast.Lit(Ast.LStr(NameText(tok))) case Computed(t) => Strip(t),
      Strip(e.val))
  {
  }

  datatype ParseError = Expected(want: Token, got: Token) | NoIdent(got: Token) | Unexpected(got: Token)

  /** Errors are only added: the first, which is the one reported, stays. */
  predicate Kept(before: seq<ParseError>, after: seq<ParseError>) {
    |before| <= |after| && (before != [] ==> after[0] == before[0])
  }

  /** What a method did is what r says: no error is added exactly when r succeeds. */
  predicate Did(before: seq<ParseError>, after: seq<ParseError>, j: nat, r: Out, e: Ast.Expr) {
    Kept(before, after) && (|after| == |before| <==> r.Ok?) && (r.Ok? ==> e == Strip(r.t) && j == r.next)
  }

  predicate DidList(before: seq<ParseError>, after: seq<ParseError>, j: nat, r: OutList, es: seq<Ast.Expr>) {
    Kept(before, after) && (|after| == |before| <==> r.Oks?) && (r.Oks? ==> es == StripList(r.ts) && j == r.next)
  }

  predicate DidEntries(before: seq<ParseError>, after: seq<ParseError>, j: nat, r: OutEntries, es: seq<Ast.Entry>) {
    Kept(before, after) && (|after| == |before| <==> r.Entries?)
      && (r.Entries? ==> es == StripEntries(r.es) && j == r.next)
  }

  /** How many tokens are left. */
  function Left(toks: seq<Token>, i: nat): nat { if i <= |toks| then |toks| - i else 0 }

  class Parser {
    const toks: seq<Token>
    var read: nat
    var cur: Token
    var peek: Token
    var errs: seq<ParseError>
    ghost var pos: nat  // of cur among toks

    ghost predicate Valid()
      reads this
    {
      read == pos + 2 && cur == Tok(toks, pos) && peek == Tok(toks, pos + 1)
    }

    constructor (toks: seq<Token>)
      ensures Valid() && this.toks == toks && pos == 0 && errs == []
    {
      this.toks := toks;
      read, cur, peek, errs, pos := 2, Tok(toks, 0), Tok(toks, 1), [], 0;
    }

    method Next()
      requires Valid()
      modifies `read, `cur, `peek, `pos
      ensures Valid() && pos == old(pos) + 1 && (old(cur) != EOF ==> Left(toks, pos) < old(Left(toks, pos)))
    {
      cur := peek;
      peek := Tok(toks, read);
      read := read + 1;
      pos := pos + 1;
    }

    method Expect(want: Token)
      requires Valid() && want != EOF
      modifies this
      ensures Valid() && Kept(old(errs), errs)
      ensures |errs| == |old(errs)| <==> Tok(toks, old(pos)) == want
      ensures pos == old(pos) + if |errs| == |old(errs)| then 1 else 0
    {
      if cur != want {
        errs := errs + [Expected(want, cur)];
      } else {
        Next();
      }
    }

    method ExpectIdent() returns (t: Token)
      requires Valid()
      modifies this
      ensures Valid() && Kept(old(errs), errs) && t == Tok(toks, old(pos))
      ensures |errs| == |old(errs)| <==> t.IDENT?
      ensures pos == old(pos) + if |errs| == |old(errs)| then 1 else 0
    {
      t := cur;
      if !cur.IDENT? {
        errs := errs + [NoIdent(cur)];
      } else {
        Next();
      }
    }

    method Match(want: Token) returns (found: bool)
      requires Valid() && want != EOF
      modifies `read, `cur, `peek, `pos
      ensures Valid() && found == (Tok(toks, old(pos)) == want) && pos == old(pos) + (if found then 1 else 0)
        && (found ==> Left(toks, pos) < old(Left(toks, pos)))
    {
      found := cur == want;
      if found {
        Next();
      }
    }

    method ParseExpr() returns (e: Ast.Expr)
      requires Valid()
      modifies this
      ensures Valid() && pos >= old(pos) && Did(old(errs), errs, pos, ParseTernary(toks, old(pos)), e)
      decreases Left(toks, pos), 6
    {
      hide Strip, ParseTernary, ParseBinary, CondFrom, Tok;
      TernaryRest(toks, pos);
      ghost var c := ParseBinary(toks, pos, 1);
      e := Binary(1);
      if cur == QUESTION {
        e := CondTail(e, c);
      }
    }

    /** From the question mark on. */
    method CondTail(cond: Ast.Expr, ghost c: Out) returns (e: Ast.Expr)
      requires Valid() && cur == QUESTION
      modifies this
      ensures Valid() && pos >= old(pos) && Kept(old(errs), errs)
      ensures c.Ok? && c.next == old(pos) && cond == Strip(c.t) ==> Did(old(errs), errs, pos, CondFrom(toks, c), e)
      decreases Left(toks, pos), 5
    {
      hide Strip, ParseTernary, Tok;
      Next();
      ghost var a := ParseTernary(toks, pos);
      var thn := ParseExpr();
      Expect(COLON);
      ghost var b := ParseTernary(toks, pos);
      var els := ParseExpr();
      e := Ast.Ternary(cond, thn, els);
      if |errs| == |old(errs)| && c.Ok? {
        StripCond(c.t, a.t, b.t);
      }
    }

    method Binary(minPrec: nat) returns (left: Ast.Expr)
      requires Valid()
      modifies this
      ensures Valid() && pos >= old(pos) && Did(old(errs), errs, pos, ParseBinary(toks, old(pos), minPrec), left)
      decreases Left(toks, pos), 5
    {
      hide Tok, Strip, ParseBinary, ParseUnary, Climb;
      TokIn(toks, pos);
      ghost var i := pos;
      BinaryIs(toks, i, minPrec);
      ghost var r := ParseBinary(toks, i, minPrec);
      left := Unary();
      ghost var t := if |errs| == |old(errs)| then ParseUnary(toks, i).t else Atom(EOF);
      while true
        invariant Valid() && pos >= old(pos) && Kept(old(errs), errs)
        invariant |errs| == |old(errs)| ==> pos <= |toks| && left == Strip(t) && r == Climb(toks, t, pos, minPrec)
        invariant |errs| > |old(errs)| ==> r.Fail?
        decreases Left(toks, pos)
      {
        var pr := PrecOf(cur);
        if |errs| == |old(errs)| {
          ClimbIs(toks, t, pos, minPrec);
        }
        if pr < minPrec || pr == 0 {
          break;
        }
        var op := cur;
        Next();
        ghost var right := ParseBinary(toks, pos, pr + 1);
        var x := Binary(pr + 1);
        if |errs| == |old(errs)| {
          StripBin(op, t, right.t);
          t := Bin(op, t, right.t);
        }
        left := Ast.Binary(BinOpOf(op), left, x);
      }
    }

    method Unary() returns (e: Ast.Expr)
      requires Valid()
      modifies this
      ensures Valid() && pos >= old(pos) && Did(old(errs), errs, pos, ParseUnary(toks, old(pos)), e)
      decreases Left(toks, pos), 4
    {
      hide Tok, Strip, ParsePostfix;
      TokIn(toks, pos);
      if cur == BANG || cur == MINUS || cur == TILDE {
        var op := cur;
        Next();
        ghost var r := ParseUnary(toks, pos);
        var x := Unary();
        e := Ast.Unary(UnOpOf(op), x);
        if |errs| == |old(errs)| {
          StripUn(op, r.t);
        }
      } else {
        e := Postfix();
      }
    }

    method Postfix() returns (e: Ast.Expr)
      requires Valid()
      modifies this
      ensures Valid() && pos >= old(pos) && Did(old(errs), errs, pos, ParsePostfix(toks, old(pos)), e)
      decreases Left(toks, pos), 3
    {
      hide Tok, Strip, ParsePostfix, ParsePrimary, PostLoop, StripList, Along, Stepped;
      TokIn(toks, pos);
      ghost var i := pos;
      PostfixStarts(toks, i);
      ghost var r := ParsePostfix(toks, i);
      e := Primary();
      ghost var t := if |errs| == |old(errs)| then ParsePrimary(toks, i).t else Atom(EOF);
      if |errs| == |old(errs)| {
        AlongStarts(toks, r, e, t, pos);
      }
      while true
        invariant Valid() && pos >= old(pos) && Kept(old(errs), errs)
        invariant |errs| == |old(errs)| ==> Along(toks, r, e, t, pos)
        invariant |errs| > |old(errs)| ==> r.Fail?
        decreases Left(toks, pos)
      {
        TokIn(toks, pos);
        ghost var i, f, u, ok := pos, e, t, |errs| == |old(errs)|;
        if ok {
          AlongEnds(toks, r, e, t, i);
        }
        if cur == LPAREN {
          e, t := CallTail(e, t);
        } else if cur == LBRACK {
          e, t := IndexTail(e, t);
        } else if cur == DOT {
          e, t := FieldTail(e, t);
        } else {
          break;
        }
        if ok {
          AlongGoes(toks, r, i, f, u, |errs| == |old(errs)|, e, t, pos);
        }
      }
    }

    method CallTail(f: Ast.Expr, ghost t: Tree) returns (e: Ast.Expr, ghost u: Tree)
      requires Valid() && cur == LPAREN
      modifies this
      ensures Valid() && pos > old(pos) && Kept(old(errs), errs)
      ensures Stepped(toks, old(pos), f, t, |errs| == |old(errs)|, e, u, pos)
      decreases Left(toks, pos), 2
    {
      hide Tok, Strip, ParseArgs, StripList, ArgList, Stepped;
      TokIn(toks, pos);
      CallStepped(toks, pos, f, t);
      Next();
      ghost var list := ArgList(toks, pos);
      var args := Args();
      Expect(RPAREN);
      e := Ast.Call(f, args);
      u := if list.Oks? then Call(t, list.ts) else t;
      if |errs| != |old(errs)| {
        StepFails(toks, old(pos), f, t, e, u, pos);
      }
    }

    method IndexTail(x: Ast.Expr, ghost t: Tree) returns (e: Ast.Expr, ghost u: Tree)
      requires Valid() && cur == LBRACK
      modifies this
      ensures Valid() && pos > old(pos) && Kept(old(errs), errs)
      ensures Stepped(toks, old(pos), x, t, |errs| == |old(errs)|, e, u, pos)
      decreases Left(toks, pos), 2
    {
      hide Tok, Strip, ParseTernary, Stepped;
      TokIn(toks, pos);
      IdxStepped(toks, pos, x, t);
      Next();
      ghost var r := ParseTernary(toks, pos);
      var idx := ParseExpr();
      Expect(RBRACK);
      e := Ast.Index(x, idx);
      u := if r.Ok? then Idx(t, r.t) else t;
      if |errs| != |old(errs)| {
        StepFails(toks, old(pos), x, t, e, u, pos);
      }
    }

    method FieldTail(x: Ast.Expr, ghost t: Tree) returns (e: Ast.Expr, ghost u: Tree)
      requires Valid() && cur == DOT
      modifies this
      ensures Valid() && pos > old(pos) && Kept(old(errs), errs)
      ensures Stepped(toks, old(pos), x, t, |errs| == |old(errs)|, e, u, pos)
    {
      hide Tok, Strip, Stepped;
      TokIn(toks, pos);
      DotStepped(toks, pos, x, t);
      Next();
      var name := ExpectIdent();
      e := Ast.Field(x, NameText(name));
      u := Dot(t, name);
      if |errs| != |old(errs)| {
        StepFails(toks, old(pos), x, t, e, u, pos);
      }
    }

    /** The arguments up to the closing bracket, which is still to come. */
    method Args() returns (args: seq<Ast.Expr>)
      requires Valid()
      modifies this
      ensures Valid() && pos >= old(pos) && DidList(old(errs), errs, pos, ArgList(toks, old(pos)), args)
      decreases Left(toks, pos), 8
    {
      hide Tok, ParseTernary, ParseArgs, Strip, StripList, Ahead, Reached;
      args := [];
      if cur == RPAREN {
        StripNone();
        return;
      }
      ghost var r := ParseArgs(toks, pos);
      ghost var done: seq<Tree> := [];
      AheadStarts(r);
      var more := true;
      while more
        invariant Valid() && pos >= old(pos) && Kept(old(errs), errs)
        invariant |errs| == |old(errs)| ==> if more then Ahead(r, done, args, ParseArgs(toks, pos))
          else Reached(r, args, pos)
        invariant |errs| > |old(errs)| ==> r.FailList?
        decreases more, Left(toks, pos)
      {
        args, more, done := Arg(args, r, done);
      }
      if |errs| == |old(errs)| {
        ReachedIs(r, args, pos);
      }
    }

    /** One argument, and the comma that says another follows. */
    method Arg(args: seq<Ast.Expr>, ghost r: OutList, ghost done: seq<Tree>) returns (all: seq<Ast.Expr>, more: bool,
      ghost now: seq<Tree>)
      requires Valid()
      modifies this
      ensures Valid() && pos >= old(pos) && Kept(old(errs), errs) && (more ==> Left(toks, pos) < old(Left(toks, pos)))
      ensures Ahead(r, done, args, ParseArgs(toks, old(pos))) ==>
        if |errs| > |old(errs)| then r.FailList? else if more then Ahead(r, now, all, ParseArgs(toks, pos))
          else Reached(r, all, pos)
      decreases Left(toks, pos), 7
    {
      hide Tok, ParseTernary, ParseArgs, Strip, StripList, Ahead, Reached;
      ghost var a := ParseTernary(toks, pos);
      if Ahead(r, done, args, ParseArgs(toks, pos)) {
        ArgsGo(toks, pos, r, done, args);
      }
      var e := ParseExpr();
      all := args + [e];
      now := if a.Ok? then done + [a.t] else done;
      more := Match(COMMA);
    }

    method Primary() returns (e: Ast.Expr)
      requires Valid()
      modifies this
      ensures Valid() && pos >= old(pos) && Did(old(errs), errs, pos, ParsePrimary(toks, old(pos)), e)
      decreases Left(toks, pos), 2
    {
      hide Tok, Strip, ParseTernary, ParseElts, ParseEntries, StripList, StripEntries;
      TokIn(toks, pos);
      ghost var i := pos;
      var t := cur;
      if IsAtom(t) {
        Next();
        e := AtomExpr(t);
        StripAtom(t);
      } else if t == LPAREN {
        Next();
        ghost var x := ParseTernary(toks, pos);
        e := ParseExpr();
        Expect(RPAREN);
        if |errs| == |old(errs)| {
          StripParen(x.t);
        }
      } else if t == LBRACK {
        e := Array();
      } else if t == LBRACE {
        e := MapLit();
      } else {
        errs := errs + [Unexpected(t)];
        Next();
        e := Ast.Lit(Ast.LNull);
      }
    }

    method Array() returns (e: Ast.Expr)
      requires Valid() && cur == LBRACK
      modifies this
      ensures Valid() && pos >= old(pos) && Did(old(errs), errs, pos, ParsePrimary(toks, old(pos)), e)
      decreases Left(toks, pos), 1
    {
      hide Tok, Strip, ParseTernary, ParseElts, ParseEntries, StripList;
      TokIn(toks, pos);
      ghost var r := ParsePrimary(toks, pos);
      Expect(LBRACK);
      StripNone();
      ghost var list := EltList(toks, pos);
      var elts := Elements();
      Expect(RBRACK);
      e := Ast.ArrayLit(elts);
      if |errs| == |old(errs)| {
        StripArr(list.ts, list.trailing);
      }
    }

    /** The elements up to the closing bracket, which is still to come. */
    method Elements() returns (elts: seq<Ast.Expr>)
      requires Valid()
      modifies this
      ensures Valid() && pos >= old(pos) && DidList(old(errs), errs, pos, EltList(toks, old(pos)), elts)
      decreases Left(toks, pos), 8
    {
      hide Tok, ParseTernary, ParseElts, Strip, StripList, Ahead, Reached;
      elts := [];
      if cur == RBRACK {
        StripNone();
        return;
      }
      ghost var r := ParseElts(toks, pos);
      ghost var done: seq<Tree> := [];
      AheadStarts(r);
      var more := true;
      while more
        invariant Valid() && pos >= old(pos) && Kept(old(errs), errs)
        invariant |errs| == |old(errs)| ==> if more then Ahead(r, done, elts, ParseElts(toks, pos))
          else Reached(r, elts, pos)
        invariant |errs| > |old(errs)| ==> r.FailList?
        decreases more, Left(toks, pos)
      {
        elts, more, done := Element(elts, r, done);
      }
      if |errs| == |old(errs)| {
        ReachedIs(r, elts, pos);
      }
    }

    /** One element, and the comma that says another follows. */
    method Element(elts: seq<Ast.Expr>, ghost r: OutList, ghost done: seq<Tree>) returns (all: seq<Ast.Expr>,
      more: bool, ghost now: seq<Tree>)
      requires Valid()
      modifies this
      ensures Valid() && pos >= old(pos) && Kept(old(errs), errs) && (more ==> Left(toks, pos) < old(Left(toks, pos)))
      ensures Ahead(r, done, elts, ParseElts(toks, old(pos))) ==>
        if |errs| > |old(errs)| then r.FailList? else if more then Ahead(r, now, all, ParseElts(toks, pos))
          else Reached(r, all, pos)
      decreases Left(toks, pos), 7
    {
      hide Tok, ParseTernary, ParseElts, Strip, StripList, Ahead, Reached;
      ghost var a := ParseTernary(toks, pos);
      if Ahead(r, done, elts, ParseElts(toks, pos)) {
        EltsGo(toks, pos, r, done, elts);
      }
      var e := ParseExpr();
      all := elts + [e];
      now := if a.Ok? then done + [a.t] else done;
      more := Match(COMMA);
      if more && cur == RBRACK {
        more := false;
      }
    }

    method MapLit() returns (e: Ast.Expr)
      requires Valid() && cur == LBRACE
      modifies this
      ensures Valid() && pos >= old(pos) && Did(old(errs), errs, pos, ParsePrimary(toks, old(pos)), e)
      decreases Left(toks, pos), 1
    {
      hide Tok, Strip, ParseTernary, ParseElts, ParseEntries, StripEntries, StripKey, StripEntry;
      TokIn(toks, pos);
      ghost var r := ParsePrimary(toks, pos);
      Expect(LBRACE);
      StripNone();
      ghost var list := EntryList(toks, pos);
      var entries := MapEntries();
      Expect(RBRACE);
      e := Ast.MapLit(entries);
      if |errs| == |old(errs)| {
        StripMap(list.es, list.trailing);
      }
    }

    /** The entries up to the closing brace, which is still to come. */
    method MapEntries() returns (entries: seq<Ast.Entry>)
      requires Valid()
      modifies this
      ensures Valid() && pos >= old(pos) && DidEntries(old(errs), errs, pos, EntryList(toks, old(pos)), entries)
      decreases Left(toks, pos), 9
    {
      hide Tok, ReadEntry, ParseEntries, StripEntry, StripEntries, AheadEntries, ReachedEntries;
      entries := [];
      if cur == RBRACE {
        StripNone();
        return;
      }
      ghost var r := ParseEntries(toks, pos);
      ghost var done: seq<Entry> := [];
      AheadEntriesStarts(r);
      var more := true;
      while more
        invariant Valid() && pos >= old(pos) && Kept(old(errs), errs)
        invariant |errs| == |old(errs)| ==> if more then AheadEntries(r, done, entries, ParseEntries(toks, pos))
          else ReachedEntries(r, entries, pos)
        invariant |errs| > |old(errs)| ==> r.FailEntries?
        decreases more, Left(toks, pos)
      {
        entries, more, done := NextEntry(entries, r, done);
      }
      if |errs| == |old(errs)| {
        ReachedEntriesIs(r, entries, pos);
      }
    }

    /** One entry, and the comma that says another follows. */
    method NextEntry(entries: seq<Ast.Entry>, ghost r: OutEntries, ghost done: seq<Entry>) returns (all: seq<Ast.Entry>,
      more: bool, ghost now: seq<Entry>)
      requires Valid()
      modifies this
      ensures Valid() && pos >= old(pos) && Kept(old(errs), errs) && (more ==> Left(toks, pos) < old(Left(toks, pos)))
      ensures AheadEntries(r, done, entries, ParseEntries(toks, old(pos))) ==>
        if |errs| > |old(errs)| then r.FailEntries? else if more then AheadEntries(r, now, all, ParseEntries(toks, pos))
          else ReachedEntries(r, all, pos)
      decreases Left(toks, pos), 8
    {
      hide Tok, ReadEntry, ParseEntries, StripEntry, StripEntries, AheadEntries, ReachedEntries;
      ghost var a := ReadEntry(toks, pos);
      if AheadEntries(r, done, entries, ParseEntries(toks, pos)) {
        EntriesGo(toks, pos, r, done, entries);
      }
      var e := MapEntry();
      all := entries + [e];
      now := if a.Entries? then done + [a.es[0]] else done;
      more := Match(COMMA);
      if more && cur == RBRACE {
        more := false;
      }
    }

    method MapEntry() returns (e: Ast.Entry)
      requires Valid()
      modifies this
      ensures Valid() && pos >= old(pos) && Kept(old(errs), errs)
      ensures var r := ReadEntry(toks, old(pos));
        (|errs| == |old(errs)| <==> r.Entries?) && (r.Entries? ==> e == StripEntry(r.es[0]) && pos == r.next)
      decreases Left(toks, pos), 7
    {
      hide Tok, Strip, ParseTernary, StripEntry;
      TokIn(toks, pos);
      var key: Ast.Expr;
      ghost var k := ReadKey(toks, pos);
      if cur.IDENT? || cur.STRING? {
        key := Ast.Lit(Ast.LStr(cur.lit));
        Next();
      } else {
        key := ParseExpr();
      }
      Expect(COLON);
      ghost var v := ParseTernary(toks, pos);
      var val := ParseExpr();
      e := Ast.Entry(key, val);
      if |errs| == |old(errs)| {
        StripEntryIs(ReadEntry(toks, old(pos)).es[0]);
      }
    }
  }

  /** Parsing a token list as one expression (ParseExpr). */
  method ParseAll(toks: seq<Token>) returns (e: Ast.Expr, errs: seq<ParseError>)
    ensures errs == [] <==> ParseTernary(toks, 0).Ok?
    ensures errs == [] ==> e == Strip(ParseTernary(toks, 0).t)
  {
    var p := new Parser(toks);
    e := p.ParseExpr();
    errs := p.errs;
  }
}
