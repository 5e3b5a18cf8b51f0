/** core/query/filter: expression trees, how they print, and the precedence-climbing parser as functions on tokens. */
module Filter {
  import opened Basics

  // ---------------------------------------------------------------- tokens and trees

  datatype BinaryOp = OR | AND | EQ

  /** operators.go. */
  function Precedence(op: BinaryOp): int
  {
    match op
    case OR => 1
    case AND => 2
    case EQ => 3
  }

  /** Integers and placeholders carry the number they denote, or nothing where it is out of range. */
  datatype Token =
    | Ident(name: string)
    | Operator(op: BinaryOp)
    | Dot
    | Open
    | Close
    | Str(lit: string)
    | Integer(value: Option<int>)
    | Placeholder(num: Option<int>)

  datatype Expr =
    | Binary(op: BinaryOp, l: Expr, r: Expr)
    | Attr(name: string)
    | Selector(obj: Expr, ident: string)
    | Paren(inner: Expr)
    | StrValue(lit: string)
    | IntValue(n: int)
    | Env(name: string, arg: Expr)
    | Param(num: int)

  /** expr.go: the String methods. */
  function Print(e: Expr): (ts: seq<Token>)
    ensures ts != []
  {
    match e
    case Binary(op, l, r) => Print(l) + [Operator(op)] + Print(r)
    case Attr(name) => [Ident(name)]
    case Selector(obj, ident) => Print(obj) + [Dot, Ident(ident)]
    case Paren(inner) => [Open] + Print(inner) + [Close]
    case StrValue(lit) => [Str(lit)]
    case IntValue(n) => [Integer(Some(n))]
    case Env(name, arg) => [Ident(name), Open] + Print(arg) + [Close]
    case Param(num) => [Placeholder(Some(num))]
  }

  // ---------------------------------------------------------------- the parser

  /** A tree and the tokens after it, or a parse error. */
  datatype Parsed = Ok(e: Expr, rest: seq<Token>) | Bad {
    predicate IsFailure() { Bad? }
    function PropagateFailure(): Parsed requires Bad? { Bad }
    function Extract(): (Expr, seq<Token>) requires Ok? { (e, rest) }
  }

  /** determineBinaryOp. */
  predicate NextOp(ts: seq<Token>, minPrecedence: int)
  {
    ts != [] && ts[0].Operator? && Precedence(ts[0].op) >= minPrecedence
  }

  ghost predicate Shorter(ts: seq<Token>, r: Parsed)
  {
    r.Ok? ==> |r.rest| < |ts|
  }

  ghost predicate NoLonger(ts: seq<Token>, r: Parsed)
  {
    r.Ok? ==> |r.rest| <= |ts|
  }

  function ParseExpr(ts: seq<Token>): (r: Parsed)
    ensures Shorter(ts, r)
    decreases |ts|, 5
  {
    var (x, rest) :- ParsePrimary(ts);
    ParseCont(rest, x, 0)
  }

  /** The outer loop of parseExprCont. */
  function ParseCont(ts: seq<Token>, lhs: Expr, minPrecedence: int): (r: Parsed)
    ensures NoLonger(ts, r)
    ensures NextOp(ts, minPrecedence) ==> Shorter(ts, r)
    decreases |ts|, 3
  {
    if !NextOp(ts, minPrecedence) then Ok(lhs, ts)
    else
      var op := ts[0].op;
      var (rhs, rest) :- ParsePrimary(ts[1..]);
      var (rhs, rest) :- ParseTighter(rest, rhs, Precedence(op));
      ParseCont(rest, Binary(op, lhs, rhs), minPrecedence)
  }

  /** The inner loop of parseExprCont: operators that bind tighter than the last one. */
  function ParseTighter(ts: seq<Token>, rhs: Expr, precedence: int): (r: Parsed)
    ensures NoLonger(ts, r)
    decreases |ts|, 4
  {
    if !NextOp(ts, precedence + 1) then Ok(rhs, ts)
    else
      var (rhs, rest) :- ParseCont(ts, rhs, Precedence(ts[0].op));
      ParseTighter(rest, rhs, precedence)
  }

  function ParsePrimary(ts: seq<Token>): (r: Parsed)
    ensures Shorter(ts, r)
    decreases |ts|, 2
  {
    var (x, rest) :- ParseOperand(ts);
    ParseSelectors(rest, x)
  }

  /** The selector loop of parsePrimaryExpr. */
  function ParseSelectors(ts: seq<Token>, x: Expr): (r: Parsed)
    ensures NoLonger(ts, r)
    decreases |ts|
  {
    if ts == [] || ts[0] != Dot then Ok(x, ts)
    else if |ts| < 2 || !ts[1].Ident? then Bad
    else ParseSelectors(ts[2..], Selector(x, ts[1].name))
  }

  function ParseOperand(ts: seq<Token>): (r: Parsed)
    ensures Shorter(ts, r)
    decreases |ts|, 1
  {
    if ts == [] then Bad
    else
      match ts[0]
      case Open =>
        var (inner, rest) :- ParseExpr(ts[1..]);
        if rest == [] || rest[0] != Close then Bad else Ok(Paren(inner), rest[1..])
      case Str(lit) => Ok(StrValue(lit), ts[1..])
      case Integer(value) => if value.None? then Bad else Ok(IntValue(value.value), ts[1..])
      case Placeholder(num) => if num.None? || num.value <= 0 then Bad else Ok(Param(num.value), ts[1..])
      case Ident(name) =>
        if |ts| < 2 || ts[1] != Open then Ok(Attr(name), ts[1..])
        else
          var (arg, rest) :- ParseExpr(ts[2..]);
          if rest == [] || rest[0] != Close then Bad else Ok(Env(name, arg), rest[1..])
      case _ => Bad
  }

  /** parse: an empty predicate is valid and has no tree. */
  datatype Predicate = Empty | Tree(e: Expr) | Invalid

  function Parse(ts: seq<Token>): Predicate
  {
    if ts == [] then Empty
    else
      match ParseExpr(ts)
      case Bad => Invalid
      case Ok(e, rest) => if rest == [] then Tree(e) else Invalid
  }

  // ---------------------------------------------------------------- the shape of parsed trees

  /** How tightly the top of a tree binds; everything but a binary expression binds tightest. */
  function Level(e: Expr): int
  {
    if e.Binary? then Precedence(e.op) else 4
  }

  /**
   * Left association and precedence: a left operand binds at least as tightly as its operator, a right
   * operand strictly tighter; a selector's object is no binary expression.
   */
  predicate Shaped(e: Expr)
  {
    match e
    case Binary(op, l, r) => Shaped(l) && Shaped(r) && Level(l) >= Precedence(op) && Level(r) > Precedence(op)
    case Selector(obj, _) => !obj.Binary? && Shaped(obj)
    case Paren(inner) => Shaped(inner)
    case Env(_, arg) => Shaped(arg)
    case Param(num) => num > 0
    case _ => true
  }

  /** The precedence of the operator that comes next, if one does. */
  predicate OpsBelow(ts: seq<Token>, bound: int)
  {
    ts != [] && ts[0].Operator? ==> Precedence(ts[0].op) <= bound
  }

  // ---------------------------------------------------------------- what is parsed prints back

  /** e and the tokens left are what x and ts were. */
  ghost predicate Accounts(x: Expr, ts: seq<Token>, r: Parsed)
  {
    r.Ok? ==> Print(x) + ts == Print(r.e) + r.rest && Shaped(r.e)
  }

  ghost predicate AccountsAll(ts: seq<Token>, r: Parsed)
  {
    r.Ok? ==> ts == Print(r.e) + r.rest && Shaped(r.e)
  }

  lemma {:induction false} SelectorsAccount(ts: seq<Token>, x: Expr)
    requires Shaped(x) && !x.Binary?
    ensures Accounts(x, ts, ParseSelectors(ts, x))
    ensures ParseSelectors(ts, x).Ok? ==> !ParseSelectors(ts, x).e.Binary?
    decreases |ts|
  {
    if ts != [] && ts[0] == Dot && |ts| >= 2 && ts[1].Ident? {
      var y := Selector(x, ts[1].name);
      SelectorsAccount(ts[2..], y);
      assert ts == [Dot, Ident(ts[1].name)] + ts[2..];
      assert Print(y) + ts[2..] == Print(x) + ts;
    }
  }

  lemma {:induction false} OperandAccounts(ts: seq<Token>)
    ensures AccountsAll(ts, ParseOperand(ts))
    ensures ParseOperand(ts).Ok? ==> !ParseOperand(ts).e.Binary?
    decreases |ts|, 1
  {
    if ts != [] && ParseOperand(ts).Ok? {
      var r := ParseOperand(ts);
      if ts[0] == Open {
        ExprAccounts(ts[1..]);
        var p := ParseExpr(ts[1..]);
        assert p.rest == [Close] + p.rest[1..];
        assert ts == [Open] + ts[1..];
        assert Print(r.e) + r.rest == [Open] + (Print(p.e) + ([Close] + p.rest[1..]));
      } else if ts[0].Ident? && |ts| >= 2 && ts[1] == Open {
        ExprAccounts(ts[2..]);
        var p := ParseExpr(ts[2..]);
        assert p.rest == [Close] + p.rest[1..];
        assert ts == [ts[0], Open] + ts[2..];
        assert Print(r.e) + r.rest == [ts[0], Open] + (Print(p.e) + ([Close] + p.rest[1..]));
      } else {
        assert ts == [ts[0]] + ts[1..];
      }
    }
  }

  lemma {:induction false} PrimaryAccounts(ts: seq<Token>)
    ensures AccountsAll(ts, ParsePrimary(ts))
    ensures ParsePrimary(ts).Ok? ==> !ParsePrimary(ts).e.Binary?
    decreases |ts|, 2
  {
    OperandAccounts(ts);
    var r := ParseOperand(ts);
    if r.Ok? { SelectorsAccount(r.rest, r.e); }
  }

  /** What parseExprCont returns: nothing is lost, the tree is well shaped, and no operator it should have taken is left. */
  ghost predicate Continued(ts: seq<Token>, lhs: Expr, m: int, r: Parsed)
  {
    r.Ok? ==>
      && Print(lhs) + ts == Print(r.e) + r.rest && Shaped(r.e)
      && !NextOp(r.rest, m)
      && OpsBelow(r.rest, Level(r.e))
      && (Level(r.e) >= m || Level(r.e) >= Level(lhs))
  }

  lemma {:induction false} ContAccounts(ts: seq<Token>, lhs: Expr, m: int)
    requires Shaped(lhs) && OpsBelow(ts, Level(lhs))
    ensures Continued(ts, lhs, m, ParseCont(ts, lhs, m))
    decreases |ts|, 3
  {
    hide Print;
    if NextOp(ts, m) {
      var op := ts[0].op;
      PrimaryAccounts(ts[1..]);
      var p := ParsePrimary(ts[1..]);
      if p.Ok? {
        TighterAccounts(p.rest, p.e, Precedence(op));
        var q := ParseTighter(p.rest, p.e, Precedence(op));
        if q.Ok? {
          var both := Binary(op, lhs, q.e);
          ContAccounts(q.rest, both, m);
          Regroup(ts, lhs, op, q.e, q.rest);
        }
      }
    }
  }

  lemma {:induction false} Regroup(ts: seq<Token>, lhs: Expr, op: BinaryOp, rhs: Expr, rest: seq<Token>)
    requires ts != [] && ts[0] == Operator(op) && ts[1..] == Print(rhs) + rest
    ensures Print(Binary(op, lhs, rhs)) + rest == Print(lhs) + ts
  {
    assert ts == [Operator(op)] + (Print(rhs) + rest);
  }

  lemma {:induction false} TighterAccounts(ts: seq<Token>, rhs: Expr, precedence: int)
    requires Shaped(rhs) && OpsBelow(ts, Level(rhs)) && Level(rhs) > precedence
    ensures Continued(ts, rhs, precedence + 1, ParseTighter(ts, rhs, precedence))
    ensures ParseTighter(ts, rhs, precedence).Ok? ==> Level(ParseTighter(ts, rhs, precedence).e) > precedence
    decreases |ts|, 4
  {
    hide Print;
    if NextOp(ts, precedence + 1) {
      ContAccounts(ts, rhs, Precedence(ts[0].op));
      var q := ParseCont(ts, rhs, Precedence(ts[0].op));
      if q.Ok? { TighterAccounts(q.rest, q.e, precedence); }
    }
  }

  lemma {:induction false} ExprAccounts(ts: seq<Token>)
    ensures AccountsAll(ts, ParseExpr(ts))
    decreases |ts|, 5
  {
    hide Print;
    PrimaryAccounts(ts);
    var p := ParsePrimary(ts);
    if p.Ok? { ContAccounts(p.rest, p.e, 0); }
  }

  // ---------------------------------------------------------------- what is printed parses back

  /** Stopping earlier and going on gives the same tree. */
  lemma {:induction false} ContSplits(ts: seq<Token>, lhs: Expr, m: int, n: int)
    requires m <= n
    ensures var r := ParseCont(ts, lhs, n);
            ParseCont(ts, lhs, m) == if r.Bad? then Bad else ParseCont(r.rest, r.e, m)
    decreases |ts|
  {
    if NextOp(ts, n) {
      var op := ts[0].op;
      var p := ParsePrimary(ts[1..]);
      if p.Ok? {
        var q := ParseTighter(p.rest, p.e, Precedence(op));
        if q.Ok? { ContSplits(q.rest, Binary(op, lhs, q.e), m, n); }
      }
    }
  }

  /** The inner loop is the outer loop one level higher. */
  lemma {:induction false} TighterIsCont(ts: seq<Token>, rhs: Expr, precedence: int)
    ensures ParseTighter(ts, rhs, precedence) == ParseCont(ts, rhs, precedence + 1)
    decreases |ts|
  {
    if NextOp(ts, precedence + 1) {
      var n := Precedence(ts[0].op);
      ContSplits(ts, rhs, precedence + 1, n);
      var r := ParseCont(ts, rhs, n);
      if r.Ok? { TighterIsCont(r.rest, r.e, precedence); }
    }
  }

  /** The primary expression at the left end, and the tokens after it. */
  function Head(e: Expr): Expr
  {
    if e.Binary? then Head(e.l) else e
  }

  function Tail(e: Expr): seq<Token>
  {
    if e.Binary? then Tail(e.l) + [Operator(e.op)] + Print(e.r) else []
  }

  lemma {:induction false} HeadTail(e: Expr)
    requires Shaped(e)
    ensures Print(e) == Print(Head(e)) + Tail(e)
    ensures Shaped(Head(e)) && !Head(e).Binary?
  {
    if e.Binary? {
      HeadTail(e.l);
      assert Print(Head(e)) + (Tail(e.l) + [Operator(e.op)] + Print(e.r)) == (Print(Head(e)) + Tail(e.l)) + [Operator(e.op)] + Print(e.r);
    }
  }

  /** Tokens that cannot continue a primary expression. */
  predicate EndsPrimary(ts: seq<Token>)
  {
    ts == [] || (ts[0] != Dot && ts[0] != Open)
  }

  /** The operand under a chain of selectors, and the tokens of the chain. */
  function Base(e: Expr): Expr
  {
    if e.Selector? then Base(e.obj) else e
  }

  function Chain(e: Expr): seq<Token>
  {
    if e.Selector? then Chain(e.obj) + [Dot, Ident(e.ident)] else []
  }

  lemma {:induction false} BaseChain(e: Expr, rest: seq<Token>)
    requires Shaped(e) && !e.Binary?
    ensures Print(e) == Print(Base(e)) + Chain(e)
    ensures Shaped(Base(e)) && !Base(e).Binary? && !Base(e).Selector?
    ensures ParseSelectors(Chain(e) + rest, Base(e)) == ParseSelectors(rest, e)
    ensures Chain(e) == [] || Chain(e)[0] == Dot
  {
    if e.Selector? {
      var step := [Dot, Ident(e.ident)] + rest;
      BaseChain(e.obj, step);
      assert Chain(e) + rest == Chain(e.obj) + step;
      assert Print(Base(e)) + (Chain(e.obj) + [Dot, Ident(e.ident)]) == (Print(Base(e)) + Chain(e.obj)) + [Dot, Ident(e.ident)];
      assert step[2..] == rest;
    } else {
      assert Chain(e) + rest == rest;
    }
  }

  function Size(e: Expr): nat
  {
    match e
    case Binary(_, l, r) => 1 + Size(l) + Size(r)
    case Selector(obj, _) => 1 + Size(obj)
    case Paren(inner) => 1 + Size(inner)
    case Env(_, arg) => 1 + Size(arg)
    case _ => 1
  }

  lemma {:induction false} Parts(e: Expr)
    ensures Size(Head(e)) <= Size(e) && Size(Base(e)) <= Size(e)
  {
    if e.Binary? { Parts(e.l); }
    if e.Selector? { Parts(e.obj); }
  }

  lemma {:induction false} OperandParsesBack(e: Expr, rest: seq<Token>)
    requires Shaped(e) && !e.Binary? && !e.Selector?
    requires e.Attr? ==> rest == [] || rest[0] != Open
    ensures ParseOperand(Print(e) + rest) == Ok(e, rest)
    decreases Size(e), 0
  {
    hide ParseExpr, Shaped;
    ShapedInside(e);
    if e.Paren? {
      ExprParsesBack(e.inner, [Close] + rest);
      ParenParsesBack(e.inner, rest);
    } else if e.Env? {
      ExprParsesBack(e.arg, [Close] + rest);
      EnvParsesBack(e.name, e.arg, rest);
    } else {
      assert (Print(e) + rest)[1..] == rest;
    }
  }

  lemma {:induction false} ShapedInside(e: Expr)
    requires Shaped(e)
    ensures e.Paren? ==> Shaped(e.inner)
    ensures e.Env? ==> Shaped(e.arg)
    ensures e.Param? ==> e.num > 0
  {
  }

  lemma {:induction false} ParenParsesBack(inner: Expr, rest: seq<Token>)
    requires ParseExpr(Print(inner) + ([Close] + rest)) == Ok(inner, [Close] + rest)
    ensures ParseOperand(Print(Paren(inner)) + rest) == Ok(Paren(inner), rest)
  {
    hide ParseExpr;
    var ts := Print(Paren(inner)) + rest;
    assert ts[1..] == Print(inner) + ([Close] + rest);
    assert ([Close] + rest)[1..] == rest;
  }

  lemma {:induction false} EnvParsesBack(name: string, arg: Expr, rest: seq<Token>)
    requires ParseExpr(Print(arg) + ([Close] + rest)) == Ok(arg, [Close] + rest)
    ensures ParseOperand(Print(Env(name, arg)) + rest) == Ok(Env(name, arg), rest)
  {
    hide ParseExpr;
    var ts := Print(Env(name, arg)) + rest;
    assert ts[2..] == Print(arg) + ([Close] + rest);
    assert ([Close] + rest)[1..] == rest;
  }

  lemma {:induction false} PrimaryParsesBack(e: Expr, rest: seq<Token>)
    requires Shaped(e) && !e.Binary? && EndsPrimary(rest)
    ensures ParsePrimary(Print(e) + rest) == Ok(e, rest)
    decreases Size(e), 1
  {
    BaseChain(e, rest);
    Parts(e);
    assert Print(e) + rest == Print(Base(e)) + (Chain(e) + rest);
    assert Chain(e) == [] ==> Chain(e) + rest == rest;
    OperandParsesBack(Base(e), Chain(e) + rest);
  }

  /** From the head of a tree, the loop rebuilds the tree. */
  lemma {:induction false} ContParsesBack(e: Expr, rest: seq<Token>, m: int)
    requires Shaped(e) && Level(e) >= m && EndsPrimary(rest) && OpsBelow(rest, Level(e))
    ensures ParseCont(Tail(e) + rest, Head(e), m) == ParseCont(rest, e, m)
    decreases Size(e), 2
  {
    hide Print, ParsePrimary, ParseCont;
    if e.Binary? {
      var p := Precedence(e.op);
      var after := [Operator(e.op)] + (Print(e.r) + rest);
      assert Tail(e) + rest == Tail(e.l) + after;
      ContParsesBack(e.l, after, m);
      HeadTail(e.r);
      Parts(e.r);
      assert Print(e.r) + rest == Print(Head(e.r)) + (Tail(e.r) + rest);
      TailEnds(e.r, rest);
      PrimaryParsesBack(Head(e.r), Tail(e.r) + rest);
      ContParsesBack(e.r, rest, p + 1);
      ContStops(e.r, rest, p + 1);
      ContStep(e.l, e.op, Print(e.r) + rest, Head(e.r), Tail(e.r) + rest, e.r, rest, m);
    } else {
      assert Tail(e) + rest == rest;
    }
  }

  lemma {:induction false} ContStops(e: Expr, ts: seq<Token>, m: int)
    requires OpsBelow(ts, m - 1)
    ensures ParseCont(ts, e, m) == Ok(e, ts)
  {
  }

  /** One turn of the outer loop. */
  lemma {:induction false} ContStep(l: Expr, op: BinaryOp, ts: seq<Token>, head: Expr, tail: seq<Token>, r: Expr, rest: seq<Token>, m: int)
    requires ParsePrimary(ts) == Ok(head, tail) && ParseCont(tail, head, Precedence(op) + 1) == Ok(r, rest)
    requires Precedence(op) >= m
    ensures ParseCont([Operator(op)] + ts, l, m) == ParseCont(rest, Binary(op, l, r), m)
  {
    hide ParsePrimary;
    var after := [Operator(op)] + ts;
    assert after[1..] == ts;
    TighterIsCont(tail, head, Precedence(op));
  }

  lemma {:induction false} TailEnds(e: Expr, rest: seq<Token>)
    requires EndsPrimary(rest)
    ensures EndsPrimary(Tail(e) + rest)
  {
    hide Print;
    if e.Binary? {
      TailEnds(e.l, [Operator(e.op)] + (Print(e.r) + rest));
      assert Tail(e) + rest == Tail(e.l) + ([Operator(e.op)] + (Print(e.r) + rest));
    } else {
      assert Tail(e) + rest == rest;
    }
  }

  lemma {:induction false} ExprParsesBack(e: Expr, rest: seq<Token>)
    requires Shaped(e) && EndsPrimary(rest) && (rest == [] || !rest[0].Operator?)
    ensures ParseExpr(Print(e) + rest) == Ok(e, rest)
    decreases Size(e), 3
  {
    hide Print, ParsePrimary;
    HeadTail(e);
    Parts(e);
    assert Print(e) + rest == Print(Head(e)) + (Tail(e) + rest);
    TailEnds(e, rest);
    PrimaryParsesBack(Head(e), Tail(e) + rest);
    ContParsesBack(e, rest, 0);
  }

  // ---------------------------------------------------------------- main results

  /** Parser and printer undo each other, on every accepted token list and every well-shaped tree. */
  lemma {:induction false} ParsePrintParse(ts: seq<Token>)
    requires Parse(ts).Tree?
    ensures Print(Parse(ts).e) == ts
    ensures Shaped(Parse(ts).e)
    ensures Parse(Print(Parse(ts).e)) == Parse(ts)
  {
    ExprAccounts(ts);
    var r := ParseExpr(ts);
    assert Print(r.e) + [] == Print(r.e);
  }

  lemma {:induction false} PrintParse(e: Expr)
    ensures Parse(Print(e)) == Tree(e) <==> Shaped(e)
  {
    if Shaped(e) {
      ExprParsesBack(e, []);
      assert Print(e) + [] == Print(e);
    }
    if Parse(Print(e)) == Tree(e) {
      ParsePrintParse(Print(e));
    }
  }
}
