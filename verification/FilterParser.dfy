/** core/query/filter/parser.go as it runs: one token of look-ahead, loops that build the tree, and the placeholder count. */
module FilterParser {
  import opened Basics
  import opened Filter

  function Larger(a: nat, b: nat): nat
  {
    if a < b then b else a
  }

  /** The largest placeholder in a tree: how many parameters its query takes. */
  function Params(e: Expr): nat
  {
    match e
    case Binary(_, l, r) => Larger(Params(l), Params(r))
    case Selector(obj, _) => Params(obj)
    case Paren(inner) => Params(inner)
    case Env(_, arg) => Params(arg)
    case Param(num) => if num > 0 then num else 0
    case _ => 0
  }

  class Parser {
    const tokens: seq<Token>
    var pos: nat
    var maxPlaceholder: nat

    ghost predicate Valid()
      reads this
    {
      pos <= |tokens|
    }

    /** The tokens from the current one on; the end of the input is the empty list. */
    function Left(): seq<Token>
      requires Valid()
      reads this
    {
      tokens[pos..]
    }

    constructor (tokens: seq<Token>)
      ensures Valid() && Left() == tokens && maxPlaceholder == 0
    {
      this.tokens := tokens;
      this.pos := 0;
      this.maxPlaceholder := 0;
      new;
      assert this.tokens[0..] == tokens;
    }

    method Next()
      requires Valid()
      modifies this
      ensures Valid() && maxPlaceholder == old(maxPlaceholder)
      ensures old(Left()) != [] ==> Left() == old(Left())[1..]
      ensures old(Left()) == [] ==> Left() == []
    {
      if pos < |tokens| {
        pos := pos + 1;
      }
    }

    /** The parser has done what r says, and has counted the placeholders of the tree it returned. */
    ghost predicate Did(r: Parsed, got: Option<Expr>, seen: nat)
      reads this
    {
      && Valid()
      && got.Some? == r.Ok?
      && (r.Ok? ==> got.value == r.e && Left() == r.rest && maxPlaceholder == Larger(seen, Params(r.e)))
    }

    method ParseExpr() returns (got: Option<Expr>)
      requires Valid()
      modifies this
      ensures Did(Filter.ParseExpr(old(Left())), got, old(maxPlaceholder))
      decreases |tokens| - pos, 5
    {
      hide Filter.ParsePrimary, Filter.ParseCont;
      ghost var start := Left();
      ghost var seen := maxPlaceholder;
      got := ParsePrimary();
      if got.None? {
        return;
      }
      got := ParseExprCont(got.value, 0, seen);
    }

    /** parseExprCont, with the inner loop as ParseTighter. */
    method ParseExprCont(lhs0: Expr, minPrecedence: int, ghost seen: nat) returns (got: Option<Expr>)
      requires Valid() && maxPlaceholder == Larger(seen, Params(lhs0))
      modifies this
      ensures Did(Filter.ParseCont(old(Left()), lhs0, minPrecedence), got, seen)
      decreases |tokens| - pos, 3
    {
      hide Filter.ParsePrimary, Filter.ParseTighter;
      var lhs := lhs0;
      while pos < |tokens| && tokens[pos].Operator? && Precedence(tokens[pos].op) >= minPrecedence
        invariant Valid() && old(pos) <= pos
        invariant Filter.ParseCont(Left(), lhs, minPrecedence) == Filter.ParseCont(old(Left()), lhs0, minPrecedence)
        invariant maxPlaceholder == Larger(seen, Params(lhs))
        decreases |tokens| - pos
      {
        var op := tokens[pos].op;
        ghost var at := pos;
        Next();
        var rhs := ParsePrimary();
        if rhs.None? {
          return None;
        }
        rhs := ParseTighter(rhs.value, Precedence(op), Larger(seen, Params(lhs)));
        if rhs.None? {
          return None;
        }
        assert pos > at;
        lhs := Binary(op, lhs, rhs.value);
      }
      return Some(lhs);
    }

    /** The inner loop of parseExprCont. */
    method ParseTighter(rhs0: Expr, precedence: int, ghost seen: nat) returns (got: Option<Expr>)
      requires Valid() && maxPlaceholder == Larger(seen, Params(rhs0))
      modifies this
      ensures Did(Filter.ParseTighter(old(Left()), rhs0, precedence), got, seen)
      decreases |tokens| - pos, 4
    {
      hide Filter.ParseCont;
      var rhs := rhs0;
      while pos < |tokens| && tokens[pos].Operator? && Precedence(tokens[pos].op) >= precedence + 1
        invariant Valid() && old(pos) <= pos
        invariant Filter.ParseTighter(Left(), rhs, precedence) == Filter.ParseTighter(old(Left()), rhs0, precedence)
        invariant maxPlaceholder == Larger(seen, Params(rhs))
        decreases |tokens| - pos
      {
        ghost var at := pos;
        var r := ParseExprCont(rhs, Precedence(tokens[pos].op), seen);
        if r.None? {
          return None;
        }
        assert pos > at;
        rhs := r.value;
      }
      return Some(rhs);
    }

    method ParsePrimary() returns (got: Option<Expr>)
      requires Valid()
      modifies this
      ensures Did(Filter.ParsePrimary(old(Left())), got, old(maxPlaceholder))
      decreases |tokens| - pos, 2
    {
      hide Filter.ParseOperand;
      ghost var seen := maxPlaceholder;
      got := ParseOperand();
      if got.None? {
        return;
      }
      var x := got.value;
      ghost var start := Left();
      ghost var first := x;
      while pos < |tokens| && tokens[pos] == Dot
        invariant Valid() && old(pos) <= pos
        invariant ParseSelectors(Left(), x) == ParseSelectors(start, first)
        invariant maxPlaceholder == Larger(seen, Params(x))
        decreases |tokens| - pos
      {
        Next();
        if pos == |tokens| || !tokens[pos].Ident? {
          return None;
        }
        x := Selector(x, tokens[pos].name);
        Next();
      }
      return Some(x);
    }

    method ParseOperand() returns (got: Option<Expr>)
      requires Valid()
      modifies this
      ensures Did(Filter.ParseOperand(old(Left())), got, old(maxPlaceholder))
      decreases |tokens| - pos, 1
    {
      hide Filter.ParseExpr;
      if pos == |tokens| {
        return None;
      }
      match tokens[pos]
      case Open =>
        Next();
        got := ParseParenthesized();
        if got.Some? {
          got := Some(Paren(got.value));
        }
      case Str(lit) =>
        Next();
        got := Some(StrValue(lit));
      case Integer(value) =>
        if value.None? {
          return None;
        }
        Next();
        got := Some(IntValue(value.value));
      case Placeholder(num) =>
        if num.None? || num.value <= 0 {
          return None;
        }
        Next();
        if num.value > maxPlaceholder {
          maxPlaceholder := num.value;
        }
        got := Some(Param(num.value));
      case Ident(name) =>
        Next();
        if pos == |tokens| || tokens[pos] != Open {
          return Some(Attr(name));
        }
        Next();
        got := ParseParenthesized();
        if got.Some? {
          got := Some(Env(name, got.value));
        }
      case _ => got := None;
    }

    /** parseExpr and parseLit(")"). */
    method ParseParenthesized() returns (got: Option<Expr>)
      requires Valid()
      modifies this
      ensures var p := Filter.ParseExpr(old(Left()));
              if p.Bad? || p.rest == [] || p.rest[0] != Close then Valid() && got.None?
              else Did(Ok(p.e, p.rest[1..]), got, old(maxPlaceholder))
      decreases |tokens| - pos, 6
    {
      hide Filter.ParseExpr;
      got := ParseExpr();
      if got.None? {
        return;
      }
      if pos == |tokens| || tokens[pos] != Close {
        return None;
      }
      Next();
    }
  }

  /** parse: the tree, and the number of parameters it takes. */
  method ParsePredicate(tokens: seq<Token>) returns (p: Predicate, parameters: nat)
    ensures p == Parse(tokens)
    ensures p.Tree? ==> parameters == Params(p.e)
    ensures p.Empty? ==> parameters == 0
  {
    hide Filter.ParseExpr;
    var parser := new Parser(tokens);
    if |tokens| == 0 {
      return Empty, 0;
    }
    var got := parser.ParseExpr();
    if got.None? || parser.pos < |parser.tokens| {
      return Invalid, 0;
    }
    return Tree(got.value), parser.maxPlaceholder;
  }
}
