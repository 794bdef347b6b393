/** The grammar of expressions: their trees, how they are spelled as tokens, and how tokens are read.
    Reading inverts spelling. */
module ExpressionGrammar {
  import opened ExpressionTokens
  import opened Options

  datatype List<+T> = Nil | Cons(head: T, tail: List<T>)

  datatype Sign = Unsigned | Positive | Negative

  /** A further operand; the inverse of adding is subtracting, of multiplying dividing. */
  datatype Operand<+T> = Operand(inverse: bool, value: T)

  datatype Expr<+N> = Expr(sign: Sign, first: Term<N>, rest: List<Operand<Term<N>>>)

  datatype Term<+N> = Term(first: Factor<N>, rest: List<Operand<Factor<N>>>)

  datatype Factor<+N> = Name(name: string) | Literal(number: N) | Call(name: string, args: List<Expr<N>>)
    | Paren(inner: Expr<N>)

  // ----- spelling

  function SpellSign<N>(s: Sign): seq<Token<N>> {
    match s
    case Unsigned => []
    case Positive => [Sym(Plus)]
    case Negative => [Sym(Minus)]
  }

  function SpellExpr<N>(e: Expr<N>): seq<Token<N>> {
    SpellSign(e.sign) + (SpellTerm(e.first) + SpellSums(e.rest))
  }

  function SpellSums<N>(l: List<Operand<Term<N>>>): seq<Token<N>> {
    match l
    case Nil => []
    case Cons(o, tail) => [Sym(if o.inverse then Minus else Plus)] + (SpellTerm(o.value) + SpellSums(tail))
  }

  function SpellTerm<N>(t: Term<N>): seq<Token<N>> { SpellFactor(t.first) + SpellProducts(t.rest) }

  function SpellProducts<N>(l: List<Operand<Factor<N>>>): seq<Token<N>> {
    match l
    case Nil => []
    case Cons(o, tail) => [Sym(if o.inverse then Div else Mul)] + (SpellFactor(o.value) + SpellProducts(tail))
  }

  function SpellFactor<N>(f: Factor<N>): seq<Token<N>> {
    match f
    case Name(name) => [Word(name)]
    case Literal(number) => [Num(number)]
    case Call(name, args) => [Word(name)] + ([Sym(LParen)] + (SpellArgs(args) + [Sym(RParen)]))
    case Paren(e) => [Sym(LParen)] + (SpellExpr(e) + [Sym(RParen)])
  }

  function SpellArgs<N>(args: List<Expr<N>>): seq<Token<N>> {
    match args
    case Nil => []
    case Cons(e, tail) => SpellExpr(e) + SpellMoreArgs(tail)
  }

  function SpellMoreArgs<N>(args: List<Expr<N>>): seq<Token<N>> {
    match args
    case Nil => []
    case Cons(e, tail) => [Sym(Comma)] + (SpellExpr(e) + SpellMoreArgs(tail))
  }

  // ----- reading, by recursive descent

  /** What was read, and the position after it. */
  datatype Read<+T> = Read(tree: T, next: nat)

  predicate At<N>(ts: seq<Token<N>>, i: nat, y: Symbol) { i < |ts| && ts[i].Sym? && ts[i].symbol == y }

  function ReadExpr<N>(ts: seq<Token<N>>, i: nat): (r: Option<Read<Expr<N>>>)
    ensures r.Some? ==> i < r.value.next <= |ts|
    decreases |ts| - i, 3
  {
    if At(ts, i, Plus) then ReadSigned(Positive, ts, i + 1)
    else if At(ts, i, Minus) then ReadSigned(Negative, ts, i + 1)
    else ReadSigned(Unsigned, ts, i)
  }

  function ReadSigned<N>(sign: Sign, ts: seq<Token<N>>, i: nat): (r: Option<Read<Expr<N>>>)
    ensures r.Some? ==> i < r.value.next <= |ts|
    decreases |ts| - i, 2
  {
    match ReadTerm(ts, i)
    case None => None
    case Some(first) =>
      match ReadSums(ts, first.next)
      case None => None
      case Some(more) => Some(Read(Expr(sign, first.tree, more.tree), more.next))
  }

  function ReadSums<N>(ts: seq<Token<N>>, i: nat): (r: Option<Read<List<Operand<Term<N>>>>>)
    requires i <= |ts|
    ensures r.Some? ==> i <= r.value.next <= |ts|
    decreases |ts| - i, 0
  {
    if At(ts, i, Plus) || At(ts, i, Minus) then
      match ReadTerm(ts, i + 1)
      case None => None
      case Some(t) =>
        match ReadSums(ts, t.next)
        case None => None
        case Some(more) => Some(Read(Cons(Operand(At(ts, i, Minus), t.tree), more.tree), more.next))
    else Some(Read(Nil, i))
  }

  function ReadTerm<N>(ts: seq<Token<N>>, i: nat): (r: Option<Read<Term<N>>>)
    ensures r.Some? ==> i < r.value.next <= |ts|
    decreases |ts| - i, 1
  {
    match ReadFactor(ts, i)
    case None => None
    case Some(first) =>
      match ReadProducts(ts, first.next)
      case None => None
      case Some(more) => Some(Read(Term(first.tree, more.tree), more.next))
  }

  function ReadProducts<N>(ts: seq<Token<N>>, i: nat): (r: Option<Read<List<Operand<Factor<N>>>>>)
    requires i <= |ts|
    ensures r.Some? ==> i <= r.value.next <= |ts|
    decreases |ts| - i, 0
  {
    if At(ts, i, Mul) || At(ts, i, Div) then
      match ReadFactor(ts, i + 1)
      case None => None
      case Some(f) =>
        match ReadProducts(ts, f.next)
        case None => None
        case Some(more) => Some(Read(Cons(Operand(At(ts, i, Div), f.tree), more.tree), more.next))
    else Some(Read(Nil, i))
  }

  function ReadFactor<N>(ts: seq<Token<N>>, i: nat): (r: Option<Read<Factor<N>>>)
    ensures r.Some? ==> i < r.value.next <= |ts|
    decreases |ts| - i, 0
  {
    if i >= |ts| then None
    else
      match ts[i]
      case Word(name) => if At(ts, i + 1, LParen) then ReadCall(name, ts, i + 2) else Some(Read(Name(name), i + 1))
      case Num(number) => Some(Read(Literal(number), i + 1))
      case Sym(y) => if y == LParen then ReadParen(ts, i + 1) else None
  }

  function ReadParen<N>(ts: seq<Token<N>>, i: nat): (r: Option<Read<Factor<N>>>)
    ensures r.Some? ==> i < r.value.next <= |ts|
    decreases |ts| - i, 4
  {
    match ReadExpr(ts, i)
    case None => None
    case Some(e) => if At(ts, e.next, RParen) then Some(Read(Paren(e.tree), e.next + 1)) else None
  }

  /** The arguments after an opening parenthesis, and the closing one. */
  function ReadCall<N>(name: string, ts: seq<Token<N>>, i: nat): (r: Option<Read<Factor<N>>>)
    requires i <= |ts|
    ensures r.Some? ==> i < r.value.next <= |ts|
    decreases |ts| - i, 5
  {
    match ReadArgs(ts, i)
    case None => None
    case Some(args) => if At(ts, args.next, RParen) then Some(Read(Call(name, args.tree), args.next + 1)) else None
  }

  function ReadArgs<N>(ts: seq<Token<N>>, i: nat): (r: Option<Read<List<Expr<N>>>>)
    requires i <= |ts|
    ensures r.Some? ==> i <= r.value.next <= |ts|
    decreases |ts| - i, 4
  {
    if At(ts, i, RParen) then Some(Read(Nil, i))
    else
      match ReadExpr(ts, i)
      case None => None
      case Some(e) =>
        match ReadMoreArgs(ts, e.next)
        case None => None
        case Some(more) => Some(Read(Cons(e.tree, more.tree), more.next))
  }

  function ReadMoreArgs<N>(ts: seq<Token<N>>, i: nat): (r: Option<Read<List<Expr<N>>>>)
    requires i <= |ts|
    ensures r.Some? ==> i <= r.value.next <= |ts|
    decreases |ts| - i, 0
  {
    if At(ts, i, Comma) then
      match ReadExpr(ts, i + 1)
      case None => None
      case Some(e) =>
        match ReadMoreArgs(ts, e.next)
        case None => None
        case Some(more) => Some(Read(Cons(e.tree, more.tree), more.next))
    else Some(Read(Nil, i))
  }

  /** A sentence is read to its end. */
  function Parse<N>(ts: seq<Token<N>>): Option<Expr<N>> {
    match ReadExpr(ts, 0)
    case None => None
    case Some(e) => if e.next == |ts| then Some(e.tree) else None
  }

  // ----- what is read is what is spelled

  ghost predicate Spelled<N>(ts: seq<Token<N>>, i: nat, j: nat, w: seq<Token<N>>) {
    i <= j <= |ts| && ts[i..j] == w
  }

  lemma Joined<N>(ts: seq<Token<N>>, i: nat, j: nat, k: nat, a: seq<Token<N>>, b: seq<Token<N>>)
    requires Spelled(ts, i, j, a) && Spelled(ts, j, k, b)
    ensures Spelled(ts, i, k, a + b)
  {
    assert ts[i..k] == ts[i..j] + ts[j..k];
  }

  lemma OneToken<N>(ts: seq<Token<N>>, i: nat)
    requires i < |ts|
    ensures Spelled(ts, i, i + 1, [ts[i]])
  {
  }

  lemma {:induction false} ReadExprSpells<N>(ts: seq<Token<N>>, i: nat)
    requires ReadExpr(ts, i).Some?
    ensures var r := ReadExpr(ts, i).value; Spelled(ts, i, r.next, SpellExpr(r.tree))
    decreases |ts| - i, 3
  {
    var r := ReadExpr(ts, i).value;
    var body := SpellTerm(r.tree.first) + SpellSums(r.tree.rest);
    if At(ts, i, Plus) || At(ts, i, Minus) {
      ReadSignedSpells(if At(ts, i, Plus) then Positive else Negative, ts, i + 1);
      OneToken(ts, i);
      Joined(ts, i, i + 1, r.next, [ts[i]], body);
    } else {
      ReadSignedSpells(Unsigned, ts, i);
      assert [] + body == body;
    }
  }

  lemma {:induction false} ReadSignedSpells<N>(sign: Sign, ts: seq<Token<N>>, i: nat)
    requires ReadSigned(sign, ts, i).Some?
    ensures var r := ReadSigned(sign, ts, i).value;
            r.tree.sign == sign && Spelled(ts, i, r.next, SpellTerm(r.tree.first) + SpellSums(r.tree.rest))
    decreases |ts| - i, 2
  {
    var r, first := ReadSigned(sign, ts, i).value, ReadTerm(ts, i).value;
    ReadTermSpells(ts, i);
    ReadSumsSpells(ts, first.next);
    Joined(ts, i, first.next, r.next, SpellTerm(r.tree.first), SpellSums(r.tree.rest));
  }

  lemma {:induction false} ReadSumsSpells<N>(ts: seq<Token<N>>, i: nat)
    requires i <= |ts| && ReadSums(ts, i).Some?
    ensures var r := ReadSums(ts, i).value; Spelled(ts, i, r.next, SpellSums(r.tree))
    decreases |ts| - i, 0
  {
    if At(ts, i, Plus) || At(ts, i, Minus) {
      var r, t := ReadSums(ts, i).value, ReadTerm(ts, i + 1).value;
      ReadTermSpells(ts, i + 1);
      ReadSumsSpells(ts, t.next);
      OneToken(ts, i);
      Joined(ts, i + 1, t.next, r.next, SpellTerm(t.tree), SpellSums(r.tree.tail));
      Joined(ts, i, i + 1, r.next, [ts[i]], SpellTerm(t.tree) + SpellSums(r.tree.tail));
    }
  }

  lemma {:induction false} ReadTermSpells<N>(ts: seq<Token<N>>, i: nat)
    requires ReadTerm(ts, i).Some?
    ensures var r := ReadTerm(ts, i).value; Spelled(ts, i, r.next, SpellTerm(r.tree))
    decreases |ts| - i, 1
  {
    var r, first := ReadTerm(ts, i).value, ReadFactor(ts, i).value;
    ReadFactorSpells(ts, i);
    ReadProductsSpells(ts, first.next);
    Joined(ts, i, first.next, r.next, SpellFactor(r.tree.first), SpellProducts(r.tree.rest));
  }

  lemma {:induction false} ReadProductsSpells<N>(ts: seq<Token<N>>, i: nat)
    requires i <= |ts| && ReadProducts(ts, i).Some?
    ensures var r := ReadProducts(ts, i).value; Spelled(ts, i, r.next, SpellProducts(r.tree))
    decreases |ts| - i, 0
  {
    if At(ts, i, Mul) || At(ts, i, Div) {
      var r, f := ReadProducts(ts, i).value, ReadFactor(ts, i + 1).value;
      ReadFactorSpells(ts, i + 1);
      ReadProductsSpells(ts, f.next);
      OneToken(ts, i);
      Joined(ts, i + 1, f.next, r.next, SpellFactor(f.tree), SpellProducts(r.tree.tail));
      Joined(ts, i, i + 1, r.next, [ts[i]], SpellFactor(f.tree) + SpellProducts(r.tree.tail));
    }
  }

  lemma {:induction false} ReadFactorSpells<N>(ts: seq<Token<N>>, i: nat)
    requires ReadFactor(ts, i).Some?
    ensures var r := ReadFactor(ts, i).value; Spelled(ts, i, r.next, SpellFactor(r.tree))
    decreases |ts| - i, 0
  {
    OneToken(ts, i);
    var r := ReadFactor(ts, i).value;
    match ts[i]
    case Num(_) =>
    case Word(name) =>
      if At(ts, i + 1, LParen) {
        ReadCallSpells(name, ts, i + 2);
        OneToken(ts, i + 1);
        var inner := SpellArgs(r.tree.args) + [Sym(RParen)];
        Joined(ts, i + 1, i + 2, r.next, [ts[i + 1]], inner);
        Joined(ts, i, i + 1, r.next, [ts[i]], [ts[i + 1]] + inner);
      }
    case Sym(_) =>
      ReadExprSpells(ts, i + 1);
      var e := ReadExpr(ts, i + 1).value;
      OneToken(ts, e.next);
      Joined(ts, i + 1, e.next, r.next, SpellExpr(e.tree), [Sym(RParen)]);
      Joined(ts, i, i + 1, r.next, [Sym(LParen)], SpellExpr(e.tree) + [Sym(RParen)]);
  }

  lemma {:induction false} ReadCallSpells<N>(name: string, ts: seq<Token<N>>, i: nat)
    requires i <= |ts| && ReadCall(name, ts, i).Some?
    ensures var r := ReadCall(name, ts, i).value;
            r.tree.Call? && r.tree.name == name && Spelled(ts, i, r.next, SpellArgs(r.tree.args) + [Sym(RParen)])
    decreases |ts| - i, 5
  {
    var args := ReadArgs(ts, i).value;
    ReadArgsSpells(ts, i);
    OneToken(ts, args.next);
    Joined(ts, i, args.next, args.next + 1, SpellArgs(args.tree), [Sym(RParen)]);
  }

  lemma {:induction false} ReadArgsSpells<N>(ts: seq<Token<N>>, i: nat)
    requires i <= |ts| && ReadArgs(ts, i).Some?
    ensures var r := ReadArgs(ts, i).value; Spelled(ts, i, r.next, SpellArgs(r.tree))
    decreases |ts| - i, 4
  {
    if !At(ts, i, RParen) {
      var r, e := ReadArgs(ts, i).value, ReadExpr(ts, i).value;
      ReadExprSpells(ts, i);
      ReadMoreArgsSpells(ts, e.next);
      Joined(ts, i, e.next, r.next, SpellExpr(e.tree), SpellMoreArgs(r.tree.tail));
    }
  }

  lemma {:induction false} ReadMoreArgsSpells<N>(ts: seq<Token<N>>, i: nat)
    requires i <= |ts| && ReadMoreArgs(ts, i).Some?
    ensures var r := ReadMoreArgs(ts, i).value; Spelled(ts, i, r.next, SpellMoreArgs(r.tree))
    decreases |ts| - i, 0
  {
    if At(ts, i, Comma) {
      var r, e := ReadMoreArgs(ts, i).value, ReadExpr(ts, i + 1).value;
      ReadExprSpells(ts, i + 1);
      ReadMoreArgsSpells(ts, e.next);
      OneToken(ts, i);
      Joined(ts, i + 1, e.next, r.next, SpellExpr(e.tree), SpellMoreArgs(r.tree.tail));
      Joined(ts, i, i + 1, r.next, [ts[i]], SpellExpr(e.tree) + SpellMoreArgs(r.tree.tail));
    }
  }

  // ----- what is spelled is read

  predicate EndsFactor<N>(ts: seq<Token<N>>, j: nat) { !At(ts, j, LParen) }

  predicate EndsTerm<N>(ts: seq<Token<N>>, j: nat) { EndsFactor(ts, j) && !At(ts, j, Mul) && !At(ts, j, Div) }

  /** Nothing at `j` could continue an expression. */
  predicate EndsExpr<N>(ts: seq<Token<N>>, j: nat) { EndsTerm(ts, j) && !At(ts, j, Plus) && !At(ts, j, Minus) }

  lemma CutInTwo<N>(ts: seq<Token<N>>, i: nat, j: nat, a: seq<Token<N>>, b: seq<Token<N>>)
    requires Spelled(ts, i, j, a + b)
    ensures var k := i + |a|; Spelled(ts, i, k, a) && Spelled(ts, k, j, b)
  {
    var k := i + |a|;
    assert ts[i..k] == ts[i..j][..|a|] == a && ts[k..j] == ts[i..j][|a|..] == b;
  }

  lemma FirstToken<N>(ts: seq<Token<N>>, i: nat, j: nat, t: Token<N>, b: seq<Token<N>>)
    requires Spelled(ts, i, j, [t] + b)
    ensures i < |ts| && ts[i] == t && Spelled(ts, i + 1, j, b)
  {
    CutInTwo(ts, i, j, [t], b);
    assert ts[i] == ts[i..i + 1][0];
  }

  lemma LastToken<N>(ts: seq<Token<N>>, i: nat, j: nat, a: seq<Token<N>>, t: Token<N>)
    requires Spelled(ts, i, j, a + [t])
    ensures i < j && ts[j - 1] == t && Spelled(ts, i, j - 1, a)
  {
    CutInTwo(ts, i, j, a, [t]);
    assert ts[j - 1] == ts[j - 1..j][0];
  }

  lemma StartOf<N>(ts: seq<Token<N>>, i: nat, j: nat, w: seq<Token<N>>)
    requires Spelled(ts, i, j, w) && w != []
    ensures i < |ts| && ts[i] == w[0]
  {
    assert ts[i] == ts[i..j][0];
  }

  lemma FactorStart<N>(f: Factor<N>)
    ensures SpellFactor(f) != [] && (SpellFactor(f)[0].Sym? ==> SpellFactor(f)[0].symbol == LParen)
  {
  }

  lemma TermStart<N>(t: Term<N>)
    ensures SpellTerm(t) != [] && (SpellTerm(t)[0].Sym? ==> SpellTerm(t)[0].symbol == LParen)
  {
    FactorStart(t.first);
  }

  lemma ExprStart<N>(e: Expr<N>)
    ensures SpellExpr(e) != []
    ensures var t := SpellExpr(e)[0]; t.Sym? ==> t.symbol != RParen && t.symbol != Mul && t.symbol != Div
  {
    TermStart(e.first);
  }

  lemma {:induction false} ExprRead<N>(ts: seq<Token<N>>, i: nat, e: Expr<N>, j: nat)
    requires Spelled(ts, i, j, SpellExpr(e)) && EndsExpr(ts, j)
    ensures ReadExpr(ts, i) == Some(Read(e, j))
    decreases e, 1
  {
    var body := SpellTerm(e.first) + SpellSums(e.rest);
    match e.sign
    case Unsigned =>
      assert [] + body == body;
      SignedRead(ts, i, e, j);
      TermStart(e.first);
      StartOf(ts, i, j, body);
    case Positive =>
      FirstToken(ts, i, j, Sym(Plus), body);
      SignedRead(ts, i + 1, e, j);
    case Negative =>
      FirstToken(ts, i, j, Sym(Minus), body);
      SignedRead(ts, i + 1, e, j);
  }

  lemma {:induction false} SignedRead<N>(ts: seq<Token<N>>, i: nat, e: Expr<N>, j: nat)
    requires Spelled(ts, i, j, SpellTerm(e.first) + SpellSums(e.rest)) && EndsExpr(ts, j)
    ensures ReadSigned(e.sign, ts, i) == Some(Read(e, j))
    decreases e, 0
  {
    var k := i + |SpellTerm(e.first)|;
    CutInTwo(ts, i, j, SpellTerm(e.first), SpellSums(e.rest));
    SumsRead(ts, k, e.rest, j);
    TermRead(ts, i, e.first, k);
  }

  lemma {:induction false} SumsRead<N>(ts: seq<Token<N>>, i: nat, l: List<Operand<Term<N>>>, j: nat)
    requires Spelled(ts, i, j, SpellSums(l)) && EndsExpr(ts, j)
    ensures ReadSums(ts, i) == Some(Read(l, j)) && EndsTerm(ts, i)
    decreases l
  {
    match l
    case Nil =>
    case Cons(o, tail) =>
      var k := i + 1 + |SpellTerm(o.value)|;
      FirstToken(ts, i, j, Sym(if o.inverse then Minus else Plus), SpellTerm(o.value) + SpellSums(tail));
      CutInTwo(ts, i + 1, j, SpellTerm(o.value), SpellSums(tail));
      SumsRead(ts, k, tail, j);
      TermRead(ts, i + 1, o.value, k);
  }

  lemma {:induction false} TermRead<N>(ts: seq<Token<N>>, i: nat, t: Term<N>, j: nat)
    requires Spelled(ts, i, j, SpellTerm(t)) && EndsTerm(ts, j)
    ensures ReadTerm(ts, i) == Some(Read(t, j))
    decreases t
  {
    var k := i + |SpellFactor(t.first)|;
    CutInTwo(ts, i, j, SpellFactor(t.first), SpellProducts(t.rest));
    ProductsRead(ts, k, t.rest, j);
    FactorRead(ts, i, t.first, k);
  }

  lemma {:induction false} ProductsRead<N>(ts: seq<Token<N>>, i: nat, l: List<Operand<Factor<N>>>, j: nat)
    requires Spelled(ts, i, j, SpellProducts(l)) && EndsTerm(ts, j)
    ensures ReadProducts(ts, i) == Some(Read(l, j)) && EndsFactor(ts, i)
    decreases l
  {
    match l
    case Nil =>
    case Cons(o, tail) =>
      var k := i + 1 + |SpellFactor(o.value)|;
      FirstToken(ts, i, j, Sym(if o.inverse then Div else Mul), SpellFactor(o.value) + SpellProducts(tail));
      CutInTwo(ts, i + 1, j, SpellFactor(o.value), SpellProducts(tail));
      ProductsRead(ts, k, tail, j);
      FactorRead(ts, i + 1, o.value, k);
  }

  lemma {:induction false} FactorRead<N>(ts: seq<Token<N>>, i: nat, f: Factor<N>, j: nat)
    requires Spelled(ts, i, j, SpellFactor(f)) && EndsFactor(ts, j)
    ensures ReadFactor(ts, i) == Some(Read(f, j))
    decreases f, 1
  {
    match f
    case Name(name) => StartOf(ts, i, j, [Word(name)]);
    case Literal(number) => StartOf(ts, i, j, [Num(number)]);
    case Call(_, _) => CallRead(ts, i, f, j);
    case Paren(_) => ParenRead(ts, i, f, j);
  }

  lemma {:induction false} CallRead<N>(ts: seq<Token<N>>, i: nat, f: Factor<N>, j: nat)
    requires Spelled(ts, i, j, SpellFactor(f)) && f.Call?
    ensures ReadFactor(ts, i) == Some(Read(f, j))
    decreases f, 0
  {
    var inner := SpellArgs(f.args) + [Sym(RParen)];
    FirstToken(ts, i, j, Word(f.name), [Sym(LParen)] + inner);
    FirstToken(ts, i + 1, j, Sym(LParen), inner);
    LastToken(ts, i + 2, j, SpellArgs(f.args), Sym(RParen));
    ArgsRead(ts, i + 2, f.args, j - 1);
    CallFollows(ts, i, f.name);
  }

  lemma CallFollows<N>(ts: seq<Token<N>>, i: nat, name: string)
    requires i < |ts| && ts[i] == Word(name) && At(ts, i + 1, LParen)
    ensures ReadFactor(ts, i) == ReadCall(name, ts, i + 2)
  {
  }

  lemma {:induction false} ParenRead<N>(ts: seq<Token<N>>, i: nat, f: Factor<N>, j: nat)
    requires Spelled(ts, i, j, SpellFactor(f)) && f.Paren?
    ensures ReadFactor(ts, i) == Some(Read(f, j))
    decreases f, 0
  {
    FirstToken(ts, i, j, Sym(LParen), SpellExpr(f.inner) + [Sym(RParen)]);
    LastToken(ts, i + 1, j, SpellExpr(f.inner), Sym(RParen));
    ExprRead(ts, i + 1, f.inner, j - 1);
    assert ReadParen(ts, i + 1) == Some(Read(f, j));
  }

  lemma {:induction false} ArgsRead<N>(ts: seq<Token<N>>, i: nat, args: List<Expr<N>>, j: nat)
    requires Spelled(ts, i, j, SpellArgs(args)) && At(ts, j, RParen)
    ensures ReadArgs(ts, i) == Some(Read(args, j))
    decreases args, 1
  {
    match args
    case Nil =>
    case Cons(e, tail) =>
      var k := i + |SpellExpr(e)|;
      CutInTwo(ts, i, j, SpellExpr(e), SpellMoreArgs(tail));
      MoreArgsRead(ts, k, tail, j);
      ExprRead(ts, i, e, k);
      ExprStart(e);
      StartOf(ts, i, k, SpellExpr(e));
  }

  lemma {:induction false} MoreArgsRead<N>(ts: seq<Token<N>>, i: nat, args: List<Expr<N>>, j: nat)
    requires Spelled(ts, i, j, SpellMoreArgs(args)) && At(ts, j, RParen)
    ensures ReadMoreArgs(ts, i) == Some(Read(args, j)) && EndsExpr(ts, i)
    decreases args, 0
  {
    match args
    case Nil =>
    case Cons(e, tail) =>
      var k := i + 1 + |SpellExpr(e)|;
      FirstToken(ts, i, j, Sym(Comma), SpellExpr(e) + SpellMoreArgs(tail));
      CutInTwo(ts, i + 1, j, SpellExpr(e), SpellMoreArgs(tail));
      MoreArgsRead(ts, k, tail, j);
      ExprRead(ts, i + 1, e, k);
  }

  /** Main result: a token list is read as a tree if and only if it spells the tree. So exactly the
      sentences of the grammar are read, each in one way. */
  lemma ParseInvertsSpelling<N>(ts: seq<Token<N>>, e: Expr<N>)
    ensures Parse(ts) == Some(e) <==> ts == SpellExpr(e)
  {
    if Parse(ts) == Some(e) {
      ReadExprSpells(ts, 0);
      assert ts[0..|ts|] == ts;
    }
    if ts == SpellExpr(e) {
      assert ts[0..|ts|] == ts;
      ExprRead(ts, 0, e, |ts|);
    }
  }

  // ----- neighbours in a sentence

  predicate IsOperator<N>(t: Token<N>) {
    t.Sym? && (t.symbol == Plus || t.symbol == Minus || t.symbol == Mul || t.symbol == Div)
  }

  predicate Apart<N>(t: Token<N>, u: Token<N>) { (t.Sym? || u.Sym?) && !(IsOperator(t) && IsOperator(u)) }

  /** Neither two words nor two operators side by side, and no operator at the end. */
  ghost predicate WellApart<N>(w: seq<Token<N>>) {
    && (forall k :: 0 <= k < |w| - 1 ==> Apart(w[k], w[k + 1]))
    && (w != [] ==> !IsOperator(w[|w| - 1]))
  }

  lemma ApartJoined<N>(a: seq<Token<N>>, b: seq<Token<N>>)
    requires WellApart(a) && WellApart(b)
    requires a != [] && b != [] ==> Apart(a[|a| - 1], b[0])
    ensures WellApart(a + b)
  {
  }

  lemma ApartAfter<N>(t: Token<N>, b: seq<Token<N>>)
    requires WellApart(b) && b != [] && Apart(t, b[0])
    ensures WellApart([t] + b)
  {
  }

  lemma {:induction false} ExprApart<N>(e: Expr<N>)
    ensures WellApart(SpellExpr(e))
    decreases e
  {
    TermApart(e.first);
    SumsApart(e.rest);
    ApartJoined(SpellTerm(e.first), SpellSums(e.rest));
    TermStart(e.first);
    SignApart(e.sign, SpellTerm(e.first) + SpellSums(e.rest));
  }

  lemma SignApart<N>(s: Sign, body: seq<Token<N>>)
    requires WellApart(body) && body != [] && !IsOperator(body[0])
    ensures WellApart(SpellSign(s) + body)
  {
    match s
    case Unsigned => assert [] + body == body;
    case Positive => ApartAfter(Sym(Plus), body);
    case Negative => ApartAfter(Sym(Minus), body);
  }

  lemma {:induction false} SumsApart<N>(l: List<Operand<Term<N>>>)
    ensures WellApart(SpellSums(l))
    decreases l
  {
    match l
    case Nil =>
    case Cons(o, tail) =>
      TermApart(o.value);
      SumsApart(tail);
      ApartJoined(SpellTerm(o.value), SpellSums(tail));
      TermStart(o.value);
      ApartAfter(Sym(if o.inverse then Minus else Plus), SpellTerm(o.value) + SpellSums(tail));
  }

  lemma {:induction false} TermApart<N>(t: Term<N>)
    ensures WellApart(SpellTerm(t))
    decreases t
  {
    FactorApart(t.first);
    ProductsApart(t.rest);
    ApartJoined(SpellFactor(t.first), SpellProducts(t.rest));
  }

  lemma {:induction false} ProductsApart<N>(l: List<Operand<Factor<N>>>)
    ensures WellApart(SpellProducts(l))
    decreases l
  {
    match l
    case Nil =>
    case Cons(o, tail) =>
      FactorApart(o.value);
      ProductsApart(tail);
      ApartJoined(SpellFactor(o.value), SpellProducts(tail));
      FactorStart(o.value);
      ApartAfter(Sym(if o.inverse then Div else Mul), SpellFactor(o.value) + SpellProducts(tail));
  }

  lemma {:induction false} FactorApart<N>(f: Factor<N>)
    ensures WellApart(SpellFactor(f))
    decreases f
  {
    match f
    case Name(_) =>
    case Literal(_) =>
    case Call(name, args) =>
      ArgsApart(args);
      InParensApart(SpellArgs(args));
      ApartAfter(Word(name), [Sym(LParen)] + (SpellArgs(args) + [Sym(RParen)]));
    case Paren(e) =>
      ExprApart(e);
      InParensApart(SpellExpr(e));
  }

  lemma InParensApart<N>(w: seq<Token<N>>)
    requires WellApart(w)
    ensures WellApart([Sym(LParen)] + (w + [Sym(RParen)]))
  {
    ApartJoined(w, [Sym(RParen)]);
    ApartAfter(Sym(LParen), w + [Sym(RParen)]);
  }

  lemma {:induction false} ArgsApart<N>(args: List<Expr<N>>)
    ensures WellApart(SpellArgs(args)) && WellApart(SpellMoreArgs(args))
    decreases args
  {
    match args
    case Nil =>
    case Cons(e, tail) =>
      ExprApart(e);
      ArgsApart(tail);
      ApartJoined(SpellExpr(e), SpellMoreArgs(tail));
      ExprStart(e);
      ApartAfter(Sym(Comma), SpellExpr(e) + SpellMoreArgs(tail));
  }
}
