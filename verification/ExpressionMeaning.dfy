/** What expressions mean, whatever values are and operators, names and functions mean. */
module ExpressionMeaning {
  import opened ExpressionGrammar
  import opened ExpressionTokens
  import opened Options

  /** Values, and what numbers, names, functions and operators stand for. */
  datatype Meaning<!N, !V> = Meaning(num: N -> V, name: string -> V, call: (string, seq<V>) -> V, neg: V -> V,
                                     add: (V, V) -> V, sub: (V, V) -> V, mul: (V, V) -> V, div: (V, V) -> V)

  /** The value of an expression, operators of one rank taken from the left. A leading minus negates
      the first term, as the grammar has it; or, bound tightly as in C, only its first factor. */
  function Eval<N, V>(m: Meaning<N, V>, tight: bool, e: Expr<N>): V {
    var first :=
      if e.sign != Negative then EvalTerm(m, tight, e.first)
      else if tight then EvalProducts(m, tight, m.neg(EvalFactor(m, tight, e.first.first)), e.first.rest)
      else m.neg(EvalTerm(m, tight, e.first));
    EvalSums(m, tight, first, e.rest)
  }

  function EvalSums<N, V>(m: Meaning<N, V>, tight: bool, left: V, l: List<Operand<Term<N>>>): V {
    match l
    case Nil => left
    case Cons(o, tail) =>
      var right := EvalTerm(m, tight, o.value);
      EvalSums(m, tight, if o.inverse then m.sub(left, right) else m.add(left, right), tail)
  }

  function EvalTerm<N, V>(m: Meaning<N, V>, tight: bool, t: Term<N>): V {
    EvalProducts(m, tight, EvalFactor(m, tight, t.first), t.rest)
  }

  function EvalProducts<N, V>(m: Meaning<N, V>, tight: bool, left: V, l: List<Operand<Factor<N>>>): V {
    match l
    case Nil => left
    case Cons(o, tail) =>
      var right := EvalFactor(m, tight, o.value);
      EvalProducts(m, tight, if o.inverse then m.div(left, right) else m.mul(left, right), tail)
  }

  function EvalFactor<N, V>(m: Meaning<N, V>, tight: bool, f: Factor<N>): V {
    match f
    case Name(name) => m.name(name)
    case Literal(n) => m.num(n)
    case Call(name, args) => m.call(name, EvalArgs(m, tight, args))
    case Paren(e) => Eval(m, tight, e)
  }

  function EvalArgs<N, V>(m: Meaning<N, V>, tight: bool, l: List<Expr<N>>): seq<V> {
    match l
    case Nil => []
    case Cons(e, tail) => [Eval(m, tight, e)] + EvalArgs(m, tight, tail)
  }

  // ----- what short texts mean

  function NameTerm<N>(name: string): Term<N> { Term(Name(name), Nil) }

  function NameExpr<N>(name: string): Expr<N> { Expr(Unsigned, NameTerm(name), Nil) }

  lemma NameIs<N, V>(m: Meaning<N, V>, tight: bool, name: string)
    ensures SpellFactor<N>(Name(name)) == [Word(name)] && EvalFactor(m, tight, Name(name)) == m.name(name)
    ensures SpellTerm<N>(NameTerm(name)) == [Word(name)] && EvalTerm(m, tight, NameTerm(name)) == m.name(name)
    ensures SpellExpr<N>(NameExpr(name)) == [Word(name)] && Eval(m, tight, NameExpr(name)) == m.name(name)
  {
    assert SpellProducts<N>(Nil) == [] && SpellSums<N>(Nil) == [];
    assert EvalTerm(m, tight, NameTerm(name)) == m.name(name);
  }

  lemma OneSum<N, V>(m: Meaning<N, V>, tight: bool, left: V, o: Operand<Term<N>>)
    ensures SpellSums(Cons(o, Nil)) == [Sym(if o.inverse then Minus else Plus)] + SpellTerm(o.value)
    ensures var x := EvalTerm(m, tight, o.value);
            EvalSums(m, tight, left, Cons(o, Nil)) == if o.inverse then m.sub(left, x) else m.add(left, x)
  {
    assert SpellTerm(o.value) + SpellSums<N>(Nil) == SpellTerm(o.value);
  }

  lemma SumBefore<N, V>(m: Meaning<N, V>, tight: bool, left: V, o: Operand<Term<N>>, tail: List<Operand<Term<N>>>)
    ensures SpellSums(Cons(o, tail)) == [Sym(if o.inverse then Minus else Plus)] + SpellTerm(o.value) + SpellSums(tail)
    ensures var x := EvalTerm(m, tight, o.value);
            EvalSums(m, tight, left, Cons(o, tail)) ==
            EvalSums(m, tight, if o.inverse then m.sub(left, x) else m.add(left, x), tail)
  {
  }

  lemma OneProduct<N, V>(m: Meaning<N, V>, tight: bool, left: V, o: Operand<Factor<N>>)
    ensures SpellProducts(Cons(o, Nil)) == [Sym(if o.inverse then Div else Mul)] + SpellFactor(o.value)
    ensures var x := EvalFactor(m, tight, o.value);
            EvalProducts(m, tight, left, Cons(o, Nil)) == if o.inverse then m.div(left, x) else m.mul(left, x)
  {
    assert SpellFactor(o.value) + SpellProducts<N>(Nil) == SpellFactor(o.value);
  }

  lemma ProductBefore<N, V>(m: Meaning<N, V>, tight: bool, left: V, o: Operand<Factor<N>>,
                            tail: List<Operand<Factor<N>>>)
    ensures SpellProducts(Cons(o, tail)) ==
            [Sym(if o.inverse then Div else Mul)] + SpellFactor(o.value) + SpellProducts(tail)
    ensures var x := EvalFactor(m, tight, o.value);
            EvalProducts(m, tight, left, Cons(o, tail)) ==
            EvalProducts(m, tight, if o.inverse then m.div(left, x) else m.mul(left, x), tail)
  {
  }

  ghost predicate Means<N(!new), V>(m: Meaning<N, V>, tight: bool, ts: seq<Token<N>>, v: V) {
    Parse(ts).Some? && Eval(m, tight, Parse(ts).value) == v
  }

  /** Sums go from the left, */
  lemma SumsFromLeft<N(!new), V>(m: Meaning<N, V>, tight: bool, a: string, b: string, c: string)
    ensures Means(m, tight, [Word(a), Sym(Minus), Word(b), Sym(Plus), Word(c)],
                  m.add(m.sub(m.name(a), m.name(b)), m.name(c)))
  {
    var o, p := Operand(true, NameTerm<N>(b)), Operand(false, NameTerm<N>(c));
    var e := Expr(Unsigned, NameTerm<N>(a), Cons(o, Cons(p, Nil)));
    NameIs(m, tight, a);
    NameIs(m, tight, b);
    NameIs(m, tight, c);
    SumBefore(m, tight, m.name(a), o, Cons(p, Nil));
    OneSum(m, tight, m.sub(m.name(a), m.name(b)), p);
    assert SpellExpr(e) == [Word(a), Sym(Minus), Word(b), Sym(Plus), Word(c)];
    ParseInvertsSpelling(SpellExpr(e), e);
  }

  /** products go from the left, */
  lemma ProductsFromLeft<N(!new), V>(m: Meaning<N, V>, tight: bool, a: string, b: string, c: string)
    ensures Means(m, tight, [Word(a), Sym(Div), Word(b), Sym(Mul), Word(c)],
                  m.mul(m.div(m.name(a), m.name(b)), m.name(c)))
  {
    var o, p := Operand(true, Factor<N>.Name(b)), Operand(false, Factor<N>.Name(c));
    var e := Expr(Unsigned, Term(Name(a), Cons(o, Cons(p, Nil))), Nil);
    NameIs(m, tight, a);
    NameIs(m, tight, b);
    NameIs(m, tight, c);
    ProductBefore(m, tight, m.name(a), o, Cons(p, Nil));
    OneProduct(m, tight, m.div(m.name(a), m.name(b)), p);
    assert SpellExpr(e) == [Word(a), Sym(Div), Word(b), Sym(Mul), Word(c)];
    ParseInvertsSpelling(SpellExpr(e), e);
  }

  /** products come before sums, */
  lemma ProductsFirst<N(!new), V>(m: Meaning<N, V>, tight: bool, a: string, b: string, c: string)
    ensures Means(m, tight, [Word(a), Sym(Plus), Word(b), Sym(Mul), Word(c)],
                  m.add(m.name(a), m.mul(m.name(b), m.name(c))))
  {
    var f := Operand(false, Factor<N>.Name(c));
    var t := Operand(false, Term(Name(b), Cons(f, Nil)));
    var e := Expr(Unsigned, NameTerm<N>(a), Cons(t, Nil));
    NameIs(m, tight, a);
    NameIs(m, tight, b);
    NameIs(m, tight, c);
    OneProduct(m, tight, m.name(b), f);
    OneSum(m, tight, m.name(a), t);
    assert SpellTerm(t.value) == [Word(b), Sym(Mul), Word(c)];
    assert SpellExpr(e) == [Word(a), Sym(Plus), Word(b), Sym(Mul), Word(c)];
    ParseInvertsSpelling(SpellExpr(e), e);
  }

  /** parentheses before products, */
  lemma ParenthesesFirst<N(!new), V>(m: Meaning<N, V>, tight: bool, a: string, b: string, c: string)
    ensures Means(m, tight, [Word(a), Sym(Mul), Sym(LParen), Word(b), Sym(Plus), Word(c), Sym(RParen)],
                  m.mul(m.name(a), m.add(m.name(b), m.name(c))))
  {
    var t := Operand(false, NameTerm<N>(c));
    var inner := Expr(Unsigned, NameTerm<N>(b), Cons(t, Nil));
    var f := Operand(false, Paren(inner));
    var e := Expr(Unsigned, Term(Name(a), Cons(f, Nil)), Nil);
    NameIs(m, tight, a);
    NameIs(m, tight, b);
    NameIs(m, tight, c);
    OneSum(m, tight, m.name(b), t);
    OneProduct(m, tight, m.name(a), f);
    assert SpellExpr(inner) == [Word(b), Sym(Plus), Word(c)];
    assert SpellFactor(f.value) == [Sym(LParen), Word(b), Sym(Plus), Word(c), Sym(RParen)];
    assert SpellExpr(e) == [Word(a), Sym(Mul), Sym(LParen), Word(b), Sym(Plus), Word(c), Sym(RParen)];
    ParseInvertsSpelling(SpellExpr(e), e);
  }

  /** a minus negates the first term, or only its first factor, */
  lemma MinusFirst<N(!new), V>(m: Meaning<N, V>, tight: bool, a: string, b: string)
    ensures Means(m, tight, [Sym(Minus), Word(a), Sym(Mul), Word(b)],
                  if tight then m.mul(m.neg(m.name(a)), m.name(b)) else m.neg(m.mul(m.name(a), m.name(b))))
  {
    var f := Operand(false, Factor<N>.Name(b));
    var e := Expr(Negative, Term(Name(a), Cons(f, Nil)), Nil);
    NameIs(m, tight, a);
    NameIs(m, tight, b);
    OneProduct(m, tight, m.name(a), f);
    OneProduct(m, tight, m.neg(m.name(a)), f);
    assert SpellExpr(e) == [Sym(Minus), Word(a), Sym(Mul), Word(b)];
    ParseInvertsSpelling(SpellExpr(e), e);
  }

  /** a plus does nothing, */
  lemma PlusFirst<N(!new), V>(m: Meaning<N, V>, tight: bool, a: string)
    ensures Means(m, tight, [Sym(Plus), Word(a)], m.name(a))
  {
    var e := Expr(Positive, NameTerm<N>(a), Nil);
    NameIs(m, tight, a);
    assert SpellExpr(e) == [Sym(Plus), Word(a)];
    ParseInvertsSpelling(SpellExpr(e), e);
  }

  /** a number is that number, and a call passes its arguments in order. */
  lemma CallInOrder<N(!new), V>(m: Meaning<N, V>, tight: bool, f: string, a: string, n: N)
    ensures Means(m, tight, [Word(f), Sym(LParen), Word(a), Sym(Comma), Num(n), Sym(RParen)],
                  m.call(f, [m.name(a), m.num(n)]))
  {
    var y: Expr<N> := Expr(Unsigned, Term(Literal(n), Nil), Nil);
    var args := Cons(NameExpr<N>(a), Cons(y, Nil));
    NameIs(m, tight, a);
    assert SpellTerm(y.first) == [Num(n)] && SpellExpr(y) == [Num(n)];
    assert EvalTerm(m, tight, y.first) == m.num(n) && Eval(m, tight, y) == m.num(n);
    assert SpellMoreArgs(args.tail) == [Sym(Comma), Num(n)];
    assert SpellArgs(args) == [Word(a), Sym(Comma), Num(n)];
    assert EvalArgs(m, tight, args.tail) == [m.num(n)];
    assert EvalArgs(m, tight, args) == [m.name(a), m.num(n)];
    CallAlone(m, tight, f, args);
    assert SpellExpr(Expr(Unsigned, Term(Call(f, args), Nil), Nil)) ==
           [Word(f), Sym(LParen), Word(a), Sym(Comma), Num(n), Sym(RParen)];
  }

  lemma CallAlone<N(!new), V>(m: Meaning<N, V>, tight: bool, f: string, args: List<Expr<N>>)
    ensures var e := Expr(Unsigned, Term(Call(f, args), Nil), Nil);
            && SpellExpr(e) == [Word(f), Sym(LParen)] + SpellArgs(args) + [Sym(RParen)]
            && Means(m, tight, SpellExpr(e), m.call(f, EvalArgs(m, tight, args)))
  {
    var e := Expr(Unsigned, Term(Call(f, args), Nil), Nil);
    assert SpellProducts<N>(Nil) == [] && SpellSums<N>(Nil) == [];
    assert SpellTerm(e.first) == [Word(f), Sym(LParen)] + SpellArgs(args) + [Sym(RParen)];
    assert EvalTerm(m, tight, e.first) == m.call(f, EvalArgs(m, tight, args));
    ParseInvertsSpelling(SpellExpr(e), e);
  }
}
