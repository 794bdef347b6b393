/** The expression compiler: reads a text and emits the expression in CUDA C, both as tokens. */
module ExpressionParser {
  import opened ExpressionGrammar
  import opened ExpressionMeaning
  import opened ExpressionNumbers
  import opened ExpressionTokens
  import opened Options

  /** The device functions behind the names an expression may call. The custom ones take the data
      for custom functions as a last argument. */
  datatype Functions = Functions(native: map<string, string>, custom: map<string, string>)

  /** The argument that custom functions are passed. */
  const DATA := "&custom_function_data"

  // ----- what is supported

  predicate SupportedExpr(fs: Functions, e: Expr<string>) {
    SupportedTerm(fs, e.first) && SupportedSums(fs, e.rest)
  }

  predicate SupportedSums(fs: Functions, l: List<Operand<Term<string>>>) {
    l.Cons? ==> SupportedTerm(fs, l.head.value) && SupportedSums(fs, l.tail)
  }

  predicate SupportedTerm(fs: Functions, t: Term<string>) {
    SupportedFactor(fs, t.first) && SupportedProducts(fs, t.rest)
  }

  predicate SupportedProducts(fs: Functions, l: List<Operand<Factor<string>>>) {
    l.Cons? ==> SupportedFactor(fs, l.head.value) && SupportedProducts(fs, l.tail)
  }

  /** Functions are known, and numbers can be read. */
  predicate SupportedFactor(fs: Functions, f: Factor<string>) {
    match f
    case Name(_) => true
    case Literal(s) => ReadNumber(s).Some?
    case Call(name, args) => (name in fs.custom || name in fs.native) && SupportedArgs(fs, args)
    case Paren(e) => SupportedExpr(fs, e)
  }

  predicate SupportedArgs(fs: Functions, l: List<Expr<string>>) {
    l.Cons? ==> SupportedExpr(fs, l.head) && SupportedArgs(fs, l.tail)
  }

  // ----- what the emitted expression is

  function TranslateExpr(fs: Functions, e: Expr<string>): Expr<Decimal>
    requires SupportedExpr(fs, e)
  {
    Expr(if e.sign == Positive then Unsigned else e.sign, TranslateTerm(fs, e.first), TranslateSums(fs, e.rest))
  }

  function TranslateSums(fs: Functions, l: List<Operand<Term<string>>>): List<Operand<Term<Decimal>>>
    requires SupportedSums(fs, l)
  {
    match l
    case Nil => Nil
    case Cons(o, tail) => Cons(Operand(o.inverse, TranslateTerm(fs, o.value)), TranslateSums(fs, tail))
  }

  function TranslateTerm(fs: Functions, t: Term<string>): Term<Decimal>
    requires SupportedTerm(fs, t)
  {
    Term(TranslateFactor(fs, t.first), TranslateProducts(fs, t.rest))
  }

  function TranslateProducts(fs: Functions, l: List<Operand<Factor<string>>>): List<Operand<Factor<Decimal>>>
    requires SupportedProducts(fs, l)
  {
    match l
    case Nil => Nil
    case Cons(o, tail) => Cons(Operand(o.inverse, TranslateFactor(fs, o.value)), TranslateProducts(fs, tail))
  }

  function TranslateFactor(fs: Functions, f: Factor<string>): Factor<Decimal>
    requires SupportedFactor(fs, f)
  {
    match f
    case Name(name) => Name(name)
    case Literal(s) => Literal(Printed(ReadNumber(s).value))
    case Call(name, args) =>
      if name in fs.custom then Call(fs.custom[name], Chain(TranslateArgs(fs, args), DataArgs()))
      else Call(fs.native[name], TranslateArgs(fs, args))
    case Paren(e) => Paren(TranslateExpr(fs, e))
  }

  function TranslateArgs(fs: Functions, l: List<Expr<string>>): List<Expr<Decimal>>
    requires SupportedArgs(fs, l)
  {
    match l
    case Nil => Nil
    case Cons(e, tail) => Cons(TranslateExpr(fs, e), TranslateArgs(fs, tail))
  }

  function DataArgs(): List<Expr<Decimal>> { Cons(Expr(Unsigned, Term(Name(DATA), Nil), Nil), Nil) }

  /** One list after another. */
  function Chain<T>(a: List<T>, b: List<T>): List<T> {
    match a
    case Nil => b
    case Cons(head, tail) => Cons(head, Chain(tail, b))
  }

  // ----- lists read by a loop

  lemma Regroup<N>(a: seq<Token<N>>, b: seq<Token<N>>, c: seq<Token<N>>)
    ensures (a + b) + c == a + (b + c)
  {
  }

  lemma RegroupAfter<N>(t: Token<N>, a: seq<Token<N>>, b: seq<Token<N>>, c: seq<Token<N>>)
    ensures [t] + (a + (b + c)) == ([t] + (a + b)) + c
  {
  }

  lemma {:induction false} ChainNil<T>(a: List<T>)
    ensures Chain(a, Nil) == a
  {
    match a
    case Nil =>
    case Cons(_, tail) => ChainNil(tail);
  }

  lemma {:induction false} ChainSnoc<T>(a: List<T>, x: T, b: List<T>)
    ensures Chain(Chain(a, Cons(x, Nil)), b) == Chain(a, Cons(x, b))
  {
    match a
    case Nil =>
    case Cons(_, tail) => ChainSnoc(tail, x, b);
  }

  /** What is read in all, if `done` was read before. */
  function Resumed<T>(done: List<T>, r: Option<Read<List<T>>>): Option<Read<List<T>>> {
    match r
    case None => None
    case Some(more) => Some(Read(Chain(done, more.tree), more.next))
  }

  lemma ResumedEnd<T>(done: List<T>, i: nat)
    ensures Resumed(done, Some(Read(Nil, i))) == Some(Read(done, i))
  {
    ChainNil(done);
  }

  lemma {:induction false} ProductsSnoc(fs: Functions, done: List<Operand<Factor<string>>>, o: Operand<Factor<string>>)
    ensures SupportedProducts(fs, Chain(done, Cons(o, Nil))) <==>
              SupportedProducts(fs, done) && SupportedFactor(fs, o.value)
    ensures SupportedProducts(fs, done) && SupportedFactor(fs, o.value) ==>
              SpellProducts(TranslateProducts(fs, Chain(done, Cons(o, Nil)))) ==
              SpellProducts(TranslateProducts(fs, done))
              + ([Sym(if o.inverse then Div else Mul)] + SpellFactor(TranslateFactor(fs, o.value)))
  {
    match done
    case Nil =>
    case Cons(p, tail) =>
      ProductsSnoc(fs, tail, o);
      if SupportedProducts(fs, done) && SupportedFactor(fs, o.value) {
        RegroupAfter(Sym(if p.inverse then Div else Mul), SpellFactor(TranslateFactor(fs, p.value)),
                     SpellProducts(TranslateProducts(fs, tail)),
                     [Sym(if o.inverse then Div else Mul)] + SpellFactor(TranslateFactor(fs, o.value)));
      }
  }

  lemma {:induction false} UnsupportedProducts(fs: Functions, done: List<Operand<Factor<string>>>,
                                               more: List<Operand<Factor<string>>>)
    requires !SupportedProducts(fs, more)
    ensures !SupportedProducts(fs, Chain(done, more))
  {
    match done
    case Nil =>
    case Cons(_, tail) => UnsupportedProducts(fs, tail, more);
  }

  lemma {:induction false} SumsSnoc(fs: Functions, done: List<Operand<Term<string>>>, o: Operand<Term<string>>)
    ensures SupportedSums(fs, Chain(done, Cons(o, Nil))) <==> SupportedSums(fs, done) && SupportedTerm(fs, o.value)
    ensures SupportedSums(fs, done) && SupportedTerm(fs, o.value) ==>
              SpellSums(TranslateSums(fs, Chain(done, Cons(o, Nil)))) ==
              SpellSums(TranslateSums(fs, done))
              + ([Sym(if o.inverse then Minus else Plus)] + SpellTerm(TranslateTerm(fs, o.value)))
  {
    match done
    case Nil =>
    case Cons(p, tail) =>
      SumsSnoc(fs, tail, o);
      if SupportedSums(fs, done) && SupportedTerm(fs, o.value) {
        RegroupAfter(Sym(if p.inverse then Minus else Plus), SpellTerm(TranslateTerm(fs, p.value)),
                     SpellSums(TranslateSums(fs, tail)),
                     [Sym(if o.inverse then Minus else Plus)] + SpellTerm(TranslateTerm(fs, o.value)));
      }
  }

  lemma {:induction false} UnsupportedSums(fs: Functions, done: List<Operand<Term<string>>>,
                                           more: List<Operand<Term<string>>>)
    requires !SupportedSums(fs, more)
    ensures !SupportedSums(fs, Chain(done, more))
  {
    match done
    case Nil =>
    case Cons(_, tail) => UnsupportedSums(fs, tail, more);
  }

  lemma {:induction false} ArgsSnoc(fs: Functions, done: List<Expr<string>>, e: Expr<string>)
    ensures SupportedArgs(fs, Chain(done, Cons(e, Nil))) <==> SupportedArgs(fs, done) && SupportedExpr(fs, e)
    ensures SupportedArgs(fs, done) && SupportedExpr(fs, e) ==>
              SpellMoreArgs(TranslateArgs(fs, Chain(done, Cons(e, Nil)))) ==
              SpellMoreArgs(TranslateArgs(fs, done)) + ([Sym(Comma)] + SpellExpr(TranslateExpr(fs, e)))
  {
    match done
    case Nil =>
    case Cons(d, tail) =>
      ArgsSnoc(fs, tail, e);
      if SupportedArgs(fs, done) && SupportedExpr(fs, e) {
        RegroupAfter(Sym(Comma), SpellExpr(TranslateExpr(fs, d)), SpellMoreArgs(TranslateArgs(fs, tail)),
                     [Sym(Comma)] + SpellExpr(TranslateExpr(fs, e)));
      }
  }

  lemma {:induction false} UnsupportedArgs(fs: Functions, done: List<Expr<string>>, more: List<Expr<string>>)
    requires !SupportedArgs(fs, more)
    ensures !SupportedArgs(fs, Chain(done, more))
  {
    match done
    case Nil =>
    case Cons(_, tail) => UnsupportedArgs(fs, tail, more);
  }

  /** The loops' steps: a further operand or argument that is read is added, and one that cannot be
      read or is not supported decides the whole list. */
  lemma NextProduct(fs: Functions, ts: seq<Token<string>>, done: List<Operand<Factor<string>>>, i: nat)
    requires At(ts, i, Mul) || At(ts, i, Div)
    requires ReadFactor(ts, i + 1).Some? && SupportedFactor(fs, ReadFactor(ts, i + 1).value.tree)
    requires SupportedProducts(fs, done)
    ensures var f := ReadFactor(ts, i + 1).value;
            var more := Chain(done, Cons(Operand(At(ts, i, Div), f.tree), Nil));
            && Resumed(done, ReadProducts(ts, i)) == Resumed(more, ReadProducts(ts, f.next))
            && SupportedProducts(fs, more)
            && SpellProducts(TranslateProducts(fs, more)) ==
               SpellProducts(TranslateProducts(fs, done))
               + ([Sym(if At(ts, i, Div) then Div else Mul)] + SpellFactor(TranslateFactor(fs, f.tree)))
  {
    var f := ReadFactor(ts, i + 1).value;
    var o := Operand(At(ts, i, Div), f.tree);
    ProductsSnoc(fs, done, o);
    var rest := ReadProducts(ts, f.next);
    if rest.Some? { ChainSnoc(done, o, rest.value.tree); }
  }

  lemma RefusedProduct(fs: Functions, ts: seq<Token<string>>, done: List<Operand<Factor<string>>>, i: nat)
    requires At(ts, i, Mul) || At(ts, i, Div)
    requires ReadFactor(ts, i + 1).Some? ==> !SupportedFactor(fs, ReadFactor(ts, i + 1).value.tree)
    ensures var r := Resumed(done, ReadProducts(ts, i)); r.Some? ==> !SupportedProducts(fs, r.value.tree)
  {
    if ReadProducts(ts, i).Some? { UnsupportedProducts(fs, done, ReadProducts(ts, i).value.tree); }
  }

  lemma NextSum(fs: Functions, ts: seq<Token<string>>, done: List<Operand<Term<string>>>, i: nat)
    requires At(ts, i, Plus) || At(ts, i, Minus)
    requires ReadTerm(ts, i + 1).Some? && SupportedTerm(fs, ReadTerm(ts, i + 1).value.tree)
    requires SupportedSums(fs, done)
    ensures var t := ReadTerm(ts, i + 1).value;
            var more := Chain(done, Cons(Operand(At(ts, i, Minus), t.tree), Nil));
            && Resumed(done, ReadSums(ts, i)) == Resumed(more, ReadSums(ts, t.next))
            && SupportedSums(fs, more)
            && SpellSums(TranslateSums(fs, more)) ==
               SpellSums(TranslateSums(fs, done))
               + ([Sym(if At(ts, i, Minus) then Minus else Plus)] + SpellTerm(TranslateTerm(fs, t.tree)))
  {
    var t := ReadTerm(ts, i + 1).value;
    var o := Operand(At(ts, i, Minus), t.tree);
    SumsSnoc(fs, done, o);
    var rest := ReadSums(ts, t.next);
    if rest.Some? { ChainSnoc(done, o, rest.value.tree); }
  }

  lemma RefusedSum(fs: Functions, ts: seq<Token<string>>, done: List<Operand<Term<string>>>, i: nat)
    requires At(ts, i, Plus) || At(ts, i, Minus)
    requires ReadTerm(ts, i + 1).Some? ==> !SupportedTerm(fs, ReadTerm(ts, i + 1).value.tree)
    ensures var r := Resumed(done, ReadSums(ts, i)); r.Some? ==> !SupportedSums(fs, r.value.tree)
  {
    if ReadSums(ts, i).Some? { UnsupportedSums(fs, done, ReadSums(ts, i).value.tree); }
  }

  lemma NextArg(fs: Functions, ts: seq<Token<string>>, done: List<Expr<string>>, i: nat)
    requires At(ts, i, Comma)
    requires ReadExpr(ts, i + 1).Some? && SupportedExpr(fs, ReadExpr(ts, i + 1).value.tree)
    requires SupportedArgs(fs, done)
    ensures var e := ReadExpr(ts, i + 1).value;
            var more := Chain(done, Cons(e.tree, Nil));
            && Resumed(done, ReadMoreArgs(ts, i)) == Resumed(more, ReadMoreArgs(ts, e.next))
            && SupportedArgs(fs, more)
            && SpellMoreArgs(TranslateArgs(fs, more)) ==
               SpellMoreArgs(TranslateArgs(fs, done)) + ([Sym(Comma)] + SpellExpr(TranslateExpr(fs, e.tree)))
  {
    var e := ReadExpr(ts, i + 1).value;
    ArgsSnoc(fs, done, e.tree);
    var rest := ReadMoreArgs(ts, e.next);
    if rest.Some? { ChainSnoc(done, e.tree, rest.value.tree); }
  }

  lemma RefusedArg(fs: Functions, ts: seq<Token<string>>, done: List<Expr<string>>, i: nat)
    requires At(ts, i, Comma)
    requires ReadExpr(ts, i + 1).Some? ==> !SupportedExpr(fs, ReadExpr(ts, i + 1).value.tree)
    ensures var r := Resumed(done, ReadMoreArgs(ts, i)); r.Some? ==> !SupportedArgs(fs, r.value.tree)
  {
    if ReadMoreArgs(ts, i).Some? { UnsupportedArgs(fs, done, ReadMoreArgs(ts, i).value.tree); }
  }

  lemma CallText<N>(os: seq<Token<N>>, w: Token<N>, args: seq<Token<N>>, last: seq<Token<N>>)
    ensures (((os + [w, Sym(LParen)]) + args) + last) + [Sym(RParen)] ==
            os + ([w] + ([Sym(LParen)] + ((args + last) + [Sym(RParen)])))
  {
  }

  lemma {:induction false} DataLast(l: List<Expr<Decimal>>)
    ensures SpellMoreArgs(Chain(l, DataArgs())) == SpellMoreArgs(l) + [Sym(Comma), Word(DATA)]
  {
    match l
    case Nil =>
    case Cons(e, tail) =>
      DataLast(tail);
      RegroupAfter(Sym(Comma), SpellExpr(e), SpellMoreArgs(tail), [Sym(Comma), Word(DATA)]);
  }

  lemma CallSpelled(fs: Functions, name: string, args: List<Expr<string>>)
    requires SupportedFactor(fs, Call(name, args))
    ensures var device := if name in fs.custom then fs.custom[name] else fs.native[name];
            var last := if name !in fs.custom then []
                        else if args == Nil then [Word(DATA)] else [Sym(Comma), Word(DATA)];
            SpellFactor(TranslateFactor(fs, Call(name, args))) ==
            [Word(device)] + ([Sym(LParen)] + ((SpellArgs(TranslateArgs(fs, args)) + last) + [Sym(RParen)]))
  {
    var translated := TranslateArgs(fs, args);
    if name in fs.custom {
      match args
      case Nil =>
      case Cons(e, tail) =>
        DataLast(translated.tail);
        Regroup(SpellExpr(translated.head), SpellMoreArgs(translated.tail), [Sym(Comma), Word(DATA)]);
    } else {
      assert SpellArgs(translated) + [] == SpellArgs(translated);
    }
  }

  /** The code of a call: the device function's name and the arguments, for a custom function with the
      data for custom functions as the last. */
  lemma CallCode(fs: Functions, name: string, args: List<Expr<string>>)
    requires SupportedFactor(fs, Call(name, args))
    ensures var code := SpellFactor(TranslateFactor(fs, Call(name, args)));
            var inner := SpellArgs(TranslateArgs(fs, args));
            code ==
            if name !in fs.custom then [Word(fs.native[name]), Sym(LParen)] + inner + [Sym(RParen)]
            else
              [Word(fs.custom[name]), Sym(LParen)] + inner + (if args == Nil then [] else [Sym(Comma)])
              + [Word("&custom_function_data"), Sym(RParen)]
  {
    CallSpelled(fs, name, args);
  }

  // ----- the parser

  class Parser {
    const functions: Functions
    var tokens: seq<Token<string>>
    var index: nat

    constructor (functions: Functions)
      ensures this.functions == functions && tokens == [] && index == 0
    {
      this.functions := functions;
      tokens, index := [], 0;
    }

    /** Takes the current token if it is the symbol. */
    method Accept(y: Symbol) returns (ok: bool)
      modifies this`index
      ensures ok == At(tokens, old(index), y) && index == old(index) + if ok then 1 else 0
    {
      ok := index < |tokens| && tokens[index] == Sym(y);
      if ok { index := index + 1; }
    }

    method ParseExpression(os: seq<Token<Decimal>>) returns (ok: bool, os': seq<Token<Decimal>>)
      requires index <= |tokens|
      modifies this`index
      ensures var r := ReadExpr(tokens, old(index));
              && (ok <==> r.Some? && SupportedExpr(functions, r.value.tree))
              && (ok ==> index == r.value.next && os' == os + SpellExpr(TranslateExpr(functions, r.value.tree)))
      decreases |tokens| - index, 3
    {
      if At(tokens, index, Plus) {
        index := index + 1;
        ok, os' := ParseUnsigned(Positive, os);
      } else if At(tokens, index, Minus) {
        index := index + 1;
        ok, os' := ParseUnsigned(Negative, os + [Sym(Minus)]);
      } else {
        ok, os' := ParseUnsigned(Unsigned, os);
      }
    }

    /** What follows the sign. */
    method ParseUnsigned(ghost sign: Sign, os: seq<Token<Decimal>>) returns (ok: bool, os': seq<Token<Decimal>>)
      requires index <= |tokens|
      modifies this`index
      ensures var r := ReadSigned(sign, tokens, old(index));
              && (ok <==> r.Some? && SupportedExpr(functions, r.value.tree))
              && (ok ==>
                    && index == r.value.next
                    && os' == os + (SpellTerm(TranslateTerm(functions, r.value.tree.first))
                                    + SpellSums(TranslateSums(functions, r.value.tree.rest))))
      decreases |tokens| - index, 2
    {
      ghost var start := index;
      ok, os' := ParseTerm(os);
      if !ok { return; }
      ghost var first := ReadTerm(tokens, start).value;
      ok, os' := ParseSums(os');
      if ok {
        Regroup(os, SpellTerm(TranslateTerm(functions, first.tree)),
                SpellSums(TranslateSums(functions, ReadSums(tokens, first.next).value.tree)));
      }
    }

    /** One further term and the operator before it. */
    method ParseSum(os: seq<Token<Decimal>>) returns (ok: bool, os': seq<Token<Decimal>>)
      requires At(tokens, index, Plus) || At(tokens, index, Minus)
      modifies this`index
      ensures var r, inverse := ReadTerm(tokens, old(index) + 1), At(tokens, old(index), Minus);
              && (ok <==> r.Some? && SupportedTerm(functions, r.value.tree))
              && (ok ==>
                    && index == r.value.next
                    && os' == os + ([Sym(if inverse then Minus else Plus)]
                                    + SpellTerm(TranslateTerm(functions, r.value.tree))))
      decreases |tokens| - index, 0
    {
      os' := os + [Sym(if At(tokens, index, Minus) then Minus else Plus)];
      index := index + 1;
      ok, os' := ParseTerm(os');
    }

    /** The loop over further terms. */
    method ParseSums(os: seq<Token<Decimal>>) returns (ok: bool, os': seq<Token<Decimal>>)
      requires index <= |tokens|
      modifies this`index
      ensures var r := ReadSums(tokens, old(index));
              && (ok <==> r.Some? && SupportedSums(functions, r.value.tree))
              && (ok ==> index == r.value.next && os' == os + SpellSums(TranslateSums(functions, r.value.tree)))
      decreases |tokens| - index, 2
    {
      ghost var start := index;
      ghost var done: List<Operand<Term<string>>> := Nil;
      ghost var emitted: seq<Token<Decimal>> := [];
      ok, os' := true, os;
      while At(tokens, index, Plus) || At(tokens, index, Minus)
        invariant start <= index <= |tokens|
        invariant ReadSums(tokens, start) == Resumed(done, ReadSums(tokens, index))
        invariant SupportedSums(functions, done)
        invariant ok && os' == os + emitted && emitted == SpellSums(TranslateSums(functions, done))
        decreases |tokens| - index
      {
        ghost var at := index;
        ok, os' := ParseSum(os');
        if !ok {
          RefusedSum(functions, tokens, done, at);
          return;
        }
        ghost var more := [Sym(if At(tokens, at, Minus) then Minus else Plus)]
                          + SpellTerm(TranslateTerm(functions, ReadTerm(tokens, at + 1).value.tree));
        Regroup(os, emitted, more);
        emitted := emitted + more;
        NextSum(functions, tokens, done, at);
        done := Chain(done, Cons(Operand(At(tokens, at, Minus), ReadTerm(tokens, at + 1).value.tree), Nil));
      }
      ResumedEnd(done, index);
    }

    method ParseTerm(os: seq<Token<Decimal>>) returns (ok: bool, os': seq<Token<Decimal>>)
      requires index <= |tokens|
      modifies this`index
      ensures var r := ReadTerm(tokens, old(index));
              && (ok <==> r.Some? && SupportedTerm(functions, r.value.tree))
              && (ok ==> index == r.value.next && os' == os + SpellTerm(TranslateTerm(functions, r.value.tree)))
      decreases |tokens| - index, 1
    {
      ghost var start := index;
      ok, os' := ParseFactor(os);
      if !ok { return; }
      ghost var first := ReadFactor(tokens, start).value;
      ok, os' := ParseProducts(os');
      if ok {
        Regroup(os, SpellFactor(TranslateFactor(functions, first.tree)),
                SpellProducts(TranslateProducts(functions, ReadProducts(tokens, first.next).value.tree)));
      }
    }

    /** One further factor and the operator before it. */
    method ParseProduct(os: seq<Token<Decimal>>) returns (ok: bool, os': seq<Token<Decimal>>)
      requires At(tokens, index, Mul) || At(tokens, index, Div)
      modifies this`index
      ensures var r, inverse := ReadFactor(tokens, old(index) + 1), At(tokens, old(index), Div);
              && (ok <==> r.Some? && SupportedFactor(functions, r.value.tree))
              && (ok ==>
                    && index == r.value.next
                    && os' == os + ([Sym(if inverse then Div else Mul)]
                                    + SpellFactor(TranslateFactor(functions, r.value.tree))))
      decreases |tokens| - index, 0
    {
      os' := os + [Sym(if At(tokens, index, Div) then Div else Mul)];
      index := index + 1;
      ok, os' := ParseFactor(os');
    }

    /** The loop over further factors. */
    method ParseProducts(os: seq<Token<Decimal>>) returns (ok: bool, os': seq<Token<Decimal>>)
      requires index <= |tokens|
      modifies this`index
      ensures var r := ReadProducts(tokens, old(index));
              && (ok <==> r.Some? && SupportedProducts(functions, r.value.tree))
              && (ok ==> index == r.value.next && os' == os + SpellProducts(TranslateProducts(functions, r.value.tree)))
      decreases |tokens| - index, 1
    {
      ghost var start := index;
      ghost var done: List<Operand<Factor<string>>> := Nil;
      ghost var emitted: seq<Token<Decimal>> := [];
      ok, os' := true, os;
      while At(tokens, index, Mul) || At(tokens, index, Div)
        invariant start <= index <= |tokens|
        invariant ReadProducts(tokens, start) == Resumed(done, ReadProducts(tokens, index))
        invariant SupportedProducts(functions, done)
        invariant ok && os' == os + emitted && emitted == SpellProducts(TranslateProducts(functions, done))
        decreases |tokens| - index
      {
        ghost var at := index;
        ok, os' := ParseProduct(os');
        if !ok {
          RefusedProduct(functions, tokens, done, at);
          return;
        }
        ghost var more := [Sym(if At(tokens, at, Div) then Div else Mul)]
                          + SpellFactor(TranslateFactor(functions, ReadFactor(tokens, at + 1).value.tree));
        Regroup(os, emitted, more);
        emitted := emitted + more;
        NextProduct(functions, tokens, done, at);
        done := Chain(done, Cons(Operand(At(tokens, at, Div), ReadFactor(tokens, at + 1).value.tree), Nil));
      }
      ResumedEnd(done, index);
    }

    method ParseFactor(os: seq<Token<Decimal>>) returns (ok: bool, os': seq<Token<Decimal>>)
      requires index <= |tokens|
      modifies this`index
      ensures var r := ReadFactor(tokens, old(index));
              && (ok <==> r.Some? && SupportedFactor(functions, r.value.tree))
              && (ok ==> index == r.value.next && os' == os + SpellFactor(TranslateFactor(functions, r.value.tree)))
      decreases |tokens| - index, 0
    {
      ok, os' := false, os;
      if index >= |tokens| { return; }
      match tokens[index]
      case Word(name) =>
        index := index + 1;
        var call := Accept(LParen);
        if call {
          ok, os' := ParseCall(name, os);
        } else {
          ok, os' := true, os + [Word(name)];
        }
      case Num(s) =>
        index := index + 1;
        if ReadNumber(s).None? { return; }
        ok, os' := true, os + [Num(Printed(ReadNumber(s).value))];
      case Sym(y) =>
        if y != LParen { return; }
        index := index + 1;
        ok, os' := ParseExpression(os + [Sym(LParen)]);
        if !ok { return; }
        ok := Accept(RParen);
        os' := os' + [Sym(RParen)];
    }

    /** The arguments, up to the closing parenthesis if there are none. */
    method ParseArgs(os: seq<Token<Decimal>>) returns (ok: bool, os': seq<Token<Decimal>>)
      requires index <= |tokens|
      modifies this`index
      ensures var r := ReadArgs(tokens, old(index));
              && (ok <==> r.Some? && SupportedArgs(functions, r.value.tree))
              && (ok ==> index == r.value.next && os' == os + SpellArgs(TranslateArgs(functions, r.value.tree)))
      decreases |tokens| - index, 4
    {
      if At(tokens, index, RParen) { return true, os; }
      ghost var start := index;
      ok, os' := ParseExpression(os);
      if !ok { return; }
      ghost var first := ReadExpr(tokens, start).value;
      ok, os' := ParseMoreArgs(os');
      if ok {
        Regroup(os, SpellExpr(TranslateExpr(functions, first.tree)),
                SpellMoreArgs(TranslateArgs(functions, ReadMoreArgs(tokens, first.next).value.tree)));
      }
    }

    /** One further argument and the comma before it. */
    method ParseArg(os: seq<Token<Decimal>>) returns (ok: bool, os': seq<Token<Decimal>>)
      requires At(tokens, index, Comma)
      modifies this`index
      ensures var r := ReadExpr(tokens, old(index) + 1);
              && (ok <==> r.Some? && SupportedExpr(functions, r.value.tree))
              && (ok ==>
                    && index == r.value.next
                    && os' == os + ([Sym(Comma)] + SpellExpr(TranslateExpr(functions, r.value.tree))))
      decreases |tokens| - index, 0
    {
      index := index + 1;
      ok, os' := ParseExpression(os + [Sym(Comma)]);
    }

    /** The loop over further arguments. */
    method ParseMoreArgs(os: seq<Token<Decimal>>) returns (ok: bool, os': seq<Token<Decimal>>)
      requires index <= |tokens|
      modifies this`index
      ensures var r := ReadMoreArgs(tokens, old(index));
              && (ok <==> r.Some? && SupportedArgs(functions, r.value.tree))
              && (ok ==> index == r.value.next && os' == os + SpellMoreArgs(TranslateArgs(functions, r.value.tree)))
      decreases |tokens| - index, 1
    {
      ghost var start := index;
      ghost var done: List<Expr<string>> := Nil;
      ghost var emitted: seq<Token<Decimal>> := [];
      ok, os' := true, os;
      while At(tokens, index, Comma)
        invariant start <= index <= |tokens|
        invariant ReadMoreArgs(tokens, start) == Resumed(done, ReadMoreArgs(tokens, index))
        invariant SupportedArgs(functions, done)
        invariant ok && os' == os + emitted && emitted == SpellMoreArgs(TranslateArgs(functions, done))
        decreases |tokens| - index
      {
        ghost var at := index;
        ok, os' := ParseArg(os');
        if !ok {
          RefusedArg(functions, tokens, done, at);
          return;
        }
        ghost var more := [Sym(Comma)] + SpellExpr(TranslateExpr(functions, ReadExpr(tokens, at + 1).value.tree));
        Regroup(os, emitted, more);
        emitted := emitted + more;
        NextArg(functions, tokens, done, at);
        done := Chain(done, Cons(ReadExpr(tokens, at + 1).value.tree, Nil));
      }
      ResumedEnd(done, index);
    }

    /** A call, from the token after its opening parenthesis on. */
    method ParseCall(name: string, os: seq<Token<Decimal>>) returns (ok: bool, os': seq<Token<Decimal>>)
      requires index <= |tokens|
      modifies this`index
      ensures var r := ReadCall(name, tokens, old(index));
              && (ok <==> r.Some? && SupportedFactor(functions, r.value.tree))
              && (ok ==> index == r.value.next && os' == os + SpellFactor(TranslateFactor(functions, r.value.tree)))
      decreases |tokens| - index, 5
    {
      ghost var start := index;
      ok, os' := false, os;
      var device: string;
      if name in functions.custom {
        device := functions.custom[name];
      } else if name in functions.native {
        device := functions.native[name];
      } else {
        return;
      }
      os' := os' + [Word(device), Sym(LParen)];
      var none := At(tokens, index, RParen);
      ok, os' := ParseArgs(os');
      if !ok { return; }
      var last := if name !in functions.custom then [] else if none then [Word(DATA)] else [Sym(Comma), Word(DATA)];
      os' := os' + last;
      ok := Accept(RParen);
      os' := os' + [Sym(RParen)];
      ghost var args := ReadArgs(tokens, start).value.tree;
      CallSpelled(functions, name, args);
      CallText(os, Word(device), SpellArgs(TranslateArgs(functions, args)), last);
    }

    /** Emits the code of an expression, or nothing if anything is wrong with it. */
    method Compile(text: string) returns (code: Option<seq<Token<Decimal>>>)
      modifies this
      ensures code == Compiled(functions, text)
    {
      var tokenizer := new Tokenizer();
      var ts := tokenizer.Tokenize(text);
      if ts.None? { return None; }
      tokens, index := ts.value, 0;
      var ok, os := ParseExpression([]);
      if !ok || index != |tokens| { return None; }
      ghost var tree := Parse(tokens).value;
      assert os == SpellExpr(TranslateExpr(functions, tree));
      code := Some(os);
    }
  }

  // ----- what compiling does

  function Compiled(fs: Functions, text: string): Option<seq<Token<Decimal>>> {
    match Lex(text)
    case None => None
    case Some(ts) =>
      match Parse(ts)
      case None => None
      case Some(e) => if SupportedExpr(fs, e) then Some(SpellExpr(TranslateExpr(fs, e))) else None
  }

  /** Main result: code is emitted if and only if the text's tokens spell a supported expression, and
      then it spells the translation. */
  lemma CompilesSentences(fs: Functions, text: string, code: seq<Token<Decimal>>)
    ensures Compiled(fs, text) == Some(code) <==>
            exists e ::
              Lex(text) == Some(SpellExpr(e)) && SupportedExpr(fs, e) && code == SpellExpr(TranslateExpr(fs, e))
  {
    if Compiled(fs, text) == Some(code) {
      var e := Parse(Lex(text).value).value;
      ParseInvertsSpelling(Lex(text).value, e);
      assert Lex(text) == Some(SpellExpr(e));
    }
    forall e | Lex(text) == Some(SpellExpr(e)) && SupportedExpr(fs, e) ensures Parse(Lex(text).value) == Some(e) {
      ParseInvertsSpelling(Lex(text).value, e);
    }
  }

  /** Every supported expression is compiled from its own text, written without any blanks. */
  lemma CompilesOwnText(fs: Functions, e: Expr<string>)
    requires SupportedExpr(fs, e) && AllProper(SpellExpr(e))
    ensures Compiled(fs, Text(SpellExpr(e))) == Some(SpellExpr(TranslateExpr(fs, e)))
  {
    var ts := SpellExpr(e);
    ExprApart(e);
    forall k | 0 <= k < |ts| - 1 ensures ts[k].Sym? || ts[k + 1].Sym? {
      assert Apart(ts[k], ts[k + 1]);
    }
    LexOfText(ts);
    ParseInvertsSpelling(ts, e);
  }

  /** The emitted code reads back as the translated tree, and no two of its tokens run together. */
  lemma CodeReadsBack(fs: Functions, text: string)
    requires Compiled(fs, text).Some?
    ensures var code, e := Compiled(fs, text).value, Parse(Lex(text).value).value;
            SupportedExpr(fs, e) && Parse(code) == Some(TranslateExpr(fs, e)) && WellApart(code)
  {
    var e := Parse(Lex(text).value).value;
    ParseInvertsSpelling(SpellExpr(TranslateExpr(fs, e)), TranslateExpr(fs, e));
    ExprApart(TranslateExpr(fs, e));
  }

  // ----- what the code means

  /** What source names and literals stand for, given the meaning of the code: a function is its
      device function, a literal the number printed for it. */
  function SourceMeaning<V>(fs: Functions, m: Meaning<Decimal, V>): Meaning<string, V> {
    Meaning(
      s => m.num(if ReadNumber(s).Some? then Printed(ReadNumber(s).value) else Decimal(0, 0)),
      m.name,
      (name, args) =>
        if name in fs.custom then m.call(fs.custom[name], args + [m.name(DATA)])
        else m.call(if name in fs.native then fs.native[name] else name, args),
      m.neg, m.add, m.sub, m.mul, m.div)
  }

  /** A minus can be moved out of the first operand of a product or quotient, as for floats. */
  ghost predicate NegationMoves<N, V(!new)>(m: Meaning<N, V>) {
    && (forall x: V, y: V :: m.mul(m.neg(x), y) == m.neg(m.mul(x, y)))
    && (forall x: V, y: V :: m.div(m.neg(x), y) == m.neg(m.div(x, y)))
  }

  lemma {:induction false} NegatedProducts<N, V(!new)>(m: Meaning<N, V>, tight: bool, left: V,
                                                       l: List<Operand<Factor<N>>>)
    requires NegationMoves(m)
    ensures EvalProducts(m, tight, m.neg(left), l) == m.neg(EvalProducts(m, tight, left, l))
  {
    match l
    case Nil =>
    case Cons(o, tail) =>
      var right := EvalFactor(m, tight, o.value);
      NegatedProducts(m, tight, if o.inverse then m.div(left, right) else m.mul(left, right), tail);
  }

  /** Main result: whatever values are and operators and functions mean, the emitted code, read as C
      does, has the value that the source has by its grammar, up to the printing of literals. */
  lemma {:induction false} MeaningKept<V(!new)>(fs: Functions, m: Meaning<Decimal, V>, e: Expr<string>)
    requires SupportedExpr(fs, e) && NegationMoves(m)
    ensures Eval(m, true, TranslateExpr(fs, e)) == Eval(SourceMeaning(fs, m), false, e)
    decreases e
  {
    var src, t := SourceMeaning(fs, m), e.first;
    TermKept(fs, m, t);
    FactorKept(fs, m, t.first);
    ProductsKept(fs, m, EvalFactor(src, false, t.first), t.rest);
    if e.sign == Negative {
      NegatedProducts(m, true, EvalFactor(src, false, t.first), TranslateProducts(fs, t.rest));
      SumsKept(fs, m, m.neg(EvalTerm(src, false, t)), e.rest);
    } else {
      SumsKept(fs, m, EvalTerm(src, false, t), e.rest);
    }
  }

  lemma {:induction false} SumsKept<V(!new)>(fs: Functions, m: Meaning<Decimal, V>, left: V,
                                             l: List<Operand<Term<string>>>)
    requires SupportedSums(fs, l) && NegationMoves(m)
    ensures EvalSums(m, true, left, TranslateSums(fs, l)) == EvalSums(SourceMeaning(fs, m), false, left, l)
    decreases l
  {
    match l
    case Nil =>
    case Cons(o, tail) =>
      TermKept(fs, m, o.value);
      var right := EvalTerm(SourceMeaning(fs, m), false, o.value);
      SumsKept(fs, m, if o.inverse then m.sub(left, right) else m.add(left, right), tail);
  }

  lemma {:induction false} TermKept<V(!new)>(fs: Functions, m: Meaning<Decimal, V>, t: Term<string>)
    requires SupportedTerm(fs, t) && NegationMoves(m)
    ensures EvalTerm(m, true, TranslateTerm(fs, t)) == EvalTerm(SourceMeaning(fs, m), false, t)
    decreases t
  {
    FactorKept(fs, m, t.first);
    ProductsKept(fs, m, EvalFactor(SourceMeaning(fs, m), false, t.first), t.rest);
  }

  lemma {:induction false} ProductsKept<V(!new)>(fs: Functions, m: Meaning<Decimal, V>, left: V,
                                                 l: List<Operand<Factor<string>>>)
    requires SupportedProducts(fs, l) && NegationMoves(m)
    ensures EvalProducts(m, true, left, TranslateProducts(fs, l)) == EvalProducts(SourceMeaning(fs, m), false, left, l)
    decreases l
  {
    match l
    case Nil =>
    case Cons(o, tail) =>
      FactorKept(fs, m, o.value);
      var right := EvalFactor(SourceMeaning(fs, m), false, o.value);
      ProductsKept(fs, m, if o.inverse then m.div(left, right) else m.mul(left, right), tail);
  }

  lemma {:induction false} FactorKept<V(!new)>(fs: Functions, m: Meaning<Decimal, V>, f: Factor<string>)
    requires SupportedFactor(fs, f) && NegationMoves(m)
    ensures EvalFactor(m, true, TranslateFactor(fs, f)) == EvalFactor(SourceMeaning(fs, m), false, f)
    decreases f
  {
    match f
    case Name(_) =>
    case Literal(_) =>
    case Call(name, args) =>
      ArgsKept(fs, m, args);
      if name in fs.custom { DataValue(m, TranslateArgs(fs, args)); }
    case Paren(e) => MeaningKept(fs, m, e);
  }

  lemma {:induction false} DataValue<V>(m: Meaning<Decimal, V>, l: List<Expr<Decimal>>)
    ensures EvalArgs(m, true, Chain(l, DataArgs())) == EvalArgs(m, true, l) + [m.name(DATA)]
  {
    match l
    case Nil =>
      var data := DataArgs().head;
      assert EvalTerm(m, true, data.first) == m.name(DATA);
      assert Eval(m, true, data) == m.name(DATA);
    case Cons(_, tail) => DataValue(m, tail);
  }

  lemma {:induction false} ArgsKept<V(!new)>(fs: Functions, m: Meaning<Decimal, V>, l: List<Expr<string>>)
    requires SupportedArgs(fs, l) && NegationMoves(m)
    ensures EvalArgs(m, true, TranslateArgs(fs, l)) == EvalArgs(SourceMeaning(fs, m), false, l)
    decreases l
  {
    match l
    case Nil =>
    case Cons(e, tail) =>
      MeaningKept(fs, m, e);
      ArgsKept(fs, m, tail);
  }
}
