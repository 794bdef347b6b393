/** The tokenizer of the expression evaluator: characters to names, numbers and symbols. */
module ExpressionTokens {
  import opened Options

  datatype Symbol = LParen | RParen | Plus | Minus | Mul | Div | Comma

  /** A token; a number carries its text here and its value in emitted code. */
  datatype Token<+N> = Word(name: string) | Num(number: N) | Sym(symbol: Symbol)

  predicate IsBlank(c: char) { c == ' ' || c == '\t' || c == '\n' }

  predicate IsLetter(c: char) { 'a' <= c <= 'z' || 'A' <= c <= 'Z' || c == '_' }

  predicate IsDigit(c: char) { '0' <= c <= '9' }

  /** The characters that names and numbers are made of. */
  predicate IsWordChar(c: char) { IsLetter(c) || IsDigit(c) || c == '.' }

  function SymbolOf(c: char): Option<Symbol> {
    if c == '+' then Some(Plus)
    else if c == '-' then Some(Minus)
    else if c == '*' then Some(Mul)
    else if c == '/' then Some(Div)
    else if c == '(' then Some(LParen)
    else if c == ')' then Some(RParen)
    else if c == ',' then Some(Comma)
    else None
  }

  lemma Characters(c: char)
    ensures IsBlank(c) <==> c as int == 9 || c as int == 10 || c as int == 32
    ensures IsLetter(c) <==> 65 <= c as int <= 90 || 97 <= c as int <= 122 || c as int == 95
    ensures IsDigit(c) <==> 48 <= c as int <= 57
  {
  }

  /** Parentheses, the four operators and the comma, and nothing else. */
  lemma SymbolTable(c: char)
    ensures SymbolOf(c) == Some(LParen) <==> c as int == 40
    ensures SymbolOf(c) == Some(RParen) <==> c as int == 41
    ensures SymbolOf(c) == Some(Mul) <==> c as int == 42
    ensures SymbolOf(c) == Some(Plus) <==> c as int == 43
    ensures SymbolOf(c) == Some(Comma) <==> c as int == 44
    ensures SymbolOf(c) == Some(Minus) <==> c as int == 45
    ensures SymbolOf(c) == Some(Div) <==> c as int == 47
  {
  }

  // ----- the simple form: cut off the longest word, or one character

  predicate IsName(w: string) {
    w != "" && IsLetter(w[0]) && forall k :: 0 <= k < |w| ==> IsLetter(w[k]) || IsDigit(w[k])
  }

  /** Digits and at most one point; a lone point passes here. */
  predicate IsNumber(w: string) {
    && w != "" && (forall k :: 0 <= k < |w| ==> IsDigit(w[k]) || w[k] == '.')
    && forall j, k :: 0 <= j < k < |w| ==> !(w[j] == '.' && w[k] == '.')
  }

  predicate IsLexeme(w: string) { IsName(w) || IsNumber(w) }

  lemma NumberIsNoName(w: string)
    ensures !(IsName(w) && IsNumber(w))
  {
    if IsNumber(w) {
      assert IsDigit(w[0]) || w[0] == '.';
    }
  }

  function WordToken(w: string): Token<string>
    requires IsLexeme(w)
  {
    if IsName(w) then Word(w) else Num(w)
  }

  /** The number of word characters in front. */
  function WordLength(s: string): (n: nat)
    ensures n <= |s|
  {
    if s == "" || !IsWordChar(s[0]) then 0 else 1 + WordLength(s[1..])
  }

  function Before(ts: seq<Token<string>>, more: Option<seq<Token<string>>>): Option<seq<Token<string>>> {
    match more case None => None case Some(m) => Some(ts + m)
  }

  function Lex(s: string): Option<seq<Token<string>>>
    decreases |s|
  {
    if s == "" then Some([])
    else if IsBlank(s[0]) then Lex(s[1..])
    else if SymbolOf(s[0]).Some? then Before([Sym(SymbolOf(s[0]).value)], Lex(s[1..]))
    else
      var n := WordLength(s);
      if n > 0 && IsLexeme(s[..n]) then Before([WordToken(s[..n])], Lex(s[n..])) else None
  }

  // ----- a cut beside a blank or a symbol is harmless

  predicate AllWordChars(w: string) { forall k :: 0 <= k < |w| ==> IsWordChar(w[k]) }

  /** No word can continue into this text. */
  predicate EndsWord(rest: string) { rest == "" || !IsWordChar(rest[0]) }

  lemma {:induction false} WordLengthOf(w: string, rest: string)
    requires AllWordChars(w) && EndsWord(rest)
    ensures WordLength(w + rest) == |w|
  {
    if w == "" {
      assert w + rest == rest;
    } else {
      assert (w + rest)[1..] == w[1..] + rest;
      WordLengthOf(w[1..], rest);
    }
  }

  lemma LexemeChars(w: string)
    requires IsLexeme(w)
    ensures AllWordChars(w) && w != "" && !IsBlank(w[0]) && SymbolOf(w[0]).None?
  {
    assert IsLetter(w[0]) || IsDigit(w[0]) || w[0] == '.';
  }

  function Pending(w: string): seq<Token<string>>
    requires w == "" || IsLexeme(w)
  {
    if w == "" then [] else [WordToken(w)]
  }

  lemma LexWord(w: string, rest: string)
    requires w == "" || IsLexeme(w)
    requires EndsWord(rest)
    ensures Lex(w + rest) == Before(Pending(w), Lex(rest))
  {
    if w == "" {
      assert w + rest == rest;
      NothingBefore(Lex(rest));
    } else {
      LexemeChars(w);
      WordLengthOf(w, rest);
      assert (w + rest)[0] == w[0] && (w + rest)[..|w|] == w && (w + rest)[|w|..] == rest;
    }
  }

  lemma NothingBefore(more: Option<seq<Token<string>>>)
    ensures Before([], more) == more
  {
    match more
    case None =>
    case Some(m) => assert [] + m == m;
  }

  lemma BeforeTwice(a: seq<Token<string>>, b: seq<Token<string>>, more: Option<seq<Token<string>>>)
    ensures Before(a, Before(b, more)) == Before(a + b, more)
  {
    match more
    case None =>
    case Some(m) => assert a + (b + m) == (a + b) + m;
  }

  /** A word that has gone wrong stays wrong, however it goes on. */
  lemma LexBadWord(w: string, rest: string)
    requires AllWordChars(w) && w != "" && !IsLexeme(w)
    ensures Lex(w + rest) == None
  {
    var s := w + rest;
    var n := WordLength(s);
    WordCovers(w, rest);
    assert IsWordChar(s[0]) && !IsBlank(s[0]) && SymbolOf(s[0]).None?;
    if IsLexeme(s[..n]) {
      assert s[..n][..|w|] == w;
      LexemePrefix(s[..n], |w|);
    }
  }

  lemma {:induction false} WordCovers(w: string, rest: string)
    requires AllWordChars(w)
    ensures WordLength(w + rest) >= |w|
  {
    if w == "" {
    } else {
      assert (w + rest)[1..] == w[1..] + rest;
      WordCovers(w[1..], rest);
    }
  }

  lemma LexemePrefix(w: string, n: nat)
    requires IsLexeme(w) && 0 < n <= |w|
    ensures IsLexeme(w[..n])
  {
  }

  function Both(a: Option<seq<Token<string>>>, b: Option<seq<Token<string>>>): Option<seq<Token<string>>> {
    match a case None => None case Some(ts) => Before(ts, b)
  }

  lemma BothBefore(ts: seq<Token<string>>, a: Option<seq<Token<string>>>, b: Option<seq<Token<string>>>)
    ensures Both(Before(ts, a), b) == Before(ts, Both(a, b))
  {
    if a.Some? { BeforeTwice(ts, a.value, b); }
  }

  /** Cutting a text where no word is cut in two, and tokenizing the parts, gives the same tokens. */
  lemma {:induction false} LexSplits(a: string, b: string)
    requires EndsWord(b) || a == "" || !IsWordChar(a[|a| - 1])
    ensures Lex(a + b) == Both(Lex(a), Lex(b))
    decreases |a|, 1
  {
    if a == "" {
      assert a + b == b;
      NothingBefore(Lex(b));
    } else {
      var n := WordLength(a);
      if n > 0 {
        WordLengthIs(a);
        LexSplitsWord(a, b, n);
      } else {
        assert (a + b)[0] == a[0] && (a + b)[1..] == a[1..] + b;
        LexSplits(a[1..], b);
        if SymbolOf(a[0]).Some? { BothBefore([Sym(SymbolOf(a[0]).value)], Lex(a[1..]), Lex(b)); }
      }
    }
  }

  lemma {:induction false} LexSplitsWord(a: string, b: string, n: nat)
    requires 0 < n <= |a| && AllWordChars(a[..n]) && EndsWord(a[n..])
    requires EndsWord(b) || !IsWordChar(a[|a| - 1])
    ensures Lex(a + b) == Both(Lex(a), Lex(b))
    decreases |a|, 0
  {
    var w, rest := a[..n], a[n..];
    assert a == w + rest && a + b == w + (rest + b);
    assert n == |a| ==> a[|a| - 1] == w[n - 1];
    if IsLexeme(w) {
      LexWord(w, rest);
      LexWord(w, rest + b);
      LexSplits(rest, b);
      BothBefore(Pending(w), Lex(rest), Lex(b));
    } else {
      LexBadWord(w, rest);
      LexBadWord(w, rest + b);
    }
  }

  lemma {:induction false} WordLengthIs(s: string)
    ensures var n := WordLength(s); AllWordChars(s[..n]) && EndsWord(s[n..])
  {
    if s == "" || !IsWordChar(s[0]) {
    } else {
      WordLengthIs(s[1..]);
      var n := WordLength(s);
      assert s[n..] == s[1..][n - 1..];
      forall k | 0 <= k < n ensures IsWordChar(s[k]) {
        assert k > 0 ==> s[k] == s[1..][..n - 1][k - 1];
      }
    }
  }

  // ----- tokens and the text they came from

  function SymbolChar(y: Symbol): (c: char)
    ensures SymbolOf(c) == Some(y) && !IsBlank(c) && !IsWordChar(c)
  {
    match y
    case LParen => '('
    case RParen => ')'
    case Plus => '+'
    case Minus => '-'
    case Mul => '*'
    case Div => '/'
    case Comma => ','
  }

  function TokenText(t: Token<string>): string {
    match t
    case Word(w) => w
    case Num(w) => w
    case Sym(y) => [SymbolChar(y)]
  }

  function Text(ts: seq<Token<string>>): string {
    if ts == [] then "" else TokenText(ts[0]) + Text(ts[1..])
  }

  predicate IsProper(t: Token<string>) {
    match t
    case Word(w) => IsName(w)
    case Num(w) => IsNumber(w)
    case Sym(_) => true
  }

  ghost predicate AllProper(ts: seq<Token<string>>) { forall k :: 0 <= k < |ts| ==> IsProper(ts[k]) }

  /** No two names or numbers side by side. */
  ghost predicate WordsApart<N>(ts: seq<Token<N>>) {
    forall k :: 0 <= k < |ts| - 1 ==> ts[k].Sym? || ts[k + 1].Sym?
  }

  function WithoutBlanks(s: string): string {
    if s == "" then "" else (if IsBlank(s[0]) then "" else [s[0]]) + WithoutBlanks(s[1..])
  }

  lemma TextFirst(t: Token<string>, ts: seq<Token<string>>)
    ensures Text([t] + ts) == TokenText(t) + Text(ts)
  {
    assert ([t] + ts)[1..] == ts;
  }

  lemma {:induction false} WithoutBlanksOf(w: string, rest: string)
    requires AllWordChars(w)
    ensures WithoutBlanks(w + rest) == w + WithoutBlanks(rest)
  {
    if w == "" {
      assert w + rest == rest;
    } else {
      assert IsWordChar(w[0]) && (w + rest)[1..] == w[1..] + rest;
      WithoutBlanksOf(w[1..], rest);
      assert [w[0]] + (w[1..] + WithoutBlanks(rest)) == w + WithoutBlanks(rest);
    }
  }

  /** Nothing but blanks is lost, and only names, numbers and symbols are found. */
  lemma {:induction false} LexKeepsText(s: string)
    requires Lex(s).Some?
    ensures Text(Lex(s).value) == WithoutBlanks(s) && AllProper(Lex(s).value)
    decreases |s|
  {
    if s == "" {
    } else if IsBlank(s[0]) {
      LexKeepsText(s[1..]);
    } else if SymbolOf(s[0]).Some? {
      LexKeepsText(s[1..]);
      SymbolCharOf(s[0]);
      TextFirst(Sym(SymbolOf(s[0]).value), Lex(s[1..]).value);
    } else {
      var n := WordLength(s);
      WordLengthIs(s);
      LexKeepsText(s[n..]);
      assert s == s[..n] + s[n..];
      WithoutBlanksOf(s[..n], s[n..]);
      TextFirst(WordToken(s[..n]), Lex(s[n..]).value);
    }
  }

  lemma SymbolCharOf(c: char)
    requires SymbolOf(c).Some?
    ensures SymbolChar(SymbolOf(c).value) == c
  {
  }

  /** Proper tokens, no two words side by side, are found again in their text without any blanks. */
  lemma {:induction false} LexOfText(ts: seq<Token<string>>)
    requires AllProper(ts) && WordsApart(ts)
    ensures Lex(Text(ts)) == Some(ts)
  {
    if ts == [] {
    } else {
      var t, rest := ts[0], ts[1..];
      assert ts == [t] + rest;
      forall k | 0 <= k < |rest| - 1 ensures rest[k].Sym? || rest[k + 1].Sym? {
        assert ts[k + 1].Sym? || ts[k + 2].Sym?;
      }
      LexOfText(rest);
      if t.Sym? {
        assert ([SymbolChar(t.symbol)] + Text(rest))[1..] == Text(rest);
      } else {
        assert rest != [] ==> ts[0].Sym? || ts[1].Sym?;
        WordBefore(t, rest);
      }
    }
  }

  lemma WordBefore(t: Token<string>, rest: seq<Token<string>>)
    requires !t.Sym? && IsProper(t) && (rest != [] ==> rest[0].Sym?)
    ensures Lex(TokenText(t) + Text(rest)) == Before([t], Lex(Text(rest)))
  {
    NumberIsNoName(TokenText(t));
    LexWord(TokenText(t), Text(rest));
  }

  // ----- the tokenizer itself: one character at a time

  /** The tokens so far and the word so far. */
  datatype Reading = Reading(tokens: seq<Token<string>>, word: string)

  /** What a character makes of the tokens and the word so far, unless it is refused. */
  function After(ts: seq<Token<string>>, w: string, c: char): Option<Reading>
    requires w == "" || IsLexeme(w)
  {
    if IsBlank(c) then Some(Reading(ts + Pending(w), ""))
    else if IsWordChar(c) then (if IsLexeme(w + [c]) then Some(Reading(ts, w + [c])) else None)
    else if SymbolOf(c).Some? then Some(Reading(ts + Pending(w) + [Sym(SymbolOf(c).value)], ""))
    else None
  }

  lemma LexStart(s: string)
    ensures Lex(s) == Before([], Lex("" + s[0..]))
  {
    assert "" + s[0..] == s;
    NothingBefore(Lex(s));
  }

  /** What may follow the word so far. */
  lemma NextCharacter(w: string, isName: bool, decimal: bool, c: char)
    requires IsWordChar(c)
    requires w != "" ==> if isName then IsName(w) else IsNumber(w) && (decimal <==> '.' in w)
    ensures IsName(w + [c]) <==> if w == "" then IsLetter(c) else isName && c != '.'
    ensures IsNumber(w + [c]) <==> if w == "" then !IsLetter(c) else !isName && !IsLetter(c) && !(c == '.' && decimal)
  {
    if w != "" {
      NumberIsNoName(w);
      assert (w + [c])[0] == w[0];
      assert w == (w + [c])[..|w|];
      if isName { NameThenCharacter(w, c); } else { NumberThenCharacter(w, c); }
    }
  }

  lemma NameThenCharacter(w: string, c: char)
    requires IsName(w) && IsWordChar(c)
    ensures IsName(w + [c]) <==> c != '.'
    ensures !IsNumber(w + [c])
  {
    var v := w + [c];
    assert v[0] == w[0] && v[|w|] == c;
  }

  lemma NumberThenCharacter(w: string, c: char)
    requires IsNumber(w) && IsWordChar(c)
    ensures !IsName(w + [c])
    ensures IsNumber(w + [c]) <==> !IsLetter(c) && !(c == '.' && '.' in w)
  {
    var v := w + [c];
    assert v[0] == w[0] && v[|w|] == c;
    assert IsDigit(w[0]) || w[0] == '.';
    if c == '.' && '.' in w {
      var j :| 0 <= j < |w| && w[j] == '.';
      assert v[j] == '.';
    }
  }

  /** It leaves the tokens of the whole text what they were, or there are none. */
  lemma AfterKeepsLex(ts: seq<Token<string>>, w: string, c: char, rest: string)
    requires w == "" || IsLexeme(w)
    ensures Before(ts, Lex(w + ([c] + rest))) == (
            var r := After(ts, w, c);
            if r.Some? then Before(r.value.tokens, Lex(r.value.word + rest)) else None)
  {
    var more := [c] + rest;
    assert more[0] == c && more[1..] == rest;
    if IsWordChar(c) {
      assert w + more == (w + [c]) + rest;
      if w != "" { LexemeChars(w); }
      if !IsLexeme(w + [c]) { LexBadWord(w + [c], rest); }
    } else {
      assert "" + rest == rest;
      LexWord(w, more);
      BeforeTwice(ts, Pending(w), Lex(more));
      if !IsBlank(c) && SymbolOf(c).Some? {
        BeforeTwice(ts + Pending(w), [Sym(SymbolOf(c).value)], Lex(rest));
      }
    }
  }

  lemma LexEnd(ts: seq<Token<string>>, w: string)
    requires w == "" || IsLexeme(w)
    ensures Before(ts, Lex(w)) == Some(ts + Pending(w))
  {
    assert w + "" == w;
    LexWord(w, "");
    assert Pending(w) + [] == Pending(w);
  }

  class Tokenizer {
    var tokens: seq<Token<string>>
    var isName: bool
    var text: string
    var decimal: bool

    /** The word being read: nothing, a name, or a number whose point has been noted. */
    ghost predicate Valid()
      reads this
    {
      text != "" ==> if isName then IsName(text) else IsNumber(text) && (decimal <==> '.' in text)
    }

    constructor ()
      ensures Valid() && tokens == [] && text == ""
    {
      tokens, isName, text, decimal := [], false, "", false;
    }

    method PushCurrentToken()
      requires Valid()
      modifies this
      ensures Valid() && text == ""
      ensures old(text) == "" || IsLexeme(old(text))
      ensures tokens == old(tokens) + Pending(old(text))
    {
      if text != "" {
        NumberIsNoName(text);
        tokens := tokens + [if isName then Word(text) else Num(text)];
        text := "";
      }
    }

    /** One character of a word, or a refusal. */
    method AddToWord(c: char) returns (ok: bool)
      requires Valid() && IsWordChar(c)
      modifies this
      ensures ok ==> Valid() && tokens == old(tokens) && text == old(text) + [c]
      ensures ok <==> IsLexeme(old(text) + [c])
    {
      NextCharacter(text, isName, decimal, c);
      if IsLetter(c) {
        if text == "" { isName := true; } else if !isName { return false; }
      } else if IsDigit(c) {
        if text == "" { isName, decimal := false, false; }
      } else {
        if text == "" { isName := false; } else if isName || decimal { return false; }
        decimal := true;
      }
      text := text + [c];
      ok := true;
    }

    /** The loop's body. */
    method TakeCharacter(c: char) returns (ok: bool)
      requires Valid()
      modifies this
      ensures ok ==> Valid()
      ensures old(text) == "" || IsLexeme(old(text))
      ensures var after := After(old(tokens), old(text), c);
              if ok then after == Some(Reading(tokens, text)) else after == None
    {
      NumberIsNoName(text);
      if IsBlank(c) {
        PushCurrentToken();
        return true;
      }
      if IsWordChar(c) {
        ok := AddToWord(c);
        return;
      }
      if SymbolOf(c).None? { return false; }
      PushCurrentToken();
      tokens := tokens + [Sym(SymbolOf(c).value)];
      ok := true;
    }

    /** The whole loop computes what cutting off longest words computes. */
    method Tokenize(s: string) returns (r: Option<seq<Token<string>>>)
      requires Valid() && tokens == [] && text == ""
      modifies this
      ensures r == Lex(s)
    {
      LexStart(s);
      for i := 0 to |s|
        invariant Valid() && (text == "" || IsLexeme(text))
        invariant Lex(s) == Before(tokens, Lex(text + s[i..]))
      {
        assert s[i..] == [s[i]] + s[i + 1..];
        AfterKeepsLex(tokens, text, s[i], s[i + 1..]);
        var ok := TakeCharacter(s[i]);
        if !ok { return None; }
      }
      assert text + s[|s|..] == text;
      LexEnd(tokens, text);
      PushCurrentToken();
      r := Some(tokens);
    }
  }
}
