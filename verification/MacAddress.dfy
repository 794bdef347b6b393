/** MAC address parsing, twice: the C++ player's token loop and the Python application's strip and
    decode. */
module MacAddress {
  import opened Options

  predicate IsHex(c: char) { '0' <= c <= '9' || 'a' <= c <= 'f' || 'A' <= c <= 'F' }

  function HexValue(c: char): (v: nat)
    requires IsHex(c)
    ensures v < 16
  {
    if c <= '9' then c as int - '0' as int
    else if c <= 'F' then c as int - 'A' as int + 10
    else c as int - 'a' as int + 10
  }

  /** The hex digits by value, in lower and in upper case. */
  predicate Shows(c: char, v: nat) {
    v < 16 && (c == "0123456789abcdef"[v] || c == "0123456789ABCDEF"[v])
  }

  lemma HexDigits(c: char, v: nat)
    ensures Shows(c, v) <==> IsHex(c) && HexValue(c) == v
  {
  }

  predicate IsSpace(c: char) { c == ' ' || c == '\t' || c == '\n' || c == '\r' || c == 11 as char || c == 12 as char }

  lemma SpaceCodes(c: char)
    ensures IsSpace(c) <==> c as int == 32 || 9 <= c as int <= 13
  {
  }

  // ----- std::getline with ':' as the delimiter

  /** The length of the part before the first colon. */
  function TokenLength(s: string): (n: nat)
    ensures n <= |s|
    ensures forall k :: 0 <= k < n ==> s[k] != ':'
    ensures n < |s| ==> s[n] == ':'
  {
    if s == "" || s[0] == ':' then 0 else 1 + TokenLength(s[1..])
  }

  /** What is left after a token and its delimiter. */
  function AfterToken(s: string): (r: string)
    requires s != ""
    ensures |r| < |s|
  {
    var n := TokenLength(s);
    if n < |s| then s[n + 1..] else ""
  }

  /** The tokens that successive calls extract: no token follows a final colon. */
  function Tokens(s: string): seq<string>
    decreases |s|
  {
    if s == "" then [] else [s[..TokenLength(s)]] + Tokens(AfterToken(s))
  }

  /** A token, its delimiter if any, and what follows make up the string. */
  lemma TokenSplits(s: string)
    requires s != ""
    ensures var token := s[..TokenLength(s)];
            && NoColon(token)
            && s == token + if TokenLength(s) < |s| then ":" + AfterToken(s) else ""
    ensures TokenLength(s) == |s| ==> AfterToken(s) == ""
  {
    var n := TokenLength(s);
    if n < |s| {
      SplitAt(s, n);
    }
  }

  lemma SplitAt(s: string, n: nat)
    requires n < |s| && s[n] == ':'
    ensures s == s[..n] + (":" + s[n + 1..])
  {
  }

  lemma TokensFirst(s: string)
    requires s != ""
    ensures Tokens(s) == [s[..TokenLength(s)]] + Tokens(AfterToken(s))
  {
  }

  predicate NoColon(token: string) { forall k :: 0 <= k < |token| ==> token[k] != ':' }

  // ----- operator>> with std::hex into a sixteen-bit integer

  /** Leading hex digits, at least one. A bare "0x" is a prefix without digits. */
  function Digits(r: string): Option<nat>
    requires |r| <= 2
  {
    if r == "" || !IsHex(r[0]) then None
    else if |r| == 1 then Some(HexValue(r[0]))
    else if r[0] == '0' && (r[1] == 'x' || r[1] == 'X') then None
    else if IsHex(r[1]) then Some(16 * HexValue(r[0]) + HexValue(r[1]))
    else Some(HexValue(r[0]))
  }

  /** A sign is accepted, and a negative value wraps. */
  function Signed(r: string): Option<nat>
    requires |r| <= 2
  {
    if r != "" && r[0] == '+' then Digits(r[1..])
    else if r != "" && r[0] == '-' then
      match Digits(r[1..]) case None => None case Some(v) => Some((65536 - v) % 65536)
    else Digits(r)
  }

  /** Leading whitespace is skipped; what follows the digits is not looked at. */
  function Extract(token: string): Option<nat>
    requires |token| == 2
  {
    if !IsSpace(token[0]) then Signed(token)
    else if !IsSpace(token[1]) then Signed(token[1..])
    else None
  }

  // ----- the C++ parser

  datatype Error = TooManyBytes | NotTwoDigits | InvalidHex | NotSixBytes

  datatype Result = Ok(bytes: seq<nat>) | Err(error: Error)

  predicate Readable(token: string) { |token| == 2 && Extract(token).Some? }

  function ByteOf(token: string): nat
    requires Readable(token)
  {
    Extract(token).value % 256
  }

  /** The first token the loop cannot take. */
  function FirstBad(ts: seq<string>): (j: nat)
    ensures j <= |ts| && j <= 6
    ensures forall k :: 0 <= k < j ==> Readable(ts[k])
    ensures j < |ts| && j < 6 ==> !Readable(ts[j])
  {
    if |ts| > 0 && Readable(ts[0]) then
      var j := FirstBad(ts[1..]);
      assert forall k :: 0 < k <= j ==> ts[k] == ts[1..][k - 1];
      if j == 6 then 6 else j + 1
    else 0
  }

  function BytesOf(ts: seq<string>): (b: seq<nat>)
    requires forall k :: 0 <= k < |ts| ==> Readable(ts[k])
    ensures |b| == |ts|
  {
    seq(|ts|, k requires 0 <= k < |ts| => ByteOf(ts[k]))
  }

  /** Which exception, if any: decided by the first bad token, then by the count. */
  function Outcome(ts: seq<string>): Result {
    var j := FirstBad(ts);
    if j == |ts| then (if j == 6 then Ok(BytesOf(ts)) else Err(NotSixBytes))
    else if j == 6 then Err(TooManyBytes)
    else if |ts[j]| != 2 then Err(NotTwoDigits)
    else Err(InvalidHex)
  }

  /** The loop's checks on a token, the `i`-th from 0, and its byte. */
  method ReadByte(i: nat, token: string) returns (error: Option<Error>, byte: nat)
    ensures error.None? <==> i < 6 && Readable(token)
    ensures error.Some? ==>
              error.value == if i >= 6 then TooManyBytes else if |token| != 2 then NotTwoDigits else InvalidHex
    ensures error.None? ==> byte == ByteOf(token)
  {
    byte := 0;
    if i >= 6 { return Some(TooManyBytes), byte; }
    if |token| != 2 { return Some(NotTwoDigits), byte; }
    var value := Extract(token);
    if value.None? { return Some(InvalidHex), byte; }
    return None, value.value % 256;
  }

  method ParseMacAddress(s: string) returns (r: Result)
    ensures r == Outcome(Tokens(s))
  {
    var mac := new nat[6](_ => 0);
    var rest := s;
    var i := 0;
    ghost var ts := Tokens(s);
    ghost var done, more := [], ts;
    while rest != ""
      invariant i == |done| <= 6 && ts == done + more && more == Tokens(rest)
      invariant AllReadable(done) && mac[..i] == BytesOf(done)
      decreases |rest|
    {
      var token := rest[..TokenLength(rest)];
      TokensFirst(rest);
      ghost var after := Tokens(AfterToken(rest));
      Regroup(done, token, after);
      var error, value := ReadByte(i, token);
      if error.Some? {
        StoppedAt(ts, done, token);
        return Err(error.value);
      }
      mac[i] := value;
      assert mac[..i] == BytesOf(done);
      i := i + 1;
      assert mac[..i] == mac[..i - 1] + [ByteOf(token)];
      BytesOfSnoc(done, token);
      done, more := done + [token], after;
      rest := AfterToken(rest);
    }
    assert ts == done;
    FirstBadIs(ts, i);
    if i != 6 { return Err(NotSixBytes); }
    r := Ok(mac[..6]);
  }

  ghost predicate AllReadable(ts: seq<string>) { forall k :: 0 <= k < |ts| ==> Readable(ts[k]) }

  lemma BytesOfSnoc(ts: seq<string>, token: string)
    requires AllReadable(ts) && Readable(token)
    ensures AllReadable(ts + [token]) && BytesOf(ts + [token]) == BytesOf(ts) + [ByteOf(token)]
  {
  }

  lemma Regroup(done: seq<string>, token: string, after: seq<string>)
    ensures done + ([token] + after) == (done + [token]) + after
  {
  }

  lemma StoppedAt(ts: seq<string>, done: seq<string>, token: string)
    requires done + [token] <= ts && |done| <= 6
    requires AllReadable(done)
    requires |done| < 6 ==> !Readable(token)
    ensures Outcome(ts) == Err(if |done| == 6 then TooManyBytes else if |token| != 2 then NotTwoDigits else InvalidHex)
  {
    var j := |done|;
    assert ts[..j + 1] == done + [token];
    assert ts[j] == token;
    forall k | 0 <= k < j ensures Readable(ts[k]) {
      assert ts[k] == done[k];
    }
    FirstBadIs(ts, j);
  }

  lemma FirstBadIs(ts: seq<string>, j: nat)
    requires j <= |ts| && j <= 6
    requires forall k :: 0 <= k < j ==> Readable(ts[k])
    requires j < |ts| && j < 6 ==> !Readable(ts[j])
    ensures FirstBad(ts) == j
  {
  }

  predicate TwoHexDigits(token: string) { |token| == 2 && IsHex(token[0]) && IsHex(token[1]) }

  /** A hex digit followed by anything that is no hex digit and does not make it a bare "0x". */
  predicate DigitThenOther(token: string) {
    && |token| == 2 && IsHex(token[0]) && !IsHex(token[1])
    && !(token[0] == '0' && (token[1] == 'x' || token[1] == 'X'))
  }

  /** A space or a sign before a single hex digit. */
  predicate PrefixedDigit(token: string) {
    |token| == 2 && (IsSpace(token[0]) || token[0] == '+' || token[0] == '-') && IsHex(token[1])
  }

  /** The tokens taken although they are not two hex digits. */
  predicate Loose(token: string) { DigitThenOther(token) || PrefixedDigit(token) }

  /** Exactly these tokens are readable. */
  lemma ReadableTokens(token: string)
    ensures Readable(token) <==> TwoHexDigits(token) || Loose(token)
    ensures !(TwoHexDigits(token) && Loose(token))
  {
  }

  lemma HexTokenReadable(token: string)
    requires TwoHexDigits(token)
    ensures Readable(token) && ByteOf(token) == 16 * HexValue(token[0]) + HexValue(token[1])
  {
    HexIsNoPrefix(token[0]);
    assert Extract(token) == Digits(token);
  }

  /** And this is the byte they are read as: both digits; the single digit; or, after a minus sign,
      what makes 256 with it. */
  lemma ReadableByte(token: string, a: nat, b: nat)
    requires Readable(token)
    ensures Shows(token[0], a) && Shows(token[1], b) ==> ByteOf(token) == 16 * a + b
    ensures DigitThenOther(token) && Shows(token[0], a) ==> ByteOf(token) == a
    ensures PrefixedDigit(token) && Shows(token[1], b) ==>
              ByteOf(token) == if token[0] == '-' then (256 - b) % 256 else b
  {
    HexDigits(token[0], a);
    HexDigits(token[1], b);
    ByteByValue(token);
  }

  lemma ByteByValue(token: string)
    requires Readable(token)
    ensures TwoHexDigits(token) ==> ByteOf(token) == 16 * HexValue(token[0]) + HexValue(token[1])
    ensures DigitThenOther(token) ==> ByteOf(token) == HexValue(token[0])
    ensures PrefixedDigit(token) && token[0] != '-' ==> ByteOf(token) == HexValue(token[1])
    ensures PrefixedDigit(token) && token[0] == '-' ==> ByteOf(token) == (256 - HexValue(token[1])) % 256
  {
    ReadableTokens(token);
    if TwoHexDigits(token) {
      HexTokenReadable(token);
    } else if DigitThenOther(token) {
      DigitAlone(token);
    } else {
      PrefixedExtract(token);
      NegativeByte(HexValue(token[1]));
    }
  }

  lemma NegativeByte(v: nat)
    requires v < 16
    ensures (65536 - v) % 65536 % 256 == (256 - v) % 256
  {
    assert 65536 - v == 256 * 255 + (256 - v);
  }

  lemma DigitAlone(token: string)
    requires DigitThenOther(token)
    ensures Readable(token) && ByteOf(token) == HexValue(token[0])
  {
    HexIsNoPrefix(token[0]);
    assert Extract(token) == Digits(token);
  }

  lemma HexIsNoPrefix(c: char)
    requires IsHex(c)
    ensures !IsSpace(c) && c != '+' && c != '-'
  {
  }

  lemma PrefixedExtract(token: string)
    requires PrefixedDigit(token)
    ensures var v := HexValue(token[1]);
            Extract(token) == Some(if token[0] == '-' then (65536 - v) % 65536 else v)
  {
    HexIsNoPrefix(token[1]);
    assert token[1..] == [token[1]];
  }

  /** Accepted are exactly the strings of six tokens that are two hex digits or loose. */
  lemma AcceptedStrings(s: string)
    ensures Outcome(Tokens(s)).Ok? <==>
              |Tokens(s)| == 6 && forall k :: 0 <= k < 6 ==> TwoHexDigits(Tokens(s)[k]) || Loose(Tokens(s)[k])
  {
    var ts := Tokens(s);
    forall k | 0 <= k < |ts| ensures Readable(ts[k]) <==> TwoHexDigits(ts[k]) || Loose(ts[k]) {
      ReadableTokens(ts[k]);
    }
    if |ts| == 6 && forall k :: 0 <= k < 6 ==> Readable(ts[k]) {
      FirstBadIs(ts, 6);
    }
  }

  /** The promise that each byte is exactly two hex digits fails for an accepted string if and only
      if one of its tokens is loose. */
  lemma AcceptedBeyondHex(s: string)
    requires Outcome(Tokens(s)).Ok?
    ensures |Tokens(s)| == 6
    ensures !Canonical(s) <==> exists k :: 0 <= k < 6 && Loose(Tokens(s)[k])
  {
    AcceptedStrings(s);
    forall k | 0 <= k < 6 ensures !(TwoHexDigits(Tokens(s)[k]) && Loose(Tokens(s)[k])) {
      ReadableTokens(Tokens(s)[k]);
    }
  }

  lemma SixReadable(ts: seq<string>)
    requires |ts| == 6 && forall k :: 0 <= k < 6 ==> NoColon(ts[k]) && Readable(ts[k])
    ensures Outcome(Tokens(Join(ts))) == Ok(BytesOf(ts)) && Tokens(Join(ts)) == ts
  {
    TokensOfJoin(ts);
    FirstBadIs(ts, 6);
  }

  const LOOSE_TOKENS: seq<string> := ["1g", "22", "33", "44", "55", "-1"]

  lemma LooseTokensRead()
    ensures forall k :: 0 <= k < 6 ==> NoColon(LOOSE_TOKENS[k]) && Readable(LOOSE_TOKENS[k])
    ensures BytesOf(LOOSE_TOKENS) == [0x01, 0x22, 0x33, 0x44, 0x55, 0xFF]
  {
    ReadAs("1g", 0x01);
    ReadAs("22", 0x22);
    ReadAs("33", 0x33);
    ReadAs("44", 0x44);
    ReadAs("55", 0x55);
    ReadAs("-1", 0xFF);
  }

  lemma ReadAs(token: string, b: nat)
    requires |token| == 2 && NoColon(token) && Extract(token).Some? && Extract(token).value % 256 == b
    ensures NoColon(token) && Readable(token) && ByteOf(token) == b
  {
  }

  /** One such string: its first token is read as 1 and its last as 255. */
  lemma LooseStringAccepted()
    ensures Outcome(Tokens("1g:22:33:44:55:-1")) == Ok([0x01, 0x22, 0x33, 0x44, 0x55, 0xFF])
    ensures !Canonical("1g:22:33:44:55:-1")
  {
    LooseTokensRead();
    SixReadable(LOOSE_TOKENS);
    LooseSpelled();
    NotTwoHexDigits();
  }

  lemma NotTwoHexDigits()
    ensures !TwoHexDigits(LOOSE_TOKENS[0])
  {
  }

  lemma LooseSpelled()
    ensures Join(LOOSE_TOKENS) == "1g:22:33:44:55:-1"
  {
    SixTokens("1g", "22", "33", "44", "55", "-1");
    LooseEnd();
    assert "1g" + ":" + ("22" + ":" + ("33" + ":" + "44:55:-1")) == "1g:22:33:44:55:-1";
  }

  lemma LooseEnd()
    ensures "44" + ":" + ("55" + ":" + "-1") == "44:55:-1"
  {
  }

  lemma SixTokens(a: string, b: string, c: string, d: string, e: string, f: string)
    ensures Join([a, b, c, d, e, f]) == a + ":" + (b + ":" + (c + ":" + (d + ":" + (e + ":" + f))))
  {
    JoinFirst(a, [b, c, d, e, f]);
    JoinFirst(b, [c, d, e, f]);
    JoinFirst(c, [d, e, f]);
    JoinFirst(d, [e, f]);
    JoinFirst(e, [f]);
    assert [a] + [b, c, d, e, f] == [a, b, c, d, e, f] && [b] + [c, d, e, f] == [b, c, d, e, f];
    assert [c] + [d, e, f] == [c, d, e, f] && [d] + [e, f] == [d, e, f] && [e] + [f] == [e, f];
  }

  // ----- the Python decoder

  function WithoutColons(s: string): string {
    if s == "" then "" else (if s[0] == ':' then "" else [s[0]]) + WithoutColons(s[1..])
  }

  function AfterByte(byte: nat, rest: Option<seq<nat>>): Option<seq<nat>> {
    if rest.None? then None else Some([byte] + rest.value)
  }

  /** `bytes.fromhex`: pairs of hex digits, with whitespace allowed between pairs. */
  function FromHex(t: string): Option<seq<nat>> {
    if t == "" then Some([])
    else if IsSpace(t[0]) then FromHex(t[1..])
    else if |t| < 2 || !IsHex(t[0]) || !IsHex(t[1]) then None
    else AfterByte(16 * HexValue(t[0]) + HexValue(t[1]), FromHex(t[2..]))
  }

  function Decode(s: string): Option<seq<nat>> { FromHex(WithoutColons(s)) }

  // ----- when the two agree

  /** Six tokens of two hex digits, joined by colons, perhaps with one more colon at the end. */
  predicate Canonical(s: string) {
    |Tokens(s)| == 6 && forall k :: 0 <= k < 6 ==> TwoHexDigits(Tokens(s)[k])
  }

  function Join(ts: seq<string>): string {
    if ts == [] then "" else if |ts| == 1 then ts[0] else ts[0] + ":" + Join(ts[1..])
  }

  function Concat(ts: seq<string>): string {
    if ts == [] then "" else ts[0] + Concat(ts[1..])
  }

  ghost predicate Spells(s: string, ts: seq<string>) {
    (ts == [] <==> s == "") && (s == Join(ts) || s == Join(ts) + ":")
  }

  lemma SpelledByFirst(token: string, rest: string, ts: seq<string>)
    requires Spells(rest, ts)
    ensures Spells(token + (":" + rest), [token] + ts)
    ensures rest == "" && token != "" ==> Spells(token, [token] + ts)
  {
    if ts != [] {
      JoinFirst(token, ts);
      assert token + (":" + (Join(ts) + ":")) == (token + ":" + Join(ts)) + ":";
      assert token + (":" + Join(ts)) == token + ":" + Join(ts);
    } else {
      assert [token] + ts == [token];
      assert token + (":" + "") == token + ":";
    }
  }

  /** The tokens spell the string, up to one final colon, and hold no colon themselves. */
  lemma {:induction false} TokensSpell(s: string)
    ensures Spells(s, Tokens(s))
    ensures forall k :: 0 <= k < |Tokens(s)| ==> NoColon(Tokens(s)[k])
    decreases |s|
  {
    if s == "" {
    } else {
      var token, rest := s[..TokenLength(s)], AfterToken(s);
      TokenSplits(s);
      TokensFirst(s);
      TokensSpell(rest);
      SpelledByFirst(token, rest, Tokens(rest));
    }
  }

  lemma JoinFirst(token: string, ts: seq<string>)
    requires ts != []
    ensures Join([token] + ts) == token + ":" + Join(ts)
  {
    assert ([token] + ts)[1..] == ts;
  }

  /** Splitting a joined list of non-empty tokens without colons gives the list back. */
  lemma {:induction false} TokensOfJoin(ts: seq<string>)
    requires forall k :: 0 <= k < |ts| ==> NoColon(ts[k]) && ts[k] != ""
    ensures Tokens(Join(ts)) == ts
  {
    if ts == [] {
    } else if |ts| == 1 {
      TokenLengthOf(ts[0], "");
      assert ts[0] + "" == ts[0];
      assert ts == [ts[0]];
    } else {
      var s := Join(ts);
      assert s == ts[0] + (":" + Join(ts[1..]));
      TokenLengthOf(ts[0], ":" + Join(ts[1..]));
      assert AfterToken(s) == Join(ts[1..]);
      TokensOfJoin(ts[1..]);
      assert ts == [ts[0]] + ts[1..];
    }
  }

  lemma {:induction false} TokenLengthOf(token: string, rest: string)
    requires NoColon(token) && (rest == "" || rest[0] == ':')
    ensures TokenLength(token + rest) == |token|
  {
    if token == "" {
      assert token + rest == rest;
    } else {
      assert (token + rest)[1..] == token[1..] + rest;
      TokenLengthOf(token[1..], rest);
    }
  }

  lemma {:induction false} ColonsRemoved(s: string)
    ensures WithoutColons(s) == Concat(Tokens(s))
    decreases |s|
  {
    if s == "" {
    } else {
      var token, rest := s[..TokenLength(s)], AfterToken(s);
      TokenSplits(s);
      TokensFirst(s);
      ColonsRemoved(rest);
      WithoutColonsOf(token);
      if TokenLength(s) < |s| {
        WithoutColonsConcat(token, ":" + rest);
        ColonDropped(rest);
      } else {
        assert token + "" == token;
      }
      ConcatFirst(token, Tokens(rest));
    }
  }

  lemma ColonDropped(rest: string)
    ensures WithoutColons(":" + rest) == WithoutColons(rest)
  {
    assert (":" + rest)[1..] == rest;
  }

  lemma ConcatFirst(token: string, ts: seq<string>)
    ensures Concat([token] + ts) == token + Concat(ts)
  {
    assert ([token] + ts)[1..] == ts;
  }

  lemma {:induction false} WithoutColonsConcat(a: string, b: string)
    ensures WithoutColons(a + b) == WithoutColons(a) + WithoutColons(b)
  {
    if a == "" {
      assert a + b == b;
    } else {
      assert (a + b)[1..] == a[1..] + b;
      WithoutColonsConcat(a[1..], b);
    }
  }

  lemma {:induction false} WithoutColonsOf(token: string)
    requires NoColon(token)
    ensures WithoutColons(token) == token
  {
    if token == "" {
    } else {
      WithoutColonsOf(token[1..]);
    }
  }

  /** Every decoded byte took two hex digits: only whitespace makes the text longer than that. */
  lemma {:induction false} FromHexLength(t: string)
    ensures FromHex(t).Some? ==> 2 * |FromHex(t).value| <= |t|
    ensures FromHex(t).Some? && 2 * |FromHex(t).value| == |t| ==> forall k :: 0 <= k < |t| ==> IsHex(t[k])
  {
    if t == "" {
    } else {
      if IsSpace(t[0]) {
        FromHexLength(t[1..]);
      } else if |t| >= 2 {
        FromHexLength(t[2..]);
        assert forall k :: 2 <= k < |t| ==> t[k] == t[2..][k - 2];
      }
    }
  }

  lemma {:induction false} ConcatOfPairs(ts: seq<string>)
    requires forall k :: 0 <= k < |ts| ==> |ts[k]| == 2
    ensures |Concat(ts)| == 2 * |ts|
    ensures forall k :: 0 <= k < |ts| ==> Concat(ts)[2 * k] == ts[k][0] && Concat(ts)[2 * k + 1] == ts[k][1]
  {
    if ts == [] {
    } else {
      ConcatOfPairs(ts[1..]);
      forall k | 0 < k < |ts|
        ensures Concat(ts)[2 * k] == ts[k][0] && Concat(ts)[2 * k + 1] == ts[k][1]
      {
        assert ts[k] == ts[1..][k - 1];
        assert Concat(ts)[2 * k] == Concat(ts[1..])[2 * (k - 1)];
        assert Concat(ts)[2 * k + 1] == Concat(ts[1..])[2 * (k - 1) + 1];
      }
    }
  }

  lemma {:induction false} FromHexOfTokens(ts: seq<string>)
    requires forall k :: 0 <= k < |ts| ==> TwoHexDigits(ts[k])
    ensures forall k :: 0 <= k < |ts| ==> Readable(ts[k])
    ensures FromHex(Concat(ts)) == Some(BytesOf(ts))
  {
    if ts == [] {
    } else {
      FromHexOfTokens(ts[1..]);
      TokensReadable(ts);
      HexTokenReadable(ts[0]);
      FromHexOfPair(ts[0], Concat(ts[1..]));
      BytesOfFirst(ts);
    }
  }

  lemma TokensReadable(ts: seq<string>)
    requires forall k :: 0 <= k < |ts| ==> TwoHexDigits(ts[k])
    ensures AllReadable(ts)
  {
    forall k | 0 <= k < |ts| ensures Readable(ts[k]) {
      HexTokenReadable(ts[k]);
    }
  }

  lemma BytesOfFirst(ts: seq<string>)
    requires ts != [] && AllReadable(ts)
    ensures AllReadable(ts[1..]) && BytesOf(ts) == [ByteOf(ts[0])] + BytesOf(ts[1..])
  {
  }

  lemma FromHexOfPair(token: string, rest: string)
    requires TwoHexDigits(token) && FromHex(rest).Some?
    ensures FromHex(token + rest) == Some([16 * HexValue(token[0]) + HexValue(token[1])] + FromHex(rest).value)
  {
    FromHexPair(token[0], token[1], rest);
    assert token == [token[0], token[1]];
  }

  /** What decides about a text from its front: a space is nothing, two digits are a byte, and all else
      is refused, a single digit too. */
  lemma FromHexPieces(x: char, y: char, rest: string, a: nat, b: nat)
    ensures FromHex("") == Some([])
    ensures IsSpace(x) ==> FromHex([x] + rest) == FromHex(rest)
    ensures !IsSpace(x) ==> FromHex([x]) == None
    ensures Shows(x, a) && Shows(y, b) ==> FromHex([x, y] + rest) == AfterByte(16 * a + b, FromHex(rest))
    ensures !IsSpace(x) && !(IsHex(x) && IsHex(y)) ==> FromHex([x, y] + rest) == None
  {
    HexDigits(x, a);
    HexDigits(y, b);
    assert ([x] + rest)[1..] == rest;
    if IsHex(x) && IsHex(y) { FromHexPair(x, y, rest); }
  }

  lemma FromHexPair(x: char, y: char, rest: string)
    requires IsHex(x) && IsHex(y)
    ensures FromHex([x, y] + rest) == AfterByte(16 * HexValue(x) + HexValue(y), FromHex(rest))
  {
    HexIsNoPrefix(x);
    assert ([x, y] + rest)[2..] == rest;
  }

  /** Main result: the two parsers return the same address on exactly the canonical strings. */
  lemma ParsersAgree(s: string)
    ensures var cpp := Outcome(Tokens(s));
            cpp.Ok? && Decode(s) == Some(cpp.bytes) <==> Canonical(s)
  {
    var ts, cpp := Tokens(s), Outcome(Tokens(s));
    AcceptedStrings(s);
    ColonsRemoved(s);
    if Canonical(s) {
      FromHexOfTokens(ts);
    }
    if cpp.Ok? && Decode(s) == Some(cpp.bytes) {
      ConcatOfPairs(ts);
      FromHexLength(Concat(ts));
      forall k | 0 <= k < 6 ensures TwoHexDigits(ts[k]) {
        assert IsHex(Concat(ts)[2 * k]) && IsHex(Concat(ts)[2 * k + 1]);
      }
    }
  }

  // ----- round trip

  /** The two digits of a byte, in any case. */
  ghost predicate ShowsByte(token: string, b: nat) {
    b < 256 && |token| == 2 && Shows(token[0], b / 16) && Shows(token[1], b % 16)
  }

  lemma ByteShown(token: string, b: nat)
    requires ShowsByte(token, b)
    ensures NoColon(token) && TwoHexDigits(token) && Readable(token) && ByteOf(token) == b
  {
    HexDigits(token[0], b / 16);
    HexDigits(token[1], b % 16);
    HexTokenReadable(token);
  }

  /** Both parsers read back six bytes from their digits, whatever the case of each digit. */
  lemma RenderedReadsBack(ts: seq<string>, bytes: seq<nat>)
    requires |ts| == |bytes| == 6 && forall k :: 0 <= k < 6 ==> ShowsByte(ts[k], bytes[k])
    ensures Outcome(Tokens(Join(ts))) == Ok(bytes) && Decode(Join(ts)) == Some(bytes)
  {
    forall k | 0 <= k < 6
      ensures NoColon(ts[k]) && TwoHexDigits(ts[k]) && Readable(ts[k]) && ByteOf(ts[k]) == bytes[k]
    {
      ByteShown(ts[k], bytes[k]);
    }
    TokensOfJoin(ts);
    FirstBadIs(ts, 6);
    assert BytesOf(ts) == bytes;
    ParsersAgree(Join(ts));
  }
}
