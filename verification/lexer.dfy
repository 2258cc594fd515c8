/** The condition lexer: splits a condition string into tokens. Words are
    maximal runs of letters, digits and underscores; a word directly followed
    by `*` is a wildcard-prefix identifier. Keywords are matched
    case-sensitively, an all-digit word is an integer, and every other word is
    a selection name. Blanks separate tokens and are dropped; parentheses are
    tokens of their own; any other character is an error. */
module Lexer {
  import opened Results

  datatype Token =
    | Ident(name: string)      // a selection name
    | IdentWild(stem: string)  // `stem*`: every selection whose name starts with stem
    | KwAnd | KwOr | KwNot | KwOf | KwThem | KwAll
    | IntLit(n: nat)
    | LParen | RParen
    | Eof

  predicate IsDigit(c: char) {
    '0' <= c <= '9'
  }

  predicate IsNameChar(c: char) {
    ('a' <= c <= 'z') || ('A' <= c <= 'Z') || IsDigit(c) || c == '_'
  }

  predicate IsSpace(c: char) {
    c == ' ' || c == '\t' || c == '\n' || c == '\r'
  }

  predicate IsWord(w: string) {
    w != [] && forall i :: 0 <= i < |w| ==> IsNameChar(w[i])
  }

  predicate IsNumeral(w: string) {
    w != [] && forall i :: 0 <= i < |w| ==> IsDigit(w[i])
  }

  predicate IsKeyword(w: string) {
    w in {"and", "or", "not", "of", "them", "all"}
  }

  /** Length of the word at the start of `s`. */
  function WordLength(s: string): (n: nat)
    ensures n <= |s|
    ensures forall i :: 0 <= i < n ==> IsNameChar(s[i])
    ensures n < |s| ==> !IsNameChar(s[n])
  {
    if s != [] && IsNameChar(s[0]) then 1 + WordLength(s[1..]) else 0
  }

  /** Decimal value of a digit string. */
  function Value(w: string): nat
    requires forall i :: 0 <= i < |w| ==> IsDigit(w[i])
  {
    if w == [] then 0
    else
      assert IsDigit(w[|w| - 1]);
      10 * Value(w[..|w| - 1]) + (w[|w| - 1] as int - '0' as int)
  }

  /** Decimal digits of `n`, without leading zeros. */
  function Digits(n: nat): (w: string)
    ensures IsNumeral(w)
  {
    var d := [(('0' as int) + n % 10) as char];
    if n < 10 then d else Digits(n / 10) + d
  }

  /** Reading the digits of a number gives the number back. */
  lemma {:induction false} ValueDigits(n: nat)
    ensures Value(Digits(n)) == n
  {
    var w := Digits(n);
    if n >= 10 {
      ValueDigits(n / 10);
      assert w[..|w| - 1] == Digits(n / 10);
    }
  }

  /** The token a complete word stands for. */
  function Classify(w: string): (t: Token)
    requires IsWord(w)
    ensures t.Ident? <==> !IsKeyword(w) && !IsNumeral(w)
    ensures t.Ident? ==> t.name == w
  {
    if w == "and" then KwAnd
    else if w == "or" then KwOr
    else if w == "not" then KwNot
    else if w == "of" then KwOf
    else if w == "them" then KwThem
    else if w == "all" then KwAll
    else if IsNumeral(w) then IntLit(Value(w))
    else Ident(w)
  }

  function Cons(t: Token, r: Result<seq<Token>>): Result<seq<Token>> {
    match r
    case Ok(ts) => Ok([t] + ts)
    case Err(e) => Err(e)
  }

  /** The token stream of `s`, ended by `Eof`, or the first character no
      token starts with. */
  function Tokenize(s: string): (r: Result<seq<Token>>)
    ensures r.Ok? ==> r.value != [] && r.value[|r.value| - 1] == Eof
    ensures r.Err? ==> r.error.UnsupportedToken? && r.error.c in s
    decreases |s|
  {
    if s == [] then Ok([Eof])
    else if IsSpace(s[0]) then Tokenize(s[1..])
    else if s[0] == '(' then Cons(LParen, Tokenize(s[1..]))
    else if s[0] == ')' then Cons(RParen, Tokenize(s[1..]))
    else if IsNameChar(s[0]) then
      var n := WordLength(s);
      if n < |s| && s[n] == '*' then Cons(IdentWild(s[..n]), Tokenize(s[n + 1..]))
      else Cons(Classify(s[..n]), Tokenize(s[n..]))
    else Err(UnsupportedToken(s[0]))
  }

  /** The word at the start of `w + rest` is `w` when `rest` does not go on
      with a name character. */
  lemma {:induction false} WordLengthOf(w: string, rest: string)
    requires forall i :: 0 <= i < |w| ==> IsNameChar(w[i])
    requires rest == [] || !IsNameChar(rest[0])
    ensures WordLength(w + rest) == |w|
    decreases |w|
  {
    if w == [] {
      assert w + rest == rest;
    } else {
      assert (w + rest)[1..] == w[1..] + rest;
      WordLengthOf(w[1..], rest);
    }
  }

  /** A word followed by something that ends it is lexed as one token. */
  lemma LexWord(w: string, rest: string)
    requires IsWord(w)
    requires rest == [] || (!IsNameChar(rest[0]) && rest[0] != '*')
    ensures Tokenize(w + rest) == Cons(Classify(w), Tokenize(rest))
  {
    var s := w + rest;
    WordLengthOf(w, rest);
    assert s[0] == w[0];
    assert s[..|w|] == w;
    assert s[|w|..] == rest;
  }

  /** A word directly followed by `*` is lexed as a wildcard-prefix identifier. */
  lemma LexWild(w: string, rest: string)
    requires IsWord(w)
    ensures Tokenize(w + "*" + rest) == Cons(IdentWild(w), Tokenize(rest))
  {
    var s := w + "*" + rest;
    WordLengthOf(w, "*" + rest);
    assert s == w + ("*" + rest);
    assert s[0] == w[0];
    assert s[..|w|] == w;
    assert s[|w|] == '*';
    assert s[|w| + 1..] == rest;
  }

  /** Blanks before a token are skipped. */
  lemma LexSpace(rest: string)
    ensures Tokenize(" " + rest) == Tokenize(rest)
  {
    assert (" " + rest)[1..] == rest;
  }

  lemma LexParen(c: char, rest: string)
    requires c == '(' || c == ')'
    ensures Tokenize([c] + rest) == Cons(if c == '(' then LParen else RParen, Tokenize(rest))
  {
    assert ([c] + rest)[1..] == rest;
  }

  /** Tokens the lexer can produce from their written form. */
  predicate Writable(t: Token) {
    match t
    case Ident(name) => IsWord(name) && !IsKeyword(name) && !IsNumeral(name)
    case IdentWild(stem) => IsWord(stem)
    case Eof => false
    case _ => true
  }

  /** The written form of a token. */
  function Spell(t: Token): string {
    match t
    case Ident(name) => name
    case IdentWild(stem) => stem + "*"
    case KwAnd => "and"
    case KwOr => "or"
    case KwNot => "not"
    case KwOf => "of"
    case KwThem => "them"
    case KwAll => "all"
    case IntLit(n) => Digits(n)
    case LParen => "("
    case RParen => ")"
    case Eof => ""
  }

  /** Writes tokens out, each followed by a space. */
  function Render(ts: seq<Token>): string {
    if ts == [] then "" else Spell(ts[0]) + " " + Render(ts[1..])
  }

  /** Lexing a rendered token list gives the list back, ended by `Eof`. */
  lemma {:induction false} LexRender(ts: seq<Token>)
    requires forall i :: 0 <= i < |ts| ==> Writable(ts[i])
    ensures Tokenize(Render(ts)) == Ok(ts + [Eof])
  {
    if ts != [] {
      var t := ts[0];
      var rest := Render(ts[1..]);
      LexRender(ts[1..]);
      assert Render(ts) == Spell(t) + (" " + rest);
      LexSpace(rest);
      LexToken(t, " " + rest);
      assert [t] + (ts[1..] + [Eof]) == ts + [Eof];
    } else {
      assert ts + [Eof] == [Eof];
    }
  }

  /** One writable token followed by a blank lexes as that token. */
  lemma LexToken(t: Token, rest: string)
    requires Writable(t)
    requires rest != [] && IsSpace(rest[0])
    ensures Tokenize(Spell(t) + rest) == Cons(t, Tokenize(rest))
  {
    match t
    case Ident(name) =>
      LexIdent(name, rest);
    case IdentWild(stem) =>
      LexStem(stem, rest);
    case IntLit(n) =>
      LexInt(n, rest);
    case LParen =>
      LexParen('(', rest);
    case RParen =>
      LexParen(')', rest);
    case _ =>
      LexKeyword(t, rest);
  }

  lemma LexIdent(name: string, rest: string)
    requires IsWord(name) && !IsKeyword(name) && !IsNumeral(name)
    requires rest != [] && IsSpace(rest[0])
    ensures Tokenize(Spell(Ident(name)) + rest) == Cons(Ident(name), Tokenize(rest))
  {
    LexWord(name, rest);
  }

  lemma LexStem(stem: string, rest: string)
    requires IsWord(stem)
    ensures Tokenize(Spell(IdentWild(stem)) + rest) == Cons(IdentWild(stem), Tokenize(rest))
  {
    LexWild(stem, rest);
  }

  lemma LexInt(n: nat, rest: string)
    requires rest != [] && IsSpace(rest[0])
    ensures Tokenize(Spell(IntLit(n)) + rest) == Cons(IntLit(n), Tokenize(rest))
  {
    var w := Digits(n);
    ValueDigits(n);
    assert w[0] != 'a' && w[0] != 'o' && w[0] != 'n' && w[0] != 't';
    assert Classify(w) == IntLit(n);
    LexWord(w, rest);
  }

  lemma LexKeyword(t: Token, rest: string)
    requires t in {KwAnd, KwOr, KwNot, KwOf, KwThem, KwAll}
    requires rest != [] && IsSpace(rest[0])
    ensures Tokenize(Spell(t) + rest) == Cons(t, Tokenize(rest))
  {
    var w := Spell(t);
    assert IsWord(w) && Classify(w) == t;
    LexWord(w, rest);
  }
}
