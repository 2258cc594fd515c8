/** The condition strings of the rule vectors, lexed and parsed. Each shape is
    proved once for arbitrary selection names and then instantiated with the
    names the rules use. */
module ConditionVectors {
  import opened Results
  import opened Text
  import opened Lexer
  import opened Condition

  /** A word the lexer reads as a selection name. */
  predicate IsName(a: string) {
    IsWord(a) && !IsKeyword(a) && !IsNumeral(a)
  }

  /** A word that is no keyword and does not start with a digit is a name. */
  lemma LetterFirst(w: string)
    requires IsWord(w) && !IsKeyword(w) && !IsDigit(w[0])
    ensures IsName(w)
  {
  }

  lemma Selection1Name()
    ensures IsName("selection1")
  {
    LetterFirst("selection1");
  }

  lemma Selection2Name()
    ensures IsName("selection2")
  {
    LetterFirst("selection2");
  }

  lemma Selection3Name()
    ensures IsName("selection3")
  {
    LetterFirst("selection3");
  }

  lemma SelectionName()
    ensures IsName("selection")
  {
    LetterFirst("selection");
  }

  lemma FilterName()
    ensures IsName("filter")
  {
    LetterFirst("filter");
  }

  /** The selection names the rules use. */
  lemma RuleNames()
    ensures IsName("selection1") && IsName("selection2") && IsName("selection3") && IsName("filter")
    ensures IsName("selection")
  {
    Selection1Name();
    Selection2Name();
    Selection3Name();
    FilterName();
    SelectionName();
  }

  // ------------------------------------------------------------------ lexing

  /** Tokens written out with one blank between neighbours, as conditions
      are usually written. */
  function Sentence(ts: seq<Token>): string
    decreases |ts|
  {
    if ts == [] then ""
    else if |ts| == 1 then Spell(ts[0])
    else Spell(ts[0]) + (" " + Sentence(ts[1..]))
  }

  /** A writable token on its own lexes as itself. */
  lemma LexLast(t: Token)
    requires Writable(t)
    ensures Tokenize(Spell(t)) == Ok([t, Eof])
  {
    assert Spell(t) + "" == Spell(t);
    assert [t] + [Eof] == [t, Eof];
    match t
    case Ident(name) =>
      LexWord(name, "");
    case IdentWild(stem) =>
      LexWild(stem, "");
    case IntLit(n) =>
      ValueDigits(n);
      assert Digits(n) + "" == Digits(n);
      assert Classify(Digits(n)) == IntLit(n);
      LexWord(Digits(n), "");
      assert Spell(t) == Digits(n);
    case LParen =>
      LexParen('(', "");
    case RParen =>
      LexParen(')', "");
    case KwAnd | KwOr | KwNot | KwOf | KwThem | KwAll =>
      assert IsWord(Spell(t)) && Classify(Spell(t)) == t;
      LexWord(Spell(t), "");
  }

  /** A sentence of writable tokens lexes back to its tokens. */
  lemma {:induction false} LexSentence(ts: seq<Token>)
    requires ts != []
    requires forall i :: 0 <= i < |ts| ==> Writable(ts[i])
    ensures Tokenize(Sentence(ts)) == Ok(ts + [Eof])
    decreases |ts|
  {
    if |ts| == 1 {
      LexLast(ts[0]);
      assert ts + [Eof] == [ts[0], Eof];
    } else {
      var rest := Sentence(ts[1..]);
      LexSentence(ts[1..]);
      LexToken(ts[0], " " + rest);
      LexSpace(rest);
      assert [ts[0]] + (ts[1..] + [Eof]) == ts + [Eof];
    }
  }

  /** A parenthesised group written without blanks inside the parentheses,
      followed by the rest of the condition. */
  lemma LexGroup(a: string, op: Token, b: string, rest: string)
    requires IsName(a) && IsName(b)
    requires op == KwAnd || op == KwOr
    requires rest == [] || IsSpace(rest[0])
    ensures Tokenize("(" + (a + (" " + (Spell(op) + (" " + (b + (")" + rest)))))))
      == Cons(LParen, Cons(Ident(a), Cons(op, Cons(Ident(b), Cons(RParen, Tokenize(rest))))))
  {
    LexParen(')', rest);
    LexWord(b, ")" + rest);
    LexSpace(b + (")" + rest));
    LexToken(op, " " + (b + (")" + rest)));
    LexSpace(Spell(op) + (" " + (b + (")" + rest))));
    LexWord(a, " " + (Spell(op) + (" " + (b + (")" + rest)))));
    LexParen('(', a + (" " + (Spell(op) + (" " + (b + (")" + rest))))));
  }

  // ------------------------------------------------------ the parsed shapes

  lemma ParseRef(a: string)
    ensures Parse([Ident(a), Eof]) == Ok(Ref(a))
  {
    var ts := [Ident(a), Eof];
    RefAtom(ts, 0);
    CompleteUnary(ts, Ref(a), 1);
  }

  lemma ParseAndNot(a: string, b: string)
    ensures Parse([Ident(a), KwAnd, KwNot, Ident(b), Eof]) == Ok(And(Ref(a), Not(Ref(b))))
  {
    var ts := [Ident(a), KwAnd, KwNot, Ident(b), Eof];
    var x := And(Ref(a), Not(Ref(b)));
    RefAtom(ts, 0);
    RefAtom(ts, 3);
    NotUnary(ts, 2, Ref(b), 4);
    AndStep(ts, Ref(a), 1, Not(Ref(b)), 4);
    AndStop(ts, x, 4);
    AndLevel(ts, 0, Ref(a), 1);
    OrStop(ts, x, 4);
    OrLevel(ts, 0, x, 4);
    Complete(ts, x, 4);
  }

  lemma ParseAnd2(a: string, b: string)
    ensures Parse([Ident(a), KwAnd, Ident(b), Eof]) == Ok(And(Ref(a), Ref(b)))
  {
    var ts := [Ident(a), KwAnd, Ident(b), Eof];
    var x := And(Ref(a), Ref(b));
    RefAtom(ts, 0);
    RefAtom(ts, 2);
    AndStep(ts, Ref(a), 1, Ref(b), 3);
    AndStop(ts, x, 3);
    AndLevel(ts, 0, Ref(a), 1);
    OrStop(ts, x, 3);
    OrLevel(ts, 0, x, 3);
    Complete(ts, x, 3);
  }

  /** A chain of `and` groups to the left. */
  lemma ParseAnd3(a: string, b: string, c: string)
    ensures Parse([Ident(a), KwAnd, Ident(b), KwAnd, Ident(c), Eof]) == Ok(And(And(Ref(a), Ref(b)), Ref(c)))
  {
    var ts := [Ident(a), KwAnd, Ident(b), KwAnd, Ident(c), Eof];
    var x := And(And(Ref(a), Ref(b)), Ref(c));
    RefAtom(ts, 0);
    RefAtom(ts, 2);
    RefAtom(ts, 4);
    AndStep(ts, Ref(a), 1, Ref(b), 3);
    AndStep(ts, And(Ref(a), Ref(b)), 3, Ref(c), 5);
    AndStop(ts, x, 5);
    AndLevel(ts, 0, Ref(a), 1);
    OrStop(ts, x, 5);
    OrLevel(ts, 0, x, 5);
    Complete(ts, x, 5);
  }

  function Binary(op: Token, l: Cond, r: Cond): Cond
    requires op == KwAnd || op == KwOr
  {
    if op == KwAnd then And(l, r) else Or(l, r)
  }

  /** The parenthesised group `(a op b)` starting at position 0. */
  lemma ParseGroup(ts: seq<Token>, a: string, op: Token, b: string)
    requires op == KwAnd || op == KwOr
    requires |ts| > 5 && ts[..5] == [LParen, Ident(a), op, Ident(b), RParen]
    ensures ParseUnary(ts, 0) == Ok(Parsed(Binary(op, Ref(a), Ref(b)), 5))
  {
    assert ts[0] == LParen && ts[1] == Ident(a) && ts[2] == op && ts[3] == Ident(b) && ts[4] == RParen;
    var g := Binary(op, Ref(a), Ref(b));
    RefAtom(ts, 1);
    RefAtom(ts, 3);
    if op == KwAnd {
      AndStep(ts, Ref(a), 2, Ref(b), 4);
      AndStop(ts, g, 4);
      AndLevel(ts, 1, Ref(a), 2);
      OrStop(ts, g, 4);
      OrLevel(ts, 1, g, 4);
    } else {
      AndStop(ts, Ref(a), 2);
      AndLevel(ts, 1, Ref(a), 2);
      AndStop(ts, Ref(b), 4);
      AndLevel(ts, 3, Ref(b), 4);
      OrStep(ts, Ref(a), 2, Ref(b), 4);
      OrStop(ts, g, 4);
      OrLevel(ts, 1, Ref(a), 2);
    }
    ParenAtom(ts, 0, g, 4);
  }

  /** `(a op b) and not c`: the group is the left operand of the `and`. */
  lemma ParseGroupAndNot(a: string, op: Token, b: string, c: string)
    requires op == KwAnd || op == KwOr
    ensures Parse([LParen, Ident(a), op, Ident(b), RParen, KwAnd, KwNot, Ident(c), Eof])
      == Ok(And(Binary(op, Ref(a), Ref(b)), Not(Ref(c))))
  {
    var ts := [LParen, Ident(a), op, Ident(b), RParen, KwAnd, KwNot, Ident(c), Eof];
    var g := Binary(op, Ref(a), Ref(b));
    var x := And(g, Not(Ref(c)));
    ParseGroup(ts, a, op, b);
    RefAtom(ts, 7);
    NotUnary(ts, 6, Ref(c), 8);
    AndStep(ts, g, 5, Not(Ref(c)), 8);
    AndStop(ts, x, 8);
    AndLevel(ts, 0, g, 5);
    OrStop(ts, x, 8);
    OrLevel(ts, 0, x, 8);
    Complete(ts, x, 8);
  }

  /** `q of stem* and not b`: the quantified atom is the left operand. */
  lemma ParseQuantAndNot(q: Quantifier, stem: string, b: string)
    requires q.Count? ==> q.n > 0
    ensures Parse([QuantifierToken(q), KwOf, IdentWild(stem), KwAnd, KwNot, Ident(b), Eof])
      == Ok(And(Of(q, Starting(stem)), Not(Ref(b))))
  {
    var ts := [QuantifierToken(q), KwOf, IdentWild(stem), KwAnd, KwNot, Ident(b), Eof];
    var x := And(Of(q, Starting(stem)), Not(Ref(b)));
    OfAtom(ts, 0, q, Starting(stem));
    RefAtom(ts, 5);
    NotUnary(ts, 4, Ref(b), 6);
    AndStep(ts, Of(q, Starting(stem)), 3, Not(Ref(b)), 6);
    AndStop(ts, x, 6);
    AndLevel(ts, 0, Of(q, Starting(stem)), 3);
    OrStop(ts, x, 6);
    OrLevel(ts, 0, x, 6);
    Complete(ts, x, 6);
  }

  lemma ParseOfThem(q: Quantifier)
    requires q.Count? ==> q.n > 0
    ensures Parse([QuantifierToken(q), KwOf, KwThem, Eof]) == Ok(Of(q, Them))
  {
    var ts := [QuantifierToken(q), KwOf, KwThem, Eof];
    OfAtom(ts, 0, q, Them);
    CompleteUnary(ts, Of(q, Them), 3);
  }

  // ---------------------------------------------- the conditions of the rules

  /** `s` lexes and parses to `c`. */
  predicate Reads(s: string, c: Cond) {
    Tokenize(s).Ok? && Parse(Tokenize(s).value) == Ok(c)
  }

  /** A sentence whose tokens parse to `c` reads as `c`. */
  lemma SentenceReads(s: string, ts: seq<Token>, c: Cond)
    requires ts != [] && forall i :: 0 <= i < |ts| ==> Writable(ts[i])
    requires s == Sentence(ts) && Parse(ts + [Eof]) == Ok(c)
    ensures Reads(s, c)
  {
    LexSentence(ts);
  }

  /** `selection1 and not selection3` (parser_test.go:14, 274). */
  lemma ReadsAndNot(s: string, a: string, b: string)
    requires IsName(a) && IsName(b)
    requires s == a + (" and not " + b)
    ensures Reads(s, And(Ref(a), Not(Ref(b))))
  {
    var ts := [Ident(a), KwAnd, KwNot, Ident(b)];
    assert Sentence(ts[3..]) == b;
    assert Sentence(ts[2..]) == "not" + (" " + b);
    assert Sentence(ts[1..]) == "and" + (" " + ("not" + (" " + b)));
    assert s == Sentence(ts);
    assert ts + [Eof] == [Ident(a), KwAnd, KwNot, Ident(b), Eof];
    ParseAndNot(a, b);
    SentenceReads(s, ts, And(Ref(a), Not(Ref(b))));
  }

  lemma ReadsRef(s: string, a: string)
    requires IsName(a) && s == a
    ensures Reads(s, Ref(a))
  {
    assert Sentence([Ident(a)]) == a;
    assert [Ident(a)] + [Eof] == [Ident(a), Eof];
    ParseRef(a);
    SentenceReads(s, [Ident(a)], Ref(a));
  }

  lemma ReadsAnd(s: string, a: string, b: string)
    requires IsName(a) && IsName(b)
    requires s == a + (" and " + b)
    ensures Reads(s, And(Ref(a), Ref(b)))
  {
    var ts := [Ident(a), KwAnd, Ident(b)];
    assert Sentence(ts[2..]) == b;
    assert Sentence(ts[1..]) == "and" + (" " + b);
    assert s == Sentence(ts);
    assert ts + [Eof] == [Ident(a), KwAnd, Ident(b), Eof];
    ParseAnd2(a, b);
    SentenceReads(s, ts, And(Ref(a), Ref(b)));
  }

  /** A sentence is its first token's spelling, a blank, and the rest. */
  lemma SentenceCons(t: Token, ts: seq<Token>)
    requires ts != []
    ensures Sentence([t] + ts) == Spell(t) + (" " + Sentence(ts))
  {
    assert ([t] + ts)[1..] == ts;
  }

  /** A keyword between blanks, regrouped as one piece. */
  lemma Joined(k: string, x: string)
    ensures " " + (k + (" " + x)) == (" " + k + " ") + x
  {
    Assoc(" ", k, " " + x);
    Assoc(" " + k, " ", x);
  }

  lemma AndJoin(x: string)
    ensures " " + ("and" + (" " + x)) == " and " + x
  {
    Joined("and", x);
    assert " " + "and" + " " == " and ";
  }

  lemma OfJoin(x: string)
    ensures " " + ("of" + (" " + x)) == " of " + x
  {
    Joined("of", x);
    assert " " + "of" + " " == " of ";
  }

  lemma And3Words(a: string, b: string, c: string)
    ensures Sentence([Ident(a), KwAnd, Ident(b), KwAnd, Ident(c)]) == a + (" and " + (b + (" and " + c)))
  {
    var t1 := [Ident(c)];
    var t2 := [KwAnd] + t1;
    var t3 := [Ident(b)] + t2;
    var t4 := [KwAnd] + t3;
    SentenceCons(KwAnd, t1);
    SentenceCons(Ident(b), t2);
    SentenceCons(KwAnd, t3);
    SentenceCons(Ident(a), t4);
    AndJoin(c);
    AndJoin(Sentence(t3));
    assert [Ident(a)] + t4 == [Ident(a), KwAnd, Ident(b), KwAnd, Ident(c)];
  }

  lemma ReadsAnd3(s: string, a: string, b: string, c: string)
    requires IsName(a) && IsName(b) && IsName(c)
    requires s == a + (" and " + (b + (" and " + c)))
    ensures Reads(s, And(And(Ref(a), Ref(b)), Ref(c)))
  {
    var ts := [Ident(a), KwAnd, Ident(b), KwAnd, Ident(c)];
    And3Words(a, b, c);
    assert ts + [Eof] == [Ident(a), KwAnd, Ident(b), KwAnd, Ident(c), Eof];
    ParseAnd3(a, b, c);
    SentenceReads(s, ts, And(And(Ref(a), Ref(b)), Ref(c)));
  }

  /** `all of them` and `1 of them`. */
  lemma ReadsOfThem(s: string, q: Quantifier)
    requires q == All || q == Count(1)
    requires s == Spell(QuantifierToken(q)) + " of them"
    ensures Reads(s, Of(q, Them))
  {
    var ts := [QuantifierToken(q), KwOf, KwThem];
    assert Sentence(ts[2..]) == "them";
    assert Sentence(ts[1..]) == "of" + (" " + "them");
    assert s == Sentence(ts);
    assert ts + [Eof] == [QuantifierToken(q), KwOf, KwThem, Eof];
    ParseOfThem(q);
    SentenceReads(s, ts, Of(q, Them));
  }

  /** How `not b`, `and not b` and ` and not b` are written. */
  lemma AndNotWords(b: string)
    ensures Sentence([KwNot, Ident(b)]) == "not " + b
    ensures Sentence([KwAnd, KwNot, Ident(b)]) == "and not " + b
  {
    var ts := [KwAnd, KwNot, Ident(b)];
    assert ts[1..] == [KwNot, Ident(b)];
    assert [KwNot, Ident(b)][1..] == [Ident(b)];
  }

  lemma StarAndNot(stem: string, b: string)
    ensures stem + "*" + (" " + ("and not " + b)) == stem + ("* and not " + b)
  {
    Assoc(stem, "*", " " + ("and not " + b));
    Assoc("*", " ", "and not " + b);
    Assoc("* ", "and not ", b);
    assert "*" + " " == "* ";
    assert "* " + "and not " == "* and not ";
  }

  lemma QuantWords(q: Quantifier, stem: string, b: string)
    requires q == All || q == Count(1)
    ensures Sentence([QuantifierToken(q), KwOf, IdentWild(stem), KwAnd, KwNot, Ident(b)])
      == Spell(QuantifierToken(q)) + (" of " + (stem + ("* and not " + b)))
  {
    var t3 := [KwAnd, KwNot, Ident(b)];
    var t4 := [IdentWild(stem)] + t3;
    var t5 := [KwOf] + t4;
    AndNotWords(b);
    SentenceCons(IdentWild(stem), t3);
    StarAndNot(stem, b);
    SentenceCons(KwOf, t4);
    SentenceCons(QuantifierToken(q), t5);
    OfJoin(Sentence(t4));
    assert [QuantifierToken(q)] + t5 == [QuantifierToken(q), KwOf, IdentWild(stem), KwAnd, KwNot, Ident(b)];
  }

  /** `all of stem* and not b` and `1 of stem* and not b`. */
  lemma ReadsQuantAndNot(s: string, q: Quantifier, stem: string, b: string)
    requires q == All || q == Count(1)
    requires IsWord(stem) && IsName(b)
    requires s == Spell(QuantifierToken(q)) + (" of " + (stem + ("* and not " + b)))
    ensures Reads(s, And(Of(q, Starting(stem)), Not(Ref(b))))
  {
    var ts := [QuantifierToken(q), KwOf, IdentWild(stem), KwAnd, KwNot, Ident(b)];
    QuantWords(q, stem, b);
    assert ts + [Eof] == [QuantifierToken(q), KwOf, IdentWild(stem), KwAnd, KwNot, Ident(b), Eof];
    ParseQuantAndNot(q, stem, b);
    SentenceReads(s, ts, And(Of(q, Starting(stem)), Not(Ref(b))));
  }

  lemma SpaceAndNot(c: string)
    ensures " " + ("and not " + c) == " and not " + c
  {
    Assoc(" ", "and not ", c);
    assert " " + "and not " == " and not ";
  }

  lemma LexAndNotTail(c: string)
    requires IsName(c)
    ensures Tokenize(" and not " + c) == Ok([KwAnd, KwNot, Ident(c), Eof])
  {
    var tail := [KwAnd, KwNot, Ident(c)];
    AndNotWords(c);
    LexSentence(tail);
    LexSpace(Sentence(tail));
    SpaceAndNot(c);
    assert tail + [Eof] == [KwAnd, KwNot, Ident(c), Eof];
  }

  lemma LexGroupThen(s: string, a: string, op: Token, b: string, rest: string, rs: seq<Token>)
    requires op == KwAnd || op == KwOr
    requires IsName(a) && IsName(b)
    requires rest == [] || IsSpace(rest[0])
    requires s == "(" + (a + (" " + (Spell(op) + (" " + (b + (")" + rest))))))
    requires Tokenize(rest) == Ok(rs)
    ensures Tokenize(s) == Ok([LParen, Ident(a), op, Ident(b), RParen] + rs)
  {
    LexGroup(a, op, b, rest);
    var r1 := Cons(RParen, Ok(rs));
    assert r1 == Ok([RParen] + rs);
    var r2 := Cons(Ident(b), r1);
    assert r2 == Ok([Ident(b)] + ([RParen] + rs));
    var r3 := Cons(op, r2);
    assert r3 == Ok([op] + ([Ident(b)] + ([RParen] + rs)));
    var r4 := Cons(Ident(a), r3);
    var r5 := Cons(LParen, r4);
    assert r5 == Ok([LParen] + ([Ident(a)] + ([op] + ([Ident(b)] + ([RParen] + rs)))));
    assert [LParen] + ([Ident(a)] + ([op] + ([Ident(b)] + ([RParen] + rs))))
      == [LParen, Ident(a), op, Ident(b), RParen] + rs;
  }

  /** `(a and b) and not c` and `(a or b) and not c`. */
  lemma ReadsGroupAndNot(s: string, a: string, op: Token, b: string, c: string)
    requires op == KwAnd || op == KwOr
    requires IsName(a) && IsName(b) && IsName(c)
    requires s == "(" + (a + (" " + (Spell(op) + (" " + (b + (")" + (" and not " + c)))))))
    ensures Reads(s, And(Binary(op, Ref(a), Ref(b)), Not(Ref(c))))
  {
    LexAndNotTail(c);
    LexGroupThen(s, a, op, b, " and not " + c, [KwAnd, KwNot, Ident(c), Eof]);
    assert [LParen, Ident(a), op, Ident(b), RParen] + [KwAnd, KwNot, Ident(c), Eof]
      == [LParen, Ident(a), op, Ident(b), RParen, KwAnd, KwNot, Ident(c), Eof];
    ParseGroupAndNot(a, op, b, c);
  }
}
