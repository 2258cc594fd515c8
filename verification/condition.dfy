/** The condition parser: recursive descent over the token stream with
    precedence `or` < `and` < `not`, parentheses for grouping, and the
    quantified atoms `all of X*`, `N of X*`, `all of them` and `N of them`.
      expr    := and ( "or" and )*
      and     := unary ( "and" unary )*
      unary   := "not" unary | atom
      atom    := "(" expr ")" | quantifier "of" ( stem* | "them" ) | name
    Binary operators group to the left. Names are resolved against the rule's
    selections afterwards. */
module Condition {
  import opened Results
  import opened Lexer

  /** `all`, or a positive count. */
  datatype Quantifier = All | Count(n: nat)

  /** The selections a quantifier ranges over. */
  datatype Target = Them | Starting(stem: string)

  datatype Cond =
    | Ref(name: string)
    | Not(c: Cond)
    | And(l: Cond, r: Cond)
    | Or(l: Cond, r: Cond)
    | Of(q: Quantifier, t: Target)

  /** A parsed node and the position of the first token after it. */
  datatype Parsed = Parsed(cond: Cond, next: nat)

  function ParseOr(ts: seq<Token>, pos: nat): (r: Result<Parsed>)
    requires pos <= |ts|
    ensures r.Ok? ==> pos < r.value.next <= |ts|
    ensures r.Err? ==> r.error.MalformedCondition?
    decreases |ts| - pos, 5
  {
    var l :- ParseAnd(ts, pos);
    ParseOrRest(ts, l.cond, l.next)
  }

  function ParseOrRest(ts: seq<Token>, left: Cond, pos: nat): (r: Result<Parsed>)
    requires pos <= |ts|
    ensures r.Ok? ==> pos <= r.value.next <= |ts|
    ensures r.Err? ==> r.error.MalformedCondition?
    decreases |ts| - pos, 4
  {
    if pos < |ts| && ts[pos] == KwOr then
      var right :- ParseAnd(ts, pos + 1);
      ParseOrRest(ts, Or(left, right.cond), right.next)
    else Ok(Parsed(left, pos))
  }

  function ParseAnd(ts: seq<Token>, pos: nat): (r: Result<Parsed>)
    requires pos <= |ts|
    ensures r.Ok? ==> pos < r.value.next <= |ts|
    ensures r.Err? ==> r.error.MalformedCondition?
    decreases |ts| - pos, 3
  {
    var l :- ParseUnary(ts, pos);
    ParseAndRest(ts, l.cond, l.next)
  }

  function ParseAndRest(ts: seq<Token>, left: Cond, pos: nat): (r: Result<Parsed>)
    requires pos <= |ts|
    ensures r.Ok? ==> pos <= r.value.next <= |ts|
    ensures r.Err? ==> r.error.MalformedCondition?
    decreases |ts| - pos, 2
  {
    if pos < |ts| && ts[pos] == KwAnd then
      var right :- ParseUnary(ts, pos + 1);
      ParseAndRest(ts, And(left, right.cond), right.next)
    else Ok(Parsed(left, pos))
  }

  function ParseUnary(ts: seq<Token>, pos: nat): (r: Result<Parsed>)
    requires pos <= |ts|
    ensures r.Ok? ==> pos < r.value.next <= |ts|
    ensures r.Err? ==> r.error.MalformedCondition?
    decreases |ts| - pos, 1
  {
    if pos < |ts| && ts[pos] == KwNot then
      var c :- ParseUnary(ts, pos + 1);
      Ok(Parsed(Not(c.cond), c.next))
    else ParseAtom(ts, pos)
  }

  function ParseAtom(ts: seq<Token>, pos: nat): (r: Result<Parsed>)
    requires pos <= |ts|
    ensures r.Ok? ==> pos < r.value.next <= |ts|
    ensures r.Err? ==> r.error.MalformedCondition?
    decreases |ts| - pos, 0
  {
    if pos == |ts| then Err(MalformedCondition(pos))
    else match ts[pos]
      case LParen =>
        var inner :- ParseOr(ts, pos + 1);
        if inner.next < |ts| && ts[inner.next] == RParen then Ok(Parsed(inner.cond, inner.next + 1))
        else Err(MalformedCondition(inner.next))
      case Ident(name) => Ok(Parsed(Ref(name), pos + 1))
      case KwAll => ParseTarget(ts, pos + 1, All)
      case IntLit(n) => if n == 0 then Err(MalformedCondition(pos)) else ParseTarget(ts, pos + 1, Count(n))
      case _ => Err(MalformedCondition(pos))
  }

  /** `of` followed by `them` or a wildcard-prefix identifier. */
  function ParseTarget(ts: seq<Token>, pos: nat, q: Quantifier): (r: Result<Parsed>)
    requires pos <= |ts|
    ensures r.Ok? ==> r.value.next == pos + 2 <= |ts| && r.value.cond.Of? && r.value.cond.q == q
    ensures r.Err? ==> r.error.MalformedCondition?
  {
    if pos + 1 < |ts| && ts[pos] == KwOf then
      match ts[pos + 1]
      case KwThem => Ok(Parsed(Of(q, Them), pos + 2))
      case IdentWild(stem) => Ok(Parsed(Of(q, Starting(stem)), pos + 2))
      case _ => Err(MalformedCondition(pos + 1))
    else Err(MalformedCondition(pos))
  }

  /** A whole condition: an expression followed by the end of input. */
  function Parse(ts: seq<Token>): (r: Result<Cond>)
    ensures r.Ok? ==> exists n :: 0 < n < |ts| && ts[n] == Eof
    ensures r.Err? ==> r.error.MalformedCondition?
  {
    var p :- ParseOr(ts, 0);
    if p.next < |ts| && ts[p.next] == Eof then Ok(p.cond) else Err(MalformedCondition(p.next))
  }

  // ------------------------------------------------------------ printing

  function QuantifierToken(q: Quantifier): Token {
    match q
    case All => KwAll
    case Count(n) => IntLit(n)
  }

  function TargetToken(t: Target): Token {
    match t
    case Them => KwThem
    case Starting(stem) => IdentWild(stem)
  }

  /** Writes a condition back as tokens, parenthesising every operand. */
  function Print(c: Cond): (ts: seq<Token>)
    ensures |ts| >= 1
  {
    match c
    case Ref(name) => [Ident(name)]
    case Of(q, t) => [QuantifierToken(q), KwOf, TargetToken(t)]
    case Not(x) => [KwNot] + Wrap(Print(x))
    case And(l, r) => Wrap(Print(l)) + ([KwAnd] + Wrap(Print(r)))
    case Or(l, r) => Wrap(Print(l)) + ([KwOr] + Wrap(Print(r)))
  }

  function Wrap(ts: seq<Token>): (r: seq<Token>)
    ensures |r| == |ts| + 2
  {
    [LParen] + ts + [RParen]
  }

  /** Conditions the grammar can express: counts are positive. */
  predicate Printable(c: Cond) {
    match c
    case Ref(_) => true
    case Of(q, _) => q.Count? ==> q.n > 0
    case Not(x) => Printable(x)
    case And(l, r) => Printable(l) && Printable(r)
    case Or(l, r) => Printable(l) && Printable(r)
  }

  /** `w` sits in `ts` at position `p`. */
  predicate Fits(ts: seq<Token>, p: nat, w: seq<Token>) {
    p + |w| <= |ts| && forall i :: 0 <= i < |w| ==> ts[p + i] == w[i]
  }

  lemma FitsAt(ts: seq<Token>, p: nat, w: seq<Token>, i: nat)
    requires Fits(ts, p, w) && i < |w|
    ensures ts[p + i] == w[i]
  {
  }

  lemma FitsSplit(ts: seq<Token>, p: nat, a: seq<Token>, b: seq<Token>)
    requires Fits(ts, p, a + b)
    ensures Fits(ts, p, a) && Fits(ts, p + |a|, b)
  {
    forall i | 0 <= i < |a|
      ensures ts[p + i] == a[i]
    {
      assert (a + b)[i] == a[i];
    }
    forall i | 0 <= i < |b|
      ensures ts[p + |a| + i] == b[i]
    {
      assert (a + b)[|a| + i] == b[i];
    }
  }

  /** A token before which every expression level stops. */
  predicate Stop(t: Token) {
    t == RParen || t == Eof
  }

  /** A printed condition followed by `)` or the end parses back to itself,
      consuming exactly its tokens. */
  lemma {:induction false} PrintParses(c: Cond, ts: seq<Token>, p: nat)
    requires Printable(c)
    requires Fits(ts, p, Print(c)) && p + |Print(c)| < |ts| && Stop(ts[p + |Print(c)|])
    ensures ParseOr(ts, p) == Ok(Parsed(c, p + |Print(c)|))
    decreases c, 2
  {
    match c
    case And(l, r) =>
      AndPieces(l, r, ts, p);
      PrintParsesAnd(l, r, ts, p);
    case Or(l, r) =>
      OrPieces(l, r, ts, p);
      PrintParsesOr(l, r, ts, p);
    case _ =>
      PrintParsesAtom(c, ts, p);
  }

  /** A printed atom or negation is a whole expression. */
  lemma {:induction false} PrintParsesAtom(c: Cond, ts: seq<Token>, p: nat)
    requires Printable(c) && !c.And? && !c.Or?
    requires Fits(ts, p, Print(c)) && p + |Print(c)| < |ts| && Stop(ts[p + |Print(c)|])
    ensures ParseOr(ts, p) == Ok(Parsed(c, p + |Print(c)|))
    decreases c, 1
  {
    var e := p + |Print(c)|;
    PrintParsesUnary(c, ts, p);
    AndStop(ts, c, e);
    AndLevel(ts, p, c, e);
    OrStop(ts, c, e);
    OrLevel(ts, p, c, e);
  }

  /** Where the parts of a printed `and` sit. */
  lemma AndPieces(l: Cond, r: Cond, ts: seq<Token>, p: nat)
    requires Fits(ts, p, Print(And(l, r)))
    ensures Fits(ts, p, Wrap(Print(l)))
    ensures p + |Print(l)| + 2 < |ts| && ts[p + |Print(l)| + 2] == KwAnd
    ensures Fits(ts, p + |Print(l)| + 3, Wrap(Print(r)))
    ensures |Print(And(l, r))| == |Print(l)| + |Print(r)| + 5
  {
    PrintAnd(l, r);
    BinaryPieces(Wrap(Print(l)), KwAnd, Wrap(Print(r)), ts, p);
  }

  /** Where the parts of a printed `or` sit. */
  lemma OrPieces(l: Cond, r: Cond, ts: seq<Token>, p: nat)
    requires Fits(ts, p, Print(Or(l, r)))
    ensures Fits(ts, p, Wrap(Print(l)))
    ensures p + |Print(l)| + 2 < |ts| && ts[p + |Print(l)| + 2] == KwOr
    ensures Fits(ts, p + |Print(l)| + 3, Wrap(Print(r)))
    ensures |Print(Or(l, r))| == |Print(l)| + |Print(r)| + 5
  {
    PrintOr(l, r);
    BinaryPieces(Wrap(Print(l)), KwOr, Wrap(Print(r)), ts, p);
  }

  /** Printed atoms and negations are read by the unary level alone. */
  lemma {:induction false} PrintParsesUnary(c: Cond, ts: seq<Token>, p: nat)
    requires Printable(c) && !c.And? && !c.Or?
    requires Fits(ts, p, Print(c))
    ensures ParseUnary(ts, p) == Ok(Parsed(c, p + |Print(c)|))
    decreases c, 0
  {
    match c
    case Ref(name) =>
      FitsAt(ts, p, [Ident(name)], 0);
      RefAtom(ts, p);
    case Of(q, t) =>
      var w := [QuantifierToken(q), KwOf, TargetToken(t)];
      FitsAt(ts, p, w, 0);
      FitsAt(ts, p, w, 1);
      FitsAt(ts, p, w, 2);
      OfAtom(ts, p, q, t);
    case Not(x) =>
      FitsSplit(ts, p, [KwNot], Wrap(Print(x)));
      FitsAt(ts, p, [KwNot], 0);
      ParenParses(x, ts, p + 1);
      NotUnary(ts, p, x, p + 1 + |Print(x)| + 2);
  }

  /** `( printed )` is read by the atom level as the printed condition. */
  lemma {:induction false} ParenParses(x: Cond, ts: seq<Token>, p: nat)
    requires Printable(x)
    requires Fits(ts, p, Wrap(Print(x)))
    ensures ParseUnary(ts, p) == Ok(Parsed(x, p + |Print(x)| + 2))
    ensures ParseAtom(ts, p) == Ok(Parsed(x, p + |Print(x)| + 2))
    decreases x, 3
  {
    var w := Wrap(Print(x));
    FitsAt(ts, p, w, 0);
    FitsAt(ts, p, w, |Print(x)| + 1);
    FitsSplit(ts, p, [LParen] + Print(x), [RParen]);
    FitsSplit(ts, p, [LParen], Print(x));
    PrintParses(x, ts, p + 1);
  }

  /** A printed `and` is read as one `and` node over its two operands. */
  lemma {:induction false} PrintParsesAnd(l: Cond, r: Cond, ts: seq<Token>, p: nat)
    requires Printable(l) && Printable(r)
    requires Fits(ts, p, Wrap(Print(l)))
    requires p + |Print(l)| + 2 < |ts| && ts[p + |Print(l)| + 2] == KwAnd
    requires Fits(ts, p + |Print(l)| + 3, Wrap(Print(r)))
    requires p + |Print(l)| + |Print(r)| + 5 < |ts| && Stop(ts[p + |Print(l)| + |Print(r)| + 5])
    ensures ParseOr(ts, p) == Ok(Parsed(And(l, r), p + |Print(l)| + |Print(r)| + 5))
    decreases And(l, r), 0
  {
    var k := p + |Print(l)| + 2;
    var e := k + |Print(r)| + 3;
    ParenParses(l, ts, p);
    ParenParses(r, ts, k + 1);
    AndStep(ts, l, k, r, e);
    AndStop(ts, And(l, r), e);
    AndLevel(ts, p, l, k);
    OrStop(ts, And(l, r), e);
    OrLevel(ts, p, And(l, r), e);
  }

  /** A printed `or` is read as one `or` node over its two operands. */
  lemma {:induction false} PrintParsesOr(l: Cond, r: Cond, ts: seq<Token>, p: nat)
    requires Printable(l) && Printable(r)
    requires Fits(ts, p, Wrap(Print(l)))
    requires p + |Print(l)| + 2 < |ts| && ts[p + |Print(l)| + 2] == KwOr
    requires Fits(ts, p + |Print(l)| + 3, Wrap(Print(r)))
    requires p + |Print(l)| + |Print(r)| + 5 < |ts| && Stop(ts[p + |Print(l)| + |Print(r)| + 5])
    ensures ParseOr(ts, p) == Ok(Parsed(Or(l, r), p + |Print(l)| + |Print(r)| + 5))
    decreases Or(l, r), 0
  {
    var k := p + |Print(l)| + 2;
    var e := k + |Print(r)| + 3;
    ParenAnd(l, ts, p);
    ParenAnd(r, ts, k + 1);
    OrStep(ts, l, k, r, e);
    OrStop(ts, Or(l, r), e);
    OrLevel(ts, p, l, k);
  }

  /** How a printed `and` is laid out. */
  lemma PrintAnd(l: Cond, r: Cond)
    ensures Print(And(l, r)) == Wrap(Print(l)) + ([KwAnd] + Wrap(Print(r)))
    ensures |Print(And(l, r))| == |Print(l)| + |Print(r)| + 5
  {
  }

  /** How a printed `or` is laid out. */
  lemma PrintOr(l: Cond, r: Cond)
    ensures Print(Or(l, r)) == Wrap(Print(l)) + ([KwOr] + Wrap(Print(r)))
    ensures |Print(Or(l, r))| == |Print(l)| + |Print(r)| + 5
  {
  }

  /** Where the operands and the operator of a printed binary node sit. */
  lemma BinaryPieces(a: seq<Token>, op: Token, b: seq<Token>, ts: seq<Token>, p: nat)
    requires Fits(ts, p, a + ([op] + b))
    ensures Fits(ts, p, a)
    ensures p + |a| < |ts| && ts[p + |a|] == op
    ensures Fits(ts, p + |a| + 1, b)
  {
    FitsSplit(ts, p, a, [op] + b);
    FitsSplit(ts, p + |a|, [op], b);
    FitsAt(ts, p + |a|, [op], 0);
  }

  /** A parenthesised operand not followed by `and` is the whole `and` level. */
  lemma {:induction false} ParenAnd(x: Cond, ts: seq<Token>, p: nat)
    requires Printable(x)
    requires Fits(ts, p, Wrap(Print(x)))
    requires p + |Print(x)| + 2 < |ts| && ts[p + |Print(x)| + 2] != KwAnd
    ensures ParseAnd(ts, p) == Ok(Parsed(x, p + |Print(x)| + 2))
    decreases x, 4
  {
    var k := p + |Print(x)| + 2;
    ParenParses(x, ts, p);
    AndStop(ts, x, k);
    AndLevel(ts, p, x, k);
  }

  /** The `and` level reads a unary operand and then its continuation. */
  lemma AndLevel(ts: seq<Token>, p: nat, x: Cond, k: nat)
    requires p <= |ts| && ParseUnary(ts, p) == Ok(Parsed(x, k))
    ensures ParseAnd(ts, p) == ParseAndRest(ts, x, k)
  {
  }

  /** `and` followed by a unary operand extends the left operand. */
  lemma AndStep(ts: seq<Token>, left: Cond, k: nat, r: Cond, e: nat)
    requires k < |ts| && ts[k] == KwAnd
    requires ParseUnary(ts, k + 1) == Ok(Parsed(r, e))
    ensures ParseAndRest(ts, left, k) == ParseAndRest(ts, And(left, r), e)
  {
  }

  /** `or` followed by an `and`-level operand extends the left operand. */
  lemma OrStep(ts: seq<Token>, left: Cond, k: nat, r: Cond, e: nat)
    requires k < |ts| && ts[k] == KwOr
    requires ParseAnd(ts, k + 1) == Ok(Parsed(r, e))
    ensures ParseOrRest(ts, left, k) == ParseOrRest(ts, Or(left, r), e)
  {
  }

  /** The `and` level ends before any token other than `and`. */
  lemma AndStop(ts: seq<Token>, left: Cond, k: nat)
    requires k <= |ts| && (k < |ts| ==> ts[k] != KwAnd)
    ensures ParseAndRest(ts, left, k) == Ok(Parsed(left, k))
  {
  }

  /** Parsing is a left inverse of printing. */
  lemma PrintRoundTrip(c: Cond)
    requires Printable(c)
    ensures Parse(Print(c) + [Eof]) == Ok(c)
  {
    var ts := Print(c) + [Eof];
    assert Fits(ts, 0, Print(c));
    PrintParses(c, ts, 0);
  }

  // ------------------------------------------------ single parsing steps

  lemma RefAtom(ts: seq<Token>, p: nat)
    requires p < |ts| && ts[p].Ident?
    ensures ParseUnary(ts, p) == Ok(Parsed(Ref(ts[p].name), p + 1))
  {
  }

  lemma NotUnary(ts: seq<Token>, p: nat, x: Cond, k: nat)
    requires p < |ts| && ts[p] == KwNot
    requires ParseUnary(ts, p + 1) == Ok(Parsed(x, k))
    ensures ParseUnary(ts, p) == Ok(Parsed(Not(x), k))
  {
  }

  lemma ParenAtom(ts: seq<Token>, p: nat, x: Cond, k: nat)
    requires p < |ts| && ts[p] == LParen
    requires ParseOr(ts, p + 1) == Ok(Parsed(x, k))
    requires k < |ts| && ts[k] == RParen
    ensures ParseUnary(ts, p) == Ok(Parsed(x, k + 1))
  {
    assert ParseAtom(ts, p) == Ok(Parsed(x, k + 1));
  }

  lemma OfAtom(ts: seq<Token>, p: nat, q: Quantifier, t: Target)
    requires p + 2 < |ts| && ts[p] == QuantifierToken(q) && (q.Count? ==> q.n > 0)
    requires ts[p + 1] == KwOf && ts[p + 2] == TargetToken(t)
    ensures ParseUnary(ts, p) == Ok(Parsed(Of(q, t), p + 3))
  {
    assert ParseTarget(ts, p + 1, q) == Ok(Parsed(Of(q, t), p + 3));
  }

  lemma OrLevel(ts: seq<Token>, p: nat, x: Cond, k: nat)
    requires p <= |ts| && ParseAnd(ts, p) == Ok(Parsed(x, k))
    ensures ParseOr(ts, p) == ParseOrRest(ts, x, k)
  {
  }

  lemma OrStop(ts: seq<Token>, left: Cond, k: nat)
    requires k <= |ts| && (k < |ts| ==> ts[k] != KwOr)
    ensures ParseOrRest(ts, left, k) == Ok(Parsed(left, k))
  {
  }

  /** An expression that ends at the end marker is the whole condition. */
  lemma Complete(ts: seq<Token>, c: Cond, k: nat)
    requires ParseOr(ts, 0) == Ok(Parsed(c, k)) && k < |ts| && ts[k] == Eof
    ensures Parse(ts) == Ok(c)
  {
  }

  /** A unary operand that is followed by the end marker is the whole condition. */
  lemma CompleteUnary(ts: seq<Token>, c: Cond, k: nat)
    requires ParseUnary(ts, 0) == Ok(Parsed(c, k)) && k < |ts| && ts[k] == Eof
    ensures Parse(ts) == Ok(c)
  {
    AndStop(ts, c, k);
    AndLevel(ts, 0, c, k);
    OrStop(ts, c, k);
    OrLevel(ts, 0, c, k);
  }

  /** `not` binds tighter than `and`. */
  lemma NotBindsTighter(a: string, b: string)
    ensures Parse([KwNot, Ident(a), KwAnd, Ident(b), Eof]) == Ok(And(Not(Ref(a)), Ref(b)))
  {
    var ts := [KwNot, Ident(a), KwAnd, Ident(b), Eof];
    RefAtom(ts, 1);
    NotUnary(ts, 0, Ref(a), 2);
    RefAtom(ts, 3);
    AndStep(ts, Not(Ref(a)), 2, Ref(b), 4);
    AndStop(ts, And(Not(Ref(a)), Ref(b)), 4);
    AndLevel(ts, 0, Not(Ref(a)), 2);
    OrStop(ts, And(Not(Ref(a)), Ref(b)), 4);
    OrLevel(ts, 0, And(Not(Ref(a)), Ref(b)), 4);
    Complete(ts, And(Not(Ref(a)), Ref(b)), 4);
  }

  /** `and` binds tighter than `or`, on either side. */
  lemma AndBindsTighter(a: string, b: string, c: string)
    ensures Parse([Ident(a), KwOr, Ident(b), KwAnd, Ident(c), Eof]) == Ok(Or(Ref(a), And(Ref(b), Ref(c))))
    ensures Parse([Ident(a), KwAnd, Ident(b), KwOr, Ident(c), Eof]) == Ok(Or(And(Ref(a), Ref(b)), Ref(c)))
  {
    var ts := [Ident(a), KwOr, Ident(b), KwAnd, Ident(c), Eof];
    RefAtom(ts, 0);
    AndStop(ts, Ref(a), 1);
    AndLevel(ts, 0, Ref(a), 1);
    RefAtom(ts, 2);
    RefAtom(ts, 4);
    AndStep(ts, Ref(b), 3, Ref(c), 5);
    AndStop(ts, And(Ref(b), Ref(c)), 5);
    AndLevel(ts, 2, Ref(b), 3);
    OrStep(ts, Ref(a), 1, And(Ref(b), Ref(c)), 5);
    OrStop(ts, Or(Ref(a), And(Ref(b), Ref(c))), 5);
    OrLevel(ts, 0, Ref(a), 1);
    Complete(ts, Or(Ref(a), And(Ref(b), Ref(c))), 5);

    var us := [Ident(a), KwAnd, Ident(b), KwOr, Ident(c), Eof];
    RefAtom(us, 0);
    RefAtom(us, 2);
    AndStep(us, Ref(a), 1, Ref(b), 3);
    AndStop(us, And(Ref(a), Ref(b)), 3);
    AndLevel(us, 0, Ref(a), 1);
    RefAtom(us, 4);
    AndStop(us, Ref(c), 5);
    AndLevel(us, 4, Ref(c), 5);
    OrStep(us, And(Ref(a), Ref(b)), 3, Ref(c), 5);
    OrStop(us, Or(And(Ref(a), Ref(b)), Ref(c)), 5);
    OrLevel(us, 0, And(Ref(a), Ref(b)), 3);
    Complete(us, Or(And(Ref(a), Ref(b)), Ref(c)), 5);
  }

  /** Parentheses override precedence. */
  lemma ParensGroup(a: string, b: string, c: string)
    ensures Parse([Ident(a), KwAnd, LParen, Ident(b), KwOr, Ident(c), RParen, Eof]) == Ok(And(Ref(a), Or(Ref(b), Ref(c))))
  {
    var ts := [Ident(a), KwAnd, LParen, Ident(b), KwOr, Ident(c), RParen, Eof];
    RefAtom(ts, 3);
    AndStop(ts, Ref(b), 4);
    AndLevel(ts, 3, Ref(b), 4);
    RefAtom(ts, 5);
    AndStop(ts, Ref(c), 6);
    AndLevel(ts, 5, Ref(c), 6);
    OrStep(ts, Ref(b), 4, Ref(c), 6);
    OrStop(ts, Or(Ref(b), Ref(c)), 6);
    OrLevel(ts, 3, Ref(b), 4);
    ParenAtom(ts, 2, Or(Ref(b), Ref(c)), 6);
    RefAtom(ts, 0);
    AndStep(ts, Ref(a), 1, Or(Ref(b), Ref(c)), 7);
    var x := And(Ref(a), Or(Ref(b), Ref(c)));
    AndStop(ts, x, 7);
    AndLevel(ts, 0, Ref(a), 1);
    OrStop(ts, x, 7);
    OrLevel(ts, 0, x, 7);
    Complete(ts, x, 7);
  }

  /** Quantified atoms; a zero count is malformed. */
  lemma Quantified(stem: string, n: nat)
    ensures Parse([KwAll, KwOf, IdentWild(stem), Eof]) == Ok(Of(All, Starting(stem)))
    ensures n > 0 ==> Parse([IntLit(n), KwOf, KwThem, Eof]) == Ok(Of(Count(n), Them))
    ensures Parse([IntLit(0), KwOf, KwThem, Eof]) == Err(MalformedCondition(0))
  {
    var ts := [KwAll, KwOf, IdentWild(stem), Eof];
    OfAtom(ts, 0, All, Starting(stem));
    CompleteUnary(ts, Of(All, Starting(stem)), 3);
    if n > 0 {
      var us := [IntLit(n), KwOf, KwThem, Eof];
      OfAtom(us, 0, Count(n), Them);
      CompleteUnary(us, Of(Count(n), Them), 3);
    }
    var zs := [IntLit(0), KwOf, KwThem, Eof];
    assert ParseAtom(zs, 0).Err?;
    assert ParseOr(zs, 0) == Err(MalformedCondition(0));
  }

  /** Tokens left over after a complete expression are an error. */
  lemma TrailingTokens(a: string, b: string)
    ensures Parse([Ident(a), Ident(b), Eof]) == Err(MalformedCondition(1))
  {
    var ts := [Ident(a), Ident(b), Eof];
    RefAtom(ts, 0);
    AndStop(ts, Ref(a), 1);
    AndLevel(ts, 0, Ref(a), 1);
    OrStop(ts, Ref(a), 1);
    OrLevel(ts, 0, Ref(a), 1);
  }
}
