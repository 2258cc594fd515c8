/** Rules: named selections plus a condition. Compiling a rule compiles every
    selection, lexes and parses the condition, and resolves its names against
    the selections in declaration order. Evaluation walks the resolved tree
    against one record. */
module Rule {
  import opened Results
  import opened Text
  import opened Verdicts
  import opened Selection
  import opened Lexer
  import opened Condition

  /** A compiled selection with its name. */
  type Named = (string, Predicate)

  /** The resolved condition: names are replaced by their predicates, and a
      quantifier by the ordered list of selections it ranges over. */
  datatype Expr =
    | SelectionRef(name: string, pred: Predicate)
    | NotNode(e: Expr)
    | AndNode(l: Expr, r: Expr)
    | OrNode(l: Expr, r: Expr)
    | CountOf(q: Quantifier, members: seq<Predicate>)

  /** A rule as decoded: selections in declaration order and the condition. */
  datatype SigmaRule = SigmaRule(selections: seq<(string, RawSelection)>, condition: string)

  /** The first selection with this name. */
  function Find(sels: seq<Named>, name: string): (r: Option<Predicate>)
    ensures r.None? <==> forall i :: 0 <= i < |sels| ==> sels[i].0 != name
    ensures r.Some? ==> exists i :: 0 <= i < |sels| && sels[i] == (name, r.value)
  {
    if sels == [] then None
    else if sels[0].0 == name then Some(sels[0].1)
    else
      var r := Find(sels[1..], name);
      assert forall i :: 1 <= i < |sels| ==> sels[i] == sels[1..][i - 1];
      r
  }

  /** Every selection's predicate, in order. */
  function Predicates(sels: seq<Named>): (ps: seq<Predicate>)
    ensures |ps| == |sels| && forall i :: 0 <= i < |sels| ==> ps[i] == sels[i].1
  {
    seq(|sels|, i requires 0 <= i < |sels| => sels[i].1)
  }

  /** The predicates of the selections whose name starts with `stem`, in
      declaration order. */
  function Members(sels: seq<Named>, stem: string): (ps: seq<Predicate>)
    ensures |ps| <= |sels|
  {
    if sels == [] then []
    else (if StartsWith(sels[0].0, stem) then [sels[0].1] else []) + Members(sels[1..], stem)
  }

  /** Selecting members distributes over concatenation, so declaration order
      is kept. */
  lemma {:induction false} MembersAppend(a: seq<Named>, b: seq<Named>, stem: string)
    ensures Members(a + b, stem) == Members(a, stem) + Members(b, stem)
  {
    if a == [] {
      assert a + b == b;
    } else {
      assert (a + b)[0] == a[0];
      assert (a + b)[1..] == a[1..] + b;
      MembersAppend(a[1..], b, stem);
      Assoc(if StartsWith(a[0].0, stem) then [a[0].1] else [], Members(a[1..], stem), Members(b, stem));
    }
  }

  /** A predicate is a member exactly when some selection carrying it has a
      name starting with the stem. */
  lemma {:induction false} MembersMeaning(sels: seq<Named>, stem: string, p: Predicate)
    ensures p in Members(sels, stem) <==> exists i :: 0 <= i < |sels| && StartsWith(sels[i].0, stem) && sels[i].1 == p
  {
    if sels != [] {
      MembersMeaning(sels[1..], stem, p);
      assert forall i :: 1 <= i < |sels| ==> sels[i] == sels[1..][i - 1];
      if exists i :: 0 <= i < |sels| && StartsWith(sels[i].0, stem) && sels[i].1 == p {
        var i :| 0 <= i < |sels| && StartsWith(sels[i].0, stem) && sels[i].1 == p;
        if i > 0 {
          assert sels[1..][i - 1] == sels[i];
        }
      }
    }
  }

  /** The empty stem selects every selection: `X*` with nothing before the
      star ranges over the same list as `them`. */
  lemma {:induction false} MembersOfEmptyStem(sels: seq<Named>)
    ensures Members(sels, "") == Predicates(sels)
  {
    if sels != [] {
      MembersOfEmptyStem(sels[1..]);
      assert StartsWith(sels[0].0, "");
      assert Predicates(sels) == [sels[0].1] + Predicates(sels[1..]);
    }
  }

  /** Every name the condition mentions is declared. */
  predicate Declared(c: Cond, sels: seq<Named>) {
    match c
    case Ref(name) => exists i :: 0 <= i < |sels| && sels[i].0 == name
    case Not(x) => Declared(x, sels)
    case And(l, r) => Declared(l, sels) && Declared(r, sels)
    case Or(l, r) => Declared(l, sels) && Declared(r, sels)
    case Of(_, _) => true
  }

  /** Replaces names by predicates and quantifier targets by member lists. */
  function Resolve(c: Cond, sels: seq<Named>): (r: Result<Expr>)
    ensures r.Ok? <==> Declared(c, sels)
    ensures r.Err? ==> r.error.UnknownSelection?
  {
    match c
    case Ref(name) =>
      var p := Find(sels, name);
      if p.None? then Err(UnknownSelection(name)) else Ok(SelectionRef(name, p.value))
    case Not(x) =>
      var e :- Resolve(x, sels);
      Ok(NotNode(e))
    case And(l, r) =>
      var a :- Resolve(l, sels);
      var b :- Resolve(r, sels);
      Ok(AndNode(a, b))
    case Or(l, r) =>
      var a :- Resolve(l, sels);
      var b :- Resolve(r, sels);
      Ok(OrNode(a, b))
    case Of(q, Them) => Ok(CountOf(q, Predicates(sels)))
    case Of(q, Starting(stem)) => Ok(CountOf(q, Members(sels, stem)))
  }

  /** The verdicts of a list of selections. */
  function MemberVerdicts(ps: seq<Predicate>, rec: Record, env: Env): (vs: seq<Verdict>)
    ensures |vs| == |ps| && forall i :: 0 <= i < |ps| ==> vs[i] == PredicateVerdict(ps[i], rec, env)
  {
    seq(|ps|, i requires 0 <= i < |ps| => PredicateVerdict(ps[i], rec, env))
  }

  /** Evaluates a resolved condition against a record. */
  function Eval(e: Expr, rec: Record, env: Env): Verdict {
    match e
    case SelectionRef(_, p) => PredicateVerdict(p, rec, env)
    case NotNode(x) => Negate(Eval(x, rec, env))
    case AndNode(l, r) => Both(Eval(l, rec, env), Eval(r, rec, env))
    case OrNode(l, r) => Either(Eval(l, rec, env), Eval(r, rec, env))
    case CountOf(All, ps) => AllOf(MemberVerdicts(ps, rec, env))
    case CountOf(Count(n), ps) => AtLeast(n, MemberVerdicts(ps, rec, env))
  }

  /** `all of them` holds exactly when every selection holds. */
  lemma AllOfThem(sels: seq<Named>, rec: Record, env: Env)
    ensures Eval(CountOf(All, Predicates(sels)), rec, env).Match? <==>
      forall i :: 0 <= i < |sels| ==> PredicateVerdict(sels[i].1, rec, env).Match?
  {
    AllOfMatch(MemberVerdicts(Predicates(sels), rec, env));
  }

  /** `1 of X` is the disjunction of the members, verdict for verdict, and so
      holds exactly when some member holds. */
  lemma OneOf(ps: seq<Predicate>, rec: Record, env: Env)
    ensures Eval(CountOf(Count(1), ps), rec, env) == AnyOf(MemberVerdicts(ps, rec, env))
    ensures Eval(CountOf(Count(1), ps), rec, env).Match? <==>
      exists i :: 0 <= i < |ps| && PredicateVerdict(ps[i], rec, env).Match?
  {
    AtLeastOneIsAnyOf(MemberVerdicts(ps, rec, env));
    AnyOfMatch(MemberVerdicts(ps, rec, env));
  }

  /** `N of X` with more than the number of members never holds, whatever the
      record. */
  lemma CountBeyondMembers(n: nat, ps: seq<Predicate>, rec: Record, env: Env)
    requires n > |ps|
    ensures !Eval(CountOf(Count(n), ps), rec, env).Match?
  {
    AtLeastTooMany(n, MemberVerdicts(ps, rec, env));
  }

  /** Over an empty member list, `all of` holds and `N of` does not. */
  lemma EmptyMembers(q: Quantifier, rec: Record, env: Env)
    requires q.Count? ==> q.n > 0
    ensures Eval(CountOf(q, []), rec, env).Match? <==> q.All?
  {
  }

  /** A negated sub-condition that is inapplicable stays inapplicable, so a
      conjunction with it cannot match. */
  lemma NotKeepsInapplicable(x: Expr, y: Expr, rec: Record, env: Env)
    requires Eval(y, rec, env).Inapplicable?
    ensures !Eval(AndNode(x, NotNode(y)), rec, env).Match?
  {
  }

  /** Compiles the selections in declaration order, names kept. */
  function CompileSelections(raws: seq<(string, RawSelection)>, collapse: bool): (r: Result<seq<Named>>)
    ensures r.Ok? ==> |r.value| == |raws| && forall i :: 0 <= i < |raws| ==>
      r.value[i].0 == raws[i].0 && Ok(r.value[i].1) == CompileSelection(raws[i].1, collapse)
    ensures r.Ok? <==> forall i :: 0 <= i < |raws| ==> CompileSelection(raws[i].1, collapse).Ok?
    ensures r.Err? ==> r.error.UnknownModifier?
  {
    if raws == [] then Ok([])
    else
      var p :- CompileSelection(raws[0].1, collapse);
      var ps :- CompileSelections(raws[1..], collapse);
      Ok([(raws[0].0, p)] + ps)
  }

  /** Lexes, parses and resolves a condition string. It succeeds exactly when
      the condition lexes, parses and names only declared selections, and then
      yields the resolved condition; a failure is a lexing, grammar or
      unknown-name error, lexing errors coming first. */
  function CompileCondition(condition: string, sels: seq<Named>): (r: Result<Expr>)
    ensures r.Ok? <==>
      && Tokenize(condition).Ok?
      && Parse(Tokenize(condition).value).Ok?
      && Declared(Parse(Tokenize(condition).value).value, sels)
    ensures Tokenize(condition).Ok? && Parse(Tokenize(condition).value).Ok? ==>
      r == Resolve(Parse(Tokenize(condition).value).value, sels)
    ensures Tokenize(condition).Err? ==> r.Err? && r.error.UnsupportedToken?
    ensures r.Err? ==> r.error.UnsupportedToken? || r.error.MalformedCondition? || r.error.UnknownSelection?
  {
    var ts :- Tokenize(condition);
    var c :- Parse(ts);
    Resolve(c, sels)
  }

  /** Compiles a whole rule; `collapse` is the whitespace-collapsing switch.
      It succeeds exactly when every selection compiles and the condition
      lexes, parses and names only declared selections, and then yields the
      condition resolved against the compiled selections. Selections are
      compiled first, so a bad modifier is the error reported. */
  function CompileRule(rule: SigmaRule, collapse: bool): (r: Result<Expr>)
    ensures r.Ok? <==>
      && CompileSelections(rule.selections, collapse).Ok?
      && Tokenize(rule.condition).Ok?
      && Parse(Tokenize(rule.condition).value).Ok?
      && Declared(Parse(Tokenize(rule.condition).value).value, CompileSelections(rule.selections, collapse).value)
    ensures CompileSelections(rule.selections, collapse).Ok? && Tokenize(rule.condition).Ok? && Parse(Tokenize(rule.condition).value).Ok? ==>
      r == Resolve(Parse(Tokenize(rule.condition).value).value, CompileSelections(rule.selections, collapse).value)
    ensures CompileSelections(rule.selections, collapse).Err? ==> r.Err? && r.error.UnknownModifier?
    ensures CompileSelections(rule.selections, collapse).Ok? && Tokenize(rule.condition).Err? ==> r.Err? && r.error.UnsupportedToken?
  {
    var sels :- CompileSelections(rule.selections, collapse);
    CompileCondition(rule.condition, sels)
  }

  /** Whether a rule, compiled with the given switch, matches a record. A rule
      that fails to compile matches nothing. */
  predicate RuleMatches(rule: SigmaRule, collapse: bool, rec: Record, env: Env) {
    match CompileRule(rule, collapse)
    case Ok(e) => Eval(e, rec, env).Match?
    case Err(_) => false
  }

  /** The record a decoder builds from key/value pairs read in order: a key
      that occurs more than once keeps its last value. */
  function RecordOf(pairs: seq<(string, string)>): (r: Record)
    ensures forall k :: k in r <==> exists i :: 0 <= i < |pairs| && pairs[i].0 == k
  {
    if pairs == [] then map[]
    else
      var last := pairs[|pairs| - 1];
      var r := RecordOf(pairs[..|pairs| - 1])[last.0 := last.1];
      assert forall i :: 0 <= i < |pairs| - 1 ==> pairs[..|pairs| - 1][i] == pairs[i];
      r
  }

  /** Each key maps to the value of its last occurrence. */
  lemma {:induction false} RecordOfLastWins(pairs: seq<(string, string)>, i: nat)
    requires i < |pairs|
    requires forall j :: i < j < |pairs| ==> pairs[j].0 != pairs[i].0
    ensures RecordOf(pairs)[pairs[i].0] == pairs[i].1
  {
    var n := |pairs| - 1;
    if i < n {
      var init := pairs[..n];
      assert init[i] == pairs[i];
      assert forall j :: i < j < |init| ==> init[j] == pairs[j];
      RecordOfLastWins(init, i);
    }
  }
}
