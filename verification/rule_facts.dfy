/** Facts about the shapes of keys, patterns and records that the rule vectors
    are built from, each proved once for arbitrary text. */
module RuleFacts {
  import opened Results
  import opened Text
  import opened Glob
  import opened Escape
  import opened EscapeFacts
  import opened Verdicts
  import opened Selection
  import opened Lexer
  import opened Condition
  import opened Rule
  import opened ConditionVectors

  /** Text in which no character is special to the pattern language. */
  predicate Plain(w: string) {
    forall i :: 0 <= i < |w| ==> w[i] != '\\' && !IsWildcard(w[i]) && !IsBracket(w[i])
  }

  // ------------------------------------------------------------------- keys

  /** A key without modifiers compiles to an unmodified test of that field. */
  lemma PlainKey(field: string, ps: seq<string>, collapse: bool)
    requires '|' !in field
    ensures CompileEntry((field, ps), collapse) == Ok(FieldTest(field, Wildcard, false, collapse, ps))
  {
    SplitNone(field, '|');
  }

  /** `field|m` compiles to a test in the mode `m` names. */
  lemma ModifiedKey(key: string, field: string, m: string, ps: seq<string>, collapse: bool)
    requires '|' !in field && '|' !in m && ModeOf(m).Some?
    requires key == field + "|" + m
    ensures CompileEntry((key, ps), collapse) == Ok(FieldTest(field, ModeOf(m).value, false, collapse, ps))
  {
    SplitNone(m, '|');
    SplitCons(field, '|', m);
  }

  /** `field|m|all` compiles to a test in the mode `m` names that needs every
      pattern. */
  lemma ModifiedAllKey(key: string, field: string, m: string, ps: seq<string>, collapse: bool)
    requires '|' !in field && '|' !in m && ModeOf(m).Some? && ModeOf(m).value != Regex
    requires key == field + "|" + m + "|all"
    ensures CompileEntry((key, ps), collapse) == Ok(FieldTest(field, ModeOf(m).value, true, collapse, ps))
  {
    SplitNone("all", '|');
    SplitCons(m, '|', "all");
    assert key == field + "|" + (m + "|all");
    SplitCons(field, '|', m + "|all");
    assert m + "|all" == m + "|" + "all";
    assert Split(m + "|all", '|') == [m, "all"];
    assert Split(key, '|') == [field] + [m, "all"];
    assert Split(key, '|')[1..] == [m, "all"];
  }

  // --------------------------------------------------------------- patterns

  /** Only text that starts with `%` can be a placeholder, before or after
      collapsing. */
  lemma NotPlaceholder(p: string, collapse: bool)
    requires p != [] && p[0] != '%' && !IsBlank(p[0])
    ensures !IsPlaceholder(Norm(p, collapse))
  {
  }

  /** `*\m` reads as any run followed by a literal backslash and `m`. */
  lemma SuffixAtoms(m: string)
    requires m != [] && Plain(m)
    ensures SourceAtoms("*\\" + m) == [Star] + Lits("\\" + m)
  {
    assert "*\\" + m == ['*'] + ("\\" + m);
    SourceChar('*', "\\" + m);
    BackslashAtoms(m);
  }

  lemma BackslashAtoms(m: string)
    requires m != [] && Plain(m)
    ensures SourceAtoms("\\" + m) == Lits("\\" + m)
  {
    assert "\\" + m == ['\\'] + m;
    SourceLoneBackslash(m);
    SourcePlain(m);
    LitsConcat("\\", m);
    assert Lits("\\") == [Lit('\\')];
  }

  /** A path ends with `\m` exactly when its last component is `m`. */
  lemma BasenameSuffix(dir: string, n: string, m: string)
    requires '\\' !in n && '\\' !in m
    ensures EndsWith(dir + "\\" + n, "\\" + m) <==> n == m
  {
    var v := dir + "\\" + n;
    var w := "\\" + m;
    assert v == dir + ("\\" + n);
    if n == m {
      assert v[|dir|..] == w;
    }
    if EndsWith(v, w) {
      var k := |v| - |w|;
      var j := |dir|;
      assert v[j] == '\\';
      assert v[k..][0] == '\\';
      assert v[k..][j - k] == v[j] by {
        if k <= j {
          assert v[k..][j - k] == v[j];
        } else {
          assert false;
        }
      }
      if k < j {
        assert false;
      } else if k > j {
        assert false;
      }
      assert v[k + 1..] == n;
      assert v[k..][1..] == m;
    }
  }

  /** `*\m` matches a path exactly when its last component is `m`. */
  lemma SuffixPattern(collapse: bool, m: string, dir: string, n: string, env: Env)
    requires m != [] && Plain(m) && '\\' !in n
    ensures PatternMatches(Wildcard, collapse, "*\\" + m, dir + "\\" + n, env) <==> n == m
  {
    var p := "*\\" + m;
    NotPlaceholder(p, collapse);
    LiteralPattern(collapse, p, dir + "\\" + n, env);
    SuffixAtoms(m);
    MatchStarSuffix("\\" + m, dir + "\\" + n);
    BasenameSuffix(dir, n, m);
  }

  /** The pattern `*\m` for every name `m`, in order. */
  function Suffixed(names: seq<string>): (ps: seq<string>)
    ensures |ps| == |names| && forall i :: 0 <= i < |names| ==> ps[i] == "*\\" + names[i]
  {
    seq(|names|, i requires 0 <= i < |names| => "*\\" + names[i])
  }

  /** A list of `*\m` patterns matches a path exactly when its last component
      is one of the names. */
  lemma SuffixList(collapse: bool, names: seq<string>, dir: string, n: string, env: Env)
    requires forall i :: 0 <= i < |names| ==> names[i] != [] && Plain(names[i])
    requires '\\' !in n
    ensures SomePattern(Wildcard, collapse, Suffixed(names), dir + "\\" + n, env) <==> n in names
  {
    var ps := Suffixed(names);
    forall i | 0 <= i < |names|
      ensures PatternMatches(Wildcard, collapse, ps[i], dir + "\\" + n, env) <==> n == names[i]
    {
      SuffixPattern(collapse, names[i], dir, n, env);
    }
  }

  /** A pattern with one live `*` between two plain pieces matches the values
      that start with the first piece and whose remainder ends with the second. */
  lemma StarBetween(collapse: bool, p: string, w1: string, w2: string, v: string, env: Env)
    requires w1 != [] && w1[0] != '%' && !IsBlank(w1[0])
    requires Plain(w1) && Plain(w2)
    requires p == w1 + ("*" + w2)
    ensures PatternMatches(Wildcard, collapse, p, v, env) <==> StartsWith(v, w1) && EndsWith(v[|w1|..], w2)
  {
    assert p[0] == w1[0];
    NotPlaceholder(p, collapse);
    LiteralPattern(collapse, p, v, env);
    SourcePlain(w1);
    SourceConcat(w1, "*" + w2);
    SourceChar('*', w2);
    assert "*" + w2 == ['*'] + w2;
    SourcePlain(w2);
    MatchLitsPrefix(w1, [Star] + Lits(w2), v);
    if StartsWith(v, w1) {
      MatchStarSuffix(w2, v[|w1|..]);
    }
  }

  /** A plain pattern matches exactly its own text. */
  lemma ExactPattern(collapse: bool, p: string, v: string, env: Env)
    requires p != [] && p[0] != '%' && !IsBlank(p[0]) && Plain(p)
    ensures PatternMatches(Wildcard, collapse, p, v, env) <==> v == p
  {
    NotPlaceholder(p, collapse);
    LiteralPattern(collapse, p, v, env);
    SourcePlain(p);
    MatchLits(p, v);
  }

  /** A pattern without blanks is the same collapsed or not, so a text
      modifier compares it with the normalised value. */
  lemma TextPattern(mode: Mode, collapse: bool, p: string, v: string, env: Env)
    requires mode == Substring || mode == Prefix || mode == Suffix
    requires ' ' !in p && '\t' !in p
    ensures PatternMatches(mode, collapse, p, v, env) <==>
      match mode
      case Substring => Contains(Norm(v, collapse), p)
      case Prefix => StartsWith(Norm(v, collapse), p)
      case _ => EndsWith(Norm(v, collapse), p)
  {
    CollapseWord(p);
  }

  // ------------------------------------------------------------------ tests

  /** A test of a present field is decided by the field's value alone. */
  lemma PresentField(t: FieldTest, rec: Record, v: string, env: Env)
    requires t.field in rec && rec[t.field] == v
    ensures TestVerdict(t, rec, env) == FromBool(TestValue(t, v, env))
  {
  }

  /** A test with one pattern on a present field is that pattern's verdict. */
  lemma OnePatternVerdict(t: FieldTest, rec: Record, env: Env)
    requires t.field in rec && |t.patterns| == 1
    ensures TestVerdict(t, rec, env) == FromBool(PatternMatches(t.mode, t.collapse, t.patterns[0], rec[t.field], env))
  {
  }

  /** Over two patterns, `all` is the conjunction and the default the
      disjunction of the two. */
  lemma TwoPatterns(mode: Mode, collapse: bool, p1: string, p2: string, v: string, env: Env)
    ensures EveryPattern(mode, collapse, [p1, p2], v, env) <==>
      PatternMatches(mode, collapse, p1, v, env) && PatternMatches(mode, collapse, p2, v, env)
    ensures SomePattern(mode, collapse, [p1, p2], v, env) <==>
      PatternMatches(mode, collapse, p1, v, env) || PatternMatches(mode, collapse, p2, v, env)
  {
    assert [p1, p2][0] == p1 && [p1, p2][1] == p2;
  }

  /** Over three patterns, the default is the disjunction of the three. */
  lemma ThreePatterns(mode: Mode, collapse: bool, p1: string, p2: string, p3: string, v: string, env: Env)
    ensures SomePattern(mode, collapse, [p1, p2, p3], v, env) <==>
      PatternMatches(mode, collapse, p1, v, env) || PatternMatches(mode, collapse, p2, v, env) ||
      PatternMatches(mode, collapse, p3, v, env)
  {
    assert [p1, p2, p3][0] == p1 && [p1, p2, p3][1] == p2 && [p1, p2, p3][2] == p3;
  }

  /** A one-entry map selection is its one test. */
  lemma Conj1Verdict(t: FieldTest, rec: Record, env: Env)
    ensures PredicateVerdict(Conj([t]), rec, env) == TestVerdict(t, rec, env)
  {
    assert TestVerdicts([t], rec, env) == [TestVerdict(t, rec, env)];
  }

  /** A two-entry map selection is the conjunction of its tests, left first. */
  lemma Conj2Verdict(t1: FieldTest, t2: FieldTest, rec: Record, env: Env)
    ensures PredicateVerdict(Conj([t1, t2]), rec, env) == Both(TestVerdict(t1, rec, env), TestVerdict(t2, rec, env))
  {
    var vs := TestVerdicts([t1, t2], rec, env);
    assert vs == [TestVerdict(t1, rec, env), TestVerdict(t2, rec, env)];
    assert vs[1..] == [TestVerdict(t2, rec, env)];
    assert vs[1..][1..] == [];
    assert AllOf(vs[1..]) == Both(vs[1], AllOf([]));
  }

  /** A list selection of one-entry items is the disjunction of the entries'
      tests; with one item it is that item's test. */
  lemma Disj1Verdict(t: FieldTest, rec: Record, env: Env)
    ensures PredicateVerdict(Disj([[t]]), rec, env) == TestVerdict(t, rec, env)
  {
    var gs := GroupVerdicts([[t]], rec, env);
    assert TestVerdicts([t], rec, env) == [TestVerdict(t, rec, env)];
    assert gs == [TestVerdict(t, rec, env)];
    assert gs[1..] == [];
  }

  lemma Disj2Verdict(t1: FieldTest, t2: FieldTest, rec: Record, env: Env)
    ensures PredicateVerdict(Disj([[t1], [t2]]), rec, env) == Either(TestVerdict(t1, rec, env), TestVerdict(t2, rec, env))
  {
    var gs := GroupVerdicts([[t1], [t2]], rec, env);
    assert TestVerdicts([t1], rec, env) == [TestVerdict(t1, rec, env)];
    assert TestVerdicts([t2], rec, env) == [TestVerdict(t2, rec, env)];
    assert gs == [TestVerdict(t1, rec, env), TestVerdict(t2, rec, env)];
    assert gs[1..] == [TestVerdict(t2, rec, env)];
    assert gs[1..][1..] == [];
    assert AllOf([TestVerdict(t1, rec, env)]) == TestVerdict(t1, rec, env);
    assert AllOf([TestVerdict(t2, rec, env)]) == TestVerdict(t2, rec, env);
    assert AnyOf(gs[1..]) == Either(TestVerdict(t2, rec, env), AnyOf([]));
  }

  /** `all of` and `1 of` over two selections are `and` and `or`. */
  lemma Over2(p1: Predicate, p2: Predicate, rec: Record, env: Env)
    ensures Eval(CountOf(All, [p1, p2]), rec, env) == Both(PredicateVerdict(p1, rec, env), PredicateVerdict(p2, rec, env))
    ensures Eval(CountOf(Count(1), [p1, p2]), rec, env) == Either(PredicateVerdict(p1, rec, env), PredicateVerdict(p2, rec, env))
  {
    var vs := MemberVerdicts([p1, p2], rec, env);
    assert vs == [PredicateVerdict(p1, rec, env), PredicateVerdict(p2, rec, env)];
    assert vs[1..] == [PredicateVerdict(p2, rec, env)];
    assert vs[1..][1..] == [];
    assert AllOf(vs[1..]) == Both(vs[1], AllOf([]));
    AtLeastOneIsAnyOf(vs);
  }

  /** `x and not s` where both sides are applicable. */
  lemma AndNotApplicable(x: Expr, n: string, p: Predicate, rec: Record, env: Env, a: bool, b: bool)
    requires Eval(x, rec, env) == FromBool(a) && PredicateVerdict(p, rec, env) == FromBool(b)
    ensures Eval(AndNode(x, NotNode(SelectionRef(n, p))), rec, env).Match? <==> a && !b
  {
    assert Eval(NotNode(SelectionRef(n, p)), rec, env) == FromBool(!b);
  }

  /** The selections whose names start with `stem`, among three. */
  lemma Members3(sels: seq<Named>, stem: string)
    requires |sels| == 3
    ensures Members(sels, stem) ==
      (if StartsWith(sels[0].0, stem) then [sels[0].1] else []) +
      (if StartsWith(sels[1].0, stem) then [sels[1].1] else []) +
      (if StartsWith(sels[2].0, stem) then [sels[2].1] else [])
  {
    assert sels[1..][0] == sels[1] && sels[1..][1..][0] == sels[2];
    assert sels[1..][1..][1..] == [];
    assert Members(sels[1..][1..], stem) == (if StartsWith(sels[2].0, stem) then [sels[2].1] else []) + Members([], stem);
  }

  /** A rule that compiles matches as its condition evaluates. */
  lemma MatchesAs(rule: SigmaRule, collapse: bool, e: Expr, rec: Record, env: Env)
    requires CompileRule(rule, collapse) == Ok(e)
    ensures RuleMatches(rule, collapse, rec, env) <==> Eval(e, rec, env).Match?
  {
  }

  // ---------------------------------------------------------------- records

  /** A pair read last overrides what came before it. */
  lemma RecordSnoc(pairs: seq<(string, string)>, k: string, v: string)
    ensures RecordOf(pairs + [(k, v)]) == RecordOf(pairs)[k := v]
  {
    assert (pairs + [(k, v)])[..|pairs|] == pairs;
  }

  /** The record of three pairs, as successive updates. */
  lemma Record3(pairs: seq<(string, string)>, k1: string, v1: string, k2: string, v2: string, k3: string, v3: string)
    requires pairs == [(k1, v1), (k2, v2), (k3, v3)]
    ensures RecordOf(pairs) == map[k1 := v1, k2 := v2, k3 := v3]
  {
    RecordSnoc([], k1, v1);
    assert [] + [(k1, v1)] == [(k1, v1)];
    RecordSnoc([(k1, v1)], k2, v2);
    assert [(k1, v1)] + [(k2, v2)] == [(k1, v1), (k2, v2)];
    RecordSnoc([(k1, v1), (k2, v2)], k3, v3);
    assert [(k1, v1), (k2, v2)] + [(k3, v3)] == pairs;
  }

  /** A name that no earlier selection carries finds its own predicate. */
  lemma {:induction false} FindAt(sels: seq<Named>, i: nat)
    requires i < |sels|
    requires forall j :: 0 <= j < i ==> sels[j].0 != sels[i].0
    ensures Find(sels, sels[i].0) == Some(sels[i].1)
    decreases i
  {
    if i > 0 {
      assert sels[0].0 != sels[i].0;
      assert sels[1..][i - 1] == sels[i];
      FindAt(sels[1..], i - 1);
    }
  }

  /** The same three keys written twice: the second values are kept. */
  lemma Record3Twice(pairs: seq<(string, string)>, k1: string, a1: string, k2: string, a2: string, k3: string, a3: string,
                     v1: string, v2: string, v3: string)
    requires pairs == [(k1, a1), (k2, a2), (k3, a3), (k1, v1), (k2, v2), (k3, v3)]
    ensures RecordOf(pairs) == map[k1 := v1, k2 := v2, k3 := v3]
  {
    var first := [(k1, a1), (k2, a2), (k3, a3)];
    var second := [(k1, v1), (k2, v2), (k3, v3)];
    Record3(first, k1, a1, k2, a2, k3, a3);
    Record3(second, k1, v1, k2, v2, k3, v3);
    assert first + second == pairs;
    RecordAppend(first, second);
    OverrideAll(map[k1 := a1, k2 := a2, k3 := a3], map[k1 := v1, k2 := v2, k3 := v3]);
  }

  lemma Record2(pairs: seq<(string, string)>, k1: string, v1: string, k2: string, v2: string)
    requires pairs == [(k1, v1), (k2, v2)]
    ensures RecordOf(pairs) == map[k1 := v1, k2 := v2]
  {
    RecordSnoc([], k1, v1);
    assert [] + [(k1, v1)] == [(k1, v1)];
    RecordSnoc([(k1, v1)], k2, v2);
    assert [(k1, v1)] + [(k2, v2)] == pairs;
  }

  // -------------------------------------------------------------- compiling

  /** A map-form selection compiles to the conjunction of its entries' tests. */
  lemma MapCompiles(raw: RawSelection, ts: seq<FieldTest>, collapse: bool)
    requires raw.MapForm? && |raw.entries| == |ts|
    requires forall i :: 0 <= i < |ts| ==> CompileEntry(raw.entries[i], collapse) == Ok(ts[i])
    ensures CompileSelection(raw, collapse) == Ok(Conj(ts))
  {
    var r := CompileEntries(raw.entries, collapse);
    assert r.Ok? && r.value == ts;
  }

  lemma MapCompiles1(raw: RawSelection, e: Entry, t: FieldTest, collapse: bool)
    requires raw == MapForm([e]) && CompileEntry(e, collapse) == Ok(t)
    ensures CompileSelection(raw, collapse) == Ok(Conj([t]))
  {
    MapCompiles(raw, [t], collapse);
  }

  lemma MapCompiles2(raw: RawSelection, e1: Entry, t1: FieldTest, e2: Entry, t2: FieldTest, collapse: bool)
    requires raw == MapForm([e1, e2]) && CompileEntry(e1, collapse) == Ok(t1) && CompileEntry(e2, collapse) == Ok(t2)
    ensures CompileSelection(raw, collapse) == Ok(Conj([t1, t2]))
  {
    MapCompiles(raw, [t1, t2], collapse);
  }

  /** A list selection whose items compile to the given conjunctions compiles
      to their disjunction, items in order. */
  lemma ListCompiles(raw: RawSelection, gs: seq<seq<FieldTest>>, collapse: bool)
    requires raw.ListForm? && |raw.items| == |gs|
    requires forall i :: 0 <= i < |gs| ==> CompileEntries(raw.items[i], collapse) == Ok(gs[i])
    ensures CompileSelection(raw, collapse) == Ok(Disj(gs))
  {
    var r := CompileItems(raw.items, collapse);
    assert r.Ok? && r.value == gs;
  }

  /** A list selection whose items are single entries compiles to the
      disjunction of their tests. */
  lemma ListCompiles1(raw: RawSelection, e: Entry, t: FieldTest, collapse: bool)
    requires raw == ListForm([[e]]) && CompileEntry(e, collapse) == Ok(t)
    ensures CompileSelection(raw, collapse) == Ok(Disj([[t]]))
  {
    MapCompiles(MapForm([e]), [t], collapse);
    assert CompileEntries([e], collapse) == Ok([t]);
    assert CompileItems([[e]], collapse).value == [[t]];
  }

  lemma ListCompiles2(raw: RawSelection, e1: Entry, t1: FieldTest, e2: Entry, t2: FieldTest, collapse: bool)
    requires raw == ListForm([[e1], [e2]]) && CompileEntry(e1, collapse) == Ok(t1) && CompileEntry(e2, collapse) == Ok(t2)
    ensures CompileSelection(raw, collapse) == Ok(Disj([[t1], [t2]]))
  {
    MapCompiles(MapForm([e1]), [t1], collapse);
    MapCompiles(MapForm([e2]), [t2], collapse);
    assert CompileEntries([e1], collapse) == Ok([t1]);
    assert CompileEntries([e2], collapse) == Ok([t2]);
    assert CompileItems([[e1], [e2]], collapse).value == [[t1], [t2]];
  }

  /** The selections compile one by one, names kept. */
  lemma SelectionsCompile(raws: seq<(string, RawSelection)>, sels: seq<Named>, collapse: bool)
    requires |raws| == |sels|
    requires forall i :: 0 <= i < |raws| ==> raws[i].0 == sels[i].0 && CompileSelection(raws[i].1, collapse) == Ok(sels[i].1)
    ensures CompileSelections(raws, collapse) == Ok(sels)
  {
    var r := CompileSelections(raws, collapse);
    assert r.Ok?;
    forall i | 0 <= i < |raws|
      ensures r.value[i] == sels[i]
    {
      assert Ok(r.value[i].1) == Ok(sels[i].1);
    }
    assert r.value == sels;
  }

  lemma SelectionsCompile2(raws: seq<(string, RawSelection)>, n1: string, r1: RawSelection, p1: Predicate,
                           n2: string, r2: RawSelection, p2: Predicate, collapse: bool)
    requires raws == [(n1, r1), (n2, r2)]
    requires CompileSelection(r1, collapse) == Ok(p1) && CompileSelection(r2, collapse) == Ok(p2)
    ensures CompileSelections(raws, collapse) == Ok([(n1, p1), (n2, p2)])
  {
    SelectionsCompile(raws, [(n1, p1), (n2, p2)], collapse);
  }

  lemma SelectionsCompile3(raws: seq<(string, RawSelection)>, n1: string, r1: RawSelection, p1: Predicate,
                           n2: string, r2: RawSelection, p2: Predicate, n3: string, r3: RawSelection, p3: Predicate,
                           collapse: bool)
    requires raws == [(n1, r1), (n2, r2), (n3, r3)]
    requires CompileSelection(r1, collapse) == Ok(p1) && CompileSelection(r2, collapse) == Ok(p2)
    requires CompileSelection(r3, collapse) == Ok(p3)
    ensures CompileSelections(raws, collapse) == Ok([(n1, p1), (n2, p2), (n3, p3)])
  {
    SelectionsCompile(raws, [(n1, p1), (n2, p2), (n3, p3)], collapse);
  }

  /** Once the selections compile and the condition reads as `c`, the rule is
      `c` resolved against the selections. */
  lemma RuleCompiles(rule: SigmaRule, collapse: bool, sels: seq<Named>, c: Cond)
    requires CompileSelections(rule.selections, collapse) == Ok(sels)
    requires Reads(rule.condition, c)
    ensures CompileRule(rule, collapse) == Resolve(c, sels)
  {
  }

  lemma UnionUpdate(m1: Record, m2: Record, k: string, v: string)
    ensures (m1 + m2)[k := v] == m1 + m2[k := v]
  {
  }

  lemma RecordAppendStep(a: seq<(string, string)>, init: seq<(string, string)>, k: string, v: string)
    requires RecordOf(a + init) == RecordOf(a) + RecordOf(init)
    ensures RecordOf(a + (init + [(k, v)])) == RecordOf(a) + RecordOf(init + [(k, v)])
  {
    assert a + (init + [(k, v)]) == (a + init) + [(k, v)];
    RecordSnoc(a + init, k, v);
    RecordSnoc(init, k, v);
    UnionUpdate(RecordOf(a), RecordOf(init), k, v);
  }

  /** Reading more pairs into the same record: the later pairs override. */
  lemma {:induction false} RecordAppend(a: seq<(string, string)>, b: seq<(string, string)>)
    ensures RecordOf(a + b) == RecordOf(a) + RecordOf(b)
    decreases |b|
  {
    if b == [] {
      assert a + b == a;
    } else {
      var init, last := b[..|b| - 1], b[|b| - 1];
      assert b == init + [last];
      RecordAppend(a, init);
      RecordAppendStep(a, init, last.0, last.1);
    }
  }

  /** A later record that sets every field replaces the earlier one. */
  lemma OverrideAll(a: Record, b: Record)
    requires a.Keys <= b.Keys
    ensures a + b == b
  {
  }

  /** A later record that repeats some fields with the same values changes
      nothing. */
  lemma OverrideSame(a: Record, b: Record)
    requires forall k :: k in b ==> k in a && a[k] == b[k]
    ensures a + b == a
  {
  }

  /** Three documents read into the same record, in order. */
  lemma Accumulate3(a: seq<(string, string)>, b: seq<(string, string)>, d: seq<(string, string)>, ma: Record, mb: Record, md: Record)
    requires RecordOf(a) == ma && RecordOf(b) == mb && RecordOf(d) == md
    ensures RecordOf(a + b + d) == ma + mb + md
  {
    RecordAppend(a, b);
    RecordAppend(a + b, d);
  }
}
