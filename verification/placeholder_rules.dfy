/** detection15 of parser_test.go: placeholders. An unmodified pattern of the
    form `%name%` stands for the values a lookup holds under `name`; a
    pattern that merely contains percent signs, or one under a `contains`
    modifier, is matched as written. */
module PlaceholderRules {
  import opened Results
  import opened Text
  import opened Glob
  import opened Escape
  import opened EscapeFacts
  import opened Verdicts
  import opened Selection
  import opened Condition
  import opened Rule
  import opened ConditionVectors
  import Lexer
  import opened RuleFacts

  /** The lookup the test installs (parser_test.go:574-585): two names, two
      values each; every other name is unknown. */
  function LookupT1(key: string): (r: Option<seq<string>>)
    ensures r.Some? <==> key in {"ValuePlaceholder", "ValuePlaceholder2"}
    ensures r.Some? ==> |r.value| == 2
  {
    if key == "ValuePlaceholder" then Some(["ThisValueShouldBeInMap", "ThisIsAlsoInTheMap"])
    else if key == "ValuePlaceholder2" then Some(["ThisValueShouldBeInMap2", "AnotherValue"])
    else None
  }

  // ------------------------------------------------------------ patterns

  /** An unmodified pattern `%name%` with two blank-free candidates matches a
      value exactly when the value, normalised, equals one of them up to
      case. */
  lemma KnownPair(c: bool, name: string, v: string, env: Env, a: string, b: string)
    requires Lexer.IsWord(name)
    requires env.lookup(name) == Some([a, b])
    requires ' ' !in a && '\t' !in a && ' ' !in b && '\t' !in b
    ensures PatternMatches(Wildcard, c, "%" + name + "%", v, env) <==>
      EqualFold(Norm(v, c), a) || EqualFold(Norm(v, c), b)
  {
    var p := "%" + name + "%";
    var cs := env.lookup(name).value;
    assert cs[0] == a && cs[1] == b;
    PlaceholderRoundTrip(name);
    PlaceholderPlain(name);
    CollapseWord(p);
    assert Norm(p, c) == p;
    CollapseWord(a);
    CollapseWord(b);
    assert Norm(cs[0], c) == cs[0] && Norm(cs[1], c) == cs[1];
    PlaceholderHit(c, p, v, env, cs);
    EqualFoldMeaning(Norm(v, c), a);
    EqualFoldMeaning(Norm(v, c), b);
  }

  /** Text with no blank, wildcard or backslash anywhere in it. */
  predicate Verbatim(p: string) {
    forall i :: 0 <= i < |p| ==> p[i] != ' ' && p[i] != '\t' && p[i] != '*' && p[i] != '?' && p[i] != '\\'
  }

  lemma VerbatimJoin(a: string, b: string)
    requires Verbatim(a) && Verbatim(b)
    ensures Verbatim(a + b)
  {
    forall i | 0 <= i < |a + b|
      ensures (a + b)[i] != ' ' && (a + b)[i] != '\t' && (a + b)[i] != '*' && (a + b)[i] != '?' && (a + b)[i] != '\\'
    {
      if i < |a| { assert (a + b)[i] == a[i]; } else { assert (a + b)[i] == b[i - |a|]; }
    }
  }

  /** A verbatim pattern that does not end in a percent sign is no
      placeholder: it matches only itself, so percent signs inside it are
      ordinary characters. */
  lemma ExactText(c: bool, p: string, v: string, env: Env)
    requires p != [] && p[|p| - 1] != '%' && Verbatim(p)
    ensures PatternMatches(Wildcard, c, p, v, env) <==> v == p
  {
    assert ' ' !in p && '\t' !in p && '*' !in p && '?' !in p && '\\' !in p by {
      forall i | 0 <= i < |p| ensures p[i] != ' ' && p[i] != '\t' && p[i] != '*' && p[i] != '?' && p[i] != '\\' { }
    }
    CollapseWord(p);
    assert Norm(p, c) == p;
    LiteralPattern(c, p, v, env);
    SourcePlain(p);
    MatchLits(p, v);
  }

  // ------------------------------------------------------------ selections

  const Holder: string := "%" + "ValuePlaceholder" + "%"
  const Holder2: string := "%" + "ValuePlaceholder2" + "%"
  const DoublePercent: string := "%%NotAPlaceholder"
  const PathLike: string := "%NotAPlaceholder%/APath/In/Windows"
  const InContains: string := "%PlaceholderCannotBeInContains%"
  const Embedded: string := "StillnotA%Placeholder%"
  const Trailing: string := "Wild%Placeholder"

  const HolderEntry: Entry := ("SomeKey", [Holder])
  const ListEntry: Entry := ("SomeKey2", [Holder2, DoublePercent, PathLike])
  const ContainsEntry: Entry := ("SomeKey3|contains", [InContains, Embedded, Trailing])
  const HolderSelection: RawSelection := MapForm([HolderEntry])
  const ListSelection: RawSelection := MapForm([ListEntry])
  const ContainsSelection: RawSelection := MapForm([ContainsEntry])

  function HolderTest(c: bool): FieldTest {
    FieldTest("SomeKey", Wildcard, false, c, [Holder])
  }

  function ListTest(c: bool): FieldTest {
    FieldTest("SomeKey2", Wildcard, false, c, [Holder2, DoublePercent, PathLike])
  }

  function ContainsTest(c: bool): FieldTest {
    FieldTest("SomeKey3", Substring, false, c, [InContains, Embedded, Trailing])
  }

  lemma HolderCompiles(c: bool)
    ensures CompileSelection(HolderSelection, c) == Ok(Conj([HolderTest(c)]))
  {
    PlainKey("SomeKey", [Holder], c);
    MapCompiles1(HolderSelection, HolderEntry, HolderTest(c), c);
  }

  lemma ListCompiles(c: bool)
    ensures CompileSelection(ListSelection, c) == Ok(Conj([ListTest(c)]))
  {
    PlainKey("SomeKey2", [Holder2, DoublePercent, PathLike], c);
    MapCompiles1(ListSelection, ListEntry, ListTest(c), c);
  }

  lemma ContainsCompiles(c: bool)
    ensures CompileSelection(ContainsSelection, c) == Ok(Conj([ContainsTest(c)]))
  {
    ModifiedKey(ContainsEntry.0, "SomeKey3", "contains", [InContains, Embedded, Trailing], c);
    MapCompiles1(ContainsSelection, ContainsEntry, ContainsTest(c), c);
  }

  // ------------------------------------------------------------------ rule

  /** detection15 (parser_test.go:495-510). */
  const Detection15: SigmaRule :=
    SigmaRule([("selection1", HolderSelection), ("selection2", ListSelection), ("selection3", ContainsSelection)],
      Detection15Condition)

  const Detection15Condition: string := "selection1 and selection2 and selection3"

  function HolderSels(c: bool): seq<Named> {
    [("selection1", Conj([HolderTest(c)])), ("selection2", Conj([ListTest(c)])), ("selection3", Conj([ContainsTest(c)]))]
  }

  function Detection15Expr(c: bool): Expr {
    AndNode(AndNode(SelectionRef("selection1", Conj([HolderTest(c)])), SelectionRef("selection2", Conj([ListTest(c)]))),
      SelectionRef("selection3", Conj([ContainsTest(c)])))
  }

  lemma Detection15Piece1()
    ensures " and " + "selection3" == " and selection3"
    ensures "selection2" + " and selection3" == "selection2 and selection3"
  {
  }

  lemma Detection15Piece2()
    ensures " and " + "selection2 and selection3" == " and selection2 and selection3"
  {
  }

  lemma Detection15Piece3()
    ensures "selection1" + " and selection2 and selection3" == Detection15Condition
  {
  }

  /** The condition spelled as two conjunctions. */
  lemma Detection15Text(s: string)
    requires s == Detection15.condition
    ensures s == "selection1" + (" and " + ("selection2" + (" and " + "selection3")))
  {
    Detection15Piece1();
    Detection15Piece2();
    Detection15Piece3();
  }

  lemma Detection15Reads()
    ensures Reads(Detection15.condition, And(And(Ref("selection1"), Ref("selection2")), Ref("selection3")))
  {
    RuleNames();
    Detection15Text(Detection15.condition);
    ReadsAnd3(Detection15.condition, "selection1", "selection2", "selection3");
  }

  lemma HolderSelsCompile(c: bool)
    ensures CompileSelections(Detection15.selections, c) == Ok(HolderSels(c))
  {
    HolderCompiles(c);
    ListCompiles(c);
    ContainsCompiles(c);
    SelectionsCompile3(Detection15.selections, "selection1", HolderSelection, Conj([HolderTest(c)]),
      "selection2", ListSelection, Conj([ListTest(c)]), "selection3", ContainsSelection, Conj([ContainsTest(c)]), c);
  }

  lemma Detection15Resolves(c: bool)
    ensures Resolve(And(And(Ref("selection1"), Ref("selection2")), Ref("selection3")), HolderSels(c)) == Ok(Detection15Expr(c))
  {
  }

  lemma Detection15Eval(c: bool, rec: Record, env: Env)
    ensures RuleMatches(Detection15, c, rec, env) <==> Eval(Detection15Expr(c), rec, env).Match?
  {
    HolderSelsCompile(c);
    Detection15Reads();
    Detection15Resolves(c);
    RuleCompiles(Detection15, c, HolderSels(c), And(And(Ref("selection1"), Ref("selection2")), Ref("selection3")));
    MatchesAs(Detection15, c, Detection15Expr(c), rec, env);
  }

  /** The three selections' verdicts, each field read as its patterns say. */
  lemma Detection15Verdicts(c: bool, rec: Record, env: Env)
    ensures Eval(Detection15Expr(c), rec, env) ==
      Both(Both(TestVerdict(HolderTest(c), rec, env), TestVerdict(ListTest(c), rec, env)), TestVerdict(ContainsTest(c), rec, env))
  {
    var s1 := SelectionRef("selection1", Conj([HolderTest(c)]));
    var s2 := SelectionRef("selection2", Conj([ListTest(c)]));
    var s3 := SelectionRef("selection3", Conj([ContainsTest(c)]));
    Conj1Verdict(HolderTest(c), rec, env);
    Conj1Verdict(ListTest(c), rec, env);
    Conj1Verdict(ContainsTest(c), rec, env);
    assert Eval(s1, rec, env) == TestVerdict(HolderTest(c), rec, env);
    assert Eval(s2, rec, env) == TestVerdict(ListTest(c), rec, env);
    assert Eval(s3, rec, env) == TestVerdict(ContainsTest(c), rec, env);
    assert Eval(AndNode(s1, s2), rec, env) == Both(Eval(s1, rec, env), Eval(s2, rec, env));
  }

  lemma Holder2Pattern(c: bool, v: string, env: Env)
    requires env.lookup == LookupT1
    ensures PatternMatches(Wildcard, c, Holder2, v, env) <==>
      EqualFold(Norm(v, c), "ThisValueShouldBeInMap2") || EqualFold(Norm(v, c), "AnotherValue")
  {
    Holder2Known(env);
    KnownPair(c, "ValuePlaceholder2", v, env, "ThisValueShouldBeInMap2", "AnotherValue");
  }

  lemma HolderKnown(env: Env)
    requires env.lookup == LookupT1
    ensures env.lookup("ValuePlaceholder") == Some(["ThisValueShouldBeInMap", "ThisIsAlsoInTheMap"])
    ensures Lexer.IsWord("ValuePlaceholder") && BlankFree("ThisValueShouldBeInMap") && BlankFree("ThisIsAlsoInTheMap")
  {
    HolderWords();
  }

  lemma Holder2Known(env: Env)
    requires env.lookup == LookupT1
    ensures env.lookup("ValuePlaceholder2") == Some(["ThisValueShouldBeInMap2", "AnotherValue"])
    ensures Lexer.IsWord("ValuePlaceholder2") && BlankFree("ThisValueShouldBeInMap2") && BlankFree("AnotherValue")
  {
    Holder2Words();
  }

  predicate BlankFree(w: string) {
    ' ' !in w && '\t' !in w
  }


  lemma HolderWords()
    ensures Lexer.IsWord("ValuePlaceholder") && BlankFree("ThisValueShouldBeInMap") && BlankFree("ThisIsAlsoInTheMap")
  {
  }

  lemma Holder2Words()
    ensures Lexer.IsWord("ValuePlaceholder2") && BlankFree("ThisValueShouldBeInMap2") && BlankFree("AnotherValue")
  {
  }

  lemma DoublePercentPattern(c: bool, v: string, env: Env)
    ensures PatternMatches(Wildcard, c, DoublePercent, v, env) <==> v == DoublePercent
  {
    DoublePercentText();
    ExactText(c, DoublePercent, v, env);
  }

  lemma PathLikePattern(c: bool, v: string, env: Env)
    ensures PatternMatches(Wildcard, c, PathLike, v, env) <==> v == PathLike
  {
    PathLikeText();
    ExactText(c, PathLike, v, env);
  }

  lemma PathLikeText()
    ensures PathLike != [] && PathLike[|PathLike| - 1] != '%' && Verbatim(PathLike)
  {
    PathLikeHead();
    PathLikeTail();
    PathLikeSplit(PathLike);
    VerbatimJoin("%NotAPlaceholder%", "/APath/In/Windows");
  }

  lemma PathLikeSplit(p: string)
    requires p == PathLike
    ensures p == "%NotAPlaceholder%" + "/APath/In/Windows" && p[|p| - 1] == 's'
  {
  }

  lemma PathLikeHead()
    ensures Verbatim("%NotAPlaceholder%")
  {
  }

  lemma PathLikeTail()
    ensures Verbatim("/APath/In/Windows")
  {
  }

  lemma DoublePercentText()
    ensures DoublePercent != [] && DoublePercent[|DoublePercent| - 1] != '%' && Verbatim(DoublePercent)
  {
  }

  lemma ContainsPatterns(c: bool, v: string, env: Env)
    ensures PatternMatches(Substring, c, InContains, v, env) <==> Contains(Norm(v, c), InContains)
    ensures PatternMatches(Substring, c, Embedded, v, env) <==> Contains(Norm(v, c), Embedded)
    ensures PatternMatches(Substring, c, Trailing, v, env) <==> Contains(Norm(v, c), Trailing)
  {
    InContainsWord();
    EmbeddedWord();
    TrailingWord();
    TextPattern(Substring, c, InContains, v, env);
    TextPattern(Substring, c, Embedded, v, env);
    TextPattern(Substring, c, Trailing, v, env);
  }

  lemma EmbeddedWord()
    ensures BlankFree(Embedded)
  {
  }

  lemma TrailingWord()
    ensures BlankFree(Trailing)
  {
  }

  /** The first selection: the value is one the lookup holds for
      `ValuePlaceholder`. */
  lemma HolderVerdict(c: bool, rec: Record, env: Env)
    requires env.lookup == LookupT1 && "SomeKey" in rec
    ensures var h := Norm(rec["SomeKey"], c);
      TestVerdict(HolderTest(c), rec, env) == FromBool(EqualFold(h, "ThisValueShouldBeInMap") || EqualFold(h, "ThisIsAlsoInTheMap"))
  {
    OnePatternVerdict(HolderTest(c), rec, env);
    HolderKnown(env);
    KnownPair(c, "ValuePlaceholder", rec["SomeKey"], env, "ThisValueShouldBeInMap", "ThisIsAlsoInTheMap");
  }

  /** The second selection: a value the lookup holds for `ValuePlaceholder2`,
      or one of the two percent-bearing texts verbatim. */
  lemma ListVerdict(c: bool, rec: Record, env: Env)
    requires env.lookup == LookupT1 && "SomeKey2" in rec
    ensures var v := rec["SomeKey2"]; var h := Norm(v, c);
      TestVerdict(ListTest(c), rec, env) ==
      FromBool(EqualFold(h, "ThisValueShouldBeInMap2") || EqualFold(h, "AnotherValue") || v == DoublePercent || v == PathLike)
  {
    var v := rec["SomeKey2"];
    ThreePatterns(Wildcard, c, Holder2, DoublePercent, PathLike, v, env);
    Holder2Pattern(c, v, env);
    DoublePercentPattern(c, v, env);
    PathLikePattern(c, v, env);
  }

  /** The third selection: the value contains one of the three texts, the
      first of which has placeholder shape but is never looked up. */
  lemma ContainsVerdict(c: bool, rec: Record, env: Env)
    requires "SomeKey3" in rec
    ensures var h := Norm(rec["SomeKey3"], c);
      TestVerdict(ContainsTest(c), rec, env) ==
      FromBool(Contains(h, InContains) || Contains(h, Embedded) || Contains(h, Trailing))
  {
    var v := rec["SomeKey3"];
    ThreePatterns(Substring, c, InContains, Embedded, Trailing, v, env);
    ContainsPatterns(c, v, env);
  }

  /** detection15 under the test's lookup: the first field must equal, up to
      case, one of the values known for `ValuePlaceholder`, the second one of
      those known for `ValuePlaceholder2` or a percent-bearing text verbatim, and the third
      must contain one of three texts, placeholder-shaped or not. */
  lemma Detection15Meaning(c: bool, rec: Record, env: Env)
    requires env.lookup == LookupT1
    requires "SomeKey" in rec && "SomeKey2" in rec && "SomeKey3" in rec
    ensures var h1 := Norm(rec["SomeKey"], c);
      var v2 := rec["SomeKey2"]; var h2 := Norm(v2, c);
      var h3 := Norm(rec["SomeKey3"], c);
      RuleMatches(Detection15, c, rec, env) <==>
        && (EqualFold(h1, "ThisValueShouldBeInMap") || EqualFold(h1, "ThisIsAlsoInTheMap"))
        && (EqualFold(h2, "ThisValueShouldBeInMap2") || EqualFold(h2, "AnotherValue") || v2 == DoublePercent || v2 == PathLike)
        && (Contains(h3, InContains) || Contains(h3, Embedded) || Contains(h3, Trailing))
  {
    Detection15Eval(c, rec, env);
    Detection15Verdicts(c, rec, env);
    HolderVerdict(c, rec, env);
    ListVerdict(c, rec, env);
    ContainsVerdict(c, rec, env);
  }

  /** Without a lookup that knows `ValuePlaceholder`, the rule matches
      nothing: the placeholder never matches as text. */
  lemma Detection15NeedsLookup(c: bool, rec: Record, env: Env)
    requires env.lookup("ValuePlaceholder").None?
    ensures !RuleMatches(Detection15, c, rec, env)
  {
    Detection15Eval(c, rec, env);
    Detection15Verdicts(c, rec, env);
    if "SomeKey" in rec {
      OnePatternVerdict(HolderTest(c), rec, env);
      UnknownHolder(c, rec["SomeKey"], env);
    }
  }

  lemma UnknownHolder(c: bool, v: string, env: Env)
    requires env.lookup("ValuePlaceholder").None?
    ensures !PatternMatches(Wildcard, c, Holder, v, env)
  {
    HolderWords();
    PlaceholderRoundTrip("ValuePlaceholder");
    PlaceholderPlain("ValuePlaceholder");
    CollapseWord(Holder);
    assert Norm(Holder, c) == Holder;
    PlaceholderMiss(c, Holder, v, env);
  }

  // --------------------------------------------------------------- vectors

  /** A blank-free value normalises to itself and contains itself. */
  lemma Word(v: string, c: bool)
    requires ' ' !in v && '\t' !in v
    ensures Norm(v, c) == v && Contains(v, v)
  {
    CollapseWord(v);
    WordOf([v], 0);
  }

  /** A line of single-spaced words normalises to itself and contains its
      k-th word. */
  lemma Words(ws: seq<string>, k: nat, c: bool)
    requires forall i :: 0 <= i < |ws| ==> ws[i] != [] && ' ' !in ws[i] && '\t' !in ws[i]
    requires k < |ws|
    ensures Norm(Unwords(ws), c) == Unwords(ws) && Contains(Unwords(ws), ws[k])
  {
    CollapseWords(ws);
    WordOf(ws, k);
  }

  const Spaced2: seq<string> := ["In", "Contains", "StillnotA%Placeholder%"]
  const Spaced3: seq<string> := ["Wild%Placeholder", "In", "Contains"]

  lemma Spaced2Read()
    ensures Unwords(Spaced2) == "In Contains StillnotA%Placeholder%"
  {
  }

  lemma Spaced3Read()
    ensures Unwords(Spaced3) == "Wild%Placeholder In Contains"
  {
  }

  lemma Keys15()
    ensures "SomeKey" != "SomeKey2" && "SomeKey" != "SomeKey3" && "SomeKey2" != "SomeKey3"
  {
    assert "SomeKey2"[7] != "SomeKey3"[7];
  }

  /** detection15 on a record of just its three fields. */
  lemma Detection15Triple(c: bool, a: string, b: string, d: string, env: Env)
    requires env.lookup == LookupT1
    ensures var h1 := Norm(a, c); var h2 := Norm(b, c); var h3 := Norm(d, c);
      RuleMatches(Detection15, c, map["SomeKey" := a, "SomeKey2" := b, "SomeKey3" := d], env) <==>
        && (EqualFold(h1, "ThisValueShouldBeInMap") || EqualFold(h1, "ThisIsAlsoInTheMap"))
        && (EqualFold(h2, "ThisValueShouldBeInMap2") || EqualFold(h2, "AnotherValue") || b == DoublePercent || b == PathLike)
        && (Contains(h3, InContains) || Contains(h3, Embedded) || Contains(h3, Trailing))
  {
    var rec := map["SomeKey" := a, "SomeKey2" := b, "SomeKey3" := d];
    Keys15();
    assert rec["SomeKey"] == a && rec["SomeKey2"] == b && rec["SomeKey3"] == d;
    Detection15Meaning(c, rec, env);
  }

  /** detection15_positive (parser_test.go:513-519). */
  lemma Detection15Positive(c: bool, env: Env)
    requires env.lookup == LookupT1
    ensures RuleMatches(Detection15, c, map["SomeKey" := "ThisValueShouldBeInMap",
      "SomeKey2" := "ThisValueShouldBeInMap2", "SomeKey3" := "%PlaceholderCannotBeInContains%"], env)
  {
    KnownWords();
    Word("ThisValueShouldBeInMap", c);
    Word("ThisValueShouldBeInMap2", c);
    Word(InContains, c);
    Detection15Triple(c, "ThisValueShouldBeInMap", "ThisValueShouldBeInMap2", InContains, env);
  }

  lemma KnownWords()
    ensures BlankFree("ThisValueShouldBeInMap") && BlankFree("ThisValueShouldBeInMap2") && BlankFree("ThisIsAlsoInTheMap")
    ensures BlankFree(InContains)
  {
    HolderWords();
    Holder2Words();
    InContainsWord();
  }

  lemma InContainsWord()
    ensures BlankFree(InContains)
  {
  }

  /** detection15_positive2 (parser_test.go:522-528). */
  lemma Detection15Positive2(c: bool, env: Env)
    requires env.lookup == LookupT1
    ensures RuleMatches(Detection15, c, map["SomeKey" := "ThisIsAlsoInTheMap",
      "SomeKey2" := "%NotAPlaceholder%/APath/In/Windows", "SomeKey3" := "In Contains StillnotA%Placeholder%"], env)
  {
    KnownWords();
    Word("ThisIsAlsoInTheMap", c);
    Spaced2Read();
    Words(Spaced2, 2, c);
    Detection15Triple(c, "ThisIsAlsoInTheMap", PathLike, Unwords(Spaced2), env);
  }

  /** detection15_positive3 (parser_test.go:531-537). */
  lemma Detection15Positive3(c: bool, env: Env)
    requires env.lookup == LookupT1
    ensures RuleMatches(Detection15, c, map["SomeKey" := "ThisValueShouldBeInMap",
      "SomeKey2" := "%%NotAPlaceholder", "SomeKey3" := "Wild%Placeholder In Contains"], env)
  {
    KnownWords();
    Word("ThisValueShouldBeInMap", c);
    Spaced3Read();
    Words(Spaced3, 0, c);
    Detection15Triple(c, "ThisValueShouldBeInMap", DoublePercent, Unwords(Spaced3), env);
  }

  /** detection15_negative (parser_test.go:540-546): the first value is not
      one the lookup holds. */
  lemma Detection15Negative(c: bool, env: Env)
    requires env.lookup == LookupT1
    ensures !RuleMatches(Detection15, c, map["SomeKey" := "ThisValueIsNOTInMap",
      "SomeKey2" := "ThisValueShouldBeInMap2", "SomeKey3" := "%PlaceholderCannotBeInContains%"], env)
  {
    UnknownWord();
    Word("ThisValueIsNOTInMap", c);
    NotInMap();
    Detection15Triple(c, "ThisValueIsNOTInMap", "ThisValueShouldBeInMap2", InContains, env);
  }

  lemma UnknownWord()
    ensures BlankFree("ThisValueIsNOTInMap")
    ensures "ThisValueIsNOTInMap"[0] != DoublePercent[0] && "ThisValueIsNOTInMap"[0] != PathLike[0]
  {
  }

  /** The unknown value differs in length from every candidate, so it equals
      none of them, whatever the case. */
  lemma NotInMap()
    ensures var v := "ThisValueIsNOTInMap";
      && !EqualFold(v, "ThisValueShouldBeInMap") && !EqualFold(v, "ThisIsAlsoInTheMap")
      && !EqualFold(v, "ThisValueShouldBeInMap2") && !EqualFold(v, "AnotherValue")
  {
    var v := "ThisValueIsNOTInMap";
    assert |v| == 19;
    EqualFoldMeaning(v, "ThisValueShouldBeInMap");
    EqualFoldMeaning(v, "ThisIsAlsoInTheMap");
    EqualFoldMeaning(v, "ThisValueShouldBeInMap2");
    EqualFoldMeaning(v, "AnotherValue");
  }

  /** detection15_negative2 (parser_test.go:549-555): the second value is
      neither a known value nor one of the verbatim texts. */
  lemma Detection15Negative2(c: bool, env: Env)
    requires env.lookup == LookupT1
    ensures !RuleMatches(Detection15, c, map["SomeKey" := "ThisValueShouldBeInMap",
      "SomeKey2" := "ThisValueIsNOTInMap", "SomeKey3" := "%PlaceholderCannotBeInContains%"], env)
  {
    UnknownWord();
    Word("ThisValueIsNOTInMap", c);
    NotInMap();
    Detection15Triple(c, "ThisValueShouldBeInMap", "ThisValueIsNOTInMap", InContains, env);
  }

  /** detection15_negative3 (parser_test.go:558-564): the placeholders are
      satisfied but the third value has no percent sign, which every text of
      the third selection has. */
  lemma Detection15Negative3(c: bool, env: Env)
    requires env.lookup == LookupT1
    ensures !RuleMatches(Detection15, c, map["SomeKey" := "ThisValueShouldBeInMap",
      "SomeKey2" := "ThisValueShouldBeInMap2", "SomeKey3" := "NotFoundAnywhere"], env)
  {
    NoPercentWord();
    Word("NotFoundAnywhere", c);
    NoPercentContains("NotFoundAnywhere");
    Detection15Triple(c, "ThisValueShouldBeInMap", "ThisValueShouldBeInMap2", "NotFoundAnywhere", env);
  }

  lemma NoPercentWord()
    ensures BlankFree("NotFoundAnywhere") && '%' !in "NotFoundAnywhere"
  {
  }

  /** Every text of the third selection has a percent sign, so a value
      without one contains none of them. */
  lemma NoPercentContains(h: string)
    requires '%' !in h
    ensures !Contains(h, InContains) && !Contains(h, Embedded) && !Contains(h, Trailing)
  {
    PercentTexts();
    ContainsNeedsChar(h, InContains, 0);
    ContainsNeedsChar(h, Embedded, 9);
    ContainsNeedsChar(h, Trailing, 4);
  }

  lemma PercentTexts()
    ensures |InContains| > 0 && InContains[0] == '%'
    ensures |Embedded| > 9 && Embedded[9] == '%'
    ensures |Trailing| > 4 && Trailing[4] == '%'
  {
  }
}
