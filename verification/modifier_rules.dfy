/** The rules of parser_test.go that exercise the field modifiers: `re`,
    `startswith`, `endswith`, `contains`, `contains|all`, a plain list of
    exact values, and whitespace collapsing. Each rule is compiled once for
    either setting of the collapsing switch, its meaning is stated over every
    record, and the documents the test decodes are checked against it. */
module ModifierRules {
  import opened Results
  import opened Text
  import opened Verdicts
  import opened Selection
  import opened Lexer
  import opened Condition
  import opened Rule
  import opened ConditionVectors
  import opened RuleFacts

  /** A rule of two selections joined by `and` compiles to the conjunction of
      their predicates. */
  lemma AndRule(rule: SigmaRule, c: bool, n1: string, r1: RawSelection, p1: Predicate, n2: string, r2: RawSelection, p2: Predicate)
    requires rule.selections == [(n1, r1), (n2, r2)] && rule.condition == n1 + (" and " + n2)
    requires IsName(n1) && IsName(n2) && n1 != n2
    requires CompileSelection(r1, c) == Ok(p1) && CompileSelection(r2, c) == Ok(p2)
    ensures CompileRule(rule, c) == Ok(AndNode(SelectionRef(n1, p1), SelectionRef(n2, p2)))
  {
    SelectionsCompile2(rule.selections, n1, r1, p1, n2, r2, p2, c);
    ReadsAnd(rule.condition, n1, n2);
    RuleCompiles(rule, c, [(n1, p1), (n2, p2)], And(Ref(n1), Ref(n2)));
  }

  /** A rule of one selection named by the whole condition compiles to that
      selection's predicate. */
  lemma RefRule(rule: SigmaRule, c: bool, n: string, r: RawSelection, p: Predicate)
    requires rule.selections == [(n, r)] && rule.condition == n && IsName(n)
    requires CompileSelection(r, c) == Ok(p)
    ensures CompileRule(rule, c) == Ok(SelectionRef(n, p))
  {
    SelectionsCompile(rule.selections, [(n, p)], c);
    ReadsRef(rule.condition, n);
    RuleCompiles(rule, c, [(n, p)], Ref(n));
  }

  lemma TwoNames()
    ensures IsName("selection1") && IsName("selection2") && IsName("selection")
    ensures "selection1 and selection2" == "selection1" + (" and " + "selection2")
  {
    RuleNames();
  }

  // ------------------------------------------------------------ detection 9

  /** The two `re` patterns as the single-quoted YAML scalars read, four
      backslashes each; a regular expression reads them as two literal
      backslashes. */
  const PipePattern: string := "\\\\\\\\SomePipeName[0-9a-f]{2}"
  const PipePattern2: string := "\\\\\\\\AnotherPipe[0-9a-f]*Name"

  function PipeTest(c: bool): FieldTest {
    FieldTest("PipeName", Regex, false, c, [PipePattern])
  }

  function PipeTest2(c: bool): FieldTest {
    FieldTest("PipeName2", Regex, false, c, [PipePattern2])
  }

  const PipeEntry: Entry := ("PipeName|re", [PipePattern])
  const PipeEntry2: Entry := ("PipeName2|re", [PipePattern2])
  const PipeItems: RawSelection := ListForm([[PipeEntry], [PipeEntry2]])

  function PipesPred(c: bool): Predicate {
    Disj([[PipeTest(c)], [PipeTest2(c)]])
  }

  lemma PipeEntryCompiles(c: bool)
    ensures CompileEntry(PipeEntry, c) == Ok(PipeTest(c))
  {
    ModifiedKey(PipeEntry.0, "PipeName", "re", [PipePattern], c);
  }

  lemma PipeEntry2Compiles(c: bool)
    ensures CompileEntry(PipeEntry2, c) == Ok(PipeTest2(c))
  {
    ModifiedKey(PipeEntry2.0, "PipeName2", "re", [PipePattern2], c);
  }

  lemma PipeItemsCompile(c: bool)
    ensures CompileSelection(PipeItems, c) == Ok(PipesPred(c))
  {
    PipeEntryCompiles(c);
    PipeEntry2Compiles(c);
    ListCompiles2(PipeItems, PipeEntry, PipeTest(c), PipeEntry2, PipeTest2(c), c);
  }

  /** detection9 (parser_test.go:301-307): a list of two one-entry items. */
  const Detection9: SigmaRule := SigmaRule([("selection", PipeItems)], "selection")

  lemma Detection9Eval(c: bool, rec: Record, env: Env)
    ensures RuleMatches(Detection9, c, rec, env) <==> PredicateVerdict(PipesPred(c), rec, env).Match?
  {
    PipeItemsCompile(c);
    TwoNames();
    RefRule(Detection9, c, "selection", PipeItems, PipesPred(c));
    MatchesAs(Detection9, c, SelectionRef("selection", PipesPred(c)), rec, env);
  }

  /** detection9: the list form is an `or` of its items, and each item hands
      its pattern and the field's value to the regular-expression engine
      unchanged, collapsing or not. */
  lemma Detection9Meaning(c: bool, rec: Record, env: Env)
    requires "PipeName" in rec && "PipeName2" in rec
    ensures RuleMatches(Detection9, c, rec, env) <==>
      env.regex(PipePattern, rec["PipeName"]) || env.regex(PipePattern2, rec["PipeName2"])
  {
    Detection9Eval(c, rec, env);
    Disj2Verdict(PipeTest(c), PipeTest2(c), rec, env);
    PipeVerdict(c, rec, env);
    Pipe2Verdict(c, rec, env);
  }

  lemma PipeVerdict(c: bool, rec: Record, env: Env)
    requires "PipeName" in rec
    ensures TestVerdict(PipeTest(c), rec, env) == FromBool(env.regex(PipePattern, rec["PipeName"]))
  {
    OnePatternVerdict(PipeTest(c), rec, env);
  }

  lemma Pipe2Verdict(c: bool, rec: Record, env: Env)
    requires "PipeName2" in rec
    ensures TestVerdict(PipeTest2(c), rec, env) == FromBool(env.regex(PipePattern2, rec["PipeName2"]))
  {
    OnePatternVerdict(PipeTest2(c), rec, env);
  }

  /** An item whose field is missing drops out of the `or`: one field decides
      alone. */
  lemma Detection9OneField(c: bool, rec: Record, env: Env)
    requires "PipeName" in rec && "PipeName2" !in rec
    ensures RuleMatches(Detection9, c, rec, env) <==> env.regex(PipePattern, rec["PipeName"])
  {
    Detection9Eval(c, rec, env);
    Disj2Verdict(PipeTest(c), PipeTest2(c), rec, env);
    PipeVerdict(c, rec, env);
    assert TestVerdict(PipeTest2(c), rec, env) == Inapplicable;
  }

  /** The documents of detection9 (parser_test.go:309-321); JSON reads each
      `\\` as one backslash. */
  const Pipes: Record := map["PipeName" := "\\\\SomePipeNamea4", "PipeName2" := "\\\\AnotherPipe0af3Name"]
  const PipesNegative: Record := map["PipeName" := "\\\\SomePipeNameZZ", "PipeName2" := "\\\\AnotherPipe01zzName"]

  /** What a regular-expression engine answers for the two patterns on these
      four values: two hex digits, and hex digits then `Name`, after two
      backslashes. */
  predicate AgreesOnPipes(env: Env) {
    && env.regex(PipePattern, "\\\\SomePipeNamea4")
    && env.regex(PipePattern2, "\\\\AnotherPipe0af3Name")
    && !env.regex(PipePattern, "\\\\SomePipeNameZZ")
    && !env.regex(PipePattern2, "\\\\AnotherPipe01zzName")
  }

  /** Test case parser_test.go:628-632, for an engine that answers as above. */
  lemma Detection9Vectors(c: bool, env: Env)
    requires AgreesOnPipes(env)
    ensures RuleMatches(Detection9, c, Pipes, env)
    ensures !RuleMatches(Detection9, c, PipesNegative, env)
  {
    Detection9Meaning(c, Pipes, env);
    Detection9Meaning(c, PipesNegative, env);
  }

  // ----------------------------------------------------------- detection 10

  const StartEntry: Entry := ("SomeName|startswith", ["TestStart"])
  const EndEntry: Entry := ("SomeName|endswith", ["TestEnd"])
  const Starts: RawSelection := ListForm([[StartEntry]])
  const Ends: RawSelection := ListForm([[EndEntry]])

  function StartTest(c: bool): FieldTest {
    FieldTest("SomeName", Prefix, false, c, ["TestStart"])
  }

  function EndTest(c: bool): FieldTest {
    FieldTest("SomeName", Suffix, false, c, ["TestEnd"])
  }

  lemma StartEntryCompiles(c: bool)
    ensures CompileEntry(StartEntry, c) == Ok(StartTest(c))
  {
    ModifiedKey(StartEntry.0, "SomeName", "startswith", ["TestStart"], c);
  }

  lemma EndEntryCompiles(c: bool)
    ensures CompileEntry(EndEntry, c) == Ok(EndTest(c))
  {
    ModifiedKey(EndEntry.0, "SomeName", "endswith", ["TestEnd"], c);
  }

  lemma StartsCompiles(c: bool)
    ensures CompileSelection(Starts, c) == Ok(Disj([[StartTest(c)]]))
  {
    StartEntryCompiles(c);
    ListCompiles1(Starts, StartEntry, StartTest(c), c);
  }

  lemma EndsCompiles(c: bool)
    ensures CompileSelection(Ends, c) == Ok(Disj([[EndTest(c)]]))
  {
    EndEntryCompiles(c);
    ListCompiles1(Ends, EndEntry, EndTest(c), c);
  }

  /** detection10 (parser_test.go:323-330): a prefix and a suffix on one
      field, each as a one-item list. */
  const Detection10: SigmaRule :=
    SigmaRule([("selection1", Starts), ("selection2", Ends)], "selection1 and selection2")

  function Detection10Expr(c: bool): Expr {
    AndNode(SelectionRef("selection1", Disj([[StartTest(c)]])), SelectionRef("selection2", Disj([[EndTest(c)]])))
  }

  lemma Detection10Eval(c: bool, rec: Record, env: Env)
    ensures RuleMatches(Detection10, c, rec, env) <==> Eval(Detection10Expr(c), rec, env).Match?
  {
    StartsCompiles(c);
    EndsCompiles(c);
    TwoNames();
    AndRule(Detection10, c, "selection1", Starts, Disj([[StartTest(c)]]), "selection2", Ends, Disj([[EndTest(c)]]));
    MatchesAs(Detection10, c, Detection10Expr(c), rec, env);
  }

  /** detection10: the value, normalised, starts with `TestStart` and ends
      with `TestEnd`. */
  lemma Detection10Meaning(c: bool, rec: Record, env: Env)
    requires "SomeName" in rec
    ensures RuleMatches(Detection10, c, rec, env) <==>
      StartsWith(Norm(rec["SomeName"], c), "TestStart") && EndsWith(Norm(rec["SomeName"], c), "TestEnd")
  {
    Detection10Eval(c, rec, env);
    Detection10Verdicts(c, rec, env);
  }

  lemma Detection10Verdicts(c: bool, rec: Record, env: Env)
    requires "SomeName" in rec
    ensures Eval(Detection10Expr(c), rec, env) ==
      Both(FromBool(StartsWith(Norm(rec["SomeName"], c), "TestStart")), FromBool(EndsWith(Norm(rec["SomeName"], c), "TestEnd")))
  {
    var v := rec["SomeName"];
    Disj1Verdict(StartTest(c), rec, env);
    Disj1Verdict(EndTest(c), rec, env);
    OnePatternVerdict(StartTest(c), rec, env);
    OnePatternVerdict(EndTest(c), rec, env);
    TextPattern(Prefix, c, "TestStart", v, env);
    TextPattern(Suffix, c, "TestEnd", v, env);
  }

  /** Test case parser_test.go:633-637: the positive document
      (parser_test.go:332-336). */
  lemma Detection10Positive(c: bool, env: Env)
    ensures RuleMatches(Detection10, c, map["SomeName" := "TestStart-Value-TestEnd"], env)
  {
    var v := "TestStart-Value-TestEnd";
    CollapseWord(v);
    assert Norm(v, c) == v;
    PositiveAffixes();
    Detection10Meaning(c, map["SomeName" := v], env);
  }

  lemma PositiveAffixes()
    ensures StartsWith("TestStart-Value-TestEnd", "TestStart") && EndsWith("TestStart-Value-TestEnd", "TestEnd")
  {
    Affixes("TestStart", "-Value-TestEnd");
    Affixes("TestStart-Value-", "TestEnd");
  }

  /** The negative document (parser_test.go:338-342) lacks the suffix. */
  lemma Detection10Negative(c: bool, env: Env)
    ensures !RuleMatches(Detection10, c, map["SomeName" := "TestStart-Value"], env)
  {
    var v := "TestStart-Value";
    CollapseWord(v);
    assert Norm(v, c) == v;
    assert v[8] == 't';
    Detection10Meaning(c, map["SomeName" := v], env);
  }

  // ----------------------------------------------------------- detection 11

  const MarksEntry: Entry := ("SomeName|contains|all", ["mark1", "mark2"])
  const VersionsEntry: Entry := ("SomeName|contains", ["version1", "version2"])
  const Marks: RawSelection := MapForm([MarksEntry])
  const Versions: RawSelection := MapForm([VersionsEntry])

  function MarksTest(c: bool): FieldTest {
    FieldTest("SomeName", Substring, true, c, ["mark1", "mark2"])
  }

  function VersionsTest(c: bool): FieldTest {
    FieldTest("SomeName", Substring, false, c, ["version1", "version2"])
  }

  lemma MarksCompiles(c: bool)
    ensures CompileSelection(Marks, c) == Ok(Conj([MarksTest(c)]))
  {
    ModifiedAllKey(MarksEntry.0, "SomeName", "contains", ["mark1", "mark2"], c);
    MapCompiles1(Marks, MarksEntry, MarksTest(c), c);
  }

  lemma VersionsCompiles(c: bool)
    ensures CompileSelection(Versions, c) == Ok(Conj([VersionsTest(c)]))
  {
    ModifiedKey(VersionsEntry.0, "SomeName", "contains", ["version1", "version2"], c);
    MapCompiles1(Versions, VersionsEntry, VersionsTest(c), c);
  }

  /** detection11 (parser_test.go:344-355): both marks, and one of the
      versions, somewhere in one field. */
  const Detection11: SigmaRule :=
    SigmaRule([("selection1", Marks), ("selection2", Versions)], "selection1 and selection2")

  function Detection11Expr(c: bool): Expr {
    AndNode(SelectionRef("selection1", Conj([MarksTest(c)])), SelectionRef("selection2", Conj([VersionsTest(c)])))
  }

  lemma Detection11Eval(c: bool, rec: Record, env: Env)
    ensures RuleMatches(Detection11, c, rec, env) <==> Eval(Detection11Expr(c), rec, env).Match?
  {
    MarksCompiles(c);
    VersionsCompiles(c);
    TwoNames();
    AndRule(Detection11, c, "selection1", Marks, Conj([MarksTest(c)]), "selection2", Versions, Conj([VersionsTest(c)]));
    MatchesAs(Detection11, c, Detection11Expr(c), rec, env);
  }

  lemma Detection11Verdicts(c: bool, rec: Record, env: Env)
    requires "SomeName" in rec
    ensures var h := Norm(rec["SomeName"], c);
      Eval(Detection11Expr(c), rec, env) ==
      Both(FromBool(Contains(h, "mark1") && Contains(h, "mark2")), FromBool(Contains(h, "version1") || Contains(h, "version2")))
  {
    var v := rec["SomeName"];
    Conj1Verdict(MarksTest(c), rec, env);
    Conj1Verdict(VersionsTest(c), rec, env);
    TwoPatterns(Substring, c, "mark1", "mark2", v, env);
    TwoPatterns(Substring, c, "version1", "version2", v, env);
    TextPattern(Substring, c, "mark1", v, env);
    TextPattern(Substring, c, "mark2", v, env);
    TextPattern(Substring, c, "version1", v, env);
    TextPattern(Substring, c, "version2", v, env);
  }

  /** detection11: `contains|all` needs every mark and `contains` any
      version, in the value as normalised. */
  lemma Detection11Meaning(c: bool, rec: Record, env: Env)
    requires "SomeName" in rec
    ensures var h := Norm(rec["SomeName"], c);
      RuleMatches(Detection11, c, rec, env) <==>
      Contains(h, "mark1") && Contains(h, "mark2") && (Contains(h, "version1") || Contains(h, "version2"))
  {
    Detection11Eval(c, rec, env);
    Detection11Verdicts(c, rec, env);
  }

  const MarksWords: seq<string> := ["Some", "mark1", "mark2", "String", "version2"]
  const OtherWords: seq<string> := ["mark1", "mark2", "mark3", "non-matching", "string"]

  lemma MarksWordsRead()
    ensures Unwords(MarksWords) == "Some mark1 mark2 String version2"
  {
  }

  lemma MarksPositiveText()
    ensures var v := "Some mark1 mark2 String version2";
      Collapse(v) == v && Contains(v, "mark1") && Contains(v, "mark2") && Contains(v, "version2")
  {
    MarksWordsRead();
    CollapseWords(MarksWords);
    WordOf(MarksWords, 1);
    WordOf(MarksWords, 2);
    WordOf(MarksWords, 4);
  }

  /** Test case parser_test.go:638-642: the positive document
      (parser_test.go:357-361). */
  lemma Detection11Positive(c: bool, env: Env)
    ensures RuleMatches(Detection11, c, map["SomeName" := "Some mark1 mark2 String version2"], env)
  {
    MarksPositiveText();
    Detection11Meaning(c, map["SomeName" := "Some mark1 mark2 String version2"], env);
  }

  lemma OtherWordsRead()
    ensures Unwords(OtherWords) == "mark1 mark2 mark3 non-matching string"
  {
  }

  lemma MarksNegativeText()
    ensures Collapse("mark1 mark2 mark3 non-matching string") == "mark1 mark2 mark3 non-matching string"
  {
    OtherWordsRead();
    CollapseWords(OtherWords);
  }

  lemma NoVersionLetter()
    ensures 'v' !in "mark1 mark2 mark3 non-matching string"
  {
  }

  /** The negative document (parser_test.go:363-367) has both marks and no
      version. */
  lemma Detection11Negative(c: bool, env: Env)
    ensures !RuleMatches(Detection11, c, map["SomeName" := "mark1 mark2 mark3 non-matching string"], env)
  {
    var v := "mark1 mark2 mark3 non-matching string";
    MarksNegativeText();
    NoVersionLetter();
    assert Norm(v, c) == v;
    ContainsNeedsChar(v, "version1", 0);
    ContainsNeedsChar(v, "version2", 0);
    Detection11Meaning(c, map["SomeName" := v], env);
  }

  // ----------------------------------------------------------- detection 12

  const ValsEntry: Entry := ("SomeKey|contains|all", ["val1", "val2"])
  const MustEntry: Entry := ("SomeKey2", ["mustMatch1", "mustMatch2"])
  const Vals: RawSelection := MapForm([ValsEntry])
  const Musts: RawSelection := MapForm([MustEntry])

  function ValsTest(c: bool): FieldTest {
    FieldTest("SomeKey", Substring, true, c, ["val1", "val2"])
  }

  function MustTest(c: bool): FieldTest {
    FieldTest("SomeKey2", Wildcard, false, c, ["mustMatch1", "mustMatch2"])
  }

  lemma ValsCompiles(c: bool)
    ensures CompileSelection(Vals, c) == Ok(Conj([ValsTest(c)]))
  {
    ModifiedAllKey(ValsEntry.0, "SomeKey", "contains", ["val1", "val2"], c);
    MapCompiles1(Vals, ValsEntry, ValsTest(c), c);
  }

  lemma MustsCompiles(c: bool)
    ensures CompileSelection(Musts, c) == Ok(Conj([MustTest(c)]))
  {
    PlainKey("SomeKey2", ["mustMatch1", "mustMatch2"], c);
    MapCompiles1(Musts, MustEntry, MustTest(c), c);
  }

  /** detection12 (parser_test.go:369-380): both values in one field, and an
      unmodified list of exact values in another. */
  const Detection12: SigmaRule :=
    SigmaRule([("selection1", Vals), ("selection2", Musts)], "selection1 and selection2")

  function Detection12Expr(c: bool): Expr {
    AndNode(SelectionRef("selection1", Conj([ValsTest(c)])), SelectionRef("selection2", Conj([MustTest(c)])))
  }

  lemma Detection12Eval(c: bool, rec: Record, env: Env)
    ensures RuleMatches(Detection12, c, rec, env) <==> Eval(Detection12Expr(c), rec, env).Match?
  {
    ValsCompiles(c);
    MustsCompiles(c);
    TwoNames();
    AndRule(Detection12, c, "selection1", Vals, Conj([ValsTest(c)]), "selection2", Musts, Conj([MustTest(c)]));
    MatchesAs(Detection12, c, Detection12Expr(c), rec, env);
  }

  lemma MustPattern1(c: bool, v: string, env: Env)
    ensures PatternMatches(Wildcard, c, "mustMatch1", v, env) <==> v == "mustMatch1"
  {
    ExactPattern(c, "mustMatch1", v, env);
  }

  lemma MustPattern2(c: bool, v: string, env: Env)
    ensures PatternMatches(Wildcard, c, "mustMatch2", v, env) <==> v == "mustMatch2"
  {
    ExactPattern(c, "mustMatch2", v, env);
  }

  lemma ValsVerdict(c: bool, rec: Record, env: Env)
    requires "SomeKey" in rec
    ensures var h := Norm(rec["SomeKey"], c);
      PredicateVerdict(Conj([ValsTest(c)]), rec, env) == FromBool(Contains(h, "val1") && Contains(h, "val2"))
  {
    var v := rec["SomeKey"];
    Conj1Verdict(ValsTest(c), rec, env);
    TwoPatterns(Substring, c, "val1", "val2", v, env);
    TextPattern(Substring, c, "val1", v, env);
    TextPattern(Substring, c, "val2", v, env);
  }

  lemma MustVerdict(c: bool, rec: Record, env: Env)
    requires "SomeKey2" in rec
    ensures PredicateVerdict(Conj([MustTest(c)]), rec, env) ==
      FromBool(rec["SomeKey2"] == "mustMatch1" || rec["SomeKey2"] == "mustMatch2")
  {
    var v := rec["SomeKey2"];
    Conj1Verdict(MustTest(c), rec, env);
    TwoPatterns(Wildcard, c, "mustMatch1", "mustMatch2", v, env);
    MustPattern1(c, v, env);
    MustPattern2(c, v, env);
  }

  lemma Detection12Verdicts(c: bool, rec: Record, env: Env)
    requires "SomeKey" in rec && "SomeKey2" in rec
    ensures var h := Norm(rec["SomeKey"], c);
      Eval(Detection12Expr(c), rec, env) ==
      Both(FromBool(Contains(h, "val1") && Contains(h, "val2")),
           FromBool(rec["SomeKey2"] == "mustMatch1" || rec["SomeKey2"] == "mustMatch2"))
  {
    ValsVerdict(c, rec, env);
    MustVerdict(c, rec, env);
    var s1 := SelectionRef("selection1", Conj([ValsTest(c)]));
    var s2 := SelectionRef("selection2", Conj([MustTest(c)]));
    assert Eval(s1, rec, env) == PredicateVerdict(Conj([ValsTest(c)]), rec, env);
    assert Eval(s2, rec, env) == PredicateVerdict(Conj([MustTest(c)]), rec, env);
  }

  /** detection12: a key without modifiers compares each listed value with
      the whole field value, exactly, and any one of them suffices. */
  lemma Detection12Meaning(c: bool, rec: Record, env: Env)
    requires "SomeKey" in rec && "SomeKey2" in rec
    ensures var h := Norm(rec["SomeKey"], c);
      RuleMatches(Detection12, c, rec, env) <==>
      Contains(h, "val1") && Contains(h, "val2") && (rec["SomeKey2"] == "mustMatch1" || rec["SomeKey2"] == "mustMatch2")
  {
    Detection12Eval(c, rec, env);
    Detection12Verdicts(c, rec, env);
  }

  lemma ValsText()
    ensures Collapse("val1 val2") == "val1 val2" && Contains("val1 val2", "val1") && Contains("val1 val2", "val2")
  {
    assert Unwords(["val1", "val2"]) == "val1 val2";
    CollapseWords(["val1", "val2"]);
    WordOf(["val1", "val2"], 0);
    WordOf(["val1", "val2"], 1);
  }

  /** detection12 on a record of just its two fields. */
  lemma Detection12Pair(c: bool, a: string, b: string, env: Env)
    ensures var h := Norm(a, c);
      RuleMatches(Detection12, c, map["SomeKey" := a, "SomeKey2" := b], env) <==>
      Contains(h, "val1") && Contains(h, "val2") && (b == "mustMatch1" || b == "mustMatch2")
  {
    var rec := map["SomeKey" := a, "SomeKey2" := b];
    assert rec["SomeKey"] == a && rec["SomeKey2"] == b;
    Detection12Meaning(c, rec, env);
  }

  /** Test case parser_test.go:643-647: the positive document
      (parser_test.go:382-387). */
  lemma Detection12Positive(c: bool, env: Env)
    ensures RuleMatches(Detection12, c, map["SomeKey" := "val1 val2", "SomeKey2" := "mustMatch1"], env)
  {
    ValsText();
    assert Norm("val1 val2", c) == "val1 val2";
    Detection12Pair(c, "val1 val2", "mustMatch1", env);
  }

  /** The negative document (parser_test.go:389-394) keeps `SomeKey` and
      lists an unlisted `SomeKey2`. */
  lemma Detection12Negative(c: bool, env: Env)
    ensures !RuleMatches(Detection12, c, map["SomeKey" := "val1 val2", "SomeKey2" := "mustMatch3"], env)
  {
    Detection12Pair(c, "val1 val2", "mustMatch3", env);
  }

  // ----------------------------------------------------------- detection 14

  /** The pattern: three spaces, then a tab. */
  const SpacedPattern: string := "whitespace" + "   " + "collapse" + "\t" + "testing"
  /** The document's value: two tabs, then nine spaces. */
  const SpacedValue: string := "whitespace" + "\t\t" + "collapse" + "         " + "testing"
  /** Both, collapsed. */
  const SingleSpaced: string := "whitespace" + " " + "collapse" + " " + "testing"
  const SpacedEntry: Entry := ("SomeName|contains", [SpacedPattern])
  const Spaced: RawSelection := MapForm([SpacedEntry])

  function SpacedTest(c: bool): FieldTest {
    FieldTest("SomeName", Substring, false, c, [SpacedPattern])
  }

  /** detection14 (parser_test.go:480-486): one `contains` pattern with runs
      of blanks. */
  const Detection14: SigmaRule := SigmaRule([("selection", Spaced)], "selection")

  lemma Detection14Eval(c: bool, rec: Record, env: Env)
    ensures RuleMatches(Detection14, c, rec, env) <==> PredicateVerdict(Conj([SpacedTest(c)]), rec, env).Match?
  {
    ModifiedKey(SpacedEntry.0, "SomeName", "contains", [SpacedPattern], c);
    MapCompiles1(Spaced, SpacedEntry, SpacedTest(c), c);
    TwoNames();
    RefRule(Detection14, c, "selection", Spaced, Conj([SpacedTest(c)]));
    MatchesAs(Detection14, c, SelectionRef("selection", Conj([SpacedTest(c)])), rec, env);
  }

  /** detection14: the value, normalised, contains the pattern, normalised
      the same way. */
  lemma Detection14Meaning(c: bool, rec: Record, env: Env)
    requires "SomeName" in rec
    ensures RuleMatches(Detection14, c, rec, env) <==> Contains(Norm(rec["SomeName"], c), Norm(SpacedPattern, c))
  {
    Detection14Eval(c, rec, env);
    Conj1Verdict(SpacedTest(c), rec, env);
    OnePatternVerdict(SpacedTest(c), rec, env);
  }

  lemma SpacedPatternCollapses()
    ensures Collapse(SpacedPattern) == SingleSpaced
  {
    CollapseThree("whitespace", "   ", "collapse", "\t", "testing");
  }

  lemma SpacedValueCollapses()
    ensures Collapse(SpacedValue) == SingleSpaced
  {
    CollapseThree("whitespace", "\t\t", "collapse", "         ", "testing");
  }

  /** Left as written, the pattern's blanks differ from the value's right
      after `whitespace`, the only place the pattern's first letter fits. */
  lemma SpacedVerbatim()
    ensures !Contains(SpacedValue, SpacedPattern)
  {
    var v, p := SpacedValue, SpacedPattern;
    forall i: nat | i + |p| <= |v|
      ensures !OccursAt(v, p, i)
    {
      var w := v[i..i + |p|];
      if i == 0 {
        assert w[10] == v[10] != p[10];
      } else {
        assert w[0] == v[i] != p[0];
      }
    }
  }

  /** Test case parser_test.go:654-663: with collapsing on, the document
      (parser_test.go:488-492) matches; with it off, the same document does
      not. */
  lemma Detection14Vectors(env: Env)
    ensures RuleMatches(Detection14, true, map["SomeName" := SpacedValue], env)
    ensures !RuleMatches(Detection14, false, map["SomeName" := SpacedValue], env)
  {
    SpacedPatternCollapses();
    SpacedValueCollapses();
    assert OccursAt(SingleSpaced, SingleSpaced, 0);
    SpacedVerbatim();
    Detection14Meaning(true, map["SomeName" := SpacedValue], env);
    Detection14Meaning(false, map["SomeName" := SpacedValue], env);
  }
}
