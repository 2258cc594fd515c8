/** The process-creation rules of the rule vectors (parser_test.go:12-299):
    an `Image` list and a `ParentImage` list of `*\name.exe` patterns and a
    `CommandLine` pattern, combined by the conditions of eight rules, checked
    against the records the same file pairs them with. Each rule is first
    given a meaning over every record whose paths split into a directory and
    a last component; the vectors are instances of those meanings. */
module ProcessRules {
  import opened Results
  import opened Text
  import opened Verdicts
  import opened Selection
  import opened Condition
  import opened Lexer
  import opened Rule
  import opened ConditionVectors
  import opened RuleFacts

  // ------------------------------------------------------------ the patterns

  const ImageNames: seq<string> := ["schtasks.exe", "nslookup.exe", "certutil.exe", "bitsadmin.exe", "mshta.exe"]

  const ParentNames: seq<string> :=
    ["mshta.exe", "powershell.exe", "cmd.exe", "rundll32.exe", "cscript.exe", "wscript.exe", "wmiprvse.exe"]

  /** The `Image` patterns as the rules write them. */
  const ImagePatterns: seq<string> :=
    ["*\\schtasks.exe", "*\\nslookup.exe", "*\\certutil.exe", "*\\bitsadmin.exe", "*\\mshta.exe"]

  /** The `ParentImage` patterns as the rules write them. */
  const ParentPatterns: seq<string> :=
    ["*\\mshta.exe", "*\\powershell.exe", "*\\cmd.exe", "*\\rundll32.exe", "*\\cscript.exe", "*\\wscript.exe", "*\\wmiprvse.exe"]

  const CommandPattern: string := "+R +H +S +A *.cui"

  /** A list of patterns is the `*\name` list of the names when it is so entry by entry. */
  lemma SuffixedEach(names: seq<string>, ps: seq<string>)
    requires |ps| == |names|
    requires forall i :: 0 <= i < |names| ==> ps[i] == "*\\" + names[i]
    ensures ps == Suffixed(names)
  {
  }

  lemma ImageAt0()
    ensures ImagePatterns[0] == "*\\" + ImageNames[0]
    ensures ImageNames[0] != [] && Plain(ImageNames[0])
  {
  }

  lemma ImageAt1()
    ensures ImagePatterns[1] == "*\\" + ImageNames[1]
    ensures ImageNames[1] != [] && Plain(ImageNames[1])
  {
  }

  lemma ImageAt2()
    ensures ImagePatterns[2] == "*\\" + ImageNames[2]
    ensures ImageNames[2] != [] && Plain(ImageNames[2])
  {
  }

  lemma ImageAt3()
    ensures ImagePatterns[3] == "*\\" + ImageNames[3]
    ensures ImageNames[3] != [] && Plain(ImageNames[3])
  {
  }

  lemma ImageAt4()
    ensures ImagePatterns[4] == "*\\" + ImageNames[4]
    ensures ImageNames[4] != [] && Plain(ImageNames[4])
  {
  }

  lemma ParentAt0()
    ensures ParentPatterns[0] == "*\\" + ParentNames[0]
    ensures ParentNames[0] != [] && Plain(ParentNames[0])
  {
  }

  lemma ParentAt1()
    ensures ParentPatterns[1] == "*\\" + ParentNames[1]
    ensures ParentNames[1] != [] && Plain(ParentNames[1])
  {
  }

  lemma ParentAt2()
    ensures ParentPatterns[2] == "*\\" + ParentNames[2]
    ensures ParentNames[2] != [] && Plain(ParentNames[2])
  {
  }

  lemma ParentAt3()
    ensures ParentPatterns[3] == "*\\" + ParentNames[3]
    ensures ParentNames[3] != [] && Plain(ParentNames[3])
  {
  }

  lemma ParentAt4()
    ensures ParentPatterns[4] == "*\\" + ParentNames[4]
    ensures ParentNames[4] != [] && Plain(ParentNames[4])
  {
  }

  lemma ParentAt5()
    ensures ParentPatterns[5] == "*\\" + ParentNames[5]
    ensures ParentNames[5] != [] && Plain(ParentNames[5])
  {
  }

  lemma ParentAt6()
    ensures ParentPatterns[6] == "*\\" + ParentNames[6]
    ensures ParentNames[6] != [] && Plain(ParentNames[6])
  {
  }

  lemma ImageList()
    ensures ImagePatterns == Suffixed(ImageNames)
    ensures forall i :: 0 <= i < |ImageNames| ==> ImageNames[i] != [] && Plain(ImageNames[i])
  {
    ImageAt0();
    ImageAt1();
    ImageAt2();
    ImageAt3();
    ImageAt4();
    SuffixedEach(ImageNames, ImagePatterns);
  }

  lemma ParentList()
    ensures ParentPatterns == Suffixed(ParentNames)
    ensures forall i :: 0 <= i < |ParentNames| ==> ParentNames[i] != [] && Plain(ParentNames[i])
  {
    ParentAt0();
    ParentAt1();
    ParentAt2();
    ParentAt3();
    ParentAt4();
    ParentAt5();
    ParentAt6();
    SuffixedEach(ParentNames, ParentPatterns);
  }

  // ---------------------------------------------------------- the field tests

  const ImageEntry: Entry := ("Image", ImagePatterns)
  const ParentEntry: Entry := ("ParentImage", ParentPatterns)
  const CommandEntry: Entry := ("CommandLine", [CommandPattern])

  function ImageTest(c: bool): FieldTest {
    FieldTest("Image", Wildcard, false, c, ImagePatterns)
  }

  function ParentTest(c: bool): FieldTest {
    FieldTest("ParentImage", Wildcard, false, c, ParentPatterns)
  }

  function CommandTest(c: bool): FieldTest {
    FieldTest("CommandLine", Wildcard, false, c, [CommandPattern])
  }

  /** The three keys carry no modifier. */
  lemma ImageEntryCompiles(c: bool)
    ensures CompileEntry(ImageEntry, c) == Ok(ImageTest(c))
  {
    PlainKey("Image", ImagePatterns, c);
  }

  lemma ParentEntryCompiles(c: bool)
    ensures CompileEntry(ParentEntry, c) == Ok(ParentTest(c))
  {
    PlainKey("ParentImage", ParentPatterns, c);
  }

  lemma CommandEntryCompiles(c: bool)
    ensures CompileEntry(CommandEntry, c) == Ok(CommandTest(c))
  {
    PlainKey("CommandLine", [CommandPattern], c);
  }

  /** The `Image` list matches a path exactly when its last component is one
      of the listed executables. */
  lemma ImageVerdict(c: bool, rec: Record, dir: string, n: string, env: Env)
    requires "Image" in rec && rec["Image"] == dir + "\\" + n && '\\' !in n
    ensures TestVerdict(ImageTest(c), rec, env) == FromBool(n in ImageNames)
  {
    ImageList();
    SuffixList(c, ImageNames, dir, n, env);
  }

  lemma ParentVerdict(c: bool, rec: Record, dir: string, n: string, env: Env)
    requires "ParentImage" in rec && rec["ParentImage"] == dir + "\\" + n && '\\' !in n
    ensures TestVerdict(ParentTest(c), rec, env) == FromBool(n in ParentNames)
  {
    ParentList();
    SuffixList(c, ParentNames, dir, n, env);
  }

  /** `+R +H +S +A *.cui` needs that exact prefix and the `.cui` ending. */
  lemma CommandVerdict(c: bool, rec: Record, env: Env)
    requires "CommandLine" in rec
    ensures var v := rec["CommandLine"];
      TestVerdict(CommandTest(c), rec, env) == FromBool(StartsWith(v, "+R +H +S +A ") && EndsWith(v[12..], ".cui"))
  {
    StarBetween(c, CommandPattern, "+R +H +S +A ", ".cui", rec["CommandLine"], env);
  }

  // ------------------------------------------------------------- the records

  /** detection1_positive (parser_test.go:34-43); detection6_positive and
      detection8_positive have the same text. The keys repeat, and the later
      values are the ones kept. */
  const Positive: seq<(string, string)> := [
    ("Image", "C:\\test\\bitsadmin.exe"), ("CommandLine", "+R +H +A asd.cui"), ("ParentImage", "C:\\test\\wmiprvse.exe"),
    ("Image", "C:\\test\\bitsadmin.exe"), ("CommandLine", "aaa"), ("ParentImage", "C:\\test\\wmiprvse.exe")]

  /** detection3_positive1 (parser_test.go:104-113). */
  const Positive3a: seq<(string, string)> := [
    ("Image", "C:\\test\\bitsadmin.exe"), ("CommandLine", "+R +H +A asd.cui"), ("ParentImage", "C:\\test\\custom.exe"),
    ("Image", "C:\\test\\bitsadmin.exe"), ("CommandLine", "aaa"), ("ParentImage", "C:\\test\\wmiprvse.exe")]

  /** detection3_positive2 (parser_test.go:114-123). */
  const Positive3b: seq<(string, string)> := [
    ("Image", "C:\\test\\custom.exe"), ("CommandLine", "+R +H +A asd.cui"), ("ParentImage", "C:\\test\\wmiprvse.exe"),
    ("Image", "C:\\test\\bitsadmin.exe"), ("CommandLine", "aaa"), ("ParentImage", "C:\\test\\wmiprvse.exe")]

  /** detection1_negative1 (parser_test.go:45-51); detection3_negative and
      detection8_negative1 have the same text. */
  const Negative1: seq<(string, string)> := [
    ("Image", "C:\\test\\bitsadmin.exe"), ("CommandLine", "+R +H +S +A lll.cui"), ("ParentImage", "C:\\test\\mshta.exe")]

  /** detection1_negative2 (parser_test.go:52-57): no `ParentImage`. */
  const Negative2: seq<(string, string)> := [
    ("Image", "C:\\test\\bitsadmin.exe"), ("CommandLine", "+R +H +S +A lll.cui")]

  /** detection6_negative (parser_test.go:211-217): the parent's last
      component is `lll.exe`. */
  const Negative6: seq<(string, string)> := [
    ("Image", "C:\\test\\bitsadmin.exe"), ("CommandLine", "+R +H +S +A lll.cui"), ("ParentImage", "C:\\test\\mshta\\lll.exe")]

  /** detection7_negative1 (parser_test.go:240-246). */
  const Negative7a: seq<(string, string)> := [
    ("Image", "C:\\test\\bytesadmin.exe"), ("CommandLine", "+R +H +S +A lll.cui"), ("ParentImage", "E:\\go\\bin\\gofmt")]

  /** detection7_negative2 (parser_test.go:247-252): no `ParentImage`. */
  const Negative7b: seq<(string, string)> := [
    ("Image", "C:\\test\\bytesadmin.exe"), ("CommandLine", "+R +H +S +A lll.cui")]

  /** detection8_negative2 (parser_test.go:294-299): no `CommandLine`. */
  const Negative8: seq<(string, string)> := [
    ("Image", "C:\\test\\bitsadmin.exe"), ("ParentImage", "C:\\test\\mshta.exe")]

  /** The final values of the three positive records. */
  const PositiveMap: Record :=
    map["Image" := "C:\\test\\bitsadmin.exe", "CommandLine" := "aaa", "ParentImage" := "C:\\test\\wmiprvse.exe"]

  const Negative1Map: Record :=
    map["Image" := "C:\\test\\bitsadmin.exe", "CommandLine" := "+R +H +S +A lll.cui", "ParentImage" := "C:\\test\\mshta.exe"]

  const Negative6Map: Record :=
    map["Image" := "C:\\test\\bitsadmin.exe", "CommandLine" := "+R +H +S +A lll.cui", "ParentImage" := "C:\\test\\mshta\\lll.exe"]

  const Negative7Map: Record :=
    map["Image" := "C:\\test\\bytesadmin.exe", "CommandLine" := "+R +H +S +A lll.cui", "ParentImage" := "E:\\go\\bin\\gofmt"]

  lemma PositiveRecords()
    ensures RecordOf(Positive) == PositiveMap
    ensures RecordOf(Positive3a) == PositiveMap
    ensures RecordOf(Positive3b) == PositiveMap
  {
    Record3Twice(Positive, "Image", "C:\\test\\bitsadmin.exe", "CommandLine", "+R +H +A asd.cui", "ParentImage", "C:\\test\\wmiprvse.exe",
      "C:\\test\\bitsadmin.exe", "aaa", "C:\\test\\wmiprvse.exe");
    Record3Twice(Positive3a, "Image", "C:\\test\\bitsadmin.exe", "CommandLine", "+R +H +A asd.cui", "ParentImage", "C:\\test\\custom.exe",
      "C:\\test\\bitsadmin.exe", "aaa", "C:\\test\\wmiprvse.exe");
    Record3Twice(Positive3b, "Image", "C:\\test\\custom.exe", "CommandLine", "+R +H +A asd.cui", "ParentImage", "C:\\test\\wmiprvse.exe",
      "C:\\test\\bitsadmin.exe", "aaa", "C:\\test\\wmiprvse.exe");
  }

  lemma Negative1Record()
    ensures RecordOf(Negative1) == Negative1Map
  {
    Record3(Negative1, "Image", "C:\\test\\bitsadmin.exe", "CommandLine", "+R +H +S +A lll.cui", "ParentImage", "C:\\test\\mshta.exe");
  }

  lemma Negative6Record()
    ensures RecordOf(Negative6) == Negative6Map
  {
    Record3(Negative6, "Image", "C:\\test\\bitsadmin.exe", "CommandLine", "+R +H +S +A lll.cui", "ParentImage", "C:\\test\\mshta\\lll.exe");
  }

  lemma Negative7Record()
    ensures RecordOf(Negative7a) == Negative7Map
  {
    Record3(Negative7a, "Image", "C:\\test\\bytesadmin.exe", "CommandLine", "+R +H +S +A lll.cui", "ParentImage", "E:\\go\\bin\\gofmt");
  }

  const Negative2Map: Record := map["Image" := "C:\\test\\bitsadmin.exe", "CommandLine" := "+R +H +S +A lll.cui"]
  const Negative7bMap: Record := map["Image" := "C:\\test\\bytesadmin.exe", "CommandLine" := "+R +H +S +A lll.cui"]
  const Negative8Map: Record := map["Image" := "C:\\test\\bitsadmin.exe", "ParentImage" := "C:\\test\\mshta.exe"]

  /** The records that lack a field. */
  lemma ShortRecords()
    ensures RecordOf(Negative2) == Negative2Map
    ensures RecordOf(Negative7b) == Negative7bMap
    ensures RecordOf(Negative8) == Negative8Map
  {
    Record2(Negative2, "Image", "C:\\test\\bitsadmin.exe", "CommandLine", "+R +H +S +A lll.cui");
    Record2(Negative7b, "Image", "C:\\test\\bytesadmin.exe", "CommandLine", "+R +H +S +A lll.cui");
    Record2(Negative8, "Image", "C:\\test\\bitsadmin.exe", "ParentImage", "C:\\test\\mshta.exe");
  }

  /** The split paths of the records that carry all three fields. */
  lemma PositivePaths()
    ensures Paths(PositiveMap, "C:\\test", "bitsadmin.exe", "C:\\test", "wmiprvse.exe") && PositiveMap["CommandLine"] == "aaa"
  {
    assert "C:\\test\\bitsadmin.exe" == "C:\\test" + "\\" + "bitsadmin.exe";
    assert "C:\\test\\wmiprvse.exe" == "C:\\test" + "\\" + "wmiprvse.exe";
  }

  lemma Negative1Paths()
    ensures Paths(Negative1Map, "C:\\test", "bitsadmin.exe", "C:\\test", "mshta.exe")
    ensures Negative1Map["CommandLine"] == "+R +H +S +A lll.cui"
  {
    assert "C:\\test\\bitsadmin.exe" == "C:\\test" + "\\" + "bitsadmin.exe";
    assert "C:\\test\\mshta.exe" == "C:\\test" + "\\" + "mshta.exe";
  }

  lemma Negative6Paths()
    ensures Paths(Negative6Map, "C:\\test", "bitsadmin.exe", "C:\\test\\mshta", "lll.exe")
  {
    assert "C:\\test\\bitsadmin.exe" == "C:\\test" + "\\" + "bitsadmin.exe";
    assert "C:\\test\\mshta\\lll.exe" == "C:\\test\\mshta" + "\\" + "lll.exe";
  }

  lemma Negative7Paths()
    ensures Paths(Negative7Map, "C:\\test", "bytesadmin.exe", "E:\\go\\bin", "gofmt")
  {
    assert "C:\\test\\bytesadmin.exe" == "C:\\test" + "\\" + "bytesadmin.exe";
    assert "E:\\go\\bin\\gofmt" == "E:\\go\\bin" + "\\" + "gofmt";
  }

  lemma Negative7bPath()
    ensures "Image" in Negative7bMap && Negative7bMap["Image"] == "C:\\test" + "\\" + "bytesadmin.exe"
    ensures '\\' !in "bytesadmin.exe" && "ParentImage" !in Negative7bMap
  {
    assert "C:\\test\\bytesadmin.exe" == "C:\\test" + "\\" + "bytesadmin.exe";
  }

  /** The command line of the negative records carries the hidden attributes
      on a `.cui` file; the positive one does not. */
  lemma CommandLines()
    ensures HiddenCui("+R +H +S +A lll.cui")
    ensures !HiddenCui("aaa")
  {
    assert "+R +H +S +A lll.cui"[..12] == "+R +H +S +A ";
    assert "+R +H +S +A lll.cui"[12..] == "lll.cui";
  }

  // ------------------------------------------------------------- selections

  /** `Image` and `ParentImage` in one map: both must hold. */
  const BothImages: RawSelection := MapForm([ImageEntry, ParentEntry])
  const Images: RawSelection := MapForm([ImageEntry])
  const Parents: RawSelection := MapForm([ParentEntry])
  const Command: RawSelection := MapForm([CommandEntry])

  function BothImagesPred(c: bool): Predicate {
    Conj([ImageTest(c), ParentTest(c)])
  }

  function ImagesPred(c: bool): Predicate {
    Conj([ImageTest(c)])
  }

  function ParentsPred(c: bool): Predicate {
    Conj([ParentTest(c)])
  }

  function CommandPred(c: bool): Predicate {
    Conj([CommandTest(c)])
  }

  lemma BothImagesCompiles(c: bool)
    ensures CompileSelection(BothImages, c) == Ok(BothImagesPred(c))
  {
    ImageEntryCompiles(c);
    ParentEntryCompiles(c);
    MapCompiles2(BothImages, ImageEntry, ImageTest(c), ParentEntry, ParentTest(c), c);
  }

  lemma ImagesCompiles(c: bool)
    ensures CompileSelection(Images, c) == Ok(ImagesPred(c))
  {
    ImageEntryCompiles(c);
    MapCompiles1(Images, ImageEntry, ImageTest(c), c);
  }

  lemma ParentsCompiles(c: bool)
    ensures CompileSelection(Parents, c) == Ok(ParentsPred(c))
  {
    ParentEntryCompiles(c);
    MapCompiles1(Parents, ParentEntry, ParentTest(c), c);
  }

  lemma CommandCompiles(c: bool)
    ensures CompileSelection(Command, c) == Ok(CommandPred(c))
  {
    CommandEntryCompiles(c);
    MapCompiles1(Command, CommandEntry, CommandTest(c), c);
  }

  // ------------------------------------------------------------ detection 1

  /** detection1 and detection8 (parser_test.go:12-32, 254-274). */
  const Detection1: SigmaRule :=
    SigmaRule([("selection1", BothImages), ("selection3", Command)], "selection1 and not selection3")

  lemma Detection1Text()
    ensures Detection1.condition == "selection1" + (" and not " + "selection3")
  {
  }

  lemma Detection1Reads()
    ensures Reads(Detection1.condition, And(Ref("selection1"), Not(Ref("selection3"))))
  {
    RuleNames();
    Detection1Text();
    ReadsAndNot(Detection1.condition, "selection1", "selection3");
  }

  function Detection1Sels(c: bool): seq<Named> {
    [("selection1", BothImagesPred(c)), ("selection3", CommandPred(c))]
  }

  lemma Detection1Selections(c: bool)
    ensures CompileSelections(Detection1.selections, c) == Ok(Detection1Sels(c))
  {
    BothImagesCompiles(c);
    CommandCompiles(c);
    SelectionsCompile2(Detection1.selections, "selection1", BothImages, BothImagesPred(c), "selection3", Command, CommandPred(c), c);
  }

  lemma Detection1Resolves(c: bool)
    ensures Resolve(And(Ref("selection1"), Not(Ref("selection3"))), Detection1Sels(c)) ==
      Ok(AndNode(SelectionRef("selection1", BothImagesPred(c)), NotNode(SelectionRef("selection3", CommandPred(c)))))
  {
    var sels := Detection1Sels(c);
    FindAt(sels, 0);
    FindAt(sels, 1);
    assert Resolve(Ref("selection1"), sels) == Ok(SelectionRef("selection1", BothImagesPred(c)));
    assert Resolve(Ref("selection3"), sels) == Ok(SelectionRef("selection3", CommandPred(c)));
    assert Resolve(Not(Ref("selection3")), sels) == Ok(NotNode(SelectionRef("selection3", CommandPred(c))));
  }

  lemma Detection1Compiles(c: bool)
    ensures CompileRule(Detection1, c) ==
      Ok(AndNode(SelectionRef("selection1", BothImagesPred(c)), NotNode(SelectionRef("selection3", CommandPred(c)))))
  {
    Detection1Selections(c);
    Detection1Reads();
    Detection1Resolves(c);
    RuleCompiles(Detection1, c, Detection1Sels(c), And(Ref("selection1"), Not(Ref("selection3"))));
  }

  // -------------------------------------------------------------- meanings

  /** A record whose `Image` and `ParentImage` are paths, split at their last
      backslash into a directory and a last component. */
  predicate Paths(rec: Record, di: string, ni: string, dp: string, np: string) {
    && "Image" in rec && rec["Image"] == di + "\\" + ni && '\\' !in ni
    && "ParentImage" in rec && rec["ParentImage"] == dp + "\\" + np && '\\' !in np
  }

  /** What the `CommandLine` pattern looks for. */
  predicate HiddenCui(v: string) {
    StartsWith(v, "+R +H +S +A ") && EndsWith(v[12..], ".cui")
  }

  function Detection1Expr(c: bool): Expr {
    AndNode(SelectionRef("selection1", BothImagesPred(c)), NotNode(SelectionRef("selection3", CommandPred(c))))
  }

  lemma Detection1Eval(c: bool, rec: Record, env: Env)
    ensures RuleMatches(Detection1, c, rec, env) <==> Eval(Detection1Expr(c), rec, env).Match?
  {
    Detection1Compiles(c);
    MatchesAs(Detection1, c, Detection1Expr(c), rec, env);
  }

  /** The three field tests on a record carrying all three fields. */
  lemma FieldVerdicts(c: bool, rec: Record, env: Env, di: string, ni: string, dp: string, np: string)
    requires Paths(rec, di, ni, dp, np) && "CommandLine" in rec
    ensures TestVerdict(ImageTest(c), rec, env) == FromBool(ni in ImageNames)
    ensures TestVerdict(ParentTest(c), rec, env) == FromBool(np in ParentNames)
    ensures TestVerdict(CommandTest(c), rec, env) == FromBool(HiddenCui(rec["CommandLine"]))
  {
    ImageVerdict(c, rec, di, ni, env);
    ParentVerdict(c, rec, dp, np, env);
    CommandVerdict(c, rec, env);
  }

  /** detection1: a listed executable started by a listed parent, unless the
      command line sets the hidden attributes on a `.cui` file. */
  lemma Detection1Meaning(c: bool, rec: Record, env: Env, di: string, ni: string, dp: string, np: string)
    requires Paths(rec, di, ni, dp, np) && "CommandLine" in rec
    ensures RuleMatches(Detection1, c, rec, env) <==>
      ni in ImageNames && np in ParentNames && !HiddenCui(rec["CommandLine"])
  {
    var image, parent, hidden := ni in ImageNames, np in ParentNames, HiddenCui(rec["CommandLine"]);
    Detection1Eval(c, rec, env);
    FieldVerdicts(c, rec, env, di, ni, dp, np);
    Conj2Verdict(ImageTest(c), ParentTest(c), rec, env);
    Conj1Verdict(CommandTest(c), rec, env);
    Classical(image, parent);
    AndNotApplicable(SelectionRef("selection1", BothImagesPred(c)), "selection3", CommandPred(c), rec, env, image && parent, hidden);
  }

  /** Without `CommandLine` the negated selection is inapplicable, and so
      detection1 cannot match, whatever the images. */
  lemma Detection1NeedsCommand(c: bool, rec: Record, env: Env)
    requires "CommandLine" !in rec
    ensures !RuleMatches(Detection1, c, rec, env)
  {
    Detection1Eval(c, rec, env);
    Conj1Verdict(CommandTest(c), rec, env);
    assert PredicateVerdict(CommandPred(c), rec, env).Inapplicable?;
    NotKeepsInapplicable(SelectionRef("selection1", BothImagesPred(c)), SelectionRef("selection3", CommandPred(c)), rec, env);
  }

  /** Without `ParentImage` the first selection cannot match. */
  lemma Detection1NeedsParent(c: bool, rec: Record, env: Env)
    requires "ParentImage" !in rec
    ensures !RuleMatches(Detection1, c, rec, env)
  {
    Detection1Eval(c, rec, env);
    Conj2Verdict(ImageTest(c), ParentTest(c), rec, env);
  }

  // ------------------------------------------------------- detections 2 to 8

  /** detection2 (parser_test.go:58-79): the two lists as separate
      selections, joined inside parentheses. */
  const Detection2: SigmaRule :=
    SigmaRule([("selection1", Images), ("selection2", Parents), ("selection3", Command)],
      "(selection1 and selection2) and not selection3")

  /** detection3 (parser_test.go:81-102): either list suffices. */
  const Detection3: SigmaRule :=
    SigmaRule([("selection1", Images), ("selection2", Parents), ("selection3", Command)],
      "(selection1 or selection2) and not selection3")

  /** detection4 (parser_test.go:133-154): every selection named
      `selection...`. */
  const Detection4: SigmaRule :=
    SigmaRule([("selection1", Images), ("selection2", Parents), ("filter", Command)],
      "all of selection* and not filter")

  /** detection5 (parser_test.go:156-177): one selection named
      `selection...`. */
  const Detection5: SigmaRule :=
    SigmaRule([("selection1", Images), ("selection2", Parents), ("filter", Command)],
      "1 of selection* and not filter")

  /** detection6 (parser_test.go:179-198): every selection. */
  const Detection6: SigmaRule :=
    SigmaRule([("selection_images", Images), ("selection_parent_images", Parents)], "all of them")

  /** detection7 (parser_test.go:219-238): one selection. */
  const Detection7: SigmaRule :=
    SigmaRule([("selection_images", Images), ("selection_parent_images", Parents)], "1 of them")

  /** detection8 (parser_test.go:254-274) is the text of detection1. */
  const Detection8: SigmaRule := Detection1

  function ThreeSels(c: bool): seq<Named> {
    [("selection1", ImagesPred(c)), ("selection2", ParentsPred(c)), ("selection3", CommandPred(c))]
  }

  function FilterSels(c: bool): seq<Named> {
    [("selection1", ImagesPred(c)), ("selection2", ParentsPred(c)), ("filter", CommandPred(c))]
  }

  function ThemSels(c: bool): seq<Named> {
    [("selection_images", ImagesPred(c)), ("selection_parent_images", ParentsPred(c))]
  }

  lemma ThreeSelsCompile(raws: seq<(string, RawSelection)>, c: bool)
    requires raws == [("selection1", Images), ("selection2", Parents), ("selection3", Command)]
    ensures CompileSelections(raws, c) == Ok(ThreeSels(c))
  {
    ImagesCompiles(c);
    ParentsCompiles(c);
    CommandCompiles(c);
    SelectionsCompile3(raws, "selection1", Images, ImagesPred(c), "selection2", Parents, ParentsPred(c),
      "selection3", Command, CommandPred(c), c);
  }

  lemma FilterSelsCompile(raws: seq<(string, RawSelection)>, c: bool)
    requires raws == [("selection1", Images), ("selection2", Parents), ("filter", Command)]
    ensures CompileSelections(raws, c) == Ok(FilterSels(c))
  {
    ImagesCompiles(c);
    ParentsCompiles(c);
    CommandCompiles(c);
    SelectionsCompile3(raws, "selection1", Images, ImagesPred(c), "selection2", Parents, ParentsPred(c),
      "filter", Command, CommandPred(c), c);
  }

  lemma ThemSelsCompile(raws: seq<(string, RawSelection)>, c: bool)
    requires raws == [("selection_images", Images), ("selection_parent_images", Parents)]
    ensures CompileSelections(raws, c) == Ok(ThemSels(c))
  {
    ImagesCompiles(c);
    ParentsCompiles(c);
    SelectionsCompile2(raws, "selection_images", Images, ImagesPred(c), "selection_parent_images", Parents, ParentsPred(c), c);
  }

  /** `(a op b) and not c` over the three selections. */
  function GroupExpr(op: Token, c: bool): Expr
    requires op == KwAnd || op == KwOr
  {
    var l, r := SelectionRef("selection1", ImagesPred(c)), SelectionRef("selection2", ParentsPred(c));
    AndNode(if op == KwAnd then AndNode(l, r) else OrNode(l, r), NotNode(SelectionRef("selection3", CommandPred(c))))
  }

  /** `N of selection* and not filter`. */
  function StemExpr(q: Quantifier, c: bool): Expr {
    AndNode(CountOf(q, [ImagesPred(c), ParentsPred(c)]), NotNode(SelectionRef("filter", CommandPred(c))))
  }

  lemma Detection2Piece1()
    ensures ")" + (" and not " + "selection3") == ") and not selection3"
  {
  }

  lemma Detection2Piece2()
    ensures " " + ("selection2" + ") and not selection3") == " selection2) and not selection3"
  {
  }

  lemma Detection2Piece3()
    ensures " and" + " selection2) and not selection3" == " and selection2) and not selection3"
    ensures " " + "and" == " and"
  {
  }

  lemma Detection2Piece4()
    ensures "(selection1" + " and selection2) and not selection3" == "(selection1 and selection2) and not selection3"
  {
  }

  /** The condition spelled as the parenthesised shape. */
  lemma Detection2Text(s: string)
    requires s == Detection2.condition
    ensures s == "(" + ("selection1" + (" " + (Spell(KwAnd) + (" " + ("selection2" + (")" + (" and not " + "selection3")))))))
  {
    Detection2Piece1();
    Detection2Piece2();
    Detection2Piece3();
    Detection2Piece4();
    assert Spell(KwAnd) == "and";
    Assoc(" ", "and", " selection2) and not selection3");
    Assoc("(", "selection1", " and selection2) and not selection3");
  }

  lemma Detection2Reads()
    ensures Reads(Detection2.condition, And(Binary(KwAnd, Ref("selection1"), Ref("selection2")), Not(Ref("selection3"))))
  {
    RuleNames();
    Detection2Text(Detection2.condition);
    ReadsGroupAndNot(Detection2.condition, "selection1", KwAnd, "selection2", "selection3");
  }

  lemma Detection3Piece1()
    ensures ")" + (" and not " + "selection3") == ") and not selection3"
  {
  }

  lemma Detection3Piece2()
    ensures " " + ("selection2" + ") and not selection3") == " selection2) and not selection3"
  {
  }

  lemma Detection3Piece3()
    ensures " or" + " selection2) and not selection3" == " or selection2) and not selection3"
    ensures " " + "or" == " or"
  {
  }

  lemma Detection3Piece4()
    ensures "(selection1" + " or selection2) and not selection3" == "(selection1 or selection2) and not selection3"
  {
  }

  /** The condition spelled as the parenthesised shape. */
  lemma Detection3Text(s: string)
    requires s == Detection3.condition
    ensures s == "(" + ("selection1" + (" " + (Spell(KwOr) + (" " + ("selection2" + (")" + (" and not " + "selection3")))))))
  {
    Detection3Piece1();
    Detection3Piece2();
    Detection3Piece3();
    Detection3Piece4();
    assert Spell(KwOr) == "or";
    Assoc(" ", "or", " selection2) and not selection3");
    Assoc("(", "selection1", " or selection2) and not selection3");
  }

  lemma Detection3Reads()
    ensures Reads(Detection3.condition, And(Binary(KwOr, Ref("selection1"), Ref("selection2")), Not(Ref("selection3"))))
  {
    RuleNames();
    Detection3Text(Detection3.condition);
    ReadsGroupAndNot(Detection3.condition, "selection1", KwOr, "selection2", "selection3");
  }

  lemma Detection4Text()
    ensures Detection4.condition == Spell(QuantifierToken(All)) + (" of " + ("selection" + ("* and not " + "filter")))
  {
    assert Spell(QuantifierToken(All)) == "all";
  }

  lemma Detection4Reads()
    ensures Reads(Detection4.condition, And(Of(All, Starting("selection")), Not(Ref("filter"))))
  {
    RuleNames();
    Detection4Text();
    ReadsQuantAndNot(Detection4.condition, All, "selection", "filter");
  }

  lemma SpellOne()
    ensures Spell(QuantifierToken(Count(1))) == "1"
  {
    assert QuantifierToken(Count(1)) == IntLit(1);
    assert Digits(1) == "1";
  }

  lemma Detection5Text()
    ensures Detection5.condition == Spell(QuantifierToken(Count(1))) + (" of " + ("selection" + ("* and not " + "filter")))
  {
    SpellOne();
  }

  lemma Detection5Reads()
    ensures Reads(Detection5.condition, And(Of(Count(1), Starting("selection")), Not(Ref("filter"))))
  {
    RuleNames();
    Detection5Text();
    ReadsQuantAndNot(Detection5.condition, Count(1), "selection", "filter");
  }

  lemma Detection6Reads()
    ensures Reads(Detection6.condition, Of(All, Them))
  {
    ReadsOfThem(Detection6.condition, All);
  }

  lemma Detection7Reads()
    ensures Reads(Detection7.condition, Of(Count(1), Them))
  {
    ReadsOfThem(Detection7.condition, Count(1));
  }

  lemma GroupResolves(op: Token, c: bool)
    requires op == KwAnd || op == KwOr
    ensures Resolve(And(Binary(op, Ref("selection1"), Ref("selection2")), Not(Ref("selection3"))), ThreeSels(c)) == Ok(GroupExpr(op, c))
  {
    var sels := ThreeSels(c);
    ThreeRefs(c);
    assert Resolve(Not(Ref("selection3")), sels) == Ok(NotNode(SelectionRef("selection3", CommandPred(c))));
  }

  lemma ThreeRefs(c: bool)
    ensures Resolve(Ref("selection1"), ThreeSels(c)) == Ok(SelectionRef("selection1", ImagesPred(c)))
    ensures Resolve(Ref("selection2"), ThreeSels(c)) == Ok(SelectionRef("selection2", ParentsPred(c)))
    ensures Resolve(Ref("selection3"), ThreeSels(c)) == Ok(SelectionRef("selection3", CommandPred(c)))
  {
    var sels := ThreeSels(c);
    FindAt(sels, 0);
    FindAt(sels, 1);
    FindAt(sels, 2);
  }

  lemma StemResolves(q: Quantifier, c: bool)
    ensures Resolve(And(Of(q, Starting("selection")), Not(Ref("filter"))), FilterSels(c)) == Ok(StemExpr(q, c))
  {
    assert StartsWith("selection1", "selection") && StartsWith("selection2", "selection");
    assert !StartsWith("filter", "selection");
    Members3(FilterSels(c), "selection");
    assert Members(FilterSels(c), "selection") == [ImagesPred(c), ParentsPred(c)];
  }

  lemma Detection2Compiles(c: bool)
    ensures CompileRule(Detection2, c) == Ok(GroupExpr(KwAnd, c))
  {
    ThreeSelsCompile(Detection2.selections, c);
    Detection2Reads();
    GroupResolves(KwAnd, c);
    RuleCompiles(Detection2, c, ThreeSels(c), And(Binary(KwAnd, Ref("selection1"), Ref("selection2")), Not(Ref("selection3"))));
  }

  lemma Detection3Compiles(c: bool)
    ensures CompileRule(Detection3, c) == Ok(GroupExpr(KwOr, c))
  {
    ThreeSelsCompile(Detection3.selections, c);
    Detection3Reads();
    GroupResolves(KwOr, c);
    RuleCompiles(Detection3, c, ThreeSels(c), And(Binary(KwOr, Ref("selection1"), Ref("selection2")), Not(Ref("selection3"))));
  }

  lemma Detection4Compiles(c: bool)
    ensures CompileRule(Detection4, c) == Ok(StemExpr(All, c))
  {
    FilterSelsCompile(Detection4.selections, c);
    Detection4Reads();
    StemResolves(All, c);
    RuleCompiles(Detection4, c, FilterSels(c), And(Of(All, Starting("selection")), Not(Ref("filter"))));
  }

  lemma Detection5Compiles(c: bool)
    ensures CompileRule(Detection5, c) == Ok(StemExpr(Count(1), c))
  {
    FilterSelsCompile(Detection5.selections, c);
    Detection5Reads();
    StemResolves(Count(1), c);
    RuleCompiles(Detection5, c, FilterSels(c), And(Of(Count(1), Starting("selection")), Not(Ref("filter"))));
  }

  lemma ThemResolves(q: Quantifier, c: bool)
    ensures Resolve(Of(q, Them), ThemSels(c)) == Ok(CountOf(q, [ImagesPred(c), ParentsPred(c)]))
  {
    assert Predicates(ThemSels(c)) == [ImagesPred(c), ParentsPred(c)];
  }

  lemma Detection6Compiles(c: bool)
    ensures CompileRule(Detection6, c) == Ok(CountOf(All, [ImagesPred(c), ParentsPred(c)]))
  {
    ThemSelsCompile(Detection6.selections, c);
    Detection6Reads();
    ThemResolves(All, c);
    RuleCompiles(Detection6, c, ThemSels(c), Of(All, Them));
  }

  lemma Detection7Compiles(c: bool)
    ensures CompileRule(Detection7, c) == Ok(CountOf(Count(1), [ImagesPred(c), ParentsPred(c)]))
  {
    ThemSelsCompile(Detection7.selections, c);
    Detection7Reads();
    ThemResolves(Count(1), c);
    RuleCompiles(Detection7, c, ThemSels(c), Of(Count(1), Them));
  }

  // ------------------------------------------------------ meanings of 2 to 7

  /** The four selections on a record carrying all three fields. */
  lemma SelectionVerdicts(c: bool, rec: Record, env: Env, di: string, ni: string, dp: string, np: string)
    requires Paths(rec, di, ni, dp, np) && "CommandLine" in rec
    ensures PredicateVerdict(ImagesPred(c), rec, env) == FromBool(ni in ImageNames)
    ensures PredicateVerdict(ParentsPred(c), rec, env) == FromBool(np in ParentNames)
    ensures PredicateVerdict(CommandPred(c), rec, env) == FromBool(HiddenCui(rec["CommandLine"]))
  {
    FieldVerdicts(c, rec, env, di, ni, dp, np);
    Conj1Verdict(ImageTest(c), rec, env);
    Conj1Verdict(ParentTest(c), rec, env);
    Conj1Verdict(CommandTest(c), rec, env);
  }

  /** `(selection1 and selection2) and not selection3` and
      `(selection1 or selection2) and not selection3`. */
  lemma GroupMeaning(op: Token, c: bool, rec: Record, env: Env, di: string, ni: string, dp: string, np: string)
    requires op == KwAnd || op == KwOr
    requires Paths(rec, di, ni, dp, np) && "CommandLine" in rec
    ensures Eval(GroupExpr(op, c), rec, env).Match? <==>
      (if op == KwAnd then ni in ImageNames && np in ParentNames else ni in ImageNames || np in ParentNames)
      && !HiddenCui(rec["CommandLine"])
  {
    var image, parent, hidden := ni in ImageNames, np in ParentNames, HiddenCui(rec["CommandLine"]);
    SelectionVerdicts(c, rec, env, di, ni, dp, np);
    Classical(image, parent);
    var l, r := SelectionRef("selection1", ImagesPred(c)), SelectionRef("selection2", ParentsPred(c));
    var x := if op == KwAnd then AndNode(l, r) else OrNode(l, r);
    AndNotApplicable(x, "selection3", CommandPred(c), rec, env, if op == KwAnd then image && parent else image || parent, hidden);
  }

  /** `all of selection* and not filter` and `1 of selection* and not filter`. */
  lemma StemMeaning(q: Quantifier, c: bool, rec: Record, env: Env, di: string, ni: string, dp: string, np: string)
    requires q == All || q == Count(1)
    requires Paths(rec, di, ni, dp, np) && "CommandLine" in rec
    ensures Eval(StemExpr(q, c), rec, env).Match? <==>
      (if q == All then ni in ImageNames && np in ParentNames else ni in ImageNames || np in ParentNames)
      && !HiddenCui(rec["CommandLine"])
  {
    var image, parent, hidden := ni in ImageNames, np in ParentNames, HiddenCui(rec["CommandLine"]);
    SelectionVerdicts(c, rec, env, di, ni, dp, np);
    Classical(image, parent);
    Over2(ImagesPred(c), ParentsPred(c), rec, env);
    AndNotApplicable(CountOf(q, [ImagesPred(c), ParentsPred(c)]), "filter", CommandPred(c), rec, env,
      if q == All then image && parent else image || parent, hidden);
  }

  /** detection2: both lists, unless the command line hides a `.cui` file. */
  lemma Detection2Meaning(c: bool, rec: Record, env: Env, di: string, ni: string, dp: string, np: string)
    requires Paths(rec, di, ni, dp, np) && "CommandLine" in rec
    ensures RuleMatches(Detection2, c, rec, env) <==>
      ni in ImageNames && np in ParentNames && !HiddenCui(rec["CommandLine"])
  {
    Detection2Compiles(c);
    MatchesAs(Detection2, c, GroupExpr(KwAnd, c), rec, env);
    GroupMeaning(KwAnd, c, rec, env, di, ni, dp, np);
  }

  /** detection3: either list, unless the command line hides a `.cui` file. */
  lemma Detection3Meaning(c: bool, rec: Record, env: Env, di: string, ni: string, dp: string, np: string)
    requires Paths(rec, di, ni, dp, np) && "CommandLine" in rec
    ensures RuleMatches(Detection3, c, rec, env) <==>
      (ni in ImageNames || np in ParentNames) && !HiddenCui(rec["CommandLine"])
  {
    Detection3Compiles(c);
    MatchesAs(Detection3, c, GroupExpr(KwOr, c), rec, env);
    GroupMeaning(KwOr, c, rec, env, di, ni, dp, np);
  }

  /** detection4 means what detection2 means: `selection*` covers exactly the
      two list selections. */
  lemma Detection4Meaning(c: bool, rec: Record, env: Env, di: string, ni: string, dp: string, np: string)
    requires Paths(rec, di, ni, dp, np) && "CommandLine" in rec
    ensures RuleMatches(Detection4, c, rec, env) <==>
      ni in ImageNames && np in ParentNames && !HiddenCui(rec["CommandLine"])
  {
    Detection4Compiles(c);
    MatchesAs(Detection4, c, StemExpr(All, c), rec, env);
    StemMeaning(All, c, rec, env, di, ni, dp, np);
  }

  /** detection5 means what detection3 means. */
  lemma Detection5Meaning(c: bool, rec: Record, env: Env, di: string, ni: string, dp: string, np: string)
    requires Paths(rec, di, ni, dp, np) && "CommandLine" in rec
    ensures RuleMatches(Detection5, c, rec, env) <==>
      (ni in ImageNames || np in ParentNames) && !HiddenCui(rec["CommandLine"])
  {
    Detection5Compiles(c);
    MatchesAs(Detection5, c, StemExpr(Count(1), c), rec, env);
    StemMeaning(Count(1), c, rec, env, di, ni, dp, np);
  }

  /** detection6: both lists; the command line plays no part. */
  lemma Detection6Meaning(c: bool, rec: Record, env: Env, di: string, ni: string, dp: string, np: string)
    requires Paths(rec, di, ni, dp, np)
    ensures RuleMatches(Detection6, c, rec, env) <==> ni in ImageNames && np in ParentNames
  {
    Detection6Compiles(c);
    MatchesAs(Detection6, c, CountOf(All, [ImagesPred(c), ParentsPred(c)]), rec, env);
    ImageVerdict(c, rec, di, ni, env);
    ParentVerdict(c, rec, dp, np, env);
    Conj1Verdict(ImageTest(c), rec, env);
    Conj1Verdict(ParentTest(c), rec, env);
    Over2(ImagesPred(c), ParentsPred(c), rec, env);
  }

  /** detection7: either list. */
  lemma Detection7Meaning(c: bool, rec: Record, env: Env, di: string, ni: string, dp: string, np: string)
    requires Paths(rec, di, ni, dp, np)
    ensures RuleMatches(Detection7, c, rec, env) <==> ni in ImageNames || np in ParentNames
  {
    Detection7Compiles(c);
    MatchesAs(Detection7, c, CountOf(Count(1), [ImagesPred(c), ParentsPred(c)]), rec, env);
    ImageVerdict(c, rec, di, ni, env);
    ParentVerdict(c, rec, dp, np, env);
    Conj1Verdict(ImageTest(c), rec, env);
    Conj1Verdict(ParentTest(c), rec, env);
    Over2(ImagesPred(c), ParentsPred(c), rec, env);
  }

  /** Without `ParentImage`, detection7 rests on the image alone. */
  lemma Detection7WithoutParent(c: bool, rec: Record, env: Env, di: string, ni: string)
    requires "Image" in rec && rec["Image"] == di + "\\" + ni && '\\' !in ni
    requires "ParentImage" !in rec
    ensures RuleMatches(Detection7, c, rec, env) <==> ni in ImageNames
  {
    Detection7Compiles(c);
    MatchesAs(Detection7, c, CountOf(Count(1), [ImagesPred(c), ParentsPred(c)]), rec, env);
    ImageVerdict(c, rec, di, ni, env);
    Conj1Verdict(ImageTest(c), rec, env);
    Conj1Verdict(ParentTest(c), rec, env);
    Over2(ImagesPred(c), ParentsPred(c), rec, env);
  }

  /** Without `ParentImage`, detection2 cannot match. */
  lemma Detection2NeedsParent(c: bool, rec: Record, env: Env)
    requires "ParentImage" !in rec
    ensures !RuleMatches(Detection2, c, rec, env)
  {
    Detection2Compiles(c);
    MatchesAs(Detection2, c, GroupExpr(KwAnd, c), rec, env);
    Conj1Verdict(ParentTest(c), rec, env);
    assert !Eval(AndNode(SelectionRef("selection1", ImagesPred(c)), SelectionRef("selection2", ParentsPred(c))), rec, env).Match?;
  }

  /** Without `ParentImage`, detection4 cannot match. */
  lemma Detection4NeedsParent(c: bool, rec: Record, env: Env)
    requires "ParentImage" !in rec
    ensures !RuleMatches(Detection4, c, rec, env)
  {
    Detection4Compiles(c);
    MatchesAs(Detection4, c, StemExpr(All, c), rec, env);
    Conj1Verdict(ParentTest(c), rec, env);
    Over2(ImagesPred(c), ParentsPred(c), rec, env);
    assert !Eval(CountOf(All, [ImagesPred(c), ParentsPred(c)]), rec, env).Match?;
  }

  // ---------------------------------------------------------------- vectors

  /** Which last components the lists name. */
  lemma Names()
    ensures "bitsadmin.exe" in ImageNames && "bytesadmin.exe" !in ImageNames
    ensures "wmiprvse.exe" in ParentNames && "mshta.exe" in ParentNames
    ensures "lll.exe" !in ParentNames && "gofmt" !in ParentNames
  {
    assert ImageNames[3] == "bitsadmin.exe";
    assert ParentNames[6] == "wmiprvse.exe";
    assert ParentNames[0] == "mshta.exe";
  }

  /** The test driver decodes every document of a case into the same map, so
      a later document keeps the fields it does not mention from the earlier
      ones. In each case below the accumulated record is the first
      negative's. */
  lemma Overrides1()
    ensures PositiveMap + Negative1Map == Negative1Map
  {
    OverrideAll(PositiveMap, Negative1Map);
  }

  lemma Overrides2()
    ensures Negative1Map + Negative2Map == Negative1Map
  {
    OverrideSame(Negative1Map, Negative2Map);
  }

  lemma Overrides8()
    ensures Negative1Map + Negative8Map == Negative1Map
  {
    OverrideSame(Negative1Map, Negative8Map);
  }

  lemma Overrides7()
    ensures PositiveMap + PositiveMap + Negative7Map == Negative7Map
  {
    OverrideAll(PositiveMap, PositiveMap);
    OverrideAll(PositiveMap, Negative7Map);
  }

  lemma Overrides7b()
    ensures Negative7Map + Negative7bMap == Negative7Map
  {
    OverrideSame(Negative7Map, Negative7bMap);
  }

  lemma Accumulated1()
    ensures RecordOf(Positive + Negative1 + Negative2) == Negative1Map
  {
    PositiveRecords();
    Negative1Record();
    ShortRecords();
    Accumulate3(Positive, Negative1, Negative2, PositiveMap, Negative1Map, Negative2Map);
    Overrides1();
    Overrides2();
  }

  lemma Accumulated8()
    ensures RecordOf(Positive + Negative1 + Negative8) == Negative1Map
  {
    PositiveRecords();
    Negative1Record();
    ShortRecords();
    Accumulate3(Positive, Negative1, Negative8, PositiveMap, Negative1Map, Negative8Map);
    Overrides1();
    Overrides8();
  }

  lemma Accumulated7()
    ensures RecordOf(Positive3a + Positive3b + Negative7a + Negative7b) == Negative7Map
  {
    PositiveRecords();
    Negative7Record();
    ShortRecords();
    Accumulate3(Positive3a, Positive3b, Negative7a, PositiveMap, PositiveMap, Negative7Map);
    RecordAppend(Positive3a + Positive3b + Negative7a, Negative7b);
    Overrides7();
    Overrides7b();
  }

  /** detection1 (parser_test.go:588-592): the positive matches, both
      negatives do not, alone or accumulated. */
  lemma Detection1Vectors(c: bool, env: Env)
    ensures RuleMatches(Detection1, c, RecordOf(Positive), env)
    ensures !RuleMatches(Detection1, c, RecordOf(Negative1), env)
    ensures !RuleMatches(Detection1, c, RecordOf(Negative2), env)
    ensures !RuleMatches(Detection1, c, RecordOf(Positive + Negative1 + Negative2), env)
  {
    PositiveRecords();
    Negative1Record();
    ShortRecords();
    Accumulated1();
    Names();
    CommandLines();
    PositivePaths();
    Negative1Paths();
    Detection1Meaning(c, PositiveMap, env, "C:\\test", "bitsadmin.exe", "C:\\test", "wmiprvse.exe");
    Detection1Meaning(c, Negative1Map, env, "C:\\test", "bitsadmin.exe", "C:\\test", "mshta.exe");
    Detection1NeedsParent(c, Negative2Map, env);
  }

  /** The facts every vector lemma below starts from. */
  lemma VectorFacts()
    ensures RecordOf(Positive) == PositiveMap && RecordOf(Positive3a) == PositiveMap && RecordOf(Positive3b) == PositiveMap
    ensures RecordOf(Negative1) == Negative1Map
    ensures Paths(PositiveMap, "C:\\test", "bitsadmin.exe", "C:\\test", "wmiprvse.exe") && PositiveMap["CommandLine"] == "aaa"
    ensures Paths(Negative1Map, "C:\\test", "bitsadmin.exe", "C:\\test", "mshta.exe")
    ensures Negative1Map["CommandLine"] == "+R +H +S +A lll.cui"
    ensures HiddenCui("+R +H +S +A lll.cui") && !HiddenCui("aaa")
    ensures "bitsadmin.exe" in ImageNames && "bytesadmin.exe" !in ImageNames
    ensures "wmiprvse.exe" in ParentNames && "mshta.exe" in ParentNames
    ensures "lll.exe" !in ParentNames && "gofmt" !in ParentNames
  {
    PositiveRecords();
    Negative1Record();
    Names();
    CommandLines();
    PositivePaths();
    Negative1Paths();
  }

  /** detection2 (parser_test.go:593-597). */
  lemma Detection2Vectors(c: bool, env: Env)
    ensures RuleMatches(Detection2, c, RecordOf(Positive), env)
    ensures !RuleMatches(Detection2, c, RecordOf(Negative1), env)
    ensures !RuleMatches(Detection2, c, RecordOf(Negative2), env)
    ensures !RuleMatches(Detection2, c, RecordOf(Positive + Negative1 + Negative2), env)
  {
    VectorFacts();
    ShortRecords();
    Accumulated1();
    Detection2Meaning(c, PositiveMap, env, "C:\\test", "bitsadmin.exe", "C:\\test", "wmiprvse.exe");
    Detection2Meaning(c, Negative1Map, env, "C:\\test", "bitsadmin.exe", "C:\\test", "mshta.exe");
    Detection2NeedsParent(c, Negative2Map, env);
  }

  /** detection3 (parser_test.go:598-602). */
  lemma Detection3Vectors(c: bool, env: Env)
    ensures RuleMatches(Detection3, c, RecordOf(Positive3a), env)
    ensures RuleMatches(Detection3, c, RecordOf(Positive3b), env)
    ensures !RuleMatches(Detection3, c, RecordOf(Negative1), env)
  {
    VectorFacts();
    Detection3Meaning(c, PositiveMap, env, "C:\\test", "bitsadmin.exe", "C:\\test", "wmiprvse.exe");
    Detection3Meaning(c, Negative1Map, env, "C:\\test", "bitsadmin.exe", "C:\\test", "mshta.exe");
  }

  /** detection4 (parser_test.go:603-607). */
  lemma Detection4Vectors(c: bool, env: Env)
    ensures RuleMatches(Detection4, c, RecordOf(Positive), env)
    ensures !RuleMatches(Detection4, c, RecordOf(Negative1), env)
    ensures !RuleMatches(Detection4, c, RecordOf(Negative2), env)
    ensures !RuleMatches(Detection4, c, RecordOf(Positive + Negative1 + Negative2), env)
  {
    VectorFacts();
    ShortRecords();
    Accumulated1();
    Detection4Meaning(c, PositiveMap, env, "C:\\test", "bitsadmin.exe", "C:\\test", "wmiprvse.exe");
    Detection4Meaning(c, Negative1Map, env, "C:\\test", "bitsadmin.exe", "C:\\test", "mshta.exe");
    Detection4NeedsParent(c, Negative2Map, env);
  }

  /** detection5 (parser_test.go:608-612). */
  lemma Detection5Vectors(c: bool, env: Env)
    ensures RuleMatches(Detection5, c, RecordOf(Positive3a), env)
    ensures RuleMatches(Detection5, c, RecordOf(Positive3b), env)
    ensures !RuleMatches(Detection5, c, RecordOf(Negative1), env)
  {
    VectorFacts();
    Detection5Meaning(c, PositiveMap, env, "C:\\test", "bitsadmin.exe", "C:\\test", "wmiprvse.exe");
    Detection5Meaning(c, Negative1Map, env, "C:\\test", "bitsadmin.exe", "C:\\test", "mshta.exe");
  }

  /** detection6 (parser_test.go:613-617): the parent `C:\test\mshta\lll.exe`
      has `lll.exe` as its last component. */
  lemma Detection6Vectors(c: bool, env: Env)
    ensures RuleMatches(Detection6, c, RecordOf(Positive), env)
    ensures !RuleMatches(Detection6, c, RecordOf(Negative6), env)
  {
    VectorFacts();
    Negative6Record();
    Negative6Paths();
    Detection6Meaning(c, PositiveMap, env, "C:\\test", "bitsadmin.exe", "C:\\test", "wmiprvse.exe");
    Detection6Meaning(c, Negative6Map, env, "C:\\test", "bitsadmin.exe", "C:\\test\\mshta", "lll.exe");
  }

  /** detection7 (parser_test.go:618-622). */
  lemma Detection7Vectors(c: bool, env: Env)
    ensures RuleMatches(Detection7, c, RecordOf(Positive3a), env)
    ensures RuleMatches(Detection7, c, RecordOf(Positive3b), env)
    ensures !RuleMatches(Detection7, c, RecordOf(Negative7a), env)
    ensures !RuleMatches(Detection7, c, RecordOf(Negative7b), env)
    ensures !RuleMatches(Detection7, c, RecordOf(Positive3a + Positive3b + Negative7a + Negative7b), env)
  {
    VectorFacts();
    Negative7Record();
    Negative7Paths();
    ShortRecords();
    Accumulated7();
    Detection7Meaning(c, PositiveMap, env, "C:\\test", "bitsadmin.exe", "C:\\test", "wmiprvse.exe");
    Detection7Meaning(c, Negative7Map, env, "C:\\test", "bytesadmin.exe", "E:\\go\\bin", "gofmt");
    Negative7bPath();
    Detection7WithoutParent(c, Negative7bMap, env, "C:\\test", "bytesadmin.exe");
  }

  /** detection8 (parser_test.go:623-627). The test evaluates the second
      negative with the first negative's fields still in the record, so its
      `CommandLine` carries a hidden `.cui` and `selection3` matches; read
      alone, that document fails because the negated selection is
      inapplicable. */
  lemma Detection8Vectors(c: bool, env: Env)
    ensures RuleMatches(Detection8, c, RecordOf(Positive), env)
    ensures !RuleMatches(Detection8, c, RecordOf(Negative1), env)
    ensures !RuleMatches(Detection8, c, RecordOf(Negative8), env)
    ensures !RuleMatches(Detection8, c, RecordOf(Positive + Negative1 + Negative8), env)
  {
    Detection1Vectors(c, env);
    ShortRecords();
    Accumulated8();
    Detection1NeedsCommand(c, Negative8Map, env);
  }
}
