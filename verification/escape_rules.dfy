/** detection13 of parser_test.go: unmodified patterns that mix live
    wildcards, escaped wildcards, escaped and lone backslashes and brackets.
    Each pattern is read into atoms once, the reading is stated in terms of
    prefixes and suffixes where it has that shape, and the eight documents
    the test decodes are checked against the rule. */
module EscapeRules {
  import opened Results
  import opened Text
  import opened Glob
  import opened Escape
  import opened EscapeFacts
  import opened EscapeVectors
  import opened Verdicts
  import opened Selection
  import opened Condition
  import opened Rule
  import opened ConditionVectors
  import opened RuleFacts

  /** Literal pieces followed by more atoms join into one literal piece. */
  lemma LitsThen(a: string, b: string, t: seq<Atom>)
    ensures Lits(a) + (Lits(b) + t) == Lits(a + b) + t
  {
    LitsConcat(a, b);
  }

  /** A literal prefix, then a star, then a literal suffix. */
  lemma MatchPrefixStarSuffix(w: string, e: string, v: string)
    ensures MatchAtoms(Lits(w) + ([Star] + Lits(e)), v) <==> StartsWith(v, w) && EndsWith(v[|w|..], e)
  {
    MatchLitsPrefix(w, [Star] + Lits(e), v);
    if StartsWith(v, w) {
      MatchStarSuffix(e, v[|w|..]);
    }
  }

  // ------------------------------------------------------------- patterns

  /** `*\bits\*admin.exe`: a live star, then `\bits`, an escaped star and
      `admin.exe`. */
  const Bits: string := "*\\bits\\*admin.exe"
  /** `\\\\DoubleBackslash\\some*.exe`: two escaped backslashes, a word, one
      escaped backslash, a word, a live star. */
  const DoubleBackslash: string := "\\\\\\\\DoubleBackslash\\\\some*.exe"
  /** `[Windows-*]\image.???`: brackets are literal, a lone backslash is
      literal, the star and the three `?` are live. */
  const Bracketed: string := "[Windows-*]\\image.???"
  /** `\leadingBackslash\\*.exe`: a lone leading backslash, an escaped one,
      a live star. */
  const Leading: string := "\\leadingBackslash\\\\*.exe"
  /** `full\\\*plaintext.exe`: an escaped backslash and an escaped star, so no
      wildcard at all. */
  const FullPlain: string := "full\\\\\\*plaintext.exe"
  /** `{000-aaa-*}\\*.exe`: braces are literal, two live stars. */
  const Braced: string := "{000-aaa-*}\\\\*.exe"

  /** What `[Windows-*]\image.???` reads as. */
  const BracketAtoms: seq<Atom> := Lits("[Windows-") + ([Star] + (Lits("]\\image.") + [One, One, One]))
  /** What `{000-aaa-*}\\*.exe` reads as. */
  const BraceAtoms: seq<Atom> := Lits("{000-aaa-") + ([Star] + (Lits("}\\") + ([Star] + Lits(".exe"))))

  // ---- `*\bits\*admin.exe`

  lemma BitsCut()
    ensures Bits == "*" + ("\\bits" + ("\\*" + "admin.exe"))
  {
  }

  lemma BitsAtoms(a: string, b: string)
    requires a == "\\bits" && b == "admin.exe"
    ensures SourceAtoms("*" + (a + ("\\*" + b))) == [Star] + (Lits(a) + ([Lit('*')] + Lits(b)))
  {
    assert "*" + (a + ("\\*" + b)) == ['*'] + (a + ("\\*" + b));
    SourceChar('*', a + ("\\*" + b));
    SourcePlainPrefix(a, "\\*" + b);
    assert "\\*" + b == ['\\', '*'] + b;
    SourceEscapedPair('*', b);
    SourcePlain(b);
  }

  lemma BitsNormal(a: string, b: string)
    requires a == "\\bits" && b == "admin.exe"
    ensures Lits(a) + ([Lit('*')] + Lits(b)) == Lits("\\bits*admin.exe")
  {
    assert [Lit('*')] == Lits("*");
    LitsConcat("*", b);
    LitsConcat(a, "*" + b);
    assert a + ("*" + b) == "\\bits*admin.exe";
  }

  /** The first image pattern matches the paths ending in `\bits*admin.exe`,
      with a literal star. */
  lemma BitsPattern(c: bool, v: string, env: Env)
    ensures PatternMatches(Wildcard, c, Bits, v, env) <==> EndsWith(v, "\\bits*admin.exe")
  {
    NotPlaceholder(Bits, c);
    LiteralPattern(c, Bits, v, env);
    BitsCut();
    BitsAtoms("\\bits", "admin.exe");
    BitsNormal("\\bits", "admin.exe");
    MatchStarSuffix("\\bits*admin.exe", v);
  }

  // ---- `\\\\DoubleBackslash\\some*.exe`

  lemma DoubleCut()
    ensures DoubleBackslash == Backslashes(4) + ("DoubleBackslash" + (Backslashes(2) + ("some" + ("*" + ".exe"))))
  {
  }

  lemma DoubleAtoms(d: string, w: string, e: string)
    requires d == "DoubleBackslash" && w == "some" && e == ".exe"
    ensures SourceAtoms(Backslashes(4) + (d + (Backslashes(2) + (w + ("*" + e))))) ==
      LitBackslashes(2) + (Lits(d) + (LitBackslashes(1) + (Lits(w) + ([Star] + Lits(e)))))
  {
    StarThen("*" + e, e);
    SourcePlainPrefix(w, "*" + e);
    SourceEvenRun(1, w + ("*" + e));
    SourcePlainPrefix(d, Backslashes(2) + (w + ("*" + e)));
    SourceEvenRun(2, d + (Backslashes(2) + (w + ("*" + e))));
  }

  lemma DoublePrefix()
    ensures Backslashes(2) + ("DoubleBackslash" + (Backslashes(1) + "some")) == "\\\\DoubleBackslash\\some"
  {
  }

  lemma DoubleNormal(d: string, w: string, t: seq<Atom>)
    requires d == "DoubleBackslash" && w == "some"
    ensures LitBackslashes(2) + (Lits(d) + (LitBackslashes(1) + (Lits(w) + t))) == Lits("\\\\DoubleBackslash\\some") + t
  {
    LitBackslashesAre(2);
    LitBackslashesAre(1);
    LitsThen(Backslashes(1), w, t);
    LitsThen(d, Backslashes(1) + w, t);
    LitsThen(Backslashes(2), d + (Backslashes(1) + w), t);
    DoublePrefix();
  }

  /** The second image pattern matches the values that start with two
      backslashes, `DoubleBackslash`, one backslash and `some`, and end in
      `.exe` after that. */
  lemma DoublePattern(c: bool, v: string, env: Env)
    ensures PatternMatches(Wildcard, c, DoubleBackslash, v, env) <==>
      StartsWith(v, "\\\\DoubleBackslash\\some") && EndsWith(v[22..], ".exe")
  {
    NotPlaceholder(DoubleBackslash, c);
    LiteralPattern(c, DoubleBackslash, v, env);
    DoubleCut();
    DoubleAtoms("DoubleBackslash", "some", ".exe");
    DoubleNormal("DoubleBackslash", "some", [Star] + Lits(".exe"));
    MatchPrefixStarSuffix("\\\\DoubleBackslash\\some", ".exe", v);
  }

  // ---- `[Windows-*]\image.???`

  lemma BracketCut()
    ensures Bracketed == "[Windows-" + ("*" + ("]\\image." + "???"))
  {
  }

  lemma BracketAtomsRead(w: string, m: string, q: string)
    requires w == "[Windows-" && m == "]\\image." && q == "???"
    ensures SourceAtoms(w + ("*" + (m + q))) == Lits(w) + ([Star] + (Lits(m) + [One, One, One]))
  {
    Ones3();
    SourcePlainPrefix(m, q);
    assert "*" + (m + q) == ['*'] + (m + q);
    SourceChar('*', m + q);
    SourcePlainPrefix(w, "*" + (m + q));
  }

  /** The third image pattern reads as `[Windows-`, a star, `]\image.` and
      three single-character wildcards. */
  lemma BracketPattern(c: bool, v: string, env: Env)
    ensures PatternMatches(Wildcard, c, Bracketed, v, env) <==> MatchAtoms(BracketAtoms, v)
  {
    NotPlaceholder(Bracketed, c);
    LiteralPattern(c, Bracketed, v, env);
    BracketCut();
    BracketAtomsRead("[Windows-", "]\\image.", "???");
  }

  // ---- `\leadingBackslash\\*.exe`

  lemma LeadingCut()
    ensures Leading == "\\leadingBackslash" + (Backslashes(2) + ("*" + ".exe"))
  {
  }

  lemma LeadingPrefix()
    ensures "\\leadingBackslash" + Backslashes(1) == "\\leadingBackslash\\"
  {
  }

  lemma LeadingAtoms(l: string, e: string)
    requires l == "\\leadingBackslash" && e == ".exe"
    ensures SourceAtoms(l + (Backslashes(2) + ("*" + e))) == Lits(l) + (LitBackslashes(1) + ([Star] + Lits(e)))
  {
    StarThen("*" + e, e);
    SourceEvenRun(1, "*" + e);
    SourcePlainPrefix(l, Backslashes(2) + ("*" + e));
  }

  lemma LeadingNormal(l: string, t: seq<Atom>)
    requires l == "\\leadingBackslash"
    ensures Lits(l) + (LitBackslashes(1) + t) == Lits("\\leadingBackslash\\") + t
  {
    LitBackslashesAre(1);
    LitsThen(l, Backslashes(1), t);
    LeadingPrefix();
  }

  /** The first parent pattern matches the values that start with a
      backslash, `leadingBackslash` and a backslash, and end in `.exe` after
      that. */
  lemma LeadingPattern(c: bool, v: string, env: Env)
    ensures PatternMatches(Wildcard, c, Leading, v, env) <==>
      StartsWith(v, "\\leadingBackslash\\") && EndsWith(v[18..], ".exe")
  {
    NotPlaceholder(Leading, c);
    LiteralPattern(c, Leading, v, env);
    LeadingCut();
    LeadingAtoms("\\leadingBackslash", ".exe");
    LeadingNormal("\\leadingBackslash", [Star] + Lits(".exe"));
    MatchPrefixStarSuffix("\\leadingBackslash\\", ".exe", v);
  }

  // ---- `full\\\*plaintext.exe`

  lemma FullCut()
    ensures FullPlain == "full" + (Backslashes(2 * 1 + 1) + ['*'] + "plaintext.exe")
  {
  }

  lemma FullText()
    ensures "full" + (Backslashes(1) + ("*" + "plaintext.exe")) == "full\\*plaintext.exe"
  {
  }

  lemma FullAtoms(f: string, x: string)
    requires f == "full" && x == "plaintext.exe"
    ensures SourceAtoms(f + (Backslashes(2 * 1 + 1) + ['*'] + x)) == Lits(f) + (LitBackslashes(1) + [Lit('*')] + Lits(x))
  {
    SourceOddWildcard(1, '*', x);
    SourcePlain(x);
    SourcePlainPrefix(f, Backslashes(2 * 1 + 1) + ['*'] + x);
  }

  lemma FullNormal(f: string, x: string)
    requires f == "full" && x == "plaintext.exe"
    ensures Lits(f) + (LitBackslashes(1) + [Lit('*')] + Lits(x)) == Lits(f + (Backslashes(1) + ("*" + x)))
  {
    LitBackslashesAre(1);
    LitsConcat("*", x);
    assert [Lit('*')] == Lits("*");
    LitsConcat(Backslashes(1), "*" + x);
    LitsConcat(f, Backslashes(1) + ("*" + x));
  }

  /** The second parent pattern has no live wildcard: it matches exactly
      `full\*plaintext.exe`. */
  lemma FullPattern(c: bool, v: string, env: Env)
    ensures PatternMatches(Wildcard, c, FullPlain, v, env) <==> v == "full\\*plaintext.exe"
  {
    NotPlaceholder(FullPlain, c);
    LiteralPattern(c, FullPlain, v, env);
    FullCut();
    FullAtoms("full", "plaintext.exe");
    FullNormal("full", "plaintext.exe");
    FullText();
    MatchLits("full\\*plaintext.exe", v);
  }

  // ---- `{000-aaa-*}\\\\*.exe`

  lemma BraceCut()
    ensures Braced == "{000-aaa-" + ("*" + ("}" + (Backslashes(2) + ("*" + ".exe"))))
  {
  }

  lemma BraceTail(r: string, e: string)
    requires r == "}" && e == ".exe"
    ensures SourceAtoms(r + (Backslashes(2) + ("*" + e))) == Lits("}\\") + ([Star] + Lits(e))
  {
    StarThen("*" + e, e);
    SourceEvenRun(1, "*" + e);
    SourcePlainPrefix(r, Backslashes(2) + ("*" + e));
    LitBackslashesAre(1);
    LitsThen(r, Backslashes(1), [Star] + Lits(e));
    assert r + Backslashes(1) == "}\\";
  }

  lemma BraceAtomsRead(w: string, tail: string)
    requires w == "{000-aaa-" && tail == "}" + (Backslashes(2) + ("*" + ".exe"))
    ensures SourceAtoms(w + ("*" + tail)) == BraceAtoms
  {
    BraceTail("}", ".exe");
    assert "*" + tail == ['*'] + tail;
    SourceChar('*', tail);
    SourcePlainPrefix(w, "*" + tail);
  }

  /** The third parent pattern reads as `{000-aaa-`, a star, `}\`, a star
      and `.exe`. */
  lemma BracePattern(c: bool, v: string, env: Env)
    ensures PatternMatches(Wildcard, c, Braced, v, env) <==> MatchAtoms(BraceAtoms, v)
  {
    NotPlaceholder(Braced, c);
    LiteralPattern(c, Braced, v, env);
    BraceCut();
    BraceAtomsRead("{000-aaa-", "}" + (Backslashes(2) + ("*" + ".exe")));
  }

  /** A value matching the bracket pattern starts with `[Windows-`. */
  lemma BracketNeedsPrefix(v: string)
    requires MatchAtoms(BracketAtoms, v)
    ensures StartsWith(v, "[Windows-")
  {
    MatchLitsPrefix("[Windows-", [Star] + (Lits("]\\image.") + [One, One, One]), v);
  }

  /** A value matching the brace pattern starts with `{000-aaa-`. */
  lemma BraceNeedsPrefix(v: string)
    requires MatchAtoms(BraceAtoms, v)
    ensures StartsWith(v, "{000-aaa-")
  {
    MatchLitsPrefix("{000-aaa-", [Star] + (Lits("}\\") + ([Star] + Lits(".exe"))), v);
  }

  // ------------------------------------------------------------------ rule

  const ImageGlobs: Entry := ("Image", [Bits, DoubleBackslash, Bracketed])
  const ParentGlobs: Entry := ("ParentImage", [Leading, FullPlain, Braced])
  const ImageSelection: RawSelection := MapForm([ImageGlobs])
  const ParentSelection: RawSelection := MapForm([ParentGlobs])

  function ImageGlobTest(c: bool): FieldTest {
    FieldTest("Image", Wildcard, false, c, [Bits, DoubleBackslash, Bracketed])
  }

  function ParentGlobTest(c: bool): FieldTest {
    FieldTest("ParentImage", Wildcard, false, c, [Leading, FullPlain, Braced])
  }

  /** detection13 (parser_test.go:401-414). */
  const Detection13: SigmaRule :=
    SigmaRule([("selection_images", ImageSelection), ("selection_parent_images", ParentSelection)], "all of them")

  function GlobSels(c: bool): seq<Named> {
    [("selection_images", Conj([ImageGlobTest(c)])), ("selection_parent_images", Conj([ParentGlobTest(c)]))]
  }

  lemma GlobSelsCompile(c: bool)
    ensures CompileSelections(Detection13.selections, c) == Ok(GlobSels(c))
  {
    PlainKey("Image", [Bits, DoubleBackslash, Bracketed], c);
    PlainKey("ParentImage", [Leading, FullPlain, Braced], c);
    MapCompiles1(ImageSelection, ImageGlobs, ImageGlobTest(c), c);
    MapCompiles1(ParentSelection, ParentGlobs, ParentGlobTest(c), c);
    SelectionsCompile2(Detection13.selections, "selection_images", ImageSelection, Conj([ImageGlobTest(c)]),
      "selection_parent_images", ParentSelection, Conj([ParentGlobTest(c)]), c);
  }

  function GlobPreds(c: bool): seq<Predicate> {
    [Conj([ImageGlobTest(c)]), Conj([ParentGlobTest(c)])]
  }

  lemma Detection13Reads()
    ensures Reads(Detection13.condition, Of(All, Them))
  {
    ReadsOfThem(Detection13.condition, All);
  }

  lemma GlobResolves(c: bool)
    ensures Resolve(Of(All, Them), GlobSels(c)) == Ok(CountOf(All, GlobPreds(c)))
  {
    assert Predicates(GlobSels(c)) == GlobPreds(c);
  }

  lemma Detection13Compiles(c: bool)
    ensures CompileRule(Detection13, c) == Ok(CountOf(All, GlobPreds(c)))
  {
    GlobSelsCompile(c);
    Detection13Reads();
    GlobResolves(c);
    RuleCompiles(Detection13, c, GlobSels(c), Of(All, Them));
  }

  lemma Detection13Eval(c: bool, rec: Record, env: Env)
    ensures RuleMatches(Detection13, c, rec, env) <==>
      Both(TestVerdict(ImageGlobTest(c), rec, env), TestVerdict(ParentGlobTest(c), rec, env)).Match?
  {
    Detection13Compiles(c);
    MatchesAs(Detection13, c, CountOf(All, GlobPreds(c)), rec, env);
    Over2(Conj([ImageGlobTest(c)]), Conj([ParentGlobTest(c)]), rec, env);
    Conj1Verdict(ImageGlobTest(c), rec, env);
    Conj1Verdict(ParentGlobTest(c), rec, env);
  }

  /** How the three image patterns read, taken together. */
  predicate ImageReads(v: string) {
    || EndsWith(v, "\\bits*admin.exe")
    || (StartsWith(v, "\\\\DoubleBackslash\\some") && EndsWith(v[22..], ".exe"))
    || MatchAtoms(BracketAtoms, v)
  }

  /** How the three parent patterns read, taken together. */
  predicate ParentReads(v: string) {
    || (StartsWith(v, "\\leadingBackslash\\") && EndsWith(v[18..], ".exe"))
    || v == "full\\*plaintext.exe"
    || MatchAtoms(BraceAtoms, v)
  }

  lemma ImageGlobVerdict(c: bool, rec: Record, env: Env)
    requires "Image" in rec
    ensures TestVerdict(ImageGlobTest(c), rec, env) == FromBool(ImageReads(rec["Image"]))
  {
    var v := rec["Image"];
    ThreePatterns(Wildcard, c, Bits, DoubleBackslash, Bracketed, v, env);
    BitsPattern(c, v, env);
    DoublePattern(c, v, env);
    BracketPattern(c, v, env);
  }

  lemma ParentGlobVerdict(c: bool, rec: Record, env: Env)
    requires "ParentImage" in rec
    ensures TestVerdict(ParentGlobTest(c), rec, env) == FromBool(ParentReads(rec["ParentImage"]))
  {
    var v := rec["ParentImage"];
    ThreePatterns(Wildcard, c, Leading, FullPlain, Braced, v, env);
    LeadingPattern(c, v, env);
    FullPattern(c, v, env);
    BracePattern(c, v, env);
  }

  /** detection13: `all of them` needs the image to fit one of its three
      patterns and the parent one of its three, each pattern read with its
      escapes resolved. */
  lemma Detection13Meaning(c: bool, rec: Record, env: Env)
    requires "Image" in rec && "ParentImage" in rec
    ensures RuleMatches(Detection13, c, rec, env) <==> ImageReads(rec["Image"]) && ParentReads(rec["ParentImage"])
  {
    Detection13Eval(c, rec, env);
    ImageGlobVerdict(c, rec, env);
    ParentGlobVerdict(c, rec, env);
  }

  // --------------------------------------------------------------- vectors

  /** `C:\test\bits*admin.exe` carries the escaped star of the first image
      pattern. */
  lemma BitsValue(v: string)
    requires v == "C:\\test" + "\\bits*admin.exe"
    ensures ImageReads(v)
  {
    Affixes("C:\\test", "\\bits*admin.exe");
  }

  /** `\\DoubleBackslash\someOther.exe` fits the second image pattern. */
  lemma DoubleValue(v: string)
    requires v == "\\\\DoubleBackslash\\some" + ("Other" + ".exe")
    ensures ImageReads(v)
  {
    Affixes("\\\\DoubleBackslash\\some", "Other" + ".exe");
    assert v[22..] == "Other" + ".exe";
    Affixes("Other", ".exe");
  }

  lemma BracketSplit(v: string)
    requires v == "[Windows-Security]\\image.cmd"
    ensures v == "[Windows-" + ("Security" + ("]\\image." + "cmd"))
  {
  }

  lemma BraceSplit(v: string)
    requires v == "{000-aaa-123}\\evil.exe"
    ensures v == "{000-aaa-" + ("123" + ("}\\" + ("evil" + ".exe")))
  {
  }

  /** `[Windows-Security]\image.cmd` fits the bracket pattern: the star takes
      `Security` and the three single-character wildcards take `cmd`. */
  lemma BracketValue(v: string)
    requires v == "[Windows-Security]\\image.cmd"
    ensures ImageReads(v)
  {
    BracketSplit(v);
    var t := "]\\image." + "cmd";
    MatchThreeOnes(t[8..]);
    MatchLitsPrefix("]\\image.", [One, One, One], t);
    var r := "Security" + t;
    assert r[8..] == t;
    MatchStarSkip(Lits("]\\image.") + [One, One, One], r, 8);
    MatchLitsPrefix("[Windows-", [Star] + (Lits("]\\image.") + [One, One, One]), v);
  }

  /** `\leadingBackslash\something.exe` fits the first parent pattern. */
  lemma LeadingValue(v: string)
    requires v == "\\leadingBackslash\\" + ("something" + ".exe")
    ensures ParentReads(v)
  {
    Affixes("\\leadingBackslash\\", "something" + ".exe");
    assert v[18..] == "something" + ".exe";
    Affixes("something", ".exe");
  }

  /** `{000-aaa-123}\evil.exe` fits the brace pattern: the first star takes
      `123` and the second `evil`. */
  lemma BraceValue(v: string)
    requires v == "{000-aaa-123}\\evil.exe"
    ensures ParentReads(v)
  {
    BraceSplit(v);
    var e := "evil" + ".exe";
    MatchStarSuffix(".exe", e);
    Affixes("evil", ".exe");
    var t := "}\\" + e;
    assert t[2..] == e;
    MatchLitsPrefix("}\\", [Star] + Lits(".exe"), t);
    var r := "123" + t;
    assert r[3..] == t;
    MatchStarSkip(Lits("}\\") + ([Star] + Lits(".exe")), r, 3);
    MatchLitsPrefix("{000-aaa-", [Star] + (Lits("}\\") + ([Star] + Lits(".exe"))), v);
  }

  /** `C:\test\bitsadmin.exe` lacks the star the first pattern escapes, and
      fits neither of the others. */
  lemma NoStarValue(v: string)
    requires v == "C:\\test\\bitsadmin.exe"
    ensures !ImageReads(v)
  {
    assert v[6] == 't' && v[0] == 'C';
    if MatchAtoms(BracketAtoms, v) {
      BracketNeedsPrefix(v);
    }
  }

  /** `[-Security]\image.cmd` lacks `Windows` inside the bracket. */
  lemma NoWindowsValue(v: string)
    requires v == "[-Security]\\image.cmd"
    ensures !ImageReads(v)
  {
    assert v[6] == 'r' && v[0] == '[' && v[1] == '-';
    if MatchAtoms(BracketAtoms, v) {
      BracketNeedsPrefix(v);
    }
  }

  /** `leadingBackslash\something.exe` lacks the leading backslash. */
  lemma NoLeadingValue(v: string)
    requires v == "leadingBackslash\\something.exe"
    ensures !ParentReads(v)
  {
    assert v[0] == 'l';
    if MatchAtoms(BraceAtoms, v) {
      BraceNeedsPrefix(v);
    }
  }

  /** `full\\*plaintext` has a backslash too many and no extension. */
  lemma ExtraBackslashValue(v: string)
    requires v == "full\\\\*plaintext"
    ensures !ParentReads(v)
  {
    assert |v| == 16 && v[0] == 'f';
    if MatchAtoms(BraceAtoms, v) {
      BraceNeedsPrefix(v);
    }
  }

  /** detection13_positive (parser_test.go:416-421). */
  lemma Detection13Positive(c: bool, env: Env)
    ensures RuleMatches(Detection13, c,
      map["Image" := "C:\\test\\bits*admin.exe", "ParentImage" := "\\leadingBackslash\\something.exe"], env)
  {
    var rec := map["Image" := "C:\\test\\bits*admin.exe", "ParentImage" := "\\leadingBackslash\\something.exe"];
    BitsValue(rec["Image"]);
    LeadingValue(rec["ParentImage"]);
    Detection13Meaning(c, rec, env);
  }

  /** detection13_positive2 (parser_test.go:422-427). */
  lemma Detection13Positive2(c: bool, env: Env)
    ensures RuleMatches(Detection13, c,
      map["Image" := "\\\\DoubleBackslash\\someOther.exe", "ParentImage" := "full\\*plaintext.exe"], env)
  {
    var rec := map["Image" := "\\\\DoubleBackslash\\someOther.exe", "ParentImage" := "full\\*plaintext.exe"];
    DoubleValue(rec["Image"]);
    Detection13Meaning(c, rec, env);
  }

  /** detection13_positive3 (parser_test.go:429-434). */
  lemma Detection13Positive3(c: bool, env: Env)
    ensures RuleMatches(Detection13, c,
      map["Image" := "C:\\test\\bits*admin.exe", "ParentImage" := "full\\*plaintext.exe"], env)
  {
    var rec := map["Image" := "C:\\test\\bits*admin.exe", "ParentImage" := "full\\*plaintext.exe"];
    BitsValue(rec["Image"]);
    Detection13Meaning(c, rec, env);
  }

  /** detection13_positive4 (parser_test.go:436-441). */
  lemma Detection13Positive4(c: bool, env: Env)
    ensures RuleMatches(Detection13, c,
      map["Image" := "[Windows-Security]\\image.cmd", "ParentImage" := "{000-aaa-123}\\evil.exe"], env)
  {
    var rec := map["Image" := "[Windows-Security]\\image.cmd", "ParentImage" := "{000-aaa-123}\\evil.exe"];
    BracketValue(rec["Image"]);
    BraceValue(rec["ParentImage"]);
    Detection13Meaning(c, rec, env);
  }

  /** detection13_negative (parser_test.go:443-449). */
  lemma Detection13Negative(c: bool, env: Env)
    ensures !RuleMatches(Detection13, c,
      map["Image" := "C:\\test\\bitsadmin.exe", "ParentImage" := "\\leadingBackslash\\something.exe"], env)
  {
    var rec := map["Image" := "C:\\test\\bitsadmin.exe", "ParentImage" := "\\leadingBackslash\\something.exe"];
    NoStarValue(rec["Image"]);
    Detection13Meaning(c, rec, env);
  }

  /** detection13_negative2 (parser_test.go:451-457). */
  lemma Detection13Negative2(c: bool, env: Env)
    ensures !RuleMatches(Detection13, c,
      map["Image" := "C:\\test\\bits*admin.exe", "ParentImage" := "leadingBackslash\\something.exe"], env)
  {
    var rec := map["Image" := "C:\\test\\bits*admin.exe", "ParentImage" := "leadingBackslash\\something.exe"];
    NoLeadingValue(rec["ParentImage"]);
    Detection13Meaning(c, rec, env);
  }

  /** detection13_negative3 (parser_test.go:459-465). */
  lemma Detection13Negative3(c: bool, env: Env)
    ensures !RuleMatches(Detection13, c,
      map["Image" := "C:\\test\\bits*admin.exe", "ParentImage" := "full\\\\*plaintext"], env)
  {
    var rec := map["Image" := "C:\\test\\bits*admin.exe", "ParentImage" := "full\\\\*plaintext"];
    ExtraBackslashValue(rec["ParentImage"]);
    Detection13Meaning(c, rec, env);
  }

  /** detection13_negative4 (parser_test.go:467-473). */
  lemma Detection13Negative4(c: bool, env: Env)
    ensures !RuleMatches(Detection13, c,
      map["Image" := "[-Security]\\image.cmd", "ParentImage" := "{000-aaa}\\evil.exe"], env)
  {
    var rec := map["Image" := "[-Security]\\image.cmd", "ParentImage" := "{000-aaa}\\evil.exe"];
    NoWindowsValue(rec["Image"]);
    Detection13Meaning(c, rec, env);
  }
}
