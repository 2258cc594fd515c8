/** The escaping table's worked examples: for each input, the exact host
    pattern the translator produces, and a value that pattern matches.

    Each input is cut at points not preceded by a backslash, so that the
    general run and concatenation lemmas apply piece by piece. The chains are
    stated over arbitrary pieces with the few character-class facts they need
    (so the verifier reasons about the pieces rather than unfolding the
    translator on a long literal); small lemmas state each cut and each
    character-class fact about the table's own words. */
module EscapeVectors {
  import opened Text
  import opened Glob
  import opened Escape
  import opened EscapeFacts

  // ---- Pieces and their character classes ----

  /** Text the translator copies unchanged: no backslash and no bracket. */
  predicate HostText(w: string) {
    forall i :: 0 <= i < |w| ==> w[i] != '\\' && !IsBracket(w[i])
  }

  /** Text that reads as its own characters: no wildcard, no doubled
      backslash, and no backslash at the end that could pair with what follows. */
  predicate SourceText(w: string) {
    && (w == [] || w[|w| - 1] != '\\')
    && (forall i :: 0 <= i < |w| ==> !IsWildcard(w[i]))
    && (forall i :: 0 <= i < |w| - 1 ==> !(w[i] == '\\' && w[i + 1] == '\\'))
  }

  /** Text that starts with an ordinary character, so a backslash run before
      it ends there and escapes nothing. */
  predicate Opens(w: string) {
    w != [] && w[0] != '\\' && !IsWildcard(w[0])
  }

  lemma Runs()
    ensures Backslashes(1) == "\\" && Backslashes(2) == "\\\\"
    ensures Backslashes(3) == "\\\\\\" && Backslashes(4) == "\\\\\\\\"
  {
  }

  lemma LitBackslashesAre(k: nat)
    ensures LitBackslashes(k) == Lits(Backslashes(k))
  {
  }

  /** `*` followed by plain text reads as a star and then literals. */
  lemma StarThen(e: string, x: string)
    requires e == ['*'] + x
    requires forall i :: 0 <= i < |x| ==> !IsWildcard(x[i])
    requires forall i :: 0 <= i < |x| - 1 ==> !(x[i] == '\\' && x[i + 1] == '\\')
    ensures SourceAtoms(e) == [Star] + Lits(x)
  {
    SourcePlain(x);
    SourceChar('*', x);
  }

  lemma StarText(x: string)
    requires SourceText(x)
    ensures SourceAtoms(['*'] + x) == [Star] + Lits(x)
  {
    StarThen(['*'] + x, x);
  }

  lemma HostTail(w: string, rest: string)
    requires HostText(w)
    ensures Translate(w + rest) == w + Translate(rest)
  {
    TranslatePlainPrefix(w, rest);
  }

  lemma HostWhole(w: string)
    requires HostText(w)
    ensures Translate(w) == w
  {
    TranslatePlain(w);
  }

  lemma SourceTail(w: string, rest: string)
    requires SourceText(w)
    ensures SourceAtoms(w + rest) == Lits(w) + SourceAtoms(rest)
  {
    SourcePlainPrefix(w, rest);
  }

  // ---- Matching composed piece by piece ----

  lemma PrefixLits(p: string, rest: seq<Atom>, u: string)
    requires MatchAtoms(rest, u)
    ensures MatchAtoms(Lits(p) + rest, p + u)
  {
    assert (p + u)[..|p|] == p;
    assert (p + u)[|p|..] == u;
    MatchLitsPrefix(p, rest, p + u);
  }

  lemma SkipStar(rest: seq<Atom>, a: string, u: string)
    requires MatchAtoms(rest, u)
    ensures MatchAtoms([Star] + rest, a + u)
  {
    assert (a + u)[|a|..] == u;
    MatchStarSkip(rest, a + u, |a|);
  }

  lemma ThenOne(rest: seq<Atom>, c: char, u: string)
    requires MatchAtoms(rest, u)
    ensures MatchAtoms([One] + rest, [c] + u)
  {
    assert ([c] + u)[1..] == u;
    MatchOne(rest, [c] + u);
  }

  lemma MatchThreeOnes(c: string)
    requires |c| == 3
    ensures MatchAtoms([One, One, One], c)
  {
    assert [One, One, One] == [One] + [One, One];
    assert [One, One] == [One] + [One];
    assert [One] == [One] + [];
    MatchOne([], c[2..]);
    MatchOne([One], c[1..]);
    MatchOne([One, One], c);
  }

  /** `p*x` matches `p`, then anything, then `x`. */
  lemma LitsStarLits(p: string, a: string, x: string)
    ensures MatchAtoms(Lits(p) + ([Star] + Lits(x)), p + (a + x))
  {
    MatchLits(x, x);
    SkipStar(Lits(x), a, x);
    PrefixLits(p, [Star] + Lits(x), a + x);
  }

  lemma StarLits(a: string, x: string)
    ensures MatchAtoms([Star] + Lits(x), a + x)
  {
    MatchLits(x, x);
    SkipStar(Lits(x), a, x);
  }

  // ---- No_Change: `\\leadingBackslash\\*.exe` ----

  lemma Cut1(b2: string)
    requires b2 == "\\\\"
    ensures "\\\\leadingBackslash\\\\*.exe" == b2 + ("leadingBackslash" + (b2 + "*.exe"))
  {
  }

  lemma Words1()
    ensures HostText("leadingBackslash") && Opens("leadingBackslash") && HostText("*.exe")
    ensures SourceText("leadingBackslash") && SourceText(".exe") && "*.exe" == ['*'] + ".exe"
  {
  }

  lemma Str1(b1: string)
    requires b1 == "\\"
    ensures b1 + "leadingBackslash" + b1 == "\\leadingBackslash\\"
  {
  }

  lemma Value1()
    ensures "\\leadingBackslash\\testing.exe" == "\\leadingBackslash\\" + ("testing" + ".exe")
  {
  }

  lemma Translate1Tail(w: string, e: string)
    requires HostText(w) && HostText(e)
    ensures Translate(w + (Backslashes(2) + e)) == w + (Backslashes(2) + e)
  {
    HostWhole(e);
    TranslateEvenRun(1, e);
    HostTail(w, Backslashes(2) + e);
  }

  lemma Translate1(w: string, e: string)
    requires HostText(w) && Opens(w) && HostText(e)
    ensures Translate(Backslashes(2) + (w + (Backslashes(2) + e))) == Backslashes(2) + (w + (Backslashes(2) + e))
  {
    Translate1Tail(w, e);
    TranslateEvenRun(1, w + (Backslashes(2) + e));
  }

  lemma Atoms1(w: string, x: string)
    requires SourceText(w) && SourceText(x)
    ensures SourceAtoms(Backslashes(2) + (w + (Backslashes(2) + (['*'] + x))))
      == LitBackslashes(1) + (Lits(w) + (LitBackslashes(1) + ([Star] + Lits(x))))
  {
    StarText(x);
    SourceEvenRun(1, ['*'] + x);
    SourceTail(w, Backslashes(2) + (['*'] + x));
    SourceEvenRun(1, w + (Backslashes(2) + (['*'] + x)));
  }

  lemma Normal1(w: string, x: string, full: string)
    requires full == Backslashes(1) + w + Backslashes(1)
    ensures LitBackslashes(1) + (Lits(w) + (LitBackslashes(1) + ([Star] + Lits(x))))
      == Lits(full) + ([Star] + Lits(x))
  {
    var b := Backslashes(1);
    var t := [Star] + Lits(x);
    LitBackslashesAre(1);
    LitsConcat(b, w);
    LitsConcat(b + w, b);
    Assoc(Lits(w), Lits(b), t);
    Assoc(Lits(b), Lits(w) + Lits(b), t);
    Assoc(Lits(b), Lits(w), Lits(b));
  }

  /** First row: the input is left unchanged and matches `\leadingBackslash\testing.exe`. */
  lemma NoChange()
    ensures Translate("\\\\leadingBackslash\\\\*.exe") == "\\\\leadingBackslash\\\\*.exe"
    ensures GlobMatch("\\\\leadingBackslash\\\\*.exe", "\\leadingBackslash\\testing.exe")
  {
    Runs();
    Cut1(Backslashes(2));
    Words1();
    Str1(Backslashes(1));
    Value1();
    Translate1("leadingBackslash", "*.exe");
    Atoms1("leadingBackslash", ".exe");
    Normal1("leadingBackslash", ".exe", "\\leadingBackslash\\");
    LitsStarLits("\\leadingBackslash\\", "testing", ".exe");
    TranslateGlob("\\\\leadingBackslash\\\\*.exe", "\\leadingBackslash\\testing.exe");
  }

  // ---- Leading_Single_Backslash_Wildcard_After_Slash: `\leadingBackslash\\*.exe` ----

  lemma Cut2(b1: string, b2: string)
    requires b1 == "\\" && b2 == "\\\\"
    ensures "\\leadingBackslash\\\\*.exe" == b1 + ("leadingBackslash" + (b2 + "*.exe"))
  {
  }

  lemma Translate2(w: string, e: string)
    requires HostText(w) && Opens(w) && HostText(e)
    ensures Translate(Backslashes(1) + (w + (Backslashes(2) + e))) == Backslashes(2) + (w + (Backslashes(2) + e))
  {
    Translate1Tail(w, e);
    TranslateOddRunOther(0, w + (Backslashes(2) + e));
  }

  /** Second row: a lone leading backslash is doubled; the result is the first
      row's pattern, with the same match. */
  lemma LeadingSingleBackslash()
    ensures Translate("\\leadingBackslash\\\\*.exe") == "\\\\leadingBackslash\\\\*.exe"
    ensures GlobMatch("\\\\leadingBackslash\\\\*.exe", "\\leadingBackslash\\testing.exe")
  {
    Runs();
    Cut1(Backslashes(2));
    Cut2(Backslashes(1), Backslashes(2));
    Words1();
    Translate2("leadingBackslash", "*.exe");
    NoChange();
  }

  // ---- Leading_Wildcard_Single_Backslash_Esc_Wildcard: `*\bits\*admin.exe` ----

  lemma Cut3a(b1: string)
    requires b1 == "\\"
    ensures "*\\bits\\*admin.exe" == "*" + (b1 + ("bits" + (b1 + "*" + "admin.exe")))
  {
  }

  lemma Cut3b(b1: string, b2: string)
    requires b1 == "\\" && b2 == "\\\\"
    ensures "*\\\\bits\\*admin.exe" == "*" + (b2 + ("bits" + (b1 + "*" + "admin.exe")))
  {
  }

  lemma Cut3c(b1: string)
    requires b1 == "\\"
    ensures "*\\bits\\*admin.exe" == "*" + ("\\bits" + (b1 + "*" + "admin.exe"))
  {
  }

  lemma Words3()
    ensures HostText("bits") && Opens("bits") && HostText("admin.exe")
    ensures SourceText("\\bits") && SourceText("admin.exe")
  {
  }

  lemma Str3()
    ensures "\\bits" + ("*" + "admin.exe") == "\\bits*admin.exe"
    ensures "leading\\bits*admin.exe" == "leading" + "\\bits*admin.exe"
  {
  }

  lemma Translate3(b: string, a: string)
    requires HostText(b) && Opens(b) && HostText(a)
    ensures Translate("*" + (Backslashes(1) + (b + (Backslashes(1) + "*" + a))))
      == "*" + (Backslashes(2) + (b + (Backslashes(1) + "*" + a)))
  {
    HostWhole(a);
    TranslateOddRunWildcard(0, '*', a);
    var y := Backslashes(1) + "*" + a;
    HostTail(b, y);
    TranslateOddRunOther(0, b + y);
    TranslatePlainPrefix("*", Backslashes(1) + (b + y));
  }

  lemma Atoms3(b: string, a: string)
    requires SourceText(b) && SourceText(a)
    ensures SourceAtoms("*" + (b + (Backslashes(1) + "*" + a))) == [Star] + (Lits(b) + (LitBackslashes(0) + [Lit('*')] + Lits(a)))
  {
    SourcePlain(a);
    SourceOddWildcard(0, '*', a);
    var y := Backslashes(1) + "*" + a;
    SourceTail(b, y);
    SourceChar('*', b + y);
  }

  lemma Normal3(b: string, a: string)
    ensures [Star] + (Lits(b) + (LitBackslashes(0) + [Lit('*')] + Lits(a))) == [Star] + Lits(b + ("*" + a))
  {
    assert LitBackslashes(0) + [Lit('*')] == Lits("*");
    LitsConcat("*", a);
    LitsConcat(b, "*" + a);
  }

  /** Third row: the backslash before `bits` is doubled, the escaped star is
      kept, and the pattern matches `leading\bits*admin.exe`. */
  lemma LeadingWildcardEscapedWildcard()
    ensures Translate("*\\bits\\*admin.exe") == "*\\\\bits\\*admin.exe"
    ensures GlobMatch("*\\\\bits\\*admin.exe", "leading\\bits*admin.exe")
  {
    Runs();
    Cut3a(Backslashes(1));
    Cut3b(Backslashes(1), Backslashes(2));
    Cut3c(Backslashes(1));
    Words3();
    Str3();
    Translate3("bits", "admin.exe");
    Atoms3("\\bits", "admin.exe");
    Normal3("\\bits", "admin.exe");
    StarLits("leading", "\\bits*admin.exe");
    TranslateGlob("*\\bits\\*admin.exe", "leading\\bits*admin.exe");
  }

  // ---- Double_Leading_Backslash_Single_Backslash_Wildcard: `\\\\DoubleBackslash\some*.exe` ----

  lemma Cut4a(b1: string, b4: string)
    requires b1 == "\\" && b4 == "\\\\\\\\"
    ensures "\\\\\\\\DoubleBackslash\\some*.exe" == b4 + ("DoubleBackslash" + (b1 + "some*.exe"))
  {
  }

  lemma Cut4b(b2: string, b4: string)
    requires b2 == "\\\\" && b4 == "\\\\\\\\"
    ensures "\\\\\\\\DoubleBackslash\\\\some*.exe" == b4 + ("DoubleBackslash" + (b2 + "some*.exe"))
  {
  }

  lemma Cut4c(b4: string)
    requires b4 == "\\\\\\\\"
    ensures "\\\\\\\\DoubleBackslash\\some*.exe" == b4 + ("DoubleBackslash\\some" + "*.exe")
  {
  }

  lemma Words4()
    ensures HostText("DoubleBackslash") && Opens("DoubleBackslash")
    ensures HostText("some*.exe") && Opens("some*.exe")
    ensures SourceText("DoubleBackslash\\some") && SourceText(".exe") && "*.exe" == ['*'] + ".exe"
  {
  }

  lemma Str4(b2: string)
    requires b2 == "\\\\"
    ensures b2 + "DoubleBackslash\\some" == "\\\\DoubleBackslash\\some"
    ensures "\\\\DoubleBackslash\\sometMatch.exe" == "\\\\DoubleBackslash\\some" + ("tMatch" + ".exe")
  {
  }

  lemma Translate4(d: string, s: string)
    requires HostText(d) && Opens(d) && HostText(s) && Opens(s)
    ensures Translate(Backslashes(4) + (d + (Backslashes(1) + s))) == Backslashes(4) + (d + (Backslashes(2) + s))
  {
    HostWhole(s);
    TranslateOddRunOther(0, s);
    HostTail(d, Backslashes(1) + s);
    TranslateEvenRun(2, d + (Backslashes(1) + s));
  }

  lemma Atoms4(w: string, x: string)
    requires SourceText(w) && SourceText(x)
    ensures SourceAtoms(Backslashes(4) + (w + (['*'] + x))) == LitBackslashes(2) + (Lits(w) + ([Star] + Lits(x)))
  {
    StarText(x);
    SourceTail(w, ['*'] + x);
    SourceEvenRun(2, w + (['*'] + x));
  }

  lemma Normal4(w: string, x: string, full: string)
    requires full == Backslashes(2) + w
    ensures LitBackslashes(2) + (Lits(w) + ([Star] + Lits(x))) == Lits(full) + ([Star] + Lits(x))
  {
    LitBackslashesAre(2);
    LitsConcat(Backslashes(2), w);
    Assoc(Lits(Backslashes(2)), Lits(w), [Star] + Lits(x));
  }

  /** Fourth row: the even leading run is kept, the lone backslash doubled. */
  lemma DoubleLeadingBackslash()
    ensures Translate("\\\\\\\\DoubleBackslash\\some*.exe") == "\\\\\\\\DoubleBackslash\\\\some*.exe"
    ensures GlobMatch("\\\\\\\\DoubleBackslash\\\\some*.exe", "\\\\DoubleBackslash\\sometMatch.exe")
  {
    Runs();
    Cut4a(Backslashes(1), Backslashes(4));
    Cut4b(Backslashes(2), Backslashes(4));
    Cut4c(Backslashes(4));
    Words4();
    Str4(Backslashes(2));
    Translate4("DoubleBackslash", "some*.exe");
    Atoms4("DoubleBackslash\\some", ".exe");
    Normal4("DoubleBackslash\\some", ".exe", "\\\\DoubleBackslash\\some");
    LitsStarLits("\\\\DoubleBackslash\\some", "tMatch", ".exe");
    TranslateGlob("\\\\\\\\DoubleBackslash\\some*.exe", "\\\\DoubleBackslash\\sometMatch.exe");
  }

  // ---- Plaintext_Only_Esc_Wildcard: `some\full\\\*plaintext.exe` ----

  lemma Cut5a(b1: string, b3: string)
    requires b1 == "\\" && b3 == "\\\\\\"
    ensures "some\\full\\\\\\*plaintext.exe" == "some" + (b1 + ("full" + (b3 + "*" + "plaintext.exe")))
  {
  }

  lemma Cut5b(b2: string, b3: string)
    requires b2 == "\\\\" && b3 == "\\\\\\"
    ensures "some\\\\full\\\\\\*plaintext.exe" == "some" + (b2 + ("full" + (b3 + "*" + "plaintext.exe")))
  {
  }

  lemma Cut5c(b3: string)
    requires b3 == "\\\\\\"
    ensures "some\\full\\\\\\*plaintext.exe" == "some\\full" + (b3 + "*" + "plaintext.exe")
  {
  }

  lemma Words5()
    ensures HostText("some") && HostText("full") && Opens("full") && HostText("plaintext.exe")
    ensures SourceText("some\\full") && SourceText("plaintext.exe")
    ensures "some\\full" + ("\\*" + "plaintext.exe") == "some\\full\\*plaintext.exe"
  {
  }

  lemma Translate5(s: string, f: string, p: string)
    requires HostText(s) && HostText(f) && Opens(f) && HostText(p)
    ensures Translate(s + (Backslashes(1) + (f + (Backslashes(3) + "*" + p))))
      == s + (Backslashes(2) + (f + (Backslashes(3) + "*" + p)))
  {
    HostWhole(p);
    TranslateOddRunWildcard(1, '*', p);
    var z := Backslashes(3) + "*" + p;
    HostTail(f, z);
    TranslateOddRunOther(0, f + z);
    HostTail(s, Backslashes(1) + (f + z));
  }

  lemma Atoms5(w: string, p: string)
    requires SourceText(w) && SourceText(p)
    ensures SourceAtoms(w + (Backslashes(3) + "*" + p)) == Lits(w) + (LitBackslashes(1) + [Lit('*')] + Lits(p))
  {
    SourcePlain(p);
    SourceOddWildcard(1, '*', p);
    SourceTail(w, Backslashes(3) + "*" + p);
  }

  lemma Normal5(w: string, p: string)
    ensures Lits(w) + (LitBackslashes(1) + [Lit('*')] + Lits(p)) == Lits(w + ("\\*" + p))
  {
    assert LitBackslashes(1) + [Lit('*')] == Lits("\\*");
    LitsConcat("\\*", p);
    LitsConcat(w, "\\*" + p);
  }

  /** Fifth row: with no wildcard left the pattern matches one value only. */
  lemma PlaintextOnly()
    ensures Translate("some\\full\\\\\\*plaintext.exe") == "some\\\\full\\\\\\*plaintext.exe"
    ensures forall v :: GlobMatch("some\\\\full\\\\\\*plaintext.exe", v) <==> v == "some\\full\\*plaintext.exe"
  {
    Runs();
    Cut5a(Backslashes(1), Backslashes(3));
    Cut5b(Backslashes(2), Backslashes(3));
    Cut5c(Backslashes(3));
    Words5();
    Translate5("some", "full", "plaintext.exe");
    Atoms5("some\\full", "plaintext.exe");
    Normal5("some\\full", "plaintext.exe");
    forall v ensures GlobMatch("some\\\\full\\\\\\*plaintext.exe", v) <==> v == "some\\full\\*plaintext.exe" {
      TranslateGlob("some\\full\\\\\\*plaintext.exe", v);
      MatchLits("some\\full\\*plaintext.exe", v);
    }
  }

  // ---- Double_Leading_Backslash_Complex_Mix_Esc: `\\\\DoubleBackslash\?\some*Other\\*test.\\???` ----

  lemma Cut6a()
    ensures "\\\\\\\\DoubleBackslash\\?\\some*Other\\\\*test.\\\\???"
      == "\\\\\\\\DoubleBackslash\\?" + "\\some*Other\\\\*test.\\\\???"
  {
  }

  lemma Cut6b()
    ensures "\\\\\\\\DoubleBackslash\\?\\\\some*Other\\\\*test.\\\\???"
      == "\\\\\\\\DoubleBackslash\\?" + "\\\\some*Other\\\\*test.\\\\???"
  {
  }

  lemma Head6(b1: string, b4: string, x: string)
    requires b1 == "\\" && b4 == "\\\\\\\\"
    ensures "\\\\\\\\DoubleBackslash\\?" + x == b4 + ("DoubleBackslash" + (b1 + "?" + x))
  {
    assert "\\\\\\\\DoubleBackslash\\?" == b4 + ("DoubleBackslash" + (b1 + "?"));
  }

  lemma Tail6a(b1: string, b2: string)
    requires b1 == "\\" && b2 == "\\\\"
    ensures "\\some*Other\\\\*test.\\\\???"
      == b1 + ("some*Other" + (b2 + ("*test." + (b2 + "???"))))
  {
  }

  lemma Tail6b(b2: string)
    requires b2 == "\\\\"
    ensures "\\\\some*Other\\\\*test.\\\\???"
      == b2 + ("some*Other" + (b2 + ("*test." + (b2 + "???"))))
  {
  }

  lemma Tail6c(b2: string)
    requires b2 == "\\\\"
    ensures "\\some*Other\\\\*test.\\\\???"
      == "\\some" + ("*" + ("Other" + (b2 + ("*" + ("test." + (b2 + "???"))))))
  {
  }

  lemma Words6()
    ensures HostText("DoubleBackslash") && Opens("DoubleBackslash")
    ensures HostText("some*Other") && Opens("some*Other") && HostText("*test.") && "*test." != [] && HostText("???")
    ensures SourceText("DoubleBackslash") && SourceText("\\some") && SourceText("Other") && SourceText("test.")
  {
  }

  lemma Str6(b2: string)
    requires b2 == "\\\\"
    ensures b2 + ("DoubleBackslash" + ("?" + "\\some")) == "\\\\DoubleBackslash?\\some"
  {
  }

  lemma Value6()
    ensures "\\\\DoubleBackslash?\\someMixOther\\wildcardtest.\\cmd"
      == "\\\\DoubleBackslash?\\some" + ("Mix" + (("Other" + "\\") + ("wildcard" + (("test." + "\\") + "cmd"))))
  {
  }

  /** The part after `\?\some*Other`. */
  lemma Translate6End(t: string, q: string)
    requires HostText(t) && t != [] && HostText(q)
    ensures Translate(Backslashes(2) + (t + (Backslashes(2) + q))) == Backslashes(2) + (t + (Backslashes(2) + q))
  {
    HostWhole(q);
    TranslateEvenRun(1, q);
    HostTail(t, Backslashes(2) + q);
    TranslateEvenRun(1, t + (Backslashes(2) + q));
  }

  /** The part after `\?`. */
  lemma Translate6Tail(so: string, t: string, q: string)
    requires HostText(so) && Opens(so)
    requires HostText(t) && t != [] && HostText(q)
    ensures Translate(Backslashes(1) + (so + (Backslashes(2) + (t + (Backslashes(2) + q)))))
      == Backslashes(2) + (so + (Backslashes(2) + (t + (Backslashes(2) + q))))
  {
    var r1 := Backslashes(2) + (t + (Backslashes(2) + q));
    Translate6End(t, q);
    HostTail(so, r1);
    TranslateOddRunOther(0, so + r1);
  }

  lemma Translate6(d: string, r: string, r': string)
    requires HostText(d) && Opens(d)
    requires Translate(r) == r'
    ensures Translate(Backslashes(4) + (d + (Backslashes(1) + "?" + r))) == Backslashes(4) + (d + (Backslashes(1) + "?" + r'))
  {
    TranslateOddRunWildcard(0, '?', r);
    HostTail(d, Backslashes(1) + "?" + r);
    TranslateEvenRun(2, d + (Backslashes(1) + "?" + r));
  }

  lemma Ones3()
    ensures SourceAtoms("???") == [One, One, One]
  {
    SourceChar('?', []);
    SourceChar('?', "?");
    SourceChar('?', "??");
    assert "?" == ['?'] + [];
    assert "??" == ['?'] + "?";
    assert "???" == ['?'] + "??";
  }

  /** The part after `\?\some`, read as atoms. */
  lemma Atoms6Tail(o: string, t: string)
    requires SourceText(o) && SourceText(t)
    ensures SourceAtoms("*" + (o + (Backslashes(2) + ("*" + (t + (Backslashes(2) + "???"))))))
      == [Star] + (Lits(o) + (LitBackslashes(1) + ([Star] + (Lits(t) + (LitBackslashes(1) + [One, One, One])))))
  {
    var q := "???";
    Ones3();
    SourceEvenRun(1, q);
    SourceTail(t, Backslashes(2) + q);
    SourceChar('*', t + (Backslashes(2) + q));
    SourceEvenRun(1, "*" + (t + (Backslashes(2) + q)));
    SourceTail(o, Backslashes(2) + ("*" + (t + (Backslashes(2) + q))));
    SourceChar('*', o + (Backslashes(2) + ("*" + (t + (Backslashes(2) + q)))));
  }

  lemma Atoms6(d: string, s: string, r: string, tail: seq<Atom>)
    requires SourceText(d) && SourceText(s)
    requires SourceAtoms(r) == tail
    ensures SourceAtoms(Backslashes(4) + (d + (Backslashes(1) + "?" + (s + r))))
      == LitBackslashes(2) + (Lits(d) + (LitBackslashes(0) + [Lit('?')] + (Lits(s) + tail)))
  {
    SourceTail(s, r);
    SourceOddWildcard(0, '?', s + r);
    SourceTail(d, Backslashes(1) + "?" + (s + r));
    SourceEvenRun(2, d + (Backslashes(1) + "?" + (s + r)));
  }

  lemma Normal6Tail(o: string, t: string)
    ensures [Star] + (Lits(o) + (LitBackslashes(1) + ([Star] + (Lits(t) + (LitBackslashes(1) + [One, One, One])))))
      == [Star] + (Lits(o + "\\") + ([Star] + (Lits(t + "\\") + [One, One, One])))
  {
    LitBackslashesAre(1);
    assert Backslashes(1) == "\\";
    LitsConcat(o, "\\");
    LitsConcat(t, "\\");
    assert Lits(o) + (LitBackslashes(1) + ([Star] + (Lits(t) + (LitBackslashes(1) + [One, One, One]))))
      == (Lits(o) + LitBackslashes(1)) + ([Star] + ((Lits(t) + LitBackslashes(1)) + [One, One, One]));
  }

  lemma Normal6Head(d: string, s: string)
    ensures LitBackslashes(2) + (Lits(d) + (LitBackslashes(0) + [Lit('?')] + Lits(s)))
      == Lits(Backslashes(2) + (d + ("?" + s)))
  {
    LitBackslashesAre(2);
    assert LitBackslashes(0) + [Lit('?')] == Lits("?");
    LitsConcat("?", s);
    LitsConcat(d, "?" + s);
    LitsConcat(Backslashes(2), d + ("?" + s));
  }

  lemma Normal6(d: string, s: string, tail: seq<Atom>)
    ensures LitBackslashes(2) + (Lits(d) + (LitBackslashes(0) + [Lit('?')] + (Lits(s) + tail)))
      == Lits(Backslashes(2) + (d + ("?" + s))) + tail
  {
    Normal6Head(d, s);
    var a := LitBackslashes(0) + [Lit('?')];
    Assoc(a, Lits(s), tail);
    Assoc(Lits(d), a + Lits(s), tail);
    Assoc(LitBackslashes(2), Lits(d) + (a + Lits(s)), tail);
  }

  /** `h*o*t???` matches `h`, anything, `o`, anything, `t` and three characters. */
  lemma Match6(h: string, a: string, o: string, b: string, t: string, c: string)
    requires |c| == 3
    ensures MatchAtoms(Lits(h) + ([Star] + (Lits(o) + ([Star] + (Lits(t) + [One, One, One])))), h + (a + (o + (b + (t + c)))))
  {
    var ones := [One, One, One];
    MatchThreeOnes(c);
    PrefixLits(t, ones, c);
    SkipStar(Lits(t) + ones, b, t + c);
    PrefixLits(o, [Star] + (Lits(t) + ones), b + (t + c));
    SkipStar(Lits(o) + ([Star] + (Lits(t) + ones)), a, o + (b + (t + c)));
    PrefixLits(h, [Star] + (Lits(o) + ([Star] + (Lits(t) + ones))), a + (o + (b + (t + c))));
  }

  /** Sixth row: escaped `?` kept, lone backslash doubled, unescaped wildcards
      left as wildcards. */
  lemma ComplexMix()
    ensures Translate("\\\\\\\\DoubleBackslash\\?\\some*Other\\\\*test.\\\\???")
      == "\\\\\\\\DoubleBackslash\\?\\\\some*Other\\\\*test.\\\\???"
    ensures GlobMatch("\\\\\\\\DoubleBackslash\\?\\\\some*Other\\\\*test.\\\\???",
      "\\\\DoubleBackslash?\\someMixOther\\wildcardtest.\\cmd")
  {
    var r := "\\some*Other\\\\*test.\\\\???";
    var r' := "\\\\some*Other\\\\*test.\\\\???";
    Runs();
    Cut6a();
    Cut6b();
    Head6(Backslashes(1), Backslashes(4), r);
    Head6(Backslashes(1), Backslashes(4), r');
    Tail6a(Backslashes(1), Backslashes(2));
    Tail6b(Backslashes(2));
    Tail6c(Backslashes(2));
    Words6();
    Str6(Backslashes(2));
    Value6();
    Translate6Tail("some*Other", "*test.", "???");
    Translate6("DoubleBackslash", r, r');
    var rest := "*" + ("Other" + (Backslashes(2) + ("*" + ("test." + (Backslashes(2) + "???")))));
    var tail := [Star] + (Lits("Other") + (LitBackslashes(1) + ([Star] + (Lits("test.") + (LitBackslashes(1) + [One, One, One])))));
    var tail' := [Star] + (Lits("Other" + "\\") + ([Star] + (Lits("test." + "\\") + [One, One, One])));
    Atoms6Tail("Other", "test.");
    Atoms6("DoubleBackslash", "\\some", rest, tail);
    Normal6Tail("Other", "test.");
    Normal6("DoubleBackslash", "\\some", tail');
    Match6("\\\\DoubleBackslash?\\some", "Mix", "Other" + "\\", "wildcard", "test." + "\\", "cmd");
    TranslateGlob("\\\\\\\\DoubleBackslash\\?\\some*Other\\\\*test.\\\\???", "\\\\DoubleBackslash?\\someMixOther\\wildcardtest.\\cmd");
  }


  // ---- Mixed_Wildcards_Single_Backslash_Brackets: `[*]\*\aSetof\\\sigma{rule?}here*` ----

  lemma Cut7a()
    ensures "[*]\\*\\aSetof\\\\\\sigma{rule?}here*" == "[*]\\*" + "\\aSetof\\\\\\sigma{rule?}here*"
  {
  }

  lemma Cut7b()
    ensures "\\[*\\]\\*\\\\aSetof\\\\\\\\sigma\\{rule?\\}here*" == "\\[*\\]\\*" + "\\\\aSetof\\\\\\\\sigma\\{rule?\\}here*"
  {
  }

  lemma Head7(b1: string, z: string)
    requires b1 == "\\"
    ensures "[*]\\*" + z == "[" + ("*" + ("]" + (b1 + "*" + z)))
    ensures "\\[*\\]\\*" + z == "\\[" + ("*" + ("\\]" + (b1 + "*" + z)))
  {
    assert "[*]\\*" == "[" + ("*" + ("]" + (b1 + "*")));
    assert "\\[*\\]\\*" == "\\[" + ("*" + ("\\]" + (b1 + "*")));
  }

  lemma Mid7(b1: string, b2: string, b3: string, b4: string, x: string, x': string)
    requires b1 == "\\" && b2 == "\\\\" && b3 == "\\\\\\" && b4 == "\\\\\\\\"
    ensures "\\aSetof\\\\\\" + x == b1 + ("aSetof" + (b3 + x))
    ensures "\\\\aSetof\\\\\\\\" + x' == b2 + ("aSetof" + (b4 + x'))
    ensures "\\aSetof\\\\\\" + x == "\\aSetof" + (b3 + x)
  {
    assert "\\aSetof\\\\\\" == b1 + ("aSetof" + b3);
    assert "\\\\aSetof\\\\\\\\" == b2 + ("aSetof" + b4);
    assert "\\aSetof\\\\\\" == "\\aSetof" + b3;
  }

  lemma Tail7a()
    ensures "\\aSetof\\\\\\sigma{rule?}here*" == "\\aSetof\\\\\\" + "sigma{rule?}here*"
  {
  }

  lemma Tail7b()
    ensures "\\\\aSetof\\\\\\\\sigma\\{rule?\\}here*" == "\\\\aSetof\\\\\\\\" + "sigma\\{rule?\\}here*"
  {
  }

  lemma Tail7c()
    ensures "sigma{rule?}here*" == "sigma" + ("{" + ("rule?" + ("}" + "here*")))
    ensures "sigma\\{rule?\\}here*" == "sigma" + ("\\{" + ("rule?" + ("\\}" + "here*")))
  {
  }

  lemma Tail7d()
    ensures "sigma{rule?}here*" == "sigma{rule" + ("?" + ("}here" + "*"))
  {
  }

  lemma Words7()
    ensures HostText("sigma") && HostText("rule?") && HostText("here*")
    ensures HostText("aSetof") && Opens("sigma{rule?}here*")
    ensures SourceText("sigma{rule") && SourceText("}here") && SourceText("\\aSetof")
  {
  }

  lemma Str7(b2: string)
    requires b2 == "\\\\"
    ensures "]*" + ("\\aSetof" + (b2 + "sigma{rule")) == "]*\\aSetof\\\\sigma{rule"
  {
  }

  lemma Value7()
    ensures "[testing]*\\aSetof\\\\sigma{rules}hereWeGo"
      == "[" + ("testing" + ("]*\\aSetof\\\\sigma{rule" + (['s'] + ("}here" + "WeGo"))))
  {
  }

  /** Brackets are escaped; the plain text between them passes through. */
  lemma Translate7End(a: string, b: string, c: string)
    requires HostText(a) && HostText(b) && HostText(c)
    ensures Translate(a + ("{" + (b + ("}" + c)))) == a + ("\\{" + (b + ("\\}" + c)))
  {
    HostWhole(c);
    TranslateBracket('}', c);
    HostTail(b, "}" + c);
    TranslateBracket('{', b + ("}" + c));
    HostTail(a, "{" + (b + ("}" + c)));
  }

  lemma Translate7Mid(a: string, x: string, x': string)
    requires HostText(a) && Opens(a)
    requires Translate(x) == x'
    requires Opens(x)
    ensures Translate(Backslashes(1) + (a + (Backslashes(3) + x))) == Backslashes(2) + (a + (Backslashes(4) + x'))
  {
    TranslateOddRunOther(1, x);
    HostTail(a, Backslashes(3) + x);
    TranslateOddRunOther(0, a + (Backslashes(3) + x));
  }

  lemma Translate7Head(z: string, z': string)
    requires Translate(z) == z'
    ensures Translate("[" + ("*" + ("]" + (Backslashes(1) + "*" + z)))) == "\\[" + ("*" + ("\\]" + (Backslashes(1) + "*" + z')))
  {
    TranslateOddRunWildcard(0, '*', z);
    TranslateBracket(']', Backslashes(1) + "*" + z);
    TranslatePlainPrefix("*", "]" + (Backslashes(1) + "*" + z));
    TranslateBracket('[', "*" + ("]" + (Backslashes(1) + "*" + z)));
  }

  lemma Atoms7End(a: string, b: string)
    requires SourceText(a) && SourceText(b)
    ensures SourceAtoms(a + ("?" + (b + "*"))) == Lits(a) + ([One] + (Lits(b) + [Star]))
  {
    SourceChar('*', []);
    assert "*" == ['*'] + [];
    SourceTail(b, "*");
    SourceChar('?', b + "*");
    SourceTail(a, "?" + (b + "*"));
  }

  lemma Atoms7Mid(w: string, x: string, t: seq<Atom>)
    requires SourceText(w)
    requires SourceAtoms(x) == t
    requires Opens(x)
    ensures SourceAtoms(w + (Backslashes(3) + x)) == Lits(w) + (LitBackslashes(2) + t)
  {
    SourceOddOther(1, x);
    SourceTail(w, Backslashes(3) + x);
  }

  lemma Atoms7Head(w: string, t: seq<Atom>)
    requires SourceAtoms(w) == t
    ensures SourceAtoms("[" + ("*" + ("]" + (Backslashes(1) + "*" + w))))
      == [Lit('[')] + ([Star] + ([Lit(']')] + (LitBackslashes(0) + [Lit('*')] + t)))
  {
    SourceOddWildcard(0, '*', w);
    SourceChar(']', Backslashes(1) + "*" + w);
    SourceChar('*', "]" + (Backslashes(1) + "*" + w));
    SourceChar('[', "*" + ("]" + (Backslashes(1) + "*" + w)));
  }

  lemma Normal7Lits(w: string, m: string)
    ensures [Lit(']')] + (LitBackslashes(0) + [Lit('*')] + (Lits(w) + (LitBackslashes(2) + Lits(m))))
      == Lits("]*" + (w + (Backslashes(2) + m)))
  {
    LitBackslashesAre(2);
    assert [Lit(']')] + (LitBackslashes(0) + [Lit('*')]) == Lits("]*");
    LitsConcat(Backslashes(2), m);
    LitsConcat(w, Backslashes(2) + m);
    LitsConcat("]*", w + (Backslashes(2) + m));
    Assoc([Lit(']')], LitBackslashes(0) + [Lit('*')], Lits(w) + (LitBackslashes(2) + Lits(m)));
  }

  /** Regrouping `p + (m + (q + (r + (s + t))))` as `(p + (m + (q + (r + s)))) + t`. */
  lemma Regroup5<T>(p: seq<T>, m: seq<T>, q: seq<T>, r: seq<T>, s: seq<T>, t: seq<T>)
    ensures p + (m + (q + (r + (s + t)))) == (p + (m + (q + (r + s)))) + t
  {
    Assoc(r, s, t);
    Assoc(q, r + s, t);
    Assoc(m, q + (r + s), t);
    Assoc(p, m + (q + (r + s)), t);
  }

  lemma Normal7(w: string, m: string, t: seq<Atom>)
    ensures [Lit('[')] + ([Star] + ([Lit(']')] + (LitBackslashes(0) + [Lit('*')] + (Lits(w) + (LitBackslashes(2) + (Lits(m) + t))))))
      == Lits("[") + ([Star] + (Lits("]*" + (w + (Backslashes(2) + m))) + t))
  {
    Normal7Lits(w, m);
    Regroup5([Lit(']')], LitBackslashes(0) + [Lit('*')], Lits(w), LitBackslashes(2), Lits(m), t);
    assert Lits("[") == [Lit('[')];
  }

  /** `p*m?e*` matches `p`, anything, `m`, one character, `e` and anything. */
  lemma Match7(p: string, a: string, m: string, c: char, e: string, f: string)
    ensures MatchAtoms(Lits(p) + ([Star] + (Lits(m) + ([One] + (Lits(e) + [Star])))), p + (a + (m + ([c] + (e + f)))))
  {
    MatchStarAll(f);
    PrefixLits(e, [Star], f);
    ThenOne(Lits(e) + [Star], c, e + f);
    PrefixLits(m, [One] + (Lits(e) + [Star]), [c] + (e + f));
    SkipStar(Lits(m) + ([One] + (Lits(e) + [Star])), a, m + ([c] + (e + f)));
    PrefixLits(p, [Star] + (Lits(m) + ([One] + (Lits(e) + [Star]))), a + (m + ([c] + (e + f))));
  }

  /** Seventh row: brackets and braces are escaped for the host engine, the
      star inside the brackets stays a wildcard, and the pattern matches
      `[testing]*\aSetof\\sigma{rules}hereWeGo`. */
  lemma Brackets()
    ensures Translate("[*]\\*\\aSetof\\\\\\sigma{rule?}here*") == "\\[*\\]\\*\\\\aSetof\\\\\\\\sigma\\{rule?\\}here*"
    ensures GlobMatch("\\[*\\]\\*\\\\aSetof\\\\\\\\sigma\\{rule?\\}here*", "[testing]*\\aSetof\\\\sigma{rules}hereWeGo")
  {
    var x := "sigma{rule?}here*";
    var x' := "sigma\\{rule?\\}here*";
    Runs();
    Words7();
    Tail7a();
    Tail7b();
    Tail7c();
    Tail7d();
    Translate7End("sigma", "rule?", "here*");
    var z := "\\aSetof\\\\\\" + x;
    var z' := "\\\\aSetof\\\\\\\\" + x';
    Mid7(Backslashes(1), Backslashes(2), Backslashes(3), Backslashes(4), x, x');
    Translate7Mid("aSetof", x, x');
    Head7(Backslashes(1), z);
    Head7(Backslashes(1), z');
    Translate7Head(z, z');
    Cut7a();
    Cut7b();
    var t := [One] + (Lits("}here") + [Star]);
    Atoms7End("sigma{rule", "}here");
    Atoms7Mid("\\aSetof", x, Lits("sigma{rule") + t);
    Atoms7Head(z, Lits("\\aSetof") + (LitBackslashes(2) + (Lits("sigma{rule") + t)));
    Normal7("\\aSetof", "sigma{rule", t);
    Str7(Backslashes(2));
    Value7();
    Match7("[", "testing", "]*\\aSetof\\\\sigma{rule", 's', "}here", "WeGo");
    TranslateGlob("[*]\\*\\aSetof\\\\\\sigma{rule?}here*", "[testing]*\\aSetof\\\\sigma{rules}hereWeGo");
  }
}
