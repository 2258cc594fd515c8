/** The escaping translator: rewrites a rule's wildcard pattern into a pattern
    for the host glob engine. Source patterns use `*` and `?` as wildcards and
    backslash as an escape; `[`, `]`, `{` and `}` are ordinary characters in the
    source but syntax in the host engine, so the translator always escapes them.
    Backslashes are handled a maximal run at a time:
      - an even run is copied unchanged;
      - an odd run directly before `*` or `?` is copied together with that
        character, which stays an escaped literal;
      - any other odd run gains one backslash. */
module Escape {
  import opened Results
  import opened Glob

  function Backslashes(n: nat): (r: string)
    ensures |r| == n && forall i :: 0 <= i < n ==> r[i] == '\\'
  {
    seq(n, _ => '\\')
  }

  /** Length of the run of backslashes at the start of `s`. */
  function RunLength(s: string): (n: nat)
    ensures n <= |s|
    ensures forall i :: 0 <= i < n ==> s[i] == '\\'
    ensures n < |s| ==> s[n] != '\\'
  {
    if s != [] && s[0] == '\\' then 1 + RunLength(s[1..]) else 0
  }

  /** A string is its leading backslash run followed by the rest. */
  lemma RunSplit(s: string)
    ensures s == Backslashes(RunLength(s)) + s[RunLength(s)..]
  {
    var n := RunLength(s);
    assert s[..n] == Backslashes(n);
    assert s == s[..n] + s[n..];
  }

  /** The translator, one branch per case of the backslash-run table. */
  function Translate(s: string): string
    decreases |s|
  {
    if s == [] then []
    else if s[0] == '\\' then
      var n := RunLength(s);
      var rest := s[n..];
      if n % 2 == 0 then Backslashes(n) + Translate(rest)
      else if rest != [] && IsWildcard(rest[0]) then Backslashes(n) + [rest[0]] + Translate(rest[1..])
      else Backslashes(n + 1) + Translate(rest)
    else if IsBracket(s[0]) then ['\\', s[0]] + Translate(s[1..])
    else [s[0]] + Translate(s[1..])
  }

  /** What a source pattern means, read two characters at a time: `\\`, `\*`
      and `\?` are the escaped character; a backslash before anything else, or
      at the end, is a literal backslash; an unescaped `*` or `?` is a
      wildcard; every other character, brackets included, is itself. */
  function SourceAtoms(s: string): seq<Atom>
    decreases |s|
  {
    if s == [] then []
    else if s[0] == '\\' && |s| >= 2 && (s[1] == '\\' || IsWildcard(s[1])) then
      [Lit(s[1])] + SourceAtoms(s[2..])
    else [CharAtom(s[0])] + SourceAtoms(s[1..])
  }

  /** `k` literal backslashes. */
  function LitBackslashes(k: nat): seq<Atom> {
    seq(k, _ => Lit('\\'))
  }

  lemma {:induction false} SourceEvenRun(k: nat, x: string)
    ensures SourceAtoms(Backslashes(2 * k) + x) == LitBackslashes(k) + SourceAtoms(x)
  {
    if k > 0 {
      var s := Backslashes(2 * k) + x;
      assert s[2..] == Backslashes(2 * (k - 1)) + x;
      SourceEvenRun(k - 1, x);
      assert LitBackslashes(k) == [Lit('\\')] + LitBackslashes(k - 1);
    } else {
      assert Backslashes(0) + x == x;
    }
  }

  lemma GlueGlue(a: seq<Atom>, b: seq<Atom>, o: Option<seq<Atom>>)
    ensures Glue(a, Glue(b, o)) == Glue(a + b, o)
  {
    match o
    case Some(x) => assert a + (b + x) == a + b + x;
    case None =>
  }

  lemma {:induction false} HostEvenRun(k: nat, x: string)
    ensures HostAtoms(Backslashes(2 * k) + x) == Glue(LitBackslashes(k), HostAtoms(x))
  {
    if k > 0 {
      var s := Backslashes(2 * k) + x;
      assert s[0] == '\\' && s[1] == '\\';
      assert s[2..] == Backslashes(2 * (k - 1)) + x;
      assert HostAtoms(s) == Glue([Lit('\\')], HostAtoms(s[2..]));
      HostEvenRun(k - 1, x);
      GlueGlue([Lit('\\')], LitBackslashes(k - 1), HostAtoms(x));
      assert LitBackslashes(k) == [Lit('\\')] + LitBackslashes(k - 1);
    } else {
      assert Backslashes(0) + x == x;
      assert LitBackslashes(0) == [];
      match HostAtoms(x)
      case Some(a) => assert [] + a == a;
      case None =>
    }
  }

  lemma HostEscaped(c: char, t: string)
    ensures HostAtoms(['\\', c] + t) == Glue([Lit(c)], HostAtoms(t))
  {
    assert (['\\', c] + t)[2..] == t;
  }

  lemma SourceEscapedPair(c: char, t: string)
    requires c == '\\' || IsWildcard(c)
    ensures SourceAtoms(['\\', c] + t) == [Lit(c)] + SourceAtoms(t)
  {
    assert (['\\', c] + t)[2..] == t;
  }

  lemma SourceLoneBackslash(t: string)
    requires t == [] || (t[0] != '\\' && !IsWildcard(t[0]))
    ensures SourceAtoms(['\\'] + t) == [Lit('\\')] + SourceAtoms(t)
  {
    assert (['\\'] + t)[1..] == t;
  }

  /** Source reading of an odd run before a wildcard: the last backslash
      escapes the wildcard. */
  lemma SourceOddWildcard(k: nat, w: char, rest: string)
    requires IsWildcard(w)
    ensures SourceAtoms(Backslashes(2 * k + 1) + [w] + rest) == LitBackslashes(k) + [Lit(w)] + SourceAtoms(rest)
  {
    assert Backslashes(2 * k + 1) + [w] + rest == Backslashes(2 * k) + (['\\', w] + rest);
    SourceEvenRun(k, ['\\', w] + rest);
    SourceEscapedPair(w, rest);
  }

  /** Source reading of an odd run before anything but a wildcard: the last
      backslash stands for itself. */
  lemma SourceOddOther(k: nat, rest: string)
    requires rest == [] || (rest[0] != '\\' && !IsWildcard(rest[0]))
    ensures SourceAtoms(Backslashes(2 * k + 1) + rest) == LitBackslashes(k + 1) + SourceAtoms(rest)
  {
    assert Backslashes(2 * k + 1) + rest == Backslashes(2 * k) + (['\\'] + rest);
    SourceEvenRun(k, ['\\'] + rest);
    SourceLoneBackslash(rest);
    assert LitBackslashes(k + 1) == LitBackslashes(k) + [Lit('\\')];
  }

  /** Host reading of the translator's output for an odd run before a wildcard. */
  lemma HostOddWildcard(k: nat, w: char, t: string)
    ensures HostAtoms(Backslashes(2 * k + 1) + [w] + t) == Glue(LitBackslashes(k) + [Lit(w)], HostAtoms(t))
  {
    assert Backslashes(2 * k + 1) + [w] + t == Backslashes(2 * k) + (['\\', w] + t);
    HostEvenRun(k, ['\\', w] + t);
    HostEscaped(w, t);
    GlueGlue(LitBackslashes(k), [Lit(w)], HostAtoms(t));
  }

  /** The translator's first step on a string that starts with a backslash run. */
  lemma TranslateRun(s: string)
    requires s != [] && s[0] == '\\'
    ensures var n := RunLength(s); var rest := s[n..];
      && s == Backslashes(n) + rest
      && (n % 2 == 0 ==> Translate(s) == Backslashes(n) + Translate(rest))
      && (n % 2 == 1 && rest != [] && IsWildcard(rest[0]) ==>
            Translate(s) == Backslashes(n) + [rest[0]] + Translate(rest[1..]))
      && (n % 2 == 1 && !(rest != [] && IsWildcard(rest[0])) ==>
            Translate(s) == Backslashes(n + 1) + Translate(rest))
  {
    RunSplit(s);
  }

  /** Correctness of the translator: the host engine reads the translated
      pattern as exactly the atoms the source pattern means. In particular the
      output is always readable: no bare bracket and no dangling escape. */
  lemma {:induction false} TranslateMeaning(s: string)
    ensures HostAtoms(Translate(s)) == Some(SourceAtoms(s))
    decreases |s|
  {
    if s == [] {
    } else if s[0] == '\\' {
      var rest := s[RunLength(s)..];
      TranslateMeaning(rest);
      if rest != [] {
        TranslateMeaning(rest[1..]);
      }
      TranslateMeaningRun(s);
    } else {
      TranslateMeaning(s[1..]);
      TranslateMeaningChar(s);
    }
  }

  /** The inductive step for a leading backslash run. */
  lemma TranslateMeaningRun(s: string)
    requires s != [] && s[0] == '\\'
    requires var rest := s[RunLength(s)..];
      && HostAtoms(Translate(rest)) == Some(SourceAtoms(rest))
      && (rest != [] ==> HostAtoms(Translate(rest[1..])) == Some(SourceAtoms(rest[1..])))
    ensures HostAtoms(Translate(s)) == Some(SourceAtoms(s))
  {
    var n := RunLength(s);
    var rest := s[n..];
    if n % 2 == 0 {
      MeaningEvenRun(s);
    } else if rest != [] && IsWildcard(rest[0]) {
      MeaningOddWildcard(s);
    } else {
      MeaningOddOther(s);
    }
  }

  lemma MeaningEvenRun(s: string)
    requires s != [] && s[0] == '\\' && RunLength(s) % 2 == 0
    requires HostAtoms(Translate(s[RunLength(s)..])) == Some(SourceAtoms(s[RunLength(s)..]))
    ensures HostAtoms(Translate(s)) == Some(SourceAtoms(s))
  {
    var n := RunLength(s);
    var rest := s[n..];
    var k := n / 2;
    TranslateRun(s);
    assert n == 2 * k;
    TranslateMeaningEven(k, rest);
    assert Translate(s) == Backslashes(2 * k) + Translate(rest);
    assert s == Backslashes(2 * k) + rest;
  }

  lemma MeaningOddWildcard(s: string)
    requires s != [] && s[0] == '\\' && RunLength(s) % 2 == 1
    requires var rest := s[RunLength(s)..];
      && rest != [] && IsWildcard(rest[0])
      && HostAtoms(Translate(rest[1..])) == Some(SourceAtoms(rest[1..]))
    ensures HostAtoms(Translate(s)) == Some(SourceAtoms(s))
  {
    var n := RunLength(s);
    var rest := s[n..];
    var k := n / 2;
    TranslateRun(s);
    assert n == 2 * k + 1;
    TranslateMeaningOddWildcard(k, rest[0], rest[1..]);
    assert Translate(s) == Backslashes(2 * k + 1) + [rest[0]] + Translate(rest[1..]);
    assert rest == [rest[0]] + rest[1..];
    assert s == Backslashes(2 * k + 1) + ([rest[0]] + rest[1..]);
  }

  lemma MeaningOddOther(s: string)
    requires s != [] && s[0] == '\\' && RunLength(s) % 2 == 1
    requires var rest := s[RunLength(s)..];
      && (rest == [] || !IsWildcard(rest[0]))
      && HostAtoms(Translate(rest)) == Some(SourceAtoms(rest))
    ensures HostAtoms(Translate(s)) == Some(SourceAtoms(s))
  {
    var n := RunLength(s);
    var rest := s[n..];
    var k := n / 2;
    TranslateRun(s);
    assert n == 2 * k + 1;
    TranslateMeaningOddOther(k, rest);
    assert Translate(s) == Backslashes(2 * k + 1 + 1) + Translate(rest);
    assert s == Backslashes(2 * k + 1) + rest;
  }

  /** The inductive step for a leading character other than a backslash. */
  lemma TranslateMeaningChar(s: string)
    requires s != [] && s[0] != '\\'
    requires HostAtoms(Translate(s[1..])) == Some(SourceAtoms(s[1..]))
    ensures HostAtoms(Translate(s)) == Some(SourceAtoms(s))
  {
    var t := Translate(s[1..]);
    if IsBracket(s[0]) {
      HostEscaped(s[0], t);
    } else {
      assert ([s[0]] + t)[1..] == t;
    }
  }

  lemma TranslateMeaningEven(k: nat, rest: string)
    requires HostAtoms(Translate(rest)) == Some(SourceAtoms(rest))
    ensures HostAtoms(Backslashes(2 * k) + Translate(rest)) == Some(SourceAtoms(Backslashes(2 * k) + rest))
  {
    HostEvenRun(k, Translate(rest));
    SourceEvenRun(k, rest);
  }

  lemma TranslateMeaningOddWildcard(k: nat, w: char, rest: string)
    requires IsWildcard(w)
    requires HostAtoms(Translate(rest)) == Some(SourceAtoms(rest))
    ensures HostAtoms(Backslashes(2 * k + 1) + [w] + Translate(rest)) == Some(SourceAtoms(Backslashes(2 * k + 1) + ([w] + rest)))
  {
    HostOddWildcard(k, w, Translate(rest));
    assert Backslashes(2 * k + 1) + ([w] + rest) == Backslashes(2 * k + 1) + [w] + rest;
    SourceOddWildcard(k, w, rest);
  }

  lemma TranslateMeaningOddOther(k: nat, rest: string)
    requires rest == [] || (rest[0] != '\\' && !IsWildcard(rest[0]))
    requires HostAtoms(Translate(rest)) == Some(SourceAtoms(rest))
    ensures HostAtoms(Backslashes(2 * k + 1 + 1) + Translate(rest)) == Some(SourceAtoms(Backslashes(2 * k + 1) + rest))
  {
    assert 2 * k + 1 + 1 == 2 * (k + 1);
    HostEvenRun(k + 1, Translate(rest));
    SourceOddOther(k, rest);
  }

  /** Matching a value against a translated pattern is matching it against
      what the source pattern means. */
  lemma TranslateGlob(s: string, v: string)
    ensures GlobMatch(Translate(s), v) == MatchAtoms(SourceAtoms(s), v)
  {
    TranslateMeaning(s);
  }
}

module EscapeFacts {
  import opened Results
  import opened Text
  import opened Glob
  import opened Escape

  /** The backslash run at the start of `Backslashes(m) + rest` has length `m`
      when `rest` does not continue it. */
  lemma {:induction false} RunLengthOf(m: nat, rest: string)
    requires rest == [] || rest[0] != '\\'
    ensures RunLength(Backslashes(m) + rest) == m
  {
    if m > 0 {
      var s := Backslashes(m) + rest;
      assert s[1..] == Backslashes(m - 1) + rest;
      RunLengthOf(m - 1, rest);
    } else {
      assert Backslashes(0) + rest == rest;
    }
  }

  /** An even run of backslashes is copied unchanged. */
  lemma TranslateEvenRun(k: nat, rest: string)
    requires k > 0
    requires rest == [] || rest[0] != '\\'
    ensures Translate(Backslashes(2 * k) + rest) == Backslashes(2 * k) + Translate(rest)
  {
    var s := Backslashes(2 * k) + rest;
    RunLengthOf(2 * k, rest);
    assert s[2 * k..] == rest;
    assert s[0] == '\\';
    assert Translate(s) == Backslashes(RunLength(s)) + Translate(s[RunLength(s)..]);
  }

  /** An odd run directly before `*` or `?` is copied together with it, so the
      wildcard stays escaped. */
  lemma TranslateOddRunWildcard(k: nat, w: char, rest: string)
    requires IsWildcard(w)
    ensures Translate(Backslashes(2 * k + 1) + [w] + rest) == Backslashes(2 * k + 1) + [w] + Translate(rest)
  {
    var tail := [w] + rest;
    var s := Backslashes(2 * k + 1) + tail;
    assert s == Backslashes(2 * k + 1) + [w] + rest;
    RunLengthOf(2 * k + 1, tail);
    assert s[0] == '\\';
    assert s[2 * k + 1..] == tail;
    assert tail[0] == w && tail[1..] == rest;
    var n := RunLength(s);
    assert n == 2 * k + 1 && n % 2 == 1;
    assert Translate(s) == Backslashes(n) + [tail[0]] + Translate(tail[1..]);
  }

  /** Any other odd run gains exactly one backslash. */
  lemma TranslateOddRunOther(k: nat, rest: string)
    requires rest == [] || (rest[0] != '\\' && !IsWildcard(rest[0]))
    ensures Translate(Backslashes(2 * k + 1) + rest) == Backslashes(2 * k + 2) + Translate(rest)
  {
    var s := Backslashes(2 * k + 1) + rest;
    RunLengthOf(2 * k + 1, rest);
    assert s[2 * k + 1..] == rest;
    assert s[0] == '\\';
    assert Translate(s) == Backslashes(2 * k + 1 + 1) + Translate(rest);
  }

  /** A bracket outside a backslash run is always emitted escaped. */
  lemma TranslateBracket(c: char, rest: string)
    requires IsBracket(c)
    ensures Translate([c] + rest) == ['\\', c] + Translate(rest)
  {
    assert ([c] + rest)[1..] == rest;
  }

  /** Translation can be done piecewise when the first piece does not end in
      the middle of a backslash run. */
  lemma {:induction false} TranslateConcat(a: string, b: string)
    requires a == [] || a[|a| - 1] != '\\'
    ensures Translate(a + b) == Translate(a) + Translate(b)
    decreases |a|
  {
    if a == [] {
      assert a + b == b;
    } else if a[0] == '\\' {
      var rest := a[RunLength(a)..];
      assert a[|a| - 1] != '\\';
      assert rest != [] && rest[|rest| - 1] == a[|a| - 1];
      TranslateConcat(rest, b);
      assert rest[1..] == [] || rest[1..][|rest[1..]| - 1] == rest[|rest| - 1];
      TranslateConcat(rest[1..], b);
      ConcatRun(a, b);
    } else {
      TranslateConcat(a[1..], b);
      assert a == [a[0]] + a[1..];
      ConcatChar(a[0], a[1..], b);
    }
  }

  /** The inductive step for a leading backslash run. */
  lemma ConcatRun(a: string, b: string)
    requires a != [] && a[0] == '\\' && a[|a| - 1] != '\\'
    requires var rest := a[RunLength(a)..];
      && rest != []
      && Translate(rest + b) == Translate(rest) + Translate(b)
      && Translate(rest[1..] + b) == Translate(rest[1..]) + Translate(b)
    ensures Translate(a + b) == Translate(a) + Translate(b)
  {
    var n := RunLength(a);
    var rest := a[n..];
    if n % 2 == 0 {
      ConcatEvenStep(a, b);
    } else if IsWildcard(rest[0]) {
      ConcatWildcardStep(a, b);
    } else {
      ConcatOtherStep(a, b);
    }
  }

  lemma ConcatEvenStep(a: string, b: string)
    requires a != [] && a[0] == '\\' && RunLength(a) % 2 == 0
    requires var rest := a[RunLength(a)..];
      rest != [] && Translate(rest + b) == Translate(rest) + Translate(b)
    ensures Translate(a + b) == Translate(a) + Translate(b)
  {
    var n := RunLength(a);
    var rest := a[n..];
    var k := n / 2;
    RunSplit(a);
    assert n == 2 * k;
    assert a == Backslashes(2 * k) + rest;
    ConcatEven(k, rest, b);
  }

  lemma ConcatWildcardStep(a: string, b: string)
    requires a != [] && a[0] == '\\' && RunLength(a) % 2 == 1
    requires var rest := a[RunLength(a)..];
      && rest != [] && IsWildcard(rest[0])
      && Translate(rest[1..] + b) == Translate(rest[1..]) + Translate(b)
    ensures Translate(a + b) == Translate(a) + Translate(b)
  {
    var n := RunLength(a);
    var rest := a[n..];
    var k := n / 2;
    var w := rest[0];
    RunSplit(a);
    assert n == 2 * k + 1;
    assert rest == [w] + rest[1..];
    assert a == Backslashes(2 * k + 1) + [w] + rest[1..];
    ConcatOddWildcard(k, w, rest[1..], b);
  }

  lemma ConcatOtherStep(a: string, b: string)
    requires a != [] && a[0] == '\\' && RunLength(a) % 2 == 1
    requires var rest := a[RunLength(a)..];
      && rest != [] && !IsWildcard(rest[0])
      && Translate(rest + b) == Translate(rest) + Translate(b)
    ensures Translate(a + b) == Translate(a) + Translate(b)
  {
    var n := RunLength(a);
    var rest := a[n..];
    var k := n / 2;
    RunSplit(a);
    assert n == 2 * k + 1;
    assert a == Backslashes(2 * k + 1) + rest;
    ConcatOddOther(k, rest, b);
  }

  lemma ConcatChar(c: char, rest: string, b: string)
    requires c != '\\'
    requires Translate(rest + b) == Translate(rest) + Translate(b)
    ensures Translate([c] + rest + b) == Translate([c] + rest) + Translate(b)
  {
    Assoc([c], rest, b);
    assert ([c] + (rest + b))[1..] == rest + b;
    assert ([c] + rest)[1..] == rest;
    var e := if IsBracket(c) then ['\\', c] else [c];
    assert Translate([c] + rest) == e + Translate(rest);
    assert Translate([c] + (rest + b)) == e + Translate(rest + b);
    Assoc(e, Translate(rest), Translate(b));
  }

  lemma ConcatEven(k: nat, rest: string, b: string)
    requires k > 0 && rest != [] && rest[0] != '\\'
    requires Translate(rest + b) == Translate(rest) + Translate(b)
    ensures Translate(Backslashes(2 * k) + rest + b) == Translate(Backslashes(2 * k) + rest) + Translate(b)
  {
    Assoc(Backslashes(2 * k), rest, b);
    assert (rest + b)[0] == rest[0];
    TranslateEvenRun(k, rest);
    TranslateEvenRun(k, rest + b);
    Assoc(Backslashes(2 * k), Translate(rest), Translate(b));
  }

  lemma ConcatOddWildcard(k: nat, w: char, rest: string, b: string)
    requires IsWildcard(w)
    requires Translate(rest + b) == Translate(rest) + Translate(b)
    ensures Translate(Backslashes(2 * k + 1) + [w] + rest + b) == Translate(Backslashes(2 * k + 1) + [w] + rest) + Translate(b)
  {
    Assoc(Backslashes(2 * k + 1) + [w], rest, b);
    TranslateOddRunWildcard(k, w, rest);
    TranslateOddRunWildcard(k, w, rest + b);
    Assoc(Backslashes(2 * k + 1) + [w], Translate(rest), Translate(b));
  }

  lemma ConcatOddOther(k: nat, rest: string, b: string)
    requires rest != [] && rest[0] != '\\' && !IsWildcard(rest[0])
    requires Translate(rest + b) == Translate(rest) + Translate(b)
    ensures Translate(Backslashes(2 * k + 1) + rest + b) == Translate(Backslashes(2 * k + 1) + rest) + Translate(b)
  {
    Assoc(Backslashes(2 * k + 1), rest, b);
    assert (rest + b)[0] == rest[0];
    TranslateOddRunOther(k, rest);
    TranslateOddRunOther(k, rest + b);
    Assoc(Backslashes(2 * k + 2), Translate(rest), Translate(b));
  }

  /** Text with no backslash and no bracket passes through unchanged. */
  lemma {:induction false} TranslatePlain(w: string)
    requires forall i :: 0 <= i < |w| ==> w[i] != '\\' && !IsBracket(w[i])
    ensures Translate(w) == w
    decreases |w|
  {
    if w != [] {
      TranslatePlain(w[1..]);
    }
  }

  /** Patterns already in the host engine's escaped form: every backslash pairs
      with a following backslash or wildcard, and there is no bracket. */
  predicate HostReady(s: string)
    decreases |s|
  {
    if s == [] then true
    else if s[0] == '\\' then |s| >= 2 && (s[1] == '\\' || IsWildcard(s[1])) && HostReady(s[2..])
    else !IsBracket(s[0]) && HostReady(s[1..])
  }

  lemma {:induction false} HostReadyEvenRun(k: nat, x: string)
    ensures HostReady(Backslashes(2 * k) + x) == HostReady(x)
  {
    if k > 0 {
      var s := Backslashes(2 * k) + x;
      assert s[2..] == Backslashes(2 * (k - 1)) + x;
      HostReadyEvenRun(k - 1, x);
    } else {
      assert Backslashes(0) + x == x;
    }
  }

  /** The translator grows its input by one character per bracket and per odd
      backslash run not followed by a wildcard, and changes nothing else. */
  predicate Grows(s: string) {
    && |Translate(s)| >= |s|
    && (HostReady(s) ==> Translate(s) == s)
    && (!HostReady(s) ==> |Translate(s)| > |s|)
  }

  lemma TranslateGrowth(s: string)
    ensures |Translate(s)| >= |s|
    ensures HostReady(s) ==> Translate(s) == s
    ensures !HostReady(s) ==> |Translate(s)| > |s|
  {
    GrowthAll(s);
  }

  lemma {:induction false} GrowthAll(s: string)
    ensures Grows(s)
    decreases |s|
  {
    if s == [] {
    } else if s[0] == '\\' {
      var rest := s[RunLength(s)..];
      GrowthAll(rest);
      if rest != [] {
        GrowthAll(rest[1..]);
      }
      GrowthRun(s);
    } else {
      GrowthAll(s[1..]);
      assert s == [s[0]] + s[1..];
      GrowthChar(s[0], s[1..]);
    }
  }

  /** The inductive step for a leading backslash run. */
  lemma GrowthRun(s: string)
    requires s != [] && s[0] == '\\'
    requires var rest := s[RunLength(s)..]; Grows(rest) && (rest != [] ==> Grows(rest[1..]))
    ensures Grows(s)
  {
    var n := RunLength(s);
    var rest := s[n..];
    if n % 2 == 0 {
      GrowthEvenStep(s);
    } else if rest != [] && IsWildcard(rest[0]) {
      GrowthWildcardStep(s);
    } else {
      GrowthOtherStep(s);
    }
  }

  lemma GrowthEvenStep(s: string)
    requires s != [] && s[0] == '\\' && RunLength(s) % 2 == 0
    requires Grows(s[RunLength(s)..])
    ensures Grows(s)
  {
    var n := RunLength(s);
    var rest := s[n..];
    var k := n / 2;
    RunSplit(s);
    assert n == 2 * k;
    assert s == Backslashes(2 * k) + rest;
    GrowthEven(k, rest);
  }

  lemma GrowthWildcardStep(s: string)
    requires s != [] && s[0] == '\\' && RunLength(s) % 2 == 1
    requires var rest := s[RunLength(s)..]; rest != [] && IsWildcard(rest[0]) && Grows(rest[1..])
    ensures Grows(s)
  {
    var n := RunLength(s);
    var rest := s[n..];
    var k := n / 2;
    RunSplit(s);
    assert n == 2 * k + 1;
    assert rest == [rest[0]] + rest[1..];
    assert s == Backslashes(2 * k + 1) + [rest[0]] + rest[1..];
    GrowthOddWildcard(k, rest[0], rest[1..]);
  }

  lemma GrowthOtherStep(s: string)
    requires s != [] && s[0] == '\\' && RunLength(s) % 2 == 1
    requires var rest := s[RunLength(s)..]; (rest == [] || !IsWildcard(rest[0])) && Grows(rest)
    ensures Grows(s)
  {
    var n := RunLength(s);
    var rest := s[n..];
    var k := n / 2;
    RunSplit(s);
    assert n == 2 * k + 1;
    assert s == Backslashes(2 * k + 1) + rest;
    GrowthOddOther(k, rest);
  }

  lemma GrowthChar(c: char, rest: string)
    requires c != '\\'
    requires Grows(rest)
    ensures Grows([c] + rest)
  {
    assert ([c] + rest)[1..] == rest;
  }

  lemma GrowthEven(k: nat, rest: string)
    requires k > 0 && (rest == [] || rest[0] != '\\')
    requires Grows(rest)
    ensures Grows(Backslashes(2 * k) + rest)
  {
    TranslateEvenRun(k, rest);
    HostReadyEvenRun(k, rest);
  }

  lemma GrowthOddWildcard(k: nat, w: char, rest: string)
    requires IsWildcard(w)
    requires Grows(rest)
    ensures Grows(Backslashes(2 * k + 1) + [w] + rest)
  {
    TranslateOddRunWildcard(k, w, rest);
    var pair := ['\\', w] + rest;
    assert Backslashes(2 * k + 1) + [w] + rest == Backslashes(2 * k) + pair;
    HostReadyEvenRun(k, pair);
    assert pair[2..] == rest;
  }

  lemma GrowthOddOther(k: nat, rest: string)
    requires rest == [] || (rest[0] != '\\' && !IsWildcard(rest[0]))
    requires Grows(rest)
    ensures Grows(Backslashes(2 * k + 1) + rest)
  {
    TranslateOddRunOther(k, rest);
    var lone := ['\\'] + rest;
    assert Backslashes(2 * k + 1) + rest == Backslashes(2 * k) + lone;
    HostReadyEvenRun(k, lone);
    assert !HostReady(lone);
  }

  /** The translator leaves a pattern unchanged exactly when it is already in
      the host engine's escaped form. */
  lemma TranslateFixpoint(s: string)
    ensures Translate(s) == s <==> HostReady(s)
  {
    TranslateGrowth(s);
  }

  /** A pattern with no live wildcard is an exact match against the text it
      spells. */
  lemma ExactWhenNoWildcard(s: string, v: string)
    requires forall i :: 0 <= i < |SourceAtoms(s)| ==> SourceAtoms(s)[i].Lit?
    ensures GlobMatch(Translate(s), v) <==> v == AtomText(SourceAtoms(s))
  {
    var a := SourceAtoms(s);
    TranslateMeaning(s);
    var w := AtomText(a);
    assert forall i :: 0 <= i < |a| ==> a[i] == Lit(a[i].c) == Lits(w)[i];
    assert a == Lits(w);
    MatchLits(AtomText(a), v);
  }

  /** The characters a run of literal atoms spells. */
  function AtomText(a: seq<Atom>): (w: string)
    requires forall i :: 0 <= i < |a| ==> a[i].Lit?
    ensures |w| == |a| && forall i :: 0 <= i < |a| ==> w[i] == a[i].c
  {
    seq(|a|, i requires 0 <= i < |a| => a[i].c)
  }

  /** Reading a source pattern can be done piecewise when the first piece does
      not end in a backslash. */
  lemma {:induction false} SourceConcat(a: string, b: string)
    requires a == [] || a[|a| - 1] != '\\'
    ensures SourceAtoms(a + b) == SourceAtoms(a) + SourceAtoms(b)
    decreases |a|
  {
    if a == [] {
      assert a + b == b;
    } else {
      var m := if a[0] == '\\' && |a| >= 2 && (a[1] == '\\' || IsWildcard(a[1])) then 2 else 1;
      var head := a[..m];
      var rest := a[m..];
      assert a == head + rest;
      SourceConcat(rest, b);
      Assoc(head, rest, b);
      var s := head + (rest + b);
      assert s[m..] == rest + b;
      var x := if m == 2 then Lit(a[1]) else CharAtom(a[0]);
      assert SourceAtoms(s) == [x] + SourceAtoms(rest + b);
      assert SourceAtoms(a) == [x] + SourceAtoms(rest);
      Assoc([x], SourceAtoms(rest), SourceAtoms(b));
    }
  }

  /** Source text with no wildcard character and no doubled backslash means
      itself, character for character (each backslash is a literal one). */
  lemma {:induction false} SourcePlain(w: string)
    requires forall i :: 0 <= i < |w| ==> !IsWildcard(w[i])
    requires forall i :: 0 <= i < |w| - 1 ==> !(w[i] == '\\' && w[i + 1] == '\\')
    ensures SourceAtoms(w) == Lits(w)
    decreases |w|
  {
    if w != [] {
      SourcePlain(w[1..]);
      assert Lits(w) == [Lit(w[0])] + Lits(w[1..]);
    }
  }

  /** A plain leading piece passes through and the translation goes on after it. */
  lemma TranslatePlainPrefix(w: string, rest: string)
    requires forall i :: 0 <= i < |w| ==> w[i] != '\\' && !IsBracket(w[i])
    ensures Translate(w + rest) == w + Translate(rest)
  {
    TranslatePlain(w);
    TranslateConcat(w, rest);
  }

  /** A plain leading piece means itself and the reading goes on after it. */
  lemma SourcePlainPrefix(w: string, rest: string)
    requires w == [] || w[|w| - 1] != '\\'
    requires forall i :: 0 <= i < |w| ==> !IsWildcard(w[i])
    requires forall i :: 0 <= i < |w| - 1 ==> !(w[i] == '\\' && w[i + 1] == '\\')
    ensures SourceAtoms(w + rest) == Lits(w) + SourceAtoms(rest)
  {
    SourcePlain(w);
    SourceConcat(w, rest);
  }

  /** A character other than a backslash is read on its own. */
  lemma SourceChar(c: char, rest: string)
    requires c != '\\'
    ensures SourceAtoms([c] + rest) == [CharAtom(c)] + SourceAtoms(rest)
  {
    assert ([c] + rest)[1..] == rest;
  }
}
