/** A small glob matcher standing in for the host pattern engine that the
    escaping translator targets. A host pattern is read into atoms: `*` matches
    any run of characters, `?` exactly one character, and a backslash makes the
    next character literal. Bare `[`, `]`, `{` and `}` open character classes and
    alternation groups in the host engine; this stand-in does not model those
    and reads such a pattern as unsupported. */
module Glob {
  import opened Results
  import opened Text

  datatype Atom = Star | One | Lit(c: char)

  predicate IsWildcard(c: char) {
    c == '*' || c == '?'
  }

  predicate IsBracket(c: char) {
    c == '[' || c == ']' || c == '{' || c == '}'
  }

  /** The atom an unescaped character stands for. */
  function CharAtom(c: char): Atom {
    if c == '*' then Star else if c == '?' then One else Lit(c)
  }

  /** The atoms matching exactly the characters of `w`. */
  function Lits(w: string): (a: seq<Atom>)
    ensures |a| == |w|
    ensures forall i :: 0 <= i < |w| ==> a[i] == Lit(w[i])
  {
    seq(|w|, i requires 0 <= i < |w| => Lit(w[i]))
  }

  /** Prefix `pre` to a successful reading; a failed reading stays failed. */
  function Glue(pre: seq<Atom>, o: Option<seq<Atom>>): Option<seq<Atom>> {
    match o
    case Some(a) => Some(pre + a)
    case None => None
  }

  /** How the host engine reads a pattern, or None for a dangling escape or a
      bare bracket. */
  function HostAtoms(p: string): Option<seq<Atom>>
    decreases |p|
  {
    if p == [] then Some([])
    else if p[0] == '\\' then
      if |p| == 1 then None else Glue([Lit(p[1])], HostAtoms(p[2..]))
    else if IsBracket(p[0]) then None
    else Glue([CharAtom(p[0])], HostAtoms(p[1..]))
  }

  /** Characters the host engine would read as syntax when unescaped. */
  predicate IsHostSyntax(c: char) {
    c == '\\' || IsWildcard(c) || IsBracket(c)
  }

  /** Writes atoms back as a host pattern, escaping every syntax character. */
  function HostPattern(a: seq<Atom>): string {
    if a == [] then []
    else
      var head := match a[0]
        case Star => "*"
        case One => "?"
        case Lit(c) => if IsHostSyntax(c) then ['\\', c] else [c];
      head + HostPattern(a[1..])
  }

  /** Reading back a written pattern gives the atoms that were written. */
  lemma {:induction false} HostPatternRoundTrip(a: seq<Atom>)
    ensures HostAtoms(HostPattern(a)) == Some(a)
  {
    if a != [] {
      HostPatternRoundTrip(a[1..]);
      var p := HostPattern(a);
      var tail := HostPattern(a[1..]);
      assert [a[0]] + a[1..] == a;
      match a[0]
      case Star =>
        assert p == "*" + tail;
        assert p[1..] == tail;
        assert HostAtoms(p) == Glue([Star], HostAtoms(tail));
      case One =>
        assert p == "?" + tail;
        assert p[1..] == tail;
        assert HostAtoms(p) == Glue([One], HostAtoms(tail));
      case Lit(c) =>
        if IsHostSyntax(c) {
          assert p == ['\\', c] + tail;
          assert p[2..] == tail;
          assert HostAtoms(p) == Glue([Lit(c)], HostAtoms(tail));
        } else {
          assert p == [c] + tail;
          assert p[1..] == tail;
          assert CharAtom(c) == Lit(c);
          assert HostAtoms(p) == Glue([Lit(c)], HostAtoms(tail));
        }
    }
  }

  /** Does the atom sequence match the whole of `v`? */
  function MatchAtoms(a: seq<Atom>, v: string): bool
    decreases |a|, |v|
  {
    if a == [] then v == []
    else match a[0]
      case Star => MatchAtoms(a[1..], v) || (v != [] && MatchAtoms(a, v[1..]))
      case One => v != [] && MatchAtoms(a[1..], v[1..])
      case Lit(c) => v != [] && v[0] == c && MatchAtoms(a[1..], v[1..])
  }

  /** The stand-in for compiling and matching a host glob. */
  function GlobMatch(p: string, v: string): bool {
    match HostAtoms(p)
    case Some(a) => MatchAtoms(a, v)
    case None => false
  }

  /** `a + b` matches `v` split at position `k`. */
  predicate SplitMatch(a: seq<Atom>, b: seq<Atom>, v: string, k: nat) {
    k <= |v| && MatchAtoms(a, v[..k]) && MatchAtoms(b, v[k..])
  }

  /** Matching is compositional: a concatenation of atom sequences matches a
      value exactly when the value splits into parts matched by each. */
  lemma {:induction false} MatchConcat(a: seq<Atom>, b: seq<Atom>, v: string)
    ensures MatchAtoms(a + b, v) <==> exists k: nat :: SplitMatch(a, b, v, k)
    decreases |a|, |v|
  {
    if a == [] {
      assert a + b == b;
      assert v[..0] == [] && v[0..] == v;
      if MatchAtoms(b, v) {
        assert SplitMatch(a, b, v, 0);
      }
    } else {
      assert (a + b)[0] == a[0];
      assert (a + b)[1..] == a[1..] + b;
      match a[0]
      case Star =>
        MatchConcat(a[1..], b, v);
        if v != [] {
          MatchConcat(a, b, v[1..]);
        }
        if MatchAtoms(a + b, v) {
          if MatchAtoms(a[1..] + b, v) {
            var k: nat :| SplitMatch(a[1..], b, v, k);
            assert SplitMatch(a, b, v, k);
          } else {
            var k: nat :| SplitMatch(a, b, v[1..], k);
            assert v[..k + 1][1..] == v[1..][..k];
            assert v[k + 1..] == v[1..][k..];
            assert SplitMatch(a, b, v, k + 1);
          }
        }
        if exists k: nat :: SplitMatch(a, b, v, k) {
          var k: nat :| SplitMatch(a, b, v, k);
          if MatchAtoms(a[1..], v[..k]) {
            assert SplitMatch(a[1..], b, v, k);
          } else {
            assert k > 0;
            assert v[..k][1..] == v[1..][..k - 1];
            assert v[k..] == v[1..][k - 1..];
            assert SplitMatch(a, b, v[1..], k - 1);
          }
        }
      case One =>
        if v != [] {
          MatchConcat(a[1..], b, v[1..]);
          SplitShift(a, b, v);
        } else {
          forall k: nat ensures !SplitMatch(a, b, v, k) {
            assert k > 0 ==> k > |v|;
          }
        }
      case Lit(c) =>
        if v != [] {
          MatchConcat(a[1..], b, v[1..]);
          SplitShift(a, b, v);
        } else {
          forall k: nat ensures !SplitMatch(a, b, v, k) {
            assert k > 0 ==> k > |v|;
          }
        }
    }
  }

  /** For a leading single-character atom, splits of `v` and of `v[1..]` correspond. */
  lemma SplitShift(a: seq<Atom>, b: seq<Atom>, v: string)
    requires a != [] && !a[0].Star? && v != []
    requires MatchAtoms(a, v) <==> (a[0].One? || v[0] == a[0].c) && MatchAtoms(a[1..], v[1..])
    ensures (exists k: nat :: SplitMatch(a, b, v, k)) <==>
            (a[0].One? || v[0] == a[0].c) && exists k: nat :: SplitMatch(a[1..], b, v[1..], k)
  {
    if exists k: nat :: SplitMatch(a, b, v, k) {
      var k: nat :| SplitMatch(a, b, v, k);
      ShiftDown(a, b, v, k);
    }
    if (a[0].One? || v[0] == a[0].c) && exists k: nat :: SplitMatch(a[1..], b, v[1..], k) {
      var k: nat :| SplitMatch(a[1..], b, v[1..], k);
      ShiftUp(a, b, v, k);
    }
  }

  lemma ShiftDown(a: seq<Atom>, b: seq<Atom>, v: string, k: nat)
    requires a != [] && !a[0].Star? && v != []
    requires SplitMatch(a, b, v, k)
    ensures k > 0 && (a[0].One? || v[0] == a[0].c) && SplitMatch(a[1..], b, v[1..], k - 1)
  {
    assert k > 0;
    assert v[..k][1..] == v[1..][..k - 1];
    assert v[..k][0] == v[0];
    assert v[k..] == v[1..][k - 1..];
  }

  lemma ShiftUp(a: seq<Atom>, b: seq<Atom>, v: string, k: nat)
    requires a != [] && !a[0].Star? && v != []
    requires (a[0].One? || v[0] == a[0].c) && SplitMatch(a[1..], b, v[1..], k)
    ensures SplitMatch(a, b, v, k + 1)
  {
    assert v[..k + 1][1..] == v[1..][..k];
    assert v[..k + 1][0] == v[0];
    assert v[k + 1..] == v[1..][k..];
  }

  /** A run of literals matches exactly the string it spells. */
  lemma {:induction false} MatchLits(w: string, v: string)
    ensures MatchAtoms(Lits(w), v) <==> v == w
    decreases |w|
  {
    if w != [] {
      MatchLits(w[1..], if v == [] then v else v[1..]);
      assert Lits(w)[1..] == Lits(w[1..]);
      if v != [] && v[0] == w[0] && v[1..] == w[1..] {
        assert v == [v[0]] + v[1..] && w == [w[0]] + w[1..];
      }
    }
  }

  /** A leading literal run must be a prefix of the value, and the rest of the
      pattern matches what follows it. */
  lemma MatchLitsPrefix(w: string, rest: seq<Atom>, v: string)
    ensures MatchAtoms(Lits(w) + rest, v) <==> StartsWith(v, w) && MatchAtoms(rest, v[|w|..])
  {
    MatchConcat(Lits(w), rest, v);
    if StartsWith(v, w) && MatchAtoms(rest, v[|w|..]) {
      MatchLits(w, v[..|w|]);
      assert SplitMatch(Lits(w), rest, v, |w|);
    }
    if MatchAtoms(Lits(w) + rest, v) {
      var k: nat :| SplitMatch(Lits(w), rest, v, k);
      MatchLits(w, v[..k]);
    }
  }

  /** A trailing literal run must be a suffix of the value. */
  lemma MatchLitsSuffix(a: seq<Atom>, w: string, v: string)
    requires MatchAtoms(a + Lits(w), v)
    ensures EndsWith(v, w)
  {
    MatchConcat(a, Lits(w), v);
    var k: nat :| SplitMatch(a, Lits(w), v, k);
    MatchLits(w, v[k..]);
  }

  /** A lone `*` matches every value. */
  lemma {:induction false} MatchStarAll(v: string)
    ensures MatchAtoms([Star], v)
    decreases |v|
  {
    assert [Star][1..] == [];
    if v != [] {
      MatchStarAll(v[1..]);
    }
  }

  /** `*` followed by a literal run matches exactly the values ending with it. */
  lemma MatchStarSuffix(w: string, v: string)
    ensures MatchAtoms([Star] + Lits(w), v) <==> EndsWith(v, w)
  {
    if EndsWith(v, w) {
      var k := |v| - |w|;
      MatchStarAll(v[..k]);
      MatchLits(w, v[k..]);
      assert SplitMatch([Star], Lits(w), v, k);
      MatchConcat([Star], Lits(w), v);
    }
    if MatchAtoms([Star] + Lits(w), v) {
      MatchLitsSuffix([Star], w, v);
    }
  }

  /** `*` can absorb any prefix: if the remainder matches after position `k`,
      the whole matches. */
  lemma MatchStarSkip(rest: seq<Atom>, v: string, k: nat)
    requires k <= |v| && MatchAtoms(rest, v[k..])
    ensures MatchAtoms([Star] + rest, v)
  {
    MatchStarAll(v[..k]);
    assert SplitMatch([Star], rest, v, k);
    MatchConcat([Star], rest, v);
  }

  /** Literal runs concatenate as their strings do. */
  lemma LitsConcat(a: string, b: string)
    ensures Lits(a + b) == Lits(a) + Lits(b)
  {
  }

  /** `?` consumes exactly one character. */
  lemma MatchOne(rest: seq<Atom>, v: string)
    requires v != []
    ensures MatchAtoms([One] + rest, v) == MatchAtoms(rest, v[1..])
  {
    assert ([One] + rest)[0] == One;
    assert ([One] + rest)[1..] == rest;
  }
}
