/** The outcome of evaluating a rule, a condition node or a field test against
    one record. A field the record lacks makes its test inapplicable rather
    than false: `not` leaves an inapplicable verdict alone, so a rule never
    matches a record merely because the record omits the fields a negated
    selection talks about. Only `Match` counts as the rule matching. */
module Verdicts {

  datatype Verdict = Match | NoMatch | Inapplicable

  function FromBool(b: bool): Verdict {
    if b then Match else NoMatch
  }

  /** `not`: flips an applicable verdict and keeps an inapplicable one. */
  function Negate(v: Verdict): (r: Verdict)
    ensures r.Inapplicable? <==> v.Inapplicable?
    ensures r.Match? <==> v.NoMatch?
  {
    match v
    case Match => NoMatch
    case NoMatch => Match
    case Inapplicable => Inapplicable
  }

  /** Binary `and`, evaluated left to right: the first verdict that is not a
      match decides. */
  function Both(a: Verdict, b: Verdict): (r: Verdict)
    ensures r.Match? <==> a.Match? && b.Match?
    ensures !a.Match? ==> r == a
  {
    if a.Match? then b else a
  }

  /** Binary `or`: a match on either side matches; otherwise the result is
      applicable when either side was. */
  function Either(a: Verdict, b: Verdict): (r: Verdict)
    ensures r.Match? <==> a.Match? || b.Match?
    ensures r.Inapplicable? <==> a.Inapplicable? && b.Inapplicable?
  {
    if a.Match? || b.Match? then Match
    else if a.NoMatch? || b.NoMatch? then NoMatch
    else Inapplicable
  }

  /** Conjunction of a list, stopping at the first verdict that is not a
      match; the empty conjunction matches. */
  function AllOf(vs: seq<Verdict>): (r: Verdict)
    ensures vs == [] ==> r.Match?
  {
    if vs == [] then Match else Both(vs[0], AllOf(vs[1..]))
  }

  /** Disjunction of a list; the empty disjunction is inapplicable. */
  function AnyOf(vs: seq<Verdict>): (r: Verdict)
    ensures vs == [] ==> r.Inapplicable?
  {
    if vs == [] then Inapplicable else Either(vs[0], AnyOf(vs[1..]))
  }

  /** Number of matching verdicts in a list. */
  function CountMatches(vs: seq<Verdict>): (k: nat)
    ensures k <= |vs|
  {
    if vs == [] then 0 else (if vs[0].Match? then 1 else 0) + CountMatches(vs[1..])
  }

  /** "at least `n` of": scans left to right and stops as soon as the
      threshold is reached (a match) or can no longer be reached because fewer
      members remain than are still needed. `seen` records whether a member
      looked at so far was applicable; the non-matching verdict reports it. */
  function AtLeastFrom(n: nat, vs: seq<Verdict>, seen: bool): (r: Verdict)
    ensures r.Match? <==> CountMatches(vs) >= n
    ensures seen ==> !r.Inapplicable?
    decreases |vs|
  {
    if n == 0 then Match
    else if |vs| < n then (if seen then NoMatch else Inapplicable)
    else match vs[0]
      case Match => AtLeastFrom(n - 1, vs[1..], true)
      case NoMatch => AtLeastFrom(n, vs[1..], true)
      case Inapplicable => AtLeastFrom(n, vs[1..], seen)
  }

  function AtLeast(n: nat, vs: seq<Verdict>): (r: Verdict)
    ensures r.Match? <==> CountMatches(vs) >= n
  {
    AtLeastFrom(n, vs, false)
  }

  /** The conjunction matches exactly when every member matches. */
  lemma {:induction false} AllOfMatch(vs: seq<Verdict>)
    ensures AllOf(vs).Match? <==> forall i :: 0 <= i < |vs| ==> vs[i].Match?
  {
    if vs != [] {
      AllOfMatch(vs[1..]);
      assert forall i :: 1 <= i < |vs| ==> vs[i] == vs[1..][i - 1];
    }
  }

  /** The disjunction matches exactly when some member matches, and is
      inapplicable exactly when every member is. */
  lemma {:induction false} AnyOfMatch(vs: seq<Verdict>)
    ensures AnyOf(vs).Match? <==> exists i :: 0 <= i < |vs| && vs[i].Match?
    ensures AnyOf(vs).Inapplicable? <==> forall i :: 0 <= i < |vs| ==> vs[i].Inapplicable?
  {
    if vs != [] {
      AnyOfMatch(vs[1..]);
      assert forall i :: 1 <= i < |vs| ==> vs[i] == vs[1..][i - 1];
      if exists i :: 0 <= i < |vs| && vs[i].Match? {
        var i :| 0 <= i < |vs| && vs[i].Match?;
        if i > 0 {
          assert vs[1..][i - 1].Match?;
        }
      }
    }
  }

  /** The match count is the multiplicity of `Match` in the list. */
  lemma {:induction false} CountIsMultiplicity(vs: seq<Verdict>)
    ensures CountMatches(vs) == multiset(vs)[Match]
  {
    if vs != [] {
      CountIsMultiplicity(vs[1..]);
      assert vs == [vs[0]] + vs[1..];
      assert multiset(vs) == multiset([vs[0]]) + multiset(vs[1..]);
    }
  }

  /** "1 of" is the disjunction, verdict for verdict: with a threshold of one
      the scan never gives up early, so it sees every member's applicability. */
  lemma {:induction false} AtLeastOneIsAnyOf(vs: seq<Verdict>)
    ensures AtLeast(1, vs) == AnyOf(vs)
  {
    AtLeastOneFrom(vs, false);
  }

  lemma {:induction false} AtLeastOneFrom(vs: seq<Verdict>, seen: bool)
    ensures AtLeastFrom(1, vs, seen) == (if seen then Either(NoMatch, AnyOf(vs)) else AnyOf(vs))
    decreases |vs|
  {
    if vs != [] {
      match vs[0]
      case Match =>
      case NoMatch => AtLeastOneFrom(vs[1..], true);
      case Inapplicable => AtLeastOneFrom(vs[1..], seen);
    }
  }

  /** "all of" a non-empty list matches exactly when "N of" it does for N the
      length of the list. */
  lemma AllOfIsAtLeastAll(vs: seq<Verdict>)
    ensures AllOf(vs).Match? <==> AtLeast(|vs|, vs).Match?
  {
    AllOfMatch(vs);
    AllMatchCount(vs);
  }

  lemma {:induction false} AllMatchCount(vs: seq<Verdict>)
    ensures CountMatches(vs) == |vs| <==> forall i :: 0 <= i < |vs| ==> vs[i].Match?
  {
    if vs != [] {
      AllMatchCount(vs[1..]);
      assert forall i :: 1 <= i < |vs| ==> vs[i] == vs[1..][i - 1];
    }
  }

  /** Asking for more matches than there are members never matches, whatever
      the members' verdicts. */
  lemma AtLeastTooMany(n: nat, vs: seq<Verdict>)
    requires n > |vs|
    ensures !AtLeast(n, vs).Match?
  {
  }

  /** On applicable verdicts the connectives are the two-valued ones. */
  lemma Classical(a: bool, b: bool)
    ensures Negate(FromBool(a)) == FromBool(!a)
    ensures Both(FromBool(a), FromBool(b)) == FromBool(a && b)
    ensures Either(FromBool(a), FromBool(b)) == FromBool(a || b)
  {
  }

  /** `not` is an involution, and `and`/`or` are commutative as far as
      matching goes. */
  lemma Algebra(a: Verdict, b: Verdict)
    ensures Negate(Negate(a)) == a
    ensures Both(a, b).Match? == Both(b, a).Match?
    ensures Either(a, b) == Either(b, a)
  {
  }
}
