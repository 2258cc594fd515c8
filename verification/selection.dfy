/** Selections: named predicates over record fields. A raw selection is either
    a map from field keys to pattern lists (all fields must hold) or a list of
    such maps (any one must hold). A field key is the field name followed by
    optional `|`-separated modifiers that choose how its patterns compare with
    the record's value. */
module Selection {
  import opened Results
  import opened Text
  import opened Glob
  import opened Escape
  import opened Verdicts
  import Lexer

  /** How a field's patterns compare with its value. */
  datatype Mode =
    | Wildcard   // no modifier: placeholder or translated glob
    | Substring  // `contains`
    | Prefix     // `startswith`
    | Suffix     // `endswith`
    | Regex      // `re`

  /** A compiled field key with its pattern list. `all` turns the OR over the
      patterns into an AND; `collapse` is the whitespace-collapsing switch the
      rule was compiled with. */
  datatype FieldTest = FieldTest(field: string, mode: Mode, all: bool, collapse: bool, patterns: seq<string>)

  /** A compiled selection: the map form is one conjunction of field tests, the
      list form a disjunction of such conjunctions. */
  datatype Predicate = Conj(tests: seq<FieldTest>) | Disj(groups: seq<seq<FieldTest>>)

  /** A field key as written in the rule (name and modifiers joined by `|`)
      with its pattern list; a scalar pattern is a one-element list. */
  type Entry = (string, seq<string>)

  datatype RawSelection = MapForm(entries: seq<Entry>) | ListForm(items: seq<seq<Entry>>)

  /** A decoded event record: field name to value. */
  type Record = map<string, string>

  /** The caller's collaborators: the placeholder lookup (None for a name it
      does not know) and the regular-expression engine, which this model does
      not define. */
  datatype Env = Env(lookup: string -> Option<seq<string>>, regex: (string, string) -> bool)

  // ---------------------------------------------------------------- keys

  /** Splits at every `sep`; there is always at least one piece. */
  function Split(s: string, sep: char): (parts: seq<string>)
    ensures |parts| >= 1
    ensures forall i :: 0 <= i < |parts| ==> sep !in parts[i]
    decreases |s|
  {
    if s == [] then [[]]
    else
      var rest := Split(s[1..], sep);
      if s[0] == sep then [[]] + rest
      else [[s[0]] + rest[0]] + rest[1..]
  }

  /** Joins the pieces with `sep` between neighbours. */
  function Join(parts: seq<string>, sep: char): string
    requires |parts| >= 1
  {
    if |parts| == 1 then parts[0] else parts[0] + [sep] + Join(parts[1..], sep)
  }

  /** A piece without the separator is split off whole. */
  lemma {:induction false} SplitCons(w: string, sep: char, rest: string)
    requires sep !in w
    ensures Split(w + [sep] + rest, sep) == [w] + Split(rest, sep)
    decreases |w|
  {
    if w == [] {
      assert [] + [sep] + rest == [sep] + rest;
      assert ([sep] + rest)[1..] == rest;
    } else {
      var s := w + [sep] + rest;
      assert s[0] == w[0];
      assert s[1..] == w[1..] + [sep] + rest;
      SplitCons(w[1..], sep, rest);
      assert [w[0]] + w[1..] == w;
    }
  }

  /** Text without the separator is one piece. */
  lemma {:induction false} SplitNone(w: string, sep: char)
    requires sep !in w
    ensures Split(w, sep) == [w]
    decreases |w|
  {
    if w != [] {
      SplitNone(w[1..], sep);
      assert [w[0]] + w[1..] == w;
    }
  }

  /** Splitting undoes joining pieces that do not contain the separator. */
  lemma {:induction false} SplitJoin(parts: seq<string>, sep: char)
    requires |parts| >= 1
    requires forall i :: 0 <= i < |parts| ==> sep !in parts[i]
    ensures Split(Join(parts, sep), sep) == parts
    decreases |parts|
  {
    if |parts| == 1 {
      SplitNone(parts[0], sep);
    } else {
      SplitJoin(parts[1..], sep);
      SplitCons(parts[0], sep, Join(parts[1..], sep));
      assert [parts[0]] + parts[1..] == parts;
    }
  }

  /** Joining undoes splitting. */
  lemma {:induction false} JoinSplit(s: string, sep: char)
    ensures Join(Split(s, sep), sep) == s
    decreases |s|
  {
    if s != [] {
      JoinSplit(s[1..], sep);
      var rest := Split(s[1..], sep);
      if s[0] == sep {
        assert ([[]] + rest)[1..] == rest;
        assert s == [sep] + s[1..];
      } else {
        var parts := [[s[0]] + rest[0]] + rest[1..];
        assert parts[1..] == rest[1..];
        if |rest| == 1 {
          assert s == [s[0]] + rest[0];
        } else {
          assert Join(rest, sep) == rest[0] + [sep] + Join(rest[1..], sep);
          assert s == [s[0]] + s[1..];
        }
      }
    }
  }

  /** The text modifier a key piece names, if any. */
  function ModeOf(m: string): (r: Option<Mode>)
    ensures r != Some(Wildcard)
  {
    if m == "contains" then Some(Substring)
    else if m == "startswith" then Some(Prefix)
    else if m == "endswith" then Some(Suffix)
    else if m == "re" then Some(Regex)
    else None
  }

  /** The modifier pieces that follow a field name: none, one of `contains`,
      `startswith`, `endswith` and `re`, or one of the first three followed by
      `all`. Anything else is reported by its first unrecognised piece. */
  function ParseModifiers(mods: seq<string>): (r: Result<(Mode, bool)>)
    ensures r.Ok? <==>
      || mods == []
      || (|mods| == 1 && ModeOf(mods[0]).Some?)
      || (|mods| == 2 && ModeOf(mods[0]).Some? && ModeOf(mods[0]).value != Regex && mods[1] == "all")
    ensures r.Ok? ==> (r.value.0 == Wildcard <==> mods == []) && (r.value.1 <==> |mods| == 2)
    ensures r.Err? ==> exists i :: 0 <= i < |mods| && r.error == UnknownModifier(mods[i])
  {
    if mods == [] then Ok((Wildcard, false))
    else match ModeOf(mods[0])
      case None => Err(UnknownModifier(mods[0]))
      case Some(m) =>
        if |mods| == 1 then Ok((m, false))
        else if mods[1] != "all" || m == Regex then Err(UnknownModifier(mods[1]))
        else if |mods| > 2 then Err(UnknownModifier(mods[2]))
        else Ok((m, true))
  }

  /** How a mode and its `all` flag are written after the field name. */
  function ModifierText(mode: Mode, all: bool): seq<string> {
    var name := match mode
      case Wildcard => []
      case Substring => ["contains"]
      case Prefix => ["startswith"]
      case Suffix => ["endswith"]
      case Regex => ["re"];
    name + (if all then ["all"] else [])
  }

  /** Every combination the engine accepts reads back from its written form. */
  lemma ModifierRoundTrip(mode: Mode, all: bool)
    requires all ==> mode in {Substring, Prefix, Suffix}
    ensures ParseModifiers(ModifierText(mode, all)) == Ok((mode, all))
  {
  }

  /** Compiles one field key and its patterns. */
  function CompileEntry(e: Entry, collapse: bool): (r: Result<FieldTest>)
    ensures r.Ok? ==> r.value.field == Split(e.0, '|')[0] && r.value.patterns == e.1 && r.value.collapse == collapse
    ensures r.Ok? <==> ParseModifiers(Split(e.0, '|')[1..]).Ok?
    ensures r.Err? ==> r.error.UnknownModifier?
  {
    var parts := Split(e.0, '|');
    var m :- ParseModifiers(parts[1..]);
    Ok(FieldTest(parts[0], m.0, m.1, collapse, e.1))
  }

  /** Compiles a map of field keys, keeping their order; the first key that
      fails to compile fails the whole map. */
  function CompileEntries(es: seq<Entry>, collapse: bool): (r: Result<seq<FieldTest>>)
    ensures r.Ok? <==> forall i :: 0 <= i < |es| ==> CompileEntry(es[i], collapse).Ok?
    ensures r.Ok? ==> |r.value| == |es| && forall i :: 0 <= i < |es| ==> r.value[i] == CompileEntry(es[i], collapse).value
    ensures r.Err? ==> r.error.UnknownModifier?
  {
    if es == [] then Ok([])
    else
      var t :- CompileEntry(es[0], collapse);
      var ts :- CompileEntries(es[1..], collapse);
      Ok([t] + ts)
  }

  function CompileItems(items: seq<seq<Entry>>, collapse: bool): (r: Result<seq<seq<FieldTest>>>)
    ensures r.Ok? <==> forall i :: 0 <= i < |items| ==> CompileEntries(items[i], collapse).Ok?
    ensures r.Ok? ==> |r.value| == |items| && forall i :: 0 <= i < |items| ==> r.value[i] == CompileEntries(items[i], collapse).value
    ensures r.Err? ==> r.error.UnknownModifier?
  {
    if items == [] then Ok([])
    else
      var g :- CompileEntries(items[0], collapse);
      var gs :- CompileItems(items[1..], collapse);
      Ok([g] + gs)
  }

  /** Compiles a raw selection: the map form becomes one conjunction of its
      entries' tests, the list form a disjunction with one conjunction per
      item. It fails exactly when some entry's modifiers do not parse. */
  function CompileSelection(raw: RawSelection, collapse: bool): (r: Result<Predicate>)
    ensures raw.MapForm? ==> (r.Ok? <==> forall i :: 0 <= i < |raw.entries| ==> CompileEntry(raw.entries[i], collapse).Ok?)
    ensures raw.MapForm? && r.Ok? ==>
      && r.value.Conj? && |r.value.tests| == |raw.entries|
      && forall i :: 0 <= i < |raw.entries| ==> r.value.tests[i] == CompileEntry(raw.entries[i], collapse).value
    ensures raw.ListForm? ==> (r.Ok? <==> forall i :: 0 <= i < |raw.items| ==> CompileEntries(raw.items[i], collapse).Ok?)
    ensures raw.ListForm? && r.Ok? ==>
      && r.value.Disj? && |r.value.groups| == |raw.items|
      && forall i :: 0 <= i < |raw.items| ==> r.value.groups[i] == CompileEntries(raw.items[i], collapse).value
    ensures r.Err? ==> r.error.UnknownModifier?
  {
    match raw
    case MapForm(es) =>
      var ts :- CompileEntries(es, collapse);
      Ok(Conj(ts))
    case ListForm(items) =>
      var gs :- CompileItems(items, collapse);
      Ok(Disj(gs))
  }

  // --------------------------------------------------------- placeholders

  /** A whole-value placeholder: `%`, a name of one or more letters, digits
      or underscores, `%`, and nothing else. */
  predicate IsPlaceholder(p: string) {
    |p| >= 3 && p[0] == '%' && p[|p| - 1] == '%' && Lexer.IsWord(p[1..|p| - 1])
  }

  function PlaceholderName(p: string): (name: string)
    requires IsPlaceholder(p)
    ensures p == "%" + name + "%"
  {
    assert p == [p[0]] + p[1..|p| - 1] + [p[|p| - 1]];
    p[1..|p| - 1]
  }

  /** Wrapping a name in percent signs makes a placeholder exactly when the
      name is a non-empty run of name characters, and the name reads back. */
  lemma PlaceholderRoundTrip(name: string)
    ensures IsPlaceholder("%" + name + "%") <==> Lexer.IsWord(name)
    ensures Lexer.IsWord(name) ==> PlaceholderName("%" + name + "%") == name
  {
    var p := "%" + name + "%";
    assert p[1..|p| - 1] == name;
  }

  /** A placeholder name holds no percent sign and no blank, so a placeholder
      is left alone by collapsing. */
  lemma PlaceholderPlain(name: string)
    requires Lexer.IsWord(name)
    ensures '%' !in name && ' ' !in name && '\t' !in name
    ensures var p := "%" + name + "%"; ' ' !in p && '\t' !in p
  {
    assert forall c :: c in name ==> Lexer.IsNameChar(c);
    var p := "%" + name + "%";
    assert forall c :: c in p ==> c == '%' || c in name;
  }

  // -------------------------------------------------------------- matching

  /** A text as compared: collapsed when the switch is on. */
  function Norm(s: string, collapse: bool): string {
    if collapse then Collapse(s) else s
  }

  /** Some resolved candidate equals the value up to case, both normalised. */
  function AnyEqual(cands: seq<string>, v: string, collapse: bool): (r: bool)
    ensures r <==> exists i :: 0 <= i < |cands| && EqualFold(Norm(cands[i], collapse), Norm(v, collapse))
  {
    if cands == [] then false
    else if EqualFold(Norm(cands[0], collapse), Norm(v, collapse)) then true
    else
      var r := AnyEqual(cands[1..], v, collapse);
      assert forall i :: 1 <= i < |cands| ==> cands[i] == cands[1..][i - 1];
      r
  }

  /** One pattern against one value. */
  function PatternMatches(mode: Mode, collapse: bool, p: string, v: string, env: Env): bool {
    match mode
    case Wildcard =>
      var q := Norm(p, collapse);
      if IsPlaceholder(q) then
        match env.lookup(PlaceholderName(q))
        case None => false
        case Some(cands) => AnyEqual(cands, v, collapse)
      else GlobMatch(Translate(p), v)
    case Substring => Contains(Norm(v, collapse), Norm(p, collapse))
    case Prefix => StartsWith(Norm(v, collapse), Norm(p, collapse))
    case Suffix => EndsWith(Norm(v, collapse), Norm(p, collapse))
    case Regex => env.regex(p, v)
  }

  /** Some pattern of the list matches. */
  function SomePattern(mode: Mode, collapse: bool, ps: seq<string>, v: string, env: Env): (r: bool)
    ensures r <==> exists i :: 0 <= i < |ps| && PatternMatches(mode, collapse, ps[i], v, env)
  {
    if ps == [] then false
    else if PatternMatches(mode, collapse, ps[0], v, env) then true
    else
      var r := SomePattern(mode, collapse, ps[1..], v, env);
      assert forall i :: 1 <= i < |ps| ==> ps[i] == ps[1..][i - 1];
      r
  }

  /** Every pattern of the list matches. */
  function EveryPattern(mode: Mode, collapse: bool, ps: seq<string>, v: string, env: Env): (r: bool)
    ensures r <==> forall i :: 0 <= i < |ps| ==> PatternMatches(mode, collapse, ps[i], v, env)
  {
    if ps == [] then true
    else if !PatternMatches(mode, collapse, ps[0], v, env) then false
    else
      var r := EveryPattern(mode, collapse, ps[1..], v, env);
      assert forall i :: 1 <= i < |ps| ==> ps[i] == ps[1..][i - 1];
      r
  }

  /** A field test against the field's value: OR over the patterns, or AND
      under the `all` modifier. */
  function TestValue(t: FieldTest, v: string, env: Env): bool {
    if t.all then EveryPattern(t.mode, t.collapse, t.patterns, v, env)
    else SomePattern(t.mode, t.collapse, t.patterns, v, env)
  }

  /** A field test against a record: inapplicable when the field is absent. */
  function TestVerdict(t: FieldTest, rec: Record, env: Env): (r: Verdict)
    ensures r.Inapplicable? <==> t.field !in rec
    ensures r.Match? <==> t.field in rec && TestValue(t, rec[t.field], env)
  {
    if t.field in rec then FromBool(TestValue(t, rec[t.field], env)) else Inapplicable
  }

  function TestVerdicts(ts: seq<FieldTest>, rec: Record, env: Env): (vs: seq<Verdict>)
    ensures |vs| == |ts| && forall i :: 0 <= i < |ts| ==> vs[i] == TestVerdict(ts[i], rec, env)
  {
    seq(|ts|, i requires 0 <= i < |ts| => TestVerdict(ts[i], rec, env))
  }

  function GroupVerdicts(gs: seq<seq<FieldTest>>, rec: Record, env: Env): (vs: seq<Verdict>)
    ensures |vs| == |gs| && forall i :: 0 <= i < |gs| ==> vs[i] == AllOf(TestVerdicts(gs[i], rec, env))
  {
    seq(|gs|, i requires 0 <= i < |gs| => AllOf(TestVerdicts(gs[i], rec, env)))
  }

  /** A selection against a record. */
  function PredicateVerdict(p: Predicate, rec: Record, env: Env): Verdict {
    match p
    case Conj(ts) => AllOf(TestVerdicts(ts, rec, env))
    case Disj(gs) => AnyOf(GroupVerdicts(gs, rec, env))
  }

  /** A conjunction of field tests holds exactly when every field is present
      and passes its test. */
  lemma ConjMatch(ts: seq<FieldTest>, rec: Record, env: Env)
    ensures AllOf(TestVerdicts(ts, rec, env)).Match? <==>
      forall i :: 0 <= i < |ts| ==> ts[i].field in rec && TestValue(ts[i], rec[ts[i].field], env)
  {
    AllOfMatch(TestVerdicts(ts, rec, env));
  }

  /** The map form holds exactly when every field holds; the list form when
      some element's fields all hold. */
  lemma PredicateMatch(p: Predicate, rec: Record, env: Env)
    ensures p.Conj? ==> (PredicateVerdict(p, rec, env).Match? <==>
      forall i :: 0 <= i < |p.tests| ==> p.tests[i].field in rec && TestValue(p.tests[i], rec[p.tests[i].field], env))
    ensures p.Disj? ==> (PredicateVerdict(p, rec, env).Match? <==>
      exists g :: 0 <= g < |p.groups| && AllOf(TestVerdicts(p.groups[g], rec, env)).Match?)
  {
    match p
    case Conj(ts) => ConjMatch(ts, rec, env);
    case Disj(gs) => AnyOfMatch(GroupVerdicts(gs, rec, env));
  }

  /** A field absent from the record fails its test: a map selection with
      such a field never matches, nor does a list selection each of whose
      items has one. A map selection whose first field is absent is neither
      matched nor failed. */
  lemma AbsentFieldsInapplicable(p: Predicate, rec: Record, env: Env)
    ensures p.Conj? && (exists i :: 0 <= i < |p.tests| && p.tests[i].field !in rec) ==>
      !PredicateVerdict(p, rec, env).Match?
    ensures p.Disj? && (forall g :: 0 <= g < |p.groups| ==> exists i :: 0 <= i < |p.groups[g]| && p.groups[g][i].field !in rec) ==>
      !PredicateVerdict(p, rec, env).Match?
    ensures p.Conj? && p.tests != [] && p.tests[0].field !in rec ==> PredicateVerdict(p, rec, env).Inapplicable?
  {
    PredicateMatch(p, rec, env);
    if p.Disj? {
      forall g | 0 <= g < |p.groups| && (exists i :: 0 <= i < |p.groups[g]| && p.groups[g][i].field !in rec)
        ensures !AllOf(TestVerdicts(p.groups[g], rec, env)).Match?
      {
        ConjMatch(p.groups[g], rec, env);
      }
    }
  }

  /** A placeholder the lookup does not know never matches. */
  lemma PlaceholderMiss(collapse: bool, p: string, v: string, env: Env)
    requires IsPlaceholder(Norm(p, collapse))
    requires env.lookup(PlaceholderName(Norm(p, collapse))).None?
    ensures !PatternMatches(Wildcard, collapse, p, v, env)
  {
  }

  /** A known placeholder matches exactly the values equal, up to case, to
      one of its candidates after normalisation; no wildcard applies to
      candidates. */
  lemma PlaceholderHit(collapse: bool, p: string, v: string, env: Env, cands: seq<string>)
    requires IsPlaceholder(Norm(p, collapse))
    requires env.lookup(PlaceholderName(Norm(p, collapse))) == Some(cands)
    ensures PatternMatches(Wildcard, collapse, p, v, env) <==>
      exists i :: 0 <= i < |cands| && EqualFold(Norm(cands[i], collapse), Norm(v, collapse))
  {
  }

  /** A pattern that is not a placeholder matches with the meaning of the
      source pattern language: the translated glob reads as the source atoms. */
  lemma LiteralPattern(collapse: bool, p: string, v: string, env: Env)
    requires !IsPlaceholder(Norm(p, collapse))
    ensures PatternMatches(Wildcard, collapse, p, v, env) <==> MatchAtoms(SourceAtoms(p), v)
  {
    TranslateGlob(p, v);
  }

  /** Only an unmodified placeholder pattern consults the lookup: everything
      else gives the same answer under any lookup. */
  lemma LookupOnlyForPlaceholders(mode: Mode, collapse: bool, p: string, v: string, e1: Env, e2: Env)
    requires e1.regex == e2.regex
    requires mode != Wildcard || !IsPlaceholder(Norm(p, collapse))
    ensures PatternMatches(mode, collapse, p, v, e1) == PatternMatches(mode, collapse, p, v, e2)
  {
  }

  /** A prefix or suffix test that passes implies the substring test passes. */
  lemma AnchoredIsSubstring(collapse: bool, p: string, v: string, env: Env)
    ensures PatternMatches(Prefix, collapse, p, v, env) ==> PatternMatches(Substring, collapse, p, v, env)
    ensures PatternMatches(Suffix, collapse, p, v, env) ==> PatternMatches(Substring, collapse, p, v, env)
  {
    var hay := Norm(v, collapse);
    var needle := Norm(p, collapse);
    if StartsWith(hay, needle) {
      assert OccursAt(hay, needle, 0);
    }
    if EndsWith(hay, needle) {
      assert OccursAt(hay, needle, |hay| - |needle|);
    }
  }

  /** `contains|all` is stronger than `contains` over a non-empty list. */
  lemma AllIsStronger(t: FieldTest, v: string, env: Env)
    requires t.all && t.patterns != []
    ensures TestValue(t, v, env) ==> TestValue(t.(all := false), v, env)
  {
    if TestValue(t, v, env) {
      assert PatternMatches(t.mode, t.collapse, t.patterns[0], v, env);
    }
  }

  /** Collapsing twice is collapsing once. */
  lemma CollapseIdempotent(s: string)
    ensures Collapse(Collapse(s)) == Collapse(s)
  {
    CollapseIsCollapsed(s);
    CollapseFixpoint(Collapse(s));
  }

  /** With collapsing on, the text modifiers see only the collapsed value:
      changing the width of blank runs in the record does not change them. */
  lemma TextModesIgnoreBlankWidth(mode: Mode, p: string, v: string, env: Env)
    requires mode in {Substring, Prefix, Suffix}
    ensures PatternMatches(mode, true, p, v, env) == PatternMatches(mode, true, p, Collapse(v), env)
  {
    CollapseIdempotent(v);
  }
}
