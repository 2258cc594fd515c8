# go-sigma-rule-engine: rule compilation and matching, in Dafny

This project models the core of the Go Sigma rule engine as `parser_test.go`
exercises it. A Sigma rule has two parts:

- named selections, which test fields of an event record;
- a condition over the selection names.

The engine does three things with a rule:

- It compiles the selections into field tests. Unmodified patterns are glob
  patterns, rewritten for the glob library by `escapeSigmaForGlob`.
- It lexes and parses the condition.
- It matches event records against the result.

The implementation files are not part of this model. The behaviour modelled
here is the behaviour the test file pins down: its escaping table, its fifteen
rules with their positive and negative documents, and its placeholder lookup.

## Structure

| module | what it holds |
|---|---|
| `Results` | `Option`, `Result` and the engine's compile errors |
| `Text` | whitespace collapsing, prefix/suffix/substring tests |
| `Glob` | glob atoms, a stand-in matcher, and the host engine's reading of an escaped pattern |
| `Escape`, `EscapeFacts` | the translator `Translate` (the model of `escapeSigmaForGlob`), the source meaning of a pattern, and their correctness |
| `EscapeVectors` | the seven rows of the escaping table |
| `Verdicts` | three-valued verdicts and the connectives over them |
| `Selection` | field keys and modifiers, placeholders, pattern matching, field tests, selections |
| `Lexer`, `Condition` | condition tokens, recursive-descent parser, precedence, and a printer that parses back |
| `Rule` | name resolution, `all of` / `N of`, evaluation, rule compilation, the record a decoder builds |
| `ConditionVectors`, `RuleFacts` | how the test's condition strings read, and facts used by the rule proofs |
| `ProcessRules` | detections 1-8 |
| `ModifierRules` | detections 9-12 and 14 |
| `EscapeRules` | detection 13 |
| `PlaceholderRules` | detection 15 |

## Design decisions

- **Three-valued verdicts.** The engine's match call returns two results:
  whether the rule matched, and whether it applied to the record at all. The
  test driver keeps the first and discards the second (parser_test.go:715 and
  :724). The model keeps both in one `Verdict`: `Match`, `NoMatch` or
  `Inapplicable`. A field test on a field the record lacks is inapplicable,
  and a rule matches only on `Match`, so "a missing field means no match"
  holds for every field test. Under `not` the model departs from reading a
  missing field as plain false: `not` swaps match and no-match and keeps an
  inapplicable verdict as it is. No vector of the test file tells the two
  readings apart. The documents that lack a field (`detection1_negative2`,
  `detection7_negative2`, `detection8_negative2`) are evaluated with that
  field kept from the document before them (see "Records accumulate"), and
  those records fail under either reading.
- **The whitespace switch.** The test driver hands `noCollapseWSNeg` to the
  parser as its no-collapse switch. So collapsing is on for every case except
  the second detection14 case. The model's `collapse` parameter is the
  negation of that switch. Every rule's meaning is stated for both settings.
- **Records accumulate.** The driver decodes every document of a case into
  one map. A later document keeps the fields it does not mention from the
  earlier ones. `RecordOf` builds a record from key/value pairs, and the last
  value of a key wins. The vectors for detections 1, 2, 4, 7 and 8 are proved
  twice: for each document alone and for the accumulated record.
- **Placeholders.** A pattern is a whole-value placeholder when, after
  collapsing, it is `%`, a name of one or more letters, digits or
  underscores (the characters of a selection name), and `%`, with nothing
  else. A value matches a known placeholder when, collapsed the same way, it
  equals one of the candidates up to case. Case is folded for the ASCII
  letters only. No vector of the test file depends on either choice: its
  placeholder names are plain words, and its values equal a candidate
  exactly or differ from every candidate in length.
- **External behaviour is a parameter.** `Env` carries:
  - the placeholder lookup, as a function from name to optional candidates;
  - the regular-expression engine, as an opaque predicate.
- **The glob library is replaced.** `GlobMatch` is a small stand-in. `*` is
  any run, `?` is one character, and a backslash escapes the next character.
  `HostAtoms` is how such an engine reads an escaped pattern.
  `TranslateMeaning` proves that the host reading of `Translate(p)` is the
  source reading of `p`.

## Model

| member | source | states |
|---|---|---|
| Verdicts.Negate | parser_test.go:715-716 | `not` swaps match and no-match and leaves an inapplicable verdict inapplicable |
| Verdicts.Both | parser_test.go:58-79 | `and` matches exactly when both sides match; a left side that does not match decides the result |
| Verdicts.Either | parser_test.go:81-102 | `or` matches when either side matches, and is inapplicable only when both sides are |
| Verdicts.AtLeast | parser_test.go:156-177 | `N of` matches exactly when at least N members match |
| Verdicts.AllOfMatch | parser_test.go:179-198 | the conjunction of a list matches exactly when every member matches |
| Verdicts.AnyOfMatch | parser_test.go:219-238 | the disjunction of a list matches exactly when some member matches, and is inapplicable exactly when every member is |
| Verdicts.AtLeastOneIsAnyOf | parser_test.go:156-177 | `1 of` gives the same verdict as the disjunction, inapplicability included |
| Verdicts.AllOfIsAtLeastAll | parser_test.go:133-154 | `all of` a list matches exactly when `N of` it does, N being the list's length |
| Verdicts.AtLeastTooMany | parser_test.go:156-177 | asking for more matches than there are members never matches |
| Verdicts.Classical | parser_test.go:12-32 | on applicable verdicts, `not`, `and` and `or` are the two-valued connectives |
| Verdicts.Algebra | parser_test.go:81-102 | `not` is an involution; `or` is commutative; `and` is commutative as far as matching goes |
| Text.Collapse | parser_test.go:479-492 | collapsing never lengthens a text, keeps it empty or non-empty, and turns a leading blank into a space |
| Text.CollapseIsCollapsed | parser_test.go:479-492 | after collapsing there is no tab and no two adjacent spaces |
| Text.CollapseKeepsContent | parser_test.go:479-492 | collapsing keeps every non-blank character, in order |
| Text.CollapseFixpoint | parser_test.go:479-492 | a text is unchanged by collapsing exactly when it has no tab and no double space |
| Text.Contains | parser_test.go:344-355 | substring search succeeds exactly when the needle occurs at some position |
| Text.EqualFoldMeaning | parser_test.go:574-585 | equality up to case compares character by character after lowering, so texts of different lengths never agree; it contains plain equality, is symmetric, and lowering twice changes nothing more |
| Text.ContainsNeedsChar | parser_test.go:363-366 | a needle with a character the text lacks is not contained in it |
| Glob.HostPatternRoundTrip | parser_test.go:796-801 | writing atoms as a host pattern, with every syntax character escaped, reads back as the same atoms |
| Glob.MatchConcat | parser_test.go:796-801 | a concatenation of patterns matches exactly the values that split into a match of each part |
| Glob.MatchLits | parser_test.go:765-770 | a pattern of literals matches exactly the text it spells |
| Glob.MatchStarAll | parser_test.go:741-746 | a lone `*` matches every value |
| Glob.MatchStarSuffix | parser_test.go:753-758 | `*` then literals matches exactly the values ending with those literals |
| Glob.MatchOne | parser_test.go:771-776 | `?` consumes exactly one character |
| Glob.MatchLitsPrefix | parser_test.go:741-746 | a leading literal run must be a prefix of the value, and the rest of the pattern matches the remainder |
| Escape.TranslateMeaning | parser_test.go:788-794 | the host engine reads the translated pattern as the atoms the source pattern means, so it never rejects one |
| Escape.TranslateGlob | parser_test.go:796-801 | matching against the translated pattern is matching against the source pattern's meaning |
| EscapeFacts.TranslateEvenRun | parser_test.go:741-746 | an even backslash run is copied unchanged |
| EscapeFacts.TranslateOddRunWildcard | parser_test.go:753-758 | an odd run directly before `*` or `?` is copied together with it, so the wildcard stays escaped |
| EscapeFacts.TranslateOddRunOther | parser_test.go:747-752 | any other odd run gains exactly one backslash |
| EscapeFacts.TranslateBracket | parser_test.go:777-782 | a bracket or brace outside a backslash run is emitted with a backslash in front |
| EscapeFacts.TranslateFixpoint | parser_test.go:741-746 | the translator leaves a pattern unchanged exactly when it is already in the host engine's escaped form |
| EscapeFacts.TranslateGrowth | parser_test.go:733-782 | the output is never shorter than the input, and is strictly longer exactly when the input was not already escaped |
| EscapeFacts.ExactWhenNoWildcard | parser_test.go:765-770 | a pattern with no live wildcard matches exactly the one text its literals spell |
| EscapeFacts.SourcePlain | parser_test.go:765-770 | text with no wildcard and no doubled backslash means itself, each backslash a literal one |
| EscapeVectors.NoChange | parser_test.go:741-746 | `\\leadingBackslash\\*.exe` is left unchanged and matches `\leadingBackslash\testing.exe` |
| EscapeVectors.LeadingSingleBackslash | parser_test.go:747-752 | a lone leading backslash is doubled; the result and its match are those of the first row |
| EscapeVectors.LeadingWildcardEscapedWildcard | parser_test.go:753-758 | `*\bits\*admin.exe` becomes `*\\bits\*admin.exe` and matches `leading\bits*admin.exe` |
| EscapeVectors.DoubleLeadingBackslash | parser_test.go:759-764 | the even leading run is kept, the lone backslash doubled, and the expected value matches |
| EscapeVectors.PlaintextOnly | parser_test.go:765-770 | the translated pattern matches `some\full\*plaintext.exe` and nothing else |
| EscapeVectors.ComplexMix | parser_test.go:771-776 | escaped `?` kept, lone backslash doubled, live wildcards left live; the expected value matches |
| EscapeVectors.Brackets | parser_test.go:777-782 | brackets and braces are escaped, the star inside brackets stays live, and the expected value matches |
| Selection.SplitJoin | parser_test.go:344-355 | splitting a key at `\|` undoes joining pieces that have no `\|` |
| Selection.JoinSplit | parser_test.go:344-355 | joining the pieces of a split key gives the key back |
| Selection.ParseModifiers | parser_test.go:323-355 | modifiers are accepted exactly when they are none, a single mode, or a text mode then `all`; an error names an offending modifier |
| Selection.ModifierRoundTrip | parser_test.go:323-355 | every accepted combination of mode and `all` reads back from its written form |
| Selection.CompileEntry | parser_test.go:344-355 | a key compiles to a test of the field before the first `\|`, keeping the patterns and the switch; it fails exactly when the modifiers do not parse |
| Selection.CompileSelection | parser_test.go:301-307 | a selection compiles exactly when every entry's modifiers parse, and otherwise fails with an unknown-modifier error; the map form becomes the conjunction of its entries' tests in order, the list form the disjunction of its items' conjunctions in order |
| Selection.PlaceholderRoundTrip | parser_test.go:495-510 | `%name%` is a placeholder exactly when the name is one or more letters, digits or underscores, and the name reads back |
| Selection.SomePattern | parser_test.go:15-27 | an unmodified or `contains` list matches when some pattern does |
| Selection.EveryPattern | parser_test.go:344-355 | a `\|all` list matches when every pattern does |
| Selection.TestVerdict | parser_test.go:52-56 | a field test is inapplicable exactly when the field is missing, and matches exactly when it is present and its value passes |
| Selection.PredicateMatch | parser_test.go:12-32 | a map selection matches when every field test does; a list selection when every test of some item does |
| Selection.AbsentFieldsInapplicable | parser_test.go:294-298 | a field missing from the record fails its test: a map selection with such a field never matches, nor does a list selection each of whose items has one; with its first field missing a map selection is inapplicable |
| Selection.PlaceholderMiss | parser_test.go:574-585 | a placeholder the lookup does not know matches no value |
| Selection.PlaceholderPlain | parser_test.go:495-510 | a placeholder name has no percent sign and no blank, so collapsing leaves the placeholder alone |
| Selection.PlaceholderHit | parser_test.go:574-585 | a known placeholder matches exactly the values equal up to case to one of its candidates, both normalised, with no wildcard read in the candidates |
| Selection.LiteralPattern | parser_test.go:495-510 | an unmodified pattern that is not a placeholder matches with the source meaning of the pattern |
| Selection.LookupOnlyForPlaceholders | parser_test.go:505-509 | only an unmodified placeholder consults the lookup; any other pattern gives the same answer under any lookup |
| Selection.AnchoredIsSubstring | parser_test.go:323-330 | a passing prefix or suffix test implies the substring test passes |
| Selection.AllIsStronger | parser_test.go:344-355 | over a non-empty list, `contains\|all` passing implies `contains` passes |
| Selection.CollapseIdempotent | parser_test.go:479-492 | collapsing twice is collapsing once |
| Selection.TextModesIgnoreBlankWidth | parser_test.go:479-492 | with collapsing on, a text modifier gives the same answer on a value and on its collapsed form |
| Lexer.Classify | parser_test.go:692-698 | a word is an identifier exactly when it is neither a keyword nor a numeral, and an identifier keeps the word as its name |
| Lexer.Tokenize | parser_test.go:692-698 | a token stream ends with the end marker; an error names a character of the input |
| Lexer.ValueDigits | parser_test.go:158 | reading the digits of a count gives the count back |
| Lexer.LexRender | parser_test.go:692-698 | lexing a rendered token list gives the list back, ended by the end marker |
| Condition.Parse | parser_test.go:694-704 | a parse succeeds only on a stream holding at least one token before an end marker, and every failure is a malformed-condition error; `PrintRoundTrip` is its inverse |
| Condition.PrintRoundTrip | parser_test.go:694-704 | parsing a printed condition gives the condition back |
| Condition.NotBindsTighter | parser_test.go:14 | `not a and b` reads as `(not a) and b` |
| Condition.AndBindsTighter | parser_test.go:83 | `and` binds tighter than `or` on either side |
| Condition.ParensGroup | parser_test.go:60 | parentheses override precedence |
| Condition.Quantified | parser_test.go:135 | `all of X*` and `N of them` read as quantified atoms, and a zero count is malformed |
| Condition.TrailingTokens | parser_test.go:697-704 | tokens left after a complete expression are an error |
| Rule.Find | parser_test.go:12-32 | a lookup by name fails exactly when no selection has that name, and otherwise returns a declared selection |
| Rule.MembersMeaning | parser_test.go:135 | a selection takes part in `X*` exactly when its name starts with `X` |
| Rule.MembersAppend | parser_test.go:133-154 | `X*` members are collected in declaration order |
| Rule.MembersOfEmptyStem | parser_test.go:181 | the empty stem covers every selection |
| Rule.Resolve | parser_test.go:694-704 | a condition resolves exactly when every name it mentions is declared; otherwise the error is an unknown selection |
| Rule.AllOfThem | parser_test.go:179-198 | `all of them` matches exactly when every selection matches |
| Rule.OneOf | parser_test.go:219-238 | `1 of X` is the disjunction of the members, verdict for verdict |
| Rule.CountBeyondMembers | parser_test.go:156-177 | `N of X` with N beyond the number of members never matches |
| Rule.EmptyMembers | parser_test.go:133-154 | over no members, `all of` matches and `N of` does not |
| Rule.NotKeepsInapplicable | parser_test.go:52-56 | `x and not y` with `y` inapplicable never matches |
| Rule.CompileSelections | parser_test.go:686-705 | the selections compile, names and order kept, exactly when each one compiles |
| Rule.CompileCondition | parser_test.go:692-698 | a condition compiles exactly when it lexes, parses and names only declared selections, and then yields the parsed condition resolved against them; a failure is an unsupported-token, malformed-condition or unknown-selection error, and a lexing failure is reported as such |
| Rule.CompileRule | parser_test.go:686-705 | a rule compiles exactly when its selections compile and its condition lexes, parses and names only declared selections, and then yields the condition resolved against the compiled selections; a bad modifier is reported before any condition error |
| Rule.RecordOf | parser_test.go:708-728 | the decoded record has exactly the keys the documents mention |
| Rule.RecordOfLastWins | parser_test.go:708-728 | each key holds the value of its last occurrence |
| ConditionVectors.LexSentence | parser_test.go:14 | a blank-separated sentence of tokens lexes back to those tokens |
| ConditionVectors.ReadsAndNot | parser_test.go:14 | `selection1 and not selection3` reads as `and` of a name and a negated name |
| ConditionVectors.ReadsGroupAndNot | parser_test.go:60 | `(a and b) and not c` and `(a or b) and not c` read with the group as the left operand |
| ConditionVectors.ReadsQuantAndNot | parser_test.go:135 | `all of selection* and not filter` reads with the quantified atom as the left operand |
| ConditionVectors.ReadsOfThem | parser_test.go:181 | `all of them` and `1 of them` read as quantifiers over every selection |
| ConditionVectors.ReadsAnd3 | parser_test.go:497 | `a and b and c` groups to the left |
| RuleFacts.PlainKey | parser_test.go:15-27 | a key without `\|` compiles to an unmodified test of that field |
| RuleFacts.ModifiedKey | parser_test.go:327-329 | `field\|m` compiles to a test in the mode `m` names |
| RuleFacts.ModifiedAllKey | parser_test.go:348 | `field\|m\|all` compiles to a test in that mode that needs every pattern |
| RuleFacts.SuffixPattern | parser_test.go:16-20 | `*\m` matches a path exactly when its last component is `m` |
| RuleFacts.SuffixList | parser_test.go:15-27 | a list of `*\m` patterns matches a path exactly when its last component is one of the names |
| RuleFacts.StarBetween | parser_test.go:31 | one live `*` between two plain pieces matches values that start with the first and whose remainder ends with the second |
| RuleFacts.ExactPattern | parser_test.go:376-378 | a plain pattern matches exactly its own text |
| RuleFacts.TextPattern | parser_test.go:323-330 | a blank-free pattern under a text modifier is a prefix, suffix or substring test on the normalised value |
| RuleFacts.Over2 | parser_test.go:181 | `all of` and `1 of` over two selections are `and` and `or` of their verdicts |
| RuleFacts.ListCompiles | parser_test.go:301-307 | a list selection whose items compile to given conjunctions compiles to their disjunction, items in order |
| RuleFacts.RecordAppend | parser_test.go:708-728 | decoding more documents into the same record overrides the earlier values of the keys they mention |
| ProcessRules.ImageVerdict | parser_test.go:16-20 | the `Image` list matches a path exactly when its last component is a listed executable |
| ProcessRules.Detection1Meaning | parser_test.go:12-32 | a listed executable started by a listed parent, unless the command line hides a `.cui` file |
| ProcessRules.Detection1NeedsCommand | parser_test.go:52-56 | without `CommandLine`, detection1 never matches |
| ProcessRules.Detection1NeedsParent | parser_test.go:12-32 | without `ParentImage`, detection1 never matches |
| ProcessRules.Detection2Meaning | parser_test.go:58-79 | both lists as separate selections, unless the command line hides a `.cui` file |
| ProcessRules.Detection3Meaning | parser_test.go:81-102 | either list, unless the command line hides a `.cui` file |
| ProcessRules.Detection4Meaning | parser_test.go:133-154 | `all of selection*` covers exactly the two lists, so detection4 means detection2 |
| ProcessRules.Detection5Meaning | parser_test.go:156-177 | `1 of selection*` means detection3 |
| ProcessRules.Detection6Meaning | parser_test.go:179-198 | `all of them` needs both lists; the command line plays no part |
| ProcessRules.Detection7Meaning | parser_test.go:219-238 | `1 of them` needs either list |
| ProcessRules.Detection7WithoutParent | parser_test.go:247-251 | without `ParentImage`, detection7 rests on the image alone |
| ProcessRules.Detection2NeedsParent | parser_test.go:58-79 | without `ParentImage`, detection2 never matches |
| ProcessRules.Detection4NeedsParent | parser_test.go:133-154 | without `ParentImage`, detection4 never matches |
| ProcessRules.Accumulated1 | parser_test.go:708-728 | decoding detection1's three documents in turn leaves the first negative's record |
| ProcessRules.Accumulated7 | parser_test.go:708-728 | decoding detection7's four documents in turn leaves the first negative's record |
| ProcessRules.Accumulated8 | parser_test.go:708-728 | decoding detection8's three documents in turn leaves the first negative's record |
| ProcessRules.Detection1Vectors | parser_test.go:588-592 | the positive matches; both negatives fail, alone and accumulated |
| ProcessRules.Detection2Vectors | parser_test.go:593-597 | the positive matches; both negatives fail, alone and accumulated |
| ProcessRules.Detection3Vectors | parser_test.go:598-602 | both positives match; the negative fails |
| ProcessRules.Detection4Vectors | parser_test.go:603-607 | the positive matches; both negatives fail, alone and accumulated |
| ProcessRules.Detection5Vectors | parser_test.go:608-612 | both positives match; the negative fails |
| ProcessRules.Detection6Vectors | parser_test.go:613-617 | the positive matches; the negative, whose parent is `lll.exe`, fails |
| ProcessRules.Detection7Vectors | parser_test.go:618-622 | both positives match; both negatives fail, alone and accumulated |
| ProcessRules.Detection8Vectors | parser_test.go:623-627 | the positive matches and both negatives fail; the record the test evaluates for the second negative keeps the first negative's hidden `.cui` command line and fails because `selection3` matches, while that document read alone fails because the negated selection is inapplicable |
| ModifierRules.Detection9Meaning | parser_test.go:301-307 | with both fields present, the list matches when either field passes its regular expression |
| ModifierRules.Detection9OneField | parser_test.go:301-307 | with only `PipeName` present, the rule rests on its regular expression alone |
| ModifierRules.Detection9Vectors | parser_test.go:628-632 | under an engine that answers these four values as a regular-expression engine does, the positive matches and the negative does not |
| ModifierRules.Detection10Meaning | parser_test.go:323-330 | the value must start with `TestStart` and end with `TestEnd` |
| ModifierRules.Detection10Positive | parser_test.go:332-335 | `TestStart-Value-TestEnd` matches |
| ModifierRules.Detection10Negative | parser_test.go:338-341 | `TestStart-Value` does not |
| ModifierRules.Detection11Meaning | parser_test.go:344-355 | both marks and one of the versions must occur in the normalised value |
| ModifierRules.Detection11Positive | parser_test.go:357-360 | the positive document matches |
| ModifierRules.Detection11Negative | parser_test.go:363-366 | the negative document, which has no version, does not |
| ModifierRules.Detection12Meaning | parser_test.go:369-380 | every `val` text must occur in one field, and the other must equal one of the two exact values |
| ModifierRules.Detection12Positive | parser_test.go:382-386 | the positive document matches |
| ModifierRules.Detection12Negative | parser_test.go:389-393 | `mustMatch3` equals neither exact value, so the negative fails |
| ModifierRules.Detection14Meaning | parser_test.go:481-487 | the normalised value must contain the normalised pattern |
| ModifierRules.SpacedPatternCollapses | parser_test.go:485-486 | the pattern's blank runs collapse to single spaces |
| ModifierRules.SpacedValueCollapses | parser_test.go:489-492 | the value's blank runs collapse to the same single-spaced text |
| ModifierRules.SpacedVerbatim | parser_test.go:489-492 | uncollapsed, the value does not contain the pattern |
| ModifierRules.Detection14Vectors | parser_test.go:653-662 | with collapsing the case matches; without it, it does not |
| EscapeRules.BitsPattern | parser_test.go:406 | `*\bits\*admin.exe` matches exactly the values ending in `\bits*admin.exe` |
| EscapeRules.DoublePattern | parser_test.go:407 | `\\\\DoubleBackslash\\some*.exe` matches values starting `\\DoubleBackslash\some` and ending `.exe` after that |
| EscapeRules.BracketPattern | parser_test.go:408 | `[Windows-*]\image.???` reads as literal brackets around a star, then `\image.` and three single characters |
| EscapeRules.LeadingPattern | parser_test.go:411 | `\leadingBackslash\\*.exe` matches values starting `\leadingBackslash\` and ending `.exe` after that |
| EscapeRules.FullPattern | parser_test.go:412 | `full\\\*plaintext.exe` matches only `full\*plaintext.exe` |
| EscapeRules.BracePattern | parser_test.go:413 | `{000-aaa-*}\\*.exe` reads as literal braces around a star, a backslash, a star and `.exe` |
| EscapeRules.BracketNeedsPrefix | parser_test.go:470-476 | a value matching the bracket pattern starts with `[Windows-` |
| EscapeRules.BraceNeedsPrefix | parser_test.go:470-476 | a value matching the brace pattern starts with `{000-aaa-` |
| EscapeRules.Detection13Meaning | parser_test.go:401-414 | the image must fit one of its three patterns and the parent one of its three |
| EscapeRules.Detection13Positive | parser_test.go:416-420 | an image with the escaped star and a parent under `\leadingBackslash\` match |
| EscapeRules.Detection13Positive2 | parser_test.go:422-426 | the double-backslash image and the plain-text parent match |
| EscapeRules.Detection13Positive3 | parser_test.go:429-433 | the escaped-star image and the plain-text parent match |
| EscapeRules.Detection13Positive4 | parser_test.go:436-440 | the bracket and brace patterns match their values |
| EscapeRules.Detection13Negative | parser_test.go:445-449 | an image without the literal star fails |
| EscapeRules.Detection13Negative2 | parser_test.go:454-458 | a parent without the leading backslash fails |
| EscapeRules.Detection13Negative3 | parser_test.go:463-467 | a parent with an extra backslash and no extension fails |
| EscapeRules.Detection13Negative4 | parser_test.go:472-476 | an image without `Windows` in the brackets fails |
| PlaceholderRules.LookupT1 | parser_test.go:574-585 | exactly two names are known, with two candidates each |
| PlaceholderRules.KnownPair | parser_test.go:574-585 | `%name%` with two blank-free candidates matches exactly the values that normalise to one of them up to case |
| PlaceholderRules.ExactText | parser_test.go:503-504 | a pattern with no blank, wildcard or backslash that does not end in `%` is not a placeholder and matches only itself |
| PlaceholderRules.ContainsPatterns | parser_test.go:506-509 | under `contains`, placeholder-shaped texts are substrings like any other |
| PlaceholderRules.Detection15Meaning | parser_test.go:495-510 | the first field must equal a known value up to case, the second a known value up to case or a percent text verbatim, the third must contain one of three texts |
| PlaceholderRules.Detection15NeedsLookup | parser_test.go:495-510 | without a lookup that knows `ValuePlaceholder`, the rule never matches |
| PlaceholderRules.Detection15Positive | parser_test.go:513-518 | known values, and the third field is the placeholder-shaped text itself |
| PlaceholderRules.Detection15Positive2 | parser_test.go:522-527 | the second field is the path-like text verbatim, and the third contains `StillnotA%Placeholder%` |
| PlaceholderRules.Detection15Positive3 | parser_test.go:531-536 | the second field is `%%NotAPlaceholder` verbatim, and the third contains `Wild%Placeholder` |
| PlaceholderRules.Detection15Negative | parser_test.go:540-545 | an unknown first value fails |
| PlaceholderRules.Detection15Negative2 | parser_test.go:549-554 | an unknown second value fails |
| PlaceholderRules.Detection15Negative3 | parser_test.go:558-563 | a third value with no percent sign contains none of the three texts |

## Left out

- YAML and JSON decoding (`yaml.Unmarshal`, `json.Unmarshal`,
  `datamodels.Map`). Rules are given as Dafny values:
  - a map selection is a sequence of key/pattern entries;
  - a list selection is a sequence of such maps;
  - a single scalar value is a one-element pattern list.

  Records are `map<string, string>`, built by `RecordOf` from the pairs in
  document order.
- The `github.com/gobwas/glob` library. `GlobMatch` is an independent
  stand-in with the same wildcard and escape conventions, not the library.
- Regular expressions (`|re`). The engine is the oracle `env.regex`.
  `Detection9Vectors` assumes the four answers a regular-expression engine
  gives.
- The lexer's producer mechanics (`lex`, `collect`). Lexing is a function
  from the condition string to a token sequence.
- `TestTokenCollect` and its `LexPosCases` (parser_test.go:671-684). The
  case table is not part of this model.
- The `ErrWip` path. It is an error tag without behaviour.
- Go map iteration order of the decoded selections. Selections are kept in
  declaration order.
- Case folding beyond ASCII. `EqualFold` lowers `A`-`Z` only; other
  scripts' case pairs compare as different characters.
- Detection9Vectors: holds only for an `env` whose regular-expression oracle
  gives the four stated answers. Nothing is claimed about other engines.
