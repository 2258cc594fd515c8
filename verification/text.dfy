/** String helpers shared by the value matcher: whitespace collapsing and the
    prefix, suffix and substring tests of the text modifiers. */
module Text {

  /** Space and tab are the characters whitespace collapsing folds. */
  predicate IsBlank(c: char) {
    c == ' ' || c == '\t'
  }

  /** A string in collapsed form: no tab, and no two spaces side by side. */
  ghost predicate Collapsed(s: string) {
    forall i :: 0 <= i < |s| ==> s[i] != '\t' && (s[i] == ' ' && i + 1 < |s| ==> s[i + 1] != ' ')
  }

  /** The characters of `s` that are not blanks, in order. */
  function NonBlanks(s: string): string {
    if s == [] then []
    else if IsBlank(s[0]) then NonBlanks(s[1..])
    else [s[0]] + NonBlanks(s[1..])
  }

  /** Every maximal run of spaces and tabs becomes one space. */
  function Collapse(s: string): (r: string)
    ensures |r| <= |s|
    ensures s == [] <==> r == []
    ensures s != [] ==> r[0] == (if IsBlank(s[0]) then ' ' else s[0])
  {
    if s == [] then []
    else if IsBlank(s[0]) && |s| > 1 && IsBlank(s[1]) then Collapse(s[1..])
    else [if IsBlank(s[0]) then ' ' else s[0]] + Collapse(s[1..])
  }

  /** The result of collapsing is in collapsed form, and a trailing blank run
      becomes one trailing space. */
  lemma {:induction false} CollapseIsCollapsed(s: string)
    ensures Collapsed(Collapse(s))
    ensures s != [] ==> Collapse(s)[|Collapse(s)| - 1] == (if IsBlank(s[|s| - 1]) then ' ' else s[|s| - 1])
    decreases |s|
  {
    if s == [] {
    } else if IsBlank(s[0]) && |s| > 1 && IsBlank(s[1]) {
      CollapseIsCollapsed(s[1..]);
    } else {
      CollapseIsCollapsed(s[1..]);
      var x := if IsBlank(s[0]) then ' ' else s[0];
      var t := Collapse(s[1..]);
      assert Collapse(s) == [x] + t;
      if |s| > 1 {
        assert t[0] == (if IsBlank(s[1]) then ' ' else s[1]);
        assert x == ' ' ==> t[0] != ' ';
      }
    }
  }

  /** Collapsing keeps every non-blank character, in order. */
  lemma {:induction false} CollapseKeepsContent(s: string)
    ensures NonBlanks(Collapse(s)) == NonBlanks(s)
    decreases |s|
  {
    if s == [] {
    } else if IsBlank(s[0]) && |s| > 1 && IsBlank(s[1]) {
      CollapseKeepsContent(s[1..]);
    } else {
      CollapseKeepsContent(s[1..]);
      var x := if IsBlank(s[0]) then ' ' else s[0];
      assert ([x] + Collapse(s[1..]))[1..] == Collapse(s[1..]);
    }
  }

  /** A string is left alone by collapsing exactly when it is already collapsed. */
  lemma {:induction false} CollapseFixpoint(s: string)
    ensures Collapse(s) == s <==> Collapsed(s)
    decreases |s|
  {
    if s == [] {
    } else if IsBlank(s[0]) && |s| > 1 && IsBlank(s[1]) {
      assert |Collapse(s[1..])| < |s|;
      assert !Collapsed(s) by {
        if s[0] == ' ' { assert s[0] == ' ' && s[1] != ' ' ==> s[1] == '\t'; } 
      }
    } else {
      CollapseFixpoint(s[1..]);
      var x := if IsBlank(s[0]) then ' ' else s[0];
      assert Collapse(s) == [x] + Collapse(s[1..]);
      if Collapsed(s) {
        assert Collapsed(s[1..]) by {
          forall i | 0 <= i < |s[1..]|
            ensures s[1..][i] != '\t' && (s[1..][i] == ' ' && i + 1 < |s[1..]| ==> s[1..][i + 1] != ' ')
          {
            assert s[1..][i] == s[i + 1];
          }
        }
        assert x == s[0];
        assert Collapse(s) == s;
      }
      if Collapse(s) == s {
        assert s[0] == x;
        assert Collapse(s[1..]) == s[1..];
      }
    }
  }

  /** A word without blanks is left alone. */
  lemma CollapseWord(w: string)
    requires ' ' !in w && '\t' !in w
    ensures Collapse(w) == w
  {
    CollapseFixpoint(w);
  }

  /** Words joined by single spaces. */
  function Unwords(ws: seq<string>): (s: string)
    ensures |ws| == 1 ==> s == ws[0]
  {
    if ws == [] then []
    else if |ws| == 1 then ws[0]
    else ws[0] + " " + Unwords(ws[1..])
  }

  /** Non-empty words without blanks, joined by single spaces, are already
      collapsed. */
  lemma {:induction false} CollapseWords(ws: seq<string>)
    requires forall i :: 0 <= i < |ws| ==> ws[i] != [] && ' ' !in ws[i] && '\t' !in ws[i]
    ensures Collapse(Unwords(ws)) == Unwords(ws)
  {
    if |ws| == 1 {
      CollapseWord(ws[0]);
    } else if |ws| > 1 {
      var w, rest := ws[0], Unwords(ws[1..]);
      CollapseWords(ws[1..]);
      CollapseWord(w);
      assert ws[1..][0] == ws[1];
      assert rest != [] && !IsBlank(rest[0]) by {
        if |ws[1..]| > 1 {
          assert rest == ws[1] + " " + Unwords(ws[2..]) by { assert ws[1..][1..] == ws[2..]; }
          assert rest[0] == ws[1][0];
        }
        assert ws[1][0] in ws[1];
      }
      assert w[|w| - 1] in w;
      CollapseJoin(w, " ", rest);
    }
  }

  /** Each word occurs in the words joined. */
  lemma {:induction false} WordOf(ws: seq<string>, k: nat)
    requires k < |ws|
    ensures Contains(Unwords(ws), ws[k])
  {
    if |ws| == 1 {
      assert OccursAt(Unwords(ws), ws[0], 0);
    } else {
      var rest := Unwords(ws[1..]);
      var s := ws[0] + " " + rest;
      if k == 0 {
        assert s[..|ws[0]|] == ws[0];
        assert OccursAt(s, ws[0], 0);
      } else {
        WordOf(ws[1..], k - 1);
        assert ws[1..][k - 1] == ws[k];
        var i: nat :| OccursAt(rest, ws[k], i);
        var j := |ws[0]| + 1 + i;
        assert s[j..j + |ws[k]|] == rest[i..i + |ws[k]|];
        assert OccursAt(s, ws[k], j);
      }
    }
  }

  /** A run of blanks becomes one space. */
  lemma {:induction false} CollapseRun(r: string)
    requires r != [] && forall i :: 0 <= i < |r| ==> IsBlank(r[i])
    ensures Collapse(r) == " "
    decreases |r|
  {
    if |r| > 1 {
      CollapseRun(r[1..]);
    }
  }

  /** Two texts joined by a run of blanks collapse to their collapsed forms
      joined by one space. */
  lemma CollapseJoin(a: string, r: string, b: string)
    requires a != [] && !IsBlank(a[|a| - 1]) && b != [] && !IsBlank(b[0])
    requires r != [] && forall i :: 0 <= i < |r| ==> IsBlank(r[i])
    ensures Collapse(a + r + b) == Collapse(a) + " " + Collapse(b)
  {
    var rb := r + b;
    assert a + r + b == a + rb;
    CollapseConcat(r, b);
    CollapseRun(r);
    assert Collapse(rb) == " " + Collapse(b);
    CollapseConcat(a, rb);
    Assoc(Collapse(a), " ", Collapse(b));
  }

  /** Two words separated by a run of blanks collapse to the words separated
      by one space. */
  lemma CollapseTwo(a: string, r: string, b: string)
    requires a != [] && b != []
    requires ' ' !in a && '\t' !in a && ' ' !in b && '\t' !in b
    requires r != [] && forall i :: 0 <= i < |r| ==> IsBlank(r[i])
    ensures Collapse(a + r + b) == a + " " + b
  {
    assert a[|a| - 1] in a && b[0] in b;
    CollapseJoin(a, r, b);
    CollapseWord(a);
    CollapseWord(b);
  }

  /** Three words separated by two runs of blanks collapse to the words
      separated by single spaces. */
  lemma CollapseThree(a: string, r1: string, b: string, r2: string, d: string)
    requires a != [] && b != [] && d != []
    requires ' ' !in a && '\t' !in a && ' ' !in b && '\t' !in b && ' ' !in d && '\t' !in d
    requires r1 != [] && forall i :: 0 <= i < |r1| ==> IsBlank(r1[i])
    requires r2 != [] && forall i :: 0 <= i < |r2| ==> IsBlank(r2[i])
    ensures Collapse(a + r1 + b + r2 + d) == a + " " + b + " " + d
  {
    var bd := b + r2 + d;
    CollapseTwo(b, r2, d);
    assert !IsBlank(a[|a| - 1]) by {
      assert a[|a| - 1] in a;
    }
    assert !IsBlank(bd[0]) by {
      assert bd[0] == b[0] && b[0] in b;
    }
    Assoc(a + r1, b + r2, d);
    Assoc(a + r1, b, r2);
    CollapseJoin(a, r1, bd);
    CollapseWord(a);
    Assoc(a, " ", b + " " + d);
    Assoc(a + " ", b + " ", d);
    Assoc(a + " ", b, " ");
  }

  /** Collapsing distributes over a concatenation unless blanks meet at the seam. */
  lemma {:induction false} CollapseConcat(a: string, b: string)
    requires a == [] || b == [] || !IsBlank(a[|a| - 1]) || !IsBlank(b[0])
    ensures Collapse(a + b) == Collapse(a) + Collapse(b)
    decreases |a|
  {
    if a == [] {
      assert a + b == b;
    } else if |a| == 1 {
      CollapseConcatOne(a, b);
    } else {
      CollapseConcat(a[1..], b);
      CollapseConcatStep(a, b);
    }
  }

  lemma CollapseConcatOne(a: string, b: string)
    requires |a| == 1
    requires b == [] || !IsBlank(a[0]) || !IsBlank(b[0])
    ensures Collapse(a + b) == Collapse(a) + Collapse(b)
  {
    var s := a + b;
    assert s[0] == a[0];
    assert s[1..] == b;
    assert a[1..] == [];
    assert Collapse(a) == [if IsBlank(a[0]) then ' ' else a[0]];
  }

  lemma CollapseConcatStep(a: string, b: string)
    requires |a| >= 2
    requires Collapse(a[1..] + b) == Collapse(a[1..]) + Collapse(b)
    ensures Collapse(a + b) == Collapse(a) + Collapse(b)
  {
    var s := a + b;
    assert s[0] == a[0] && s[1] == a[1];
    assert s[1..] == a[1..] + b;
    if IsBlank(a[0]) && IsBlank(a[1]) {
      assert Collapse(s) == Collapse(a[1..] + b);
      assert Collapse(a) == Collapse(a[1..]);
    } else {
      var x := if IsBlank(a[0]) then ' ' else a[0];
      assert Collapse(s) == [x] + Collapse(a[1..] + b);
      assert Collapse(a) == [x] + Collapse(a[1..]);
    }
  }

  predicate StartsWith(s: string, p: string) {
    |p| <= |s| && s[..|p|] == p
  }

  predicate EndsWith(s: string, p: string) {
    |p| <= |s| && s[|s| - |p|..] == p
  }

  /** A concatenation starts with its first part and ends with its second. */
  lemma Affixes(a: string, b: string)
    ensures StartsWith(a + b, a) && EndsWith(a + b, b)
  {
    assert (a + b)[..|a|] == a;
    assert (a + b)[|a|..] == b;
  }

  /** `needle` occurs in `hay` starting at position `i`. */
  predicate OccursAt(hay: string, needle: string, i: nat) {
    i + |needle| <= |hay| && hay[i..i + |needle|] == needle
  }

  /** Substring search; the contract ties it to the positional definition. */
  function Contains(hay: string, needle: string): (r: bool)
    ensures r <==> exists i: nat :: OccursAt(hay, needle, i)
    decreases |hay|
  {
    if |needle| > |hay| then false
    else if hay[..|needle|] == needle then assert OccursAt(hay, needle, 0); true
    else
      var r' := Contains(hay[1..], needle);
      assert r' ==> exists i: nat :: OccursAt(hay, needle, i) by {
        if r' {
          var j: nat :| OccursAt(hay[1..], needle, j);
          assert hay[1..][j..j + |needle|] == hay[j + 1..j + 1 + |needle|];
          assert OccursAt(hay, needle, j + 1);
        }
      }
      assert (exists i: nat :: OccursAt(hay, needle, i)) ==> r' by {
        if exists i: nat :: OccursAt(hay, needle, i) {
          var i: nat :| OccursAt(hay, needle, i);
          assert i != 0;
          assert hay[1..][i - 1..i - 1 + |needle|] == hay[i..i + |needle|];
          assert OccursAt(hay[1..], needle, i - 1);
        }
      }
      r'
  }

  /** A substring test can only succeed when every character of the needle occurs
      in the haystack; this gives a cheap way to refute a search. */
  lemma ContainsNeedsChar(hay: string, needle: string, k: nat)
    requires k < |needle|
    requires needle[k] !in hay
    ensures !Contains(hay, needle)
  {
    forall i: nat | i + |needle| <= |hay|
      ensures !OccursAt(hay, needle, i)
    {
      assert hay[i..i + |needle|][k] == hay[i + k];
    }
  }

  // ---------------------------------------------------------- case folding

  /** A character with the ASCII capitals mapped to small letters. */
  function Lower(c: char): char {
    if 'A' <= c <= 'Z' then (c as int + 32) as char else c
  }

  /** A text with every character lowered. */
  function Fold(s: string): (r: string)
    ensures |r| == |s| && forall i :: 0 <= i < |s| ==> r[i] == Lower(s[i])
  {
    seq(|s|, i requires 0 <= i < |s| => Lower(s[i]))
  }

  /** Two texts equal up to ASCII case. */
  predicate EqualFold(a: string, b: string) {
    Fold(a) == Fold(b)
  }

  /** Equality up to case compares character by character, so texts of
      different lengths never agree; it is an equivalence that contains plain
      equality, and lowering twice changes nothing more. */
  lemma EqualFoldMeaning(a: string, b: string)
    ensures EqualFold(a, b) <==> |a| == |b| && forall i :: 0 <= i < |a| ==> Lower(a[i]) == Lower(b[i])
    ensures a == b ==> EqualFold(a, b)
    ensures EqualFold(a, b) <==> EqualFold(b, a)
    ensures Fold(Fold(a)) == Fold(a)
  {
    if |a| == |b| && forall i :: 0 <= i < |a| ==> Lower(a[i]) == Lower(b[i]) {
      assert Fold(a) == Fold(b);
    }
    if EqualFold(a, b) {
      forall i | 0 <= i < |a| ensures Lower(a[i]) == Lower(b[i]) {
        assert Fold(a)[i] == Fold(b)[i];
      }
    }
  }

  /** Lowering leaves no capital behind, and small letters and non-letters
      are left alone. */
  lemma LowerMeaning(c: char)
    ensures !('A' <= Lower(c) <= 'Z')
    ensures !('A' <= c <= 'Z') ==> Lower(c) == c
    ensures 'A' <= c <= 'Z' ==> 'a' <= Lower(c) <= 'z' && Lower(c) as int - c as int == 32
  {
  }

  /** Concatenation regrouped; stated once so that proofs about functions of
      concatenations need not rediscover it. */
  lemma Assoc<T>(x: seq<T>, y: seq<T>, z: seq<T>)
    ensures x + y + z == x + (y + z)
  {
  }
}
