/** Text primitives of JavaScript that the contact-form code leans on: the white-space
    class shared by `\s` and `String.prototype.trim`, the ASCII digit class `\d`,
    character filtering (`replace(/[...]/g, "")`), trimming and white-space collapsing
    (`replace(/\s+/g, " ")`). A JavaScript string is modelled as a sequence of `char`. */
module JsText {

  /** The characters JavaScript's `\s` and `trim` treat as white space: the WhiteSpace
      and LineTerminator productions of ECMA-262. */
  predicate IsSpace(c: char) {
    || c == '\t' || c == '\n' || c == '\U{B}' || c == '\U{C}' || c == '\r' || c == ' '
    || c == '\U{A0}' || c == '\U{1680}' || ('\U{2000}' <= c <= '\U{200A}')
    || c == '\U{2028}' || c == '\U{2029}' || c == '\U{202F}' || c == '\U{205F}'
    || c == '\U{3000}' || c == '\U{FEFF}'
  }

  predicate IsNotSpace(c: char) {
    !IsSpace(c)
  }

  /** `\d` without the `u` flag, and also with it: the ten ASCII digits. */
  predicate IsAsciiDigit(c: char) {
    '0' <= c <= '9'
  }

  predicate IsAsciiLetter(c: char) {
    ('A' <= c <= 'Z') || ('a' <= c <= 'z')
  }

  function Either(p: char -> bool, q: char -> bool): char -> bool {
    c => p(c) || q(c)
  }

  function Both(p: char -> bool, q: char -> bool): char -> bool {
    c => p(c) && q(c)
  }

  /** Applying `Both` to a character; stated once so that proofs about literal characters
      can use it. */
  lemma BothApply(p: char -> bool, q: char -> bool, c: char)
    ensures Both(p, q)(c) == (p(c) && q(c))
  {
  }

  predicate All(s: string, p: char -> bool) {
    forall k | 0 <= k < |s| :: p(s[k])
  }

  /** The characters of `s` that satisfy `keep`, in order: what a global `replace`
      of the complementary character class by "" leaves behind. */
  function Filter(s: string, keep: char -> bool): (r: string)
    ensures |r| <= |s|
    ensures All(r, keep)
  {
    if s == [] then []
    else (if keep(s[0]) then [s[0]] else []) + Filter(s[1..], keep)
  }

  /** Filtering distributes over concatenation; together with the one-character case of
      the definition this pins `Filter` down as the in-order subsequence of kept characters. */
  lemma {:induction false} FilterAppend(a: string, b: string, keep: char -> bool)
    ensures Filter(a + b, keep) == Filter(a, keep) + Filter(b, keep)
    decreases |a|
  {
    if a == [] {
      assert a + b == b;
    } else {
      var ab := a + b;
      assert ab[0] == a[0] && ab[1..] == a[1..] + b;
      FilterAppend(a[1..], b, keep);
      var head := if keep(a[0]) then [a[0]] else [];
      assert Filter(ab, keep) == head + Filter(a[1..] + b, keep);
      assert Filter(a, keep) == head + Filter(a[1..], keep);
    }
  }

  /** Filtering leaves a string unchanged exactly when every character is kept. */
  lemma {:induction false} FilterIdentity(s: string, keep: char -> bool)
    ensures Filter(s, keep) == s <==> All(s, keep)
    decreases |s|
  {
    if s != [] {
      FilterIdentity(s[1..], keep);
      if !keep(s[0]) {
        assert |Filter(s, keep)| < |s|;
      }
    }
  }

  /** A character occurs in the filtered string exactly when it occurs in the original
      and is kept. */
  lemma {:induction false} FilterMembership(s: string, keep: char -> bool, c: char)
    ensures c in Filter(s, keep) <==> c in s && keep(c)
    decreases |s|
  {
    if s != [] {
      FilterMembership(s[1..], keep, c);
      assert s == [s[0]] + s[1..];
      var head := if keep(s[0]) then [s[0]] else [];
      assert Filter(s, keep) == head + Filter(s[1..], keep);
    }
  }

  /** Filtering twice is filtering once by the conjunction of both tests. */
  lemma {:induction false} FilterFilter(s: string, p: char -> bool, q: char -> bool)
    ensures Filter(Filter(s, p), q) == Filter(s, Both(p, q))
    decreases |s|
  {
    if s != [] {
      FilterFilter(s[1..], p, q);
      var head := if p(s[0]) then [s[0]] else [];
      FilterAppend(head, Filter(s[1..], p), q);
    }
  }

  /** Length of the longest prefix of `s` whose characters all satisfy `p`. */
  function Span(s: string, p: char -> bool): (n: nat)
    ensures n <= |s|
    ensures forall k | 0 <= k < n :: p(s[k])
    ensures n < |s| ==> !p(s[n])
  {
    if s == [] || !p(s[0]) then 0 else 1 + Span(s[1..], p)
  }

  /** Length of the longest suffix of `s` made of white space. */
  function TrailingSpaces(s: string): (n: nat)
    ensures n <= |s|
    ensures forall k | |s| - n <= k < |s| :: IsSpace(s[k])
    ensures n < |s| ==> !IsSpace(s[|s| - 1 - n])
  {
    if s == [] || !IsSpace(s[|s| - 1]) then 0 else 1 + TrailingSpaces(s[..|s| - 1])
  }

  /** Neither end of `s` is white space. */
  predicate IsTrimmed(s: string) {
    s == [] || (!IsSpace(s[0]) && !IsSpace(s[|s| - 1]))
  }

  /** `String.prototype.trimStart`: `s` without its leading white space. */
  function TrimStart(s: string): (r: string)
    ensures |r| <= |s| && r == s[|s| - |r|..]
    ensures All(s[..|s| - |r|], IsSpace)
    ensures r != [] ==> !IsSpace(r[0])
  {
    var i := Span(s, IsSpace);
    assert All(s[..i], IsSpace) by {
      forall k | 0 <= k < i ensures IsSpace(s[..i][k]) {
        assert s[..i][k] == s[k];
      }
    }
    s[i..]
  }

  /** `String.prototype.trimEnd`: `s` without its trailing white space. */
  function TrimEnd(s: string): (r: string)
    ensures |r| <= |s| && r == s[..|r|]
    ensures All(s[|r|..], IsSpace)
    ensures r != [] ==> !IsSpace(r[|r| - 1])
  {
    var n := TrailingSpaces(s);
    var j := |s| - n;
    assert All(s[j..], IsSpace) by {
      forall k | 0 <= k < n ensures IsSpace(s[j..][k]) {
        assert s[j..][k] == s[j + k];
      }
    }
    s[..j]
  }

  /** `String.prototype.trim`: `s` without its leading and trailing white space. */
  function Trim(s: string): (r: string)
    ensures IsTrimmed(r)
    ensures exists i, j | 0 <= i <= j <= |s| ::
              && r == s[i..j]
              && All(s[..i], IsSpace)
              && All(s[j..], IsSpace)
    ensures r == [] <==> All(s, IsSpace)
  {
    var t := TrimStart(s);
    var r := TrimEnd(t);
    var i := |s| - |t|;
    var j := i + |r|;
    assert r == s[i..j];
    assert s[j..] == t[|r|..];
    assert r != [] ==> r[0] == t[0];
    assert All(s, IsSpace) ==> r == [];
    assert r == [] ==> All(s, IsSpace) by {
      if r == [] {
        assert t == [];
        forall k | 0 <= k < |s| ensures IsSpace(s[k]) {
          assert s[k] == s[..i][k];
        }
      }
    }
    r
  }

  /** Trimming removes white space only. */
  lemma TrimKeepsNonSpace(s: string, c: char)
    requires c in s && !IsSpace(c)
    ensures c in Trim(s)
  {
    var i, j :| 0 <= i <= j <= |s| && Trim(s) == s[i..j] && All(s[..i], IsSpace) && All(s[j..], IsSpace);
    var k :| 0 <= k < |s| && s[k] == c;
    if k < i {
      assert s[..i][k] == c;
    } else if k >= j {
      assert s[j..][k - j] == c;
    } else {
      assert s[i..j][k - i] == c;
    }
  }

  /** Trimming a string that is already trimmed changes nothing. */
  lemma TrimTrimmed(s: string)
    requires IsTrimmed(s)
    ensures Trim(s) == s
  {
    if s != [] {
      assert Span(s, IsSpace) == 0;
      assert TrailingSpaces(s) == 0;
    }
  }

  /** `s.replace(/\s+/g, " ")`: every maximal run of white space becomes one space. */
  function CollapseSpaces(s: string): (r: string)
    ensures |r| <= |s|
    ensures forall k | 0 <= k < |r| :: IsSpace(r[k]) ==> r[k] == ' '
    ensures forall j, k | 0 <= j < |r| - 1 && k == j + 1 :: IsSpace(r[j]) ==> !IsSpace(r[k])
    ensures r == [] <==> s == []
    ensures s != [] ==> (IsSpace(r[0]) <==> IsSpace(s[0]))
    ensures s != [] ==> (IsSpace(r[|r| - 1]) <==> IsSpace(s[|s| - 1]))
    decreases |s|
  {
    if s == [] then []
    else if IsSpace(s[0]) then
      var n := Span(s, IsSpace);
      [' '] + CollapseSpaces(s[n..])
    else
      [s[0]] + CollapseSpaces(s[1..])
  }

  /** No white space other than single plain spaces: what collapsing produces. */
  predicate IsCollapsed(s: string) {
    && (forall k | 0 <= k < |s| :: IsSpace(s[k]) ==> s[k] == ' ')
    && (forall j, k | 0 <= j < |s| - 1 && k == j + 1 :: IsSpace(s[j]) ==> !IsSpace(s[k]))
  }

  /** Collapsing changes nothing on a string that is already collapsed. */
  lemma {:induction false} CollapseIdentity(s: string)
    requires IsCollapsed(s)
    ensures CollapseSpaces(s) == s
    decreases |s|
  {
    if s != [] {
      CollapsedTail(s);
      CollapseIdentity(s[1..]);
      if IsSpace(s[0]) {
        assert Span(s, IsSpace) == 1 by {
          if |s| > 1 {
            assert !IsSpace(s[1]);
            assert s[1..][0] == s[1];
          }
        }
        assert CollapseSpaces(s) == [' '] + CollapseSpaces(s[1..]);
      } else {
        assert CollapseSpaces(s) == [s[0]] + CollapseSpaces(s[1..]);
      }
    }
  }

  lemma CollapsedTail(s: string)
    requires s != [] && IsCollapsed(s)
    ensures IsCollapsed(s[1..])
  {
    var t := s[1..];
    forall j, k | 0 <= j < |t| - 1 && k == j + 1 ensures IsSpace(t[j]) ==> !IsSpace(t[k]) {
      assert t[j] == s[j + 1] && t[k] == s[k + 1];
    }
  }

  /** Collapsing twice is collapsing once. */
  lemma CollapseIdempotent(s: string)
    ensures CollapseSpaces(CollapseSpaces(s)) == CollapseSpaces(s)
  {
    CollapseIdentity(CollapseSpaces(s));
  }

  /** Collapsing keeps every non-white-space character, in order, and adds none. */
  lemma {:induction false} CollapseKeepsNonSpace(s: string)
    ensures Filter(CollapseSpaces(s), IsNotSpace) == Filter(s, IsNotSpace)
    decreases |s|
  {
    if s != [] {
      if IsSpace(s[0]) {
        var n := Span(s, IsSpace);
        CollapseKeepsNonSpace(s[n..]);
        assert s == s[..n] + s[n..];
        FilterAppend(s[..n], s[n..], IsNotSpace);
        NoneNonSpace(s[..n]);
        FilterAppend([' '], CollapseSpaces(s[n..]), IsNotSpace);
      } else {
        CollapseKeepsNonSpace(s[1..]);
        FilterAppend([s[0]], CollapseSpaces(s[1..]), IsNotSpace);
      }
    }
  }

  /** A non-white-space character survives collapsing. */
  lemma CollapseKeepsCharacter(s: string, c: char)
    requires c in s && !IsSpace(c)
    ensures c in CollapseSpaces(s)
  {
    CollapseKeepsNonSpace(s);
    FilterMembership(s, IsNotSpace, c);
    FilterMembership(CollapseSpaces(s), IsNotSpace, c);
  }

  /** `Span` is the length of the longest prefix whose characters all pass the test. */
  lemma SpanUnique(s: string, p: char -> bool, n: nat)
    requires n <= |s| && (forall k | 0 <= k < n :: p(s[k])) && (n < |s| ==> !p(s[n]))
    ensures Span(s, p) == n
  {
  }

  /** Text without white space collapses to itself. */
  lemma CollapseNonSpace(s: string)
    requires All(s, IsNotSpace)
    ensures CollapseSpaces(s) == s
  {
    CollapseIdentity(s);
  }

  /** A run of white space, whatever its length and kind, collapses to one plain space. */
  lemma CollapseRun(w: string)
    requires w != [] && All(w, IsSpace)
    ensures CollapseSpaces(w) == " "
  {
    SpanUnique(w, IsSpace, |w|);
    assert w[|w|..] == [];
  }

  /** Where the single spaces go: a maximal run of white space between two pieces of text
      becomes one space between the two pieces, each collapsed on its own. */
  lemma {:induction false} CollapseSplit(a: string, w: string, b: string)
    requires a == [] || !IsSpace(a[|a| - 1])
    requires w != [] && All(w, IsSpace)
    requires b == [] || !IsSpace(b[0])
    ensures CollapseSpaces(a + w + b) == CollapseSpaces(a) + " " + CollapseSpaces(b)
    decreases |a|
  {
    if a == [] {
      assert a + w + b == w + b && CollapseSpaces(a) == [];
      CollapseLeadingRun(w, b);
    } else if !IsSpace(a[0]) {
      var t := a[1..];
      assert t == [] || t[|t| - 1] == a[|a| - 1];
      CollapseSplit(t, w, b);
      CollapseSplitNonSpace(a, w, b);
    } else {
      var n := Span(a, IsSpace);
      assert 0 < n < |a|;
      var t := a[n..];
      assert t[|t| - 1] == a[|a| - 1];
      CollapseSplit(t, w, b);
      CollapseSplitSpace(a, w, b);
    }
  }

  lemma CollapseLeadingRun(w: string, b: string)
    requires w != [] && All(w, IsSpace)
    requires b == [] || !IsSpace(b[0])
    ensures CollapseSpaces(w + b) == " " + CollapseSpaces(b)
  {
    var s := w + b;
    assert Span(s, IsSpace) == |w| by {
      SpanUnique(s, IsSpace, |w|);
    }
    assert s[|w|..] == b;
    CollapseStepSpace(s);
  }

  lemma CollapseSplitNonSpace(a: string, w: string, b: string)
    requires a != [] && !IsSpace(a[0])
    requires CollapseSpaces(a[1..] + w + b) == CollapseSpaces(a[1..]) + " " + CollapseSpaces(b)
    ensures CollapseSpaces(a + w + b) == CollapseSpaces(a) + " " + CollapseSpaces(b)
  {
    ConcatTail(a, w, b);
    CollapseStepNonSpace(a + w + b);
    CollapseStepNonSpace(a);
    SeqAssoc([a[0]], CollapseSpaces(a[1..]), CollapseSpaces(b));
  }

  lemma ConcatTail(a: string, w: string, b: string)
    requires a != []
    ensures (a + w + b)[0] == a[0] && (a + w + b)[1..] == a[1..] + w + b
  {
  }

  lemma CollapseSplitSpace(a: string, w: string, b: string)
    requires a != [] && IsSpace(a[0]) && Span(a, IsSpace) < |a|
    requires var n := Span(a, IsSpace);
             CollapseSpaces(a[n..] + w + b) == CollapseSpaces(a[n..]) + " " + CollapseSpaces(b)
    ensures CollapseSpaces(a + w + b) == CollapseSpaces(a) + " " + CollapseSpaces(b)
  {
    var n := Span(a, IsSpace);
    SpanOfConcat(a, w, b);
    CollapseStepSpace(a + w + b);
    CollapseStepSpace(a);
    SeqAssoc([' '], CollapseSpaces(a[n..]), CollapseSpaces(b));
  }

  /** A leading run of white space that stops inside `a` stops at the same place in
      `a + w + b`. */
  lemma SpanOfConcat(a: string, w: string, b: string)
    requires Span(a, IsSpace) < |a|
    ensures var n := Span(a, IsSpace);
            Span(a + w + b, IsSpace) == n && (a + w + b)[n..] == a[n..] + w + b
  {
    var n := Span(a, IsSpace);
    var s := a + w + b;
    assert forall k | 0 <= k <= n :: s[k] == a[k];
    SpanUnique(s, IsSpace, n);
  }

  lemma SeqAssoc(x: string, y: string, z: string)
    ensures x + (y + " " + z) == (x + y) + " " + z
  {
  }

  lemma CollapseStepNonSpace(s: string)
    requires s != [] && !IsSpace(s[0])
    ensures CollapseSpaces(s) == [s[0]] + CollapseSpaces(s[1..])
  {
  }

  lemma CollapseStepSpace(s: string)
    requires s != [] && IsSpace(s[0])
    ensures CollapseSpaces(s) == [' '] + CollapseSpaces(s[Span(s, IsSpace)..])
  {
  }

  lemma {:induction false} NoneNonSpace(s: string)
    requires All(s, IsSpace)
    ensures Filter(s, IsNotSpace) == []
    decreases |s|
  {
    if s != [] {
      NoneNonSpace(s[1..]);
    }
  }

  /** Collapsing a trimmed string leaves it trimmed, so `trim()` after collapsing a
      trimmed string changes nothing. */
  lemma CollapseTrimmed(s: string)
    requires IsTrimmed(s)
    ensures IsTrimmed(CollapseSpaces(s))
    ensures Trim(CollapseSpaces(s)) == CollapseSpaces(s)
  {
    TrimTrimmed(CollapseSpaces(s));
  }
}
