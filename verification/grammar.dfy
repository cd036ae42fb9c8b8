/** The shape shared by the name and venue patterns of the contact forms:
      ^ A+ (?: J A+ )* (?: S A+ (?: J A+ )* )* $
    atoms `A` joined inside a word by single joiners `J`, words separated by single
    separators `S`. `IsWord` and `IsPhrase` follow the pattern's structure; `Flat` is an
    independent, position-by-position description of the same language. */
module Grammar {
  import opened JsText

  /** `A+` */
  predicate IsRun(s: string, atom: char -> bool) {
    |s| > 0 && All(s, atom)
  }

  /** `A+ (?: J A+ )*` */
  predicate IsWord(s: string, atom: char -> bool, joiner: char -> bool)
    decreases |s|
  {
    exists i | 1 <= i <= |s| ::
      && IsRun(s[..i], atom)
      && (i == |s| || (joiner(s[i]) && IsWord(s[i + 1..], atom, joiner)))
  }

  /** `W (?: S W )*` where `W` is `IsWord` */
  predicate IsPhrase(s: string, atom: char -> bool, joiner: char -> bool, separator: char -> bool)
    decreases |s|
  {
    exists i | 1 <= i <= |s| ::
      && IsWord(s[..i], atom, joiner)
      && (i == |s| || (separator(s[i]) && IsPhrase(s[i + 1..], atom, joiner, separator)))
  }

  /** `s` is non-empty and each of its characters is an atom, or a mark with an atom
      on either side. */
  predicate Flat(s: string, atom: char -> bool, mark: char -> bool) {
    && |s| > 0
    && forall k | 0 <= k < |s| ::
         || atom(s[k])
         || (0 < k < |s| - 1 && mark(s[k]) && atom(s[k - 1]) && atom(s[k + 1]))
  }

  lemma FlatJoin(a: string, c: char, b: string, atom: char -> bool, mark: char -> bool)
    requires Flat(a, atom, mark) && mark(c) && Flat(b, atom, mark)
    ensures Flat(a + [c] + b, atom, mark)
  {
    var s := a + [c] + b;
    forall k | 0 <= k < |s|
      ensures atom(s[k]) || (0 < k < |s| - 1 && mark(s[k]) && atom(s[k - 1]) && atom(s[k + 1]))
    {
      if k < |a| {
        assert s[k] == a[k];
        if !atom(a[k]) {
          assert s[k - 1] == a[k - 1] && s[k + 1] == a[k + 1];
        }
      } else if k == |a| {
        assert atom(a[|a| - 1]) && atom(b[0]);
      } else {
        var k' := k - |a| - 1;
        assert s[k] == b[k'];
        if !atom(b[k']) {
          assert s[k - 1] == b[k' - 1] && s[k + 1] == b[k' + 1];
        }
      }
    }
  }

  lemma FlatSplit(s: string, i: nat, atom: char -> bool, mark: char -> bool)
    requires Flat(s, atom, mark) && i < |s| && !atom(s[i])
    ensures 0 < i < |s| - 1 && mark(s[i])
    ensures Flat(s[..i], atom, mark) && Flat(s[i + 1..], atom, mark)
    ensures s == s[..i] + [s[i]] + s[i + 1..]
  {
    var a, b := s[..i], s[i + 1..];
    forall k | 0 <= k < |a|
      ensures atom(a[k]) || (0 < k < |a| - 1 && mark(a[k]) && atom(a[k - 1]) && atom(a[k + 1]))
    {
      assert a[k] == s[k];
      if !atom(s[k]) {
        assert k + 1 != i;
        assert a[k - 1] == s[k - 1] && a[k + 1] == s[k + 1];
      }
    }
    forall k | 0 <= k < |b|
      ensures atom(b[k]) || (0 < k < |b| - 1 && mark(b[k]) && atom(b[k - 1]) && atom(b[k + 1]))
    {
      var j := k + i + 1;
      assert b[k] == s[j];
      if !atom(s[j]) {
        assert j - 1 != i;
        assert b[k - 1] == s[j - 1] && b[k + 1] == s[j + 1];
      }
    }
    assert s == a + [s[i]] + b;
  }

  /** A flat string whose characters are all atoms or `narrow` marks is flat for `narrow`. */
  lemma FlatNarrow(s: string, atom: char -> bool, mark: char -> bool, narrow: char -> bool)
    requires Flat(s, atom, mark)
    requires All(s, Either(atom, narrow))
    ensures Flat(s, atom, narrow)
  {
    forall k | 0 <= k < |s|
      ensures atom(s[k]) || (0 < k < |s| - 1 && narrow(s[k]) && atom(s[k - 1]) && atom(s[k + 1]))
    {
      assert Either(atom, narrow)(s[k]);
    }
  }

  /** The word level of the pattern is exactly the flat language with the joiners as marks. */
  lemma WordIsFlat(s: string, atom: char -> bool, joiner: char -> bool)
    ensures IsWord(s, atom, joiner) <==> Flat(s, atom, joiner)
  {
    if IsWord(s, atom, joiner) {
      WordToFlat(s, atom, joiner);
    }
    if Flat(s, atom, joiner) {
      FlatToWord(s, atom, joiner);
    }
  }

  lemma {:induction false} WordToFlat(s: string, atom: char -> bool, joiner: char -> bool)
    requires IsWord(s, atom, joiner)
    ensures Flat(s, atom, joiner)
    decreases |s|
  {
    var i :| 1 <= i <= |s| && IsRun(s[..i], atom)
              && (i == |s| || (joiner(s[i]) && IsWord(s[i + 1..], atom, joiner)));
    assert Flat(s[..i], atom, joiner);
    if i < |s| {
      WordToFlat(s[i + 1..], atom, joiner);
      FlatJoin(s[..i], s[i], s[i + 1..], atom, joiner);
      assert s == s[..i] + [s[i]] + s[i + 1..];
    } else {
      assert s[..i] == s;
    }
  }

  lemma {:induction false} FlatToWord(s: string, atom: char -> bool, joiner: char -> bool)
    requires Flat(s, atom, joiner)
    ensures IsWord(s, atom, joiner)
    decreases |s|
  {
    var i := Span(s, atom);
    if i == |s| {
      assert s[..i] == s;
      assert IsRun(s[..i], atom);
    } else {
      FlatSplit(s, i, atom, joiner);
      FlatToWord(s[i + 1..], atom, joiner);
      assert All(s[..i], atom) by {
        forall k | 0 <= k < i ensures atom(s[..i][k]) {
          assert s[..i][k] == s[k];
        }
      }
      assert IsRun(s[..i], atom) && joiner(s[i]) && IsWord(s[i + 1..], atom, joiner);
    }
  }

  /** The whole pattern is exactly the flat language with joiners and separators as marks:
      the two-level structure of the pattern adds nothing when both levels share their atoms. */
  lemma PhraseIsFlat(s: string, atom: char -> bool, joiner: char -> bool, separator: char -> bool)
    ensures IsPhrase(s, atom, joiner, separator) <==> Flat(s, atom, Either(joiner, separator))
  {
    if IsPhrase(s, atom, joiner, separator) {
      PhraseToFlat(s, atom, joiner, separator);
    }
    if Flat(s, atom, Either(joiner, separator)) {
      FlatToPhrase(s, atom, joiner, separator);
    }
  }

  lemma {:induction false} PhraseToFlat(s: string, atom: char -> bool, joiner: char -> bool, separator: char -> bool)
    requires IsPhrase(s, atom, joiner, separator)
    ensures Flat(s, atom, Either(joiner, separator))
    decreases |s|
  {
    var mark := Either(joiner, separator);
    var i :| 1 <= i <= |s| && IsWord(s[..i], atom, joiner)
              && (i == |s| || (separator(s[i]) && IsPhrase(s[i + 1..], atom, joiner, separator)));
    WordIsFlat(s[..i], atom, joiner);
    FlatWiden(s[..i], atom, joiner, separator);
    if i < |s| {
      PhraseToFlat(s[i + 1..], atom, joiner, separator);
      FlatJoin(s[..i], s[i], s[i + 1..], atom, mark);
      assert s == s[..i] + [s[i]] + s[i + 1..];
    } else {
      assert s[..i] == s;
    }
  }

  lemma {:induction false} FlatToPhrase(s: string, atom: char -> bool, joiner: char -> bool, separator: char -> bool)
    requires Flat(s, atom, Either(joiner, separator))
    ensures IsPhrase(s, atom, joiner, separator)
    decreases |s|
  {
    var mark := Either(joiner, separator);
    var i := Span(s, Either(atom, joiner));
    if i == |s| {
      FlatNarrow(s, atom, mark, joiner);
      WordIsFlat(s, atom, joiner);
      assert s[..i] == s;
      assert IsWord(s[..i], atom, joiner);
    } else {
      assert !atom(s[i]) && !joiner(s[i]);
      FlatSplit(s, i, atom, mark);
      assert All(s[..i], Either(atom, joiner)) by {
        forall k | 0 <= k < i ensures Either(atom, joiner)(s[..i][k]) {
          assert s[..i][k] == s[k];
        }
      }
      FlatNarrow(s[..i], atom, mark, joiner);
      WordIsFlat(s[..i], atom, joiner);
      FlatToPhrase(s[i + 1..], atom, joiner, separator);
      assert IsWord(s[..i], atom, joiner) && separator(s[i]) && IsPhrase(s[i + 1..], atom, joiner, separator);
    }
  }

  lemma FlatWiden(s: string, atom: char -> bool, joiner: char -> bool, separator: char -> bool)
    requires Flat(s, atom, joiner)
    ensures Flat(s, atom, Either(joiner, separator))
  {
  }
}
