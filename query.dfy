/** normalize_query: the search text sent to the registry and used as the exact-match key. */
module Query {
  import opened Text

  /**
   * Only plain spaces separate words, and never two whitespace characters in a row: a leading
   * whitespace character is a plain space not followed by another whitespace character.
   */
  predicate WellSpaced(s: string) {
    s == [] || ((IsSpace(s[0]) ==> s[0] == ' ' && (|s| == 1 || !IsSpace(s[1]))) && WellSpaced(s[1..]))
  }

  /** WellSpaced, stated position by position. */
  ghost predicate SingleSpaced(s: string) {
    && (forall i :: 0 <= i < |s| && IsSpace(s[i]) ==> s[i] == ' ')
    && (forall i, j :: 0 <= i < j < |s| && j == i + 1 ==> !(IsSpace(s[i]) && IsSpace(s[j])))
  }

  /** The recursive and the positional readings of "single-spaced" agree. */
  lemma {:induction false} WellSpacedIsSingleSpaced(s: string)
    ensures WellSpaced(s) <==> SingleSpaced(s)
    decreases |s|
  {
    if s != [] {
      var t := s[1..];
      WellSpacedIsSingleSpaced(t);
      assert forall i :: 0 < i < |s| ==> s[i] == t[i - 1];
      if SingleSpaced(s) {
        assert SingleSpaced(t) by {
          forall i | 0 <= i < |t| && IsSpace(t[i]) ensures t[i] == ' ' {
            assert s[i + 1] == t[i];
          }
          forall i, j | 0 <= i < j < |t| && j == i + 1 ensures !(IsSpace(t[i]) && IsSpace(t[j])) {
            assert s[i + 1] == t[i] && s[j + 1] == t[j];
          }
        }
      }
    }
  }

  /** The non-whitespace characters of s, in order. */
  function NonSpace(s: string): string {
    if s == [] then [] else (if IsSpace(s[0]) then [] else [s[0]]) + NonSpace(s[1..])
  }

  lemma NonSpaceOfLStrip(s: string)
    ensures NonSpace(LStrip(s)) == NonSpace(s)
  {
    if s != [] && IsSpace(s[0]) {
      NonSpaceOfLStrip(s[1..]);
    }
  }

  lemma {:induction false} NonSpaceAppend(a: string, b: string)
    ensures NonSpace(a + b) == NonSpace(a) + NonSpace(b)
  {
    if a != [] {
      assert (a + b)[1..] == a[1..] + b;
      NonSpaceAppend(a[1..], b);
    } else {
      assert a + b == b;
    }
  }

  lemma {:induction false} NonSpaceOfRStrip(s: string)
    ensures NonSpace(RStrip(s)) == NonSpace(s)
    decreases |s|
  {
    if s != [] && IsSpace(s[|s| - 1]) {
      var p := s[..|s| - 1];
      assert s == p + [s[|s| - 1]];
      NonSpaceAppend(p, [s[|s| - 1]]);
      assert NonSpace([s[|s| - 1]]) == [];
      NonSpaceOfRStrip(p);
    }
  }

  lemma NonSpaceOfStrip(s: string)
    ensures NonSpace(Strip(s)) == NonSpace(s)
  {
    NonSpaceOfLStrip(s);
    NonSpaceOfRStrip(LStrip(s));
  }

  /** re.sub(r"\s+", " ", s): every maximal run of whitespace becomes one plain space. */
  function CollapseSpaces(s: string): (r: string)
    ensures s == [] <==> r == []
    ensures r != [] ==> (IsSpace(r[0]) <==> IsSpace(s[0]))
    decreases |s|
  {
    if s == [] then []
    else if IsSpace(s[0]) then [' '] + CollapseSpaces(LStrip(s[1..]))
    else [s[0]] + CollapseSpaces(s[1..])
  }

  /** The collapse leaves single plain spaces only. */
  lemma {:induction false} CollapseWellSpaced(s: string)
    ensures WellSpaced(CollapseSpaces(s))
    decreases |s|
  {
    if s != [] {
      var r := CollapseSpaces(s);
      if IsSpace(s[0]) {
        CollapseWellSpaced(LStrip(s[1..]));
        assert r[1..] == CollapseSpaces(LStrip(s[1..]));
      } else {
        CollapseWellSpaced(s[1..]);
        assert r[1..] == CollapseSpaces(s[1..]);
      }
    }
  }

  /** The collapse keeps every non-whitespace character, in order. */
  lemma {:induction false} CollapseNonSpace(s: string)
    ensures NonSpace(CollapseSpaces(s)) == NonSpace(s)
    decreases |s|
  {
    if s != [] {
      var r := CollapseSpaces(s);
      if IsSpace(s[0]) {
        CollapseNonSpace(LStrip(s[1..]));
        NonSpaceOfLStrip(s[1..]);
        assert r[1..] == CollapseSpaces(LStrip(s[1..]));
      } else {
        CollapseNonSpace(s[1..]);
        assert r[1..] == CollapseSpaces(s[1..]);
      }
    }
  }

  /** The collapse ends in whitespace exactly when its input does. */
  lemma {:induction false} CollapseLast(s: string)
    ensures CollapseSpaces(s) != [] ==> (IsSpace(CollapseSpaces(s)[|CollapseSpaces(s)| - 1]) <==> IsSpace(s[|s| - 1]))
    decreases |s|
  {
    if s != [] {
      var r := CollapseSpaces(s);
      if IsSpace(s[0]) {
        var rest := LStrip(s[1..]);
        CollapseLast(rest);
        assert r[1..] == CollapseSpaces(rest);
        assert rest == [] ==> forall i :: 0 <= i < |s| ==> IsSpace(s[i]);
        assert rest != [] ==> rest[|rest| - 1] == s[|s| - 1];
      } else {
        CollapseLast(s[1..]);
        assert r[1..] == CollapseSpaces(s[1..]);
      }
    }
  }

  /** normalize_query: strip the ends, then collapse the whitespace runs. */
  function NormalizeQuery(name: string): (q: string)
    ensures Trimmed(q) && WellSpaced(q)
    ensures NonSpace(q) == NonSpace(name)
  {
    var t := Strip(name);
    NonSpaceOfStrip(name);
    CollapseWellSpaced(t);
    CollapseNonSpace(t);
    CollapseLast(t);
    CollapseSpaces(t)
  }

  /** A string that is already well spaced is left alone by the collapse. */
  lemma {:induction false} CollapseOfWellSpaced(s: string)
    requires WellSpaced(s)
    ensures CollapseSpaces(s) == s
    decreases |s|
  {
    if s != [] {
      var t := s[1..];
      CollapseOfWellSpaced(t);
      if IsSpace(s[0]) {
        LStripOfTrimmed(t);
        assert CollapseSpaces(s) == [' '] + CollapseSpaces(t);
      } else {
        assert CollapseSpaces(s) == [s[0]] + CollapseSpaces(t);
      }
      assert s == [s[0]] + t;
    }
  }

  /** Every character of s is whitespace. */
  predicate AllSpace(s: string) {
    forall k :: 0 <= k < |s| ==> IsSpace(s[k])
  }

  /** lstrip of a concatenation: the whitespace prefix of a, and of b too when a is all whitespace. */
  lemma {:induction false} LStripAppend(a: string, b: string)
    ensures !AllSpace(a) ==> LStrip(a + b) == LStrip(a) + b
    ensures AllSpace(a) ==> LStrip(a + b) == LStrip(b)
    decreases |a|
  {
    if a == [] {
      assert a + b == b;
    } else {
      assert (a + b)[0] == a[0] && (a + b)[1..] == a[1..] + b;
      LStripAppend(a[1..], b);
      assert AllSpace(a) <==> IsSpace(a[0]) && AllSpace(a[1..]);
    }
  }

  lemma {:induction false} LStripAllSpace(s: string)
    requires AllSpace(s)
    ensures LStrip(s) == []
    decreases |s|
  {
    if s != [] {
      assert AllSpace(s[1..]) by {
        assert forall k :: 0 <= k < |s[1..]| ==> s[1..][k] == s[k + 1];
      }
      LStripAllSpace(s[1..]);
    }
  }

  lemma {:induction false} AppendAssoc(x: string, y: string, z: string)
    ensures x + (y + z) == (x + y) + z
  {
  }

  /** One step of the collapse, on a string given as its first character and the rest. */
  lemma {:induction false} CollapseCons(c: char, t: string)
    ensures !IsSpace(c) ==> CollapseSpaces([c] + t) == [c] + CollapseSpaces(t)
    ensures IsSpace(c) ==> CollapseSpaces([c] + t) == [' '] + CollapseSpaces(LStrip(t))
  {
    assert ([c] + t)[0] == c && ([c] + t)[1..] == t;
  }

  /**
   * The collapse works run by run: cutting a string where at least one side is not whitespace
   * collapses the two pieces separately.
   */
  lemma {:induction false} CollapseAppend(a: string, b: string)
    requires a == [] || b == [] || !IsSpace(a[|a| - 1]) || !IsSpace(b[0])
    ensures CollapseSpaces(a + b) == CollapseSpaces(a) + CollapseSpaces(b)
    decreases |a|, 1
  {
    if a == [] {
      assert a + b == b;
    } else if b == [] {
      assert a + b == a;
    } else if !IsSpace(a[0]) {
      var c, t := a[0], a[1..];
      assert a == [c] + t;
      AppendAssoc([c], t, b);
      CollapseCons(c, t);
      CollapseCons(c, t + b);
      CollapseAppend(t, b);
      AppendAssoc([c], CollapseSpaces(t), CollapseSpaces(b));
    } else {
      CollapseAppendAtSpace(a, b);
    }
  }

  /** CollapseAppend when a starts with whitespace. */
  lemma {:induction false} CollapseAppendAtSpace(a: string, b: string)
    requires a != [] && b != [] && IsSpace(a[0])
    requires !IsSpace(a[|a| - 1]) || !IsSpace(b[0])
    ensures CollapseSpaces(a + b) == CollapseSpaces(a) + CollapseSpaces(b)
    decreases |a|, 0
  {
    var c, t := a[0], a[1..];
    assert a == [c] + t;
    if AllSpace(t) {
      assert !IsSpace(b[0]) by {
        if |a| > 1 { assert a[|a| - 1] == t[|t| - 1]; }
      }
      CollapseRunThenWord(c, t, b);
    } else {
      var l := LStrip(t);
      assert l != [] && l[|l| - 1] == a[|a| - 1];
      CollapseAppend(l, b);
      CollapseSpaceThenWord(c, t, b);
    }
  }

  /** A whitespace run followed by a string starting with a non-space character. */
  lemma {:induction false} CollapseRunThenWord(c: char, t: string, b: string)
    requires IsSpace(c) && AllSpace(t) && b != [] && !IsSpace(b[0])
    ensures CollapseSpaces([c] + t + b) == CollapseSpaces([c] + t) + CollapseSpaces(b)
  {
    var x, y := [c] + t, t + b;
    assert x + b == [c] + y by {
      AppendAssoc([c], t, b);
    }
    assert LStrip(y) == b by {
      LStripAppend(t, b);
      LStripOfTrimmed(b);
    }
    assert CollapseSpaces(x) == " " by {
      LStripAllSpace(t);
      CollapseCons(c, t);
    }
    CollapseCons(c, y);
  }

  /** A leading whitespace character before a tail that is not only whitespace. */
  lemma {:induction false} CollapseSpaceThenWord(c: char, t: string, b: string)
    requires IsSpace(c) && !AllSpace(t)
    requires CollapseSpaces(LStrip(t) + b) == CollapseSpaces(LStrip(t)) + CollapseSpaces(b)
    ensures CollapseSpaces([c] + t + b) == CollapseSpaces([c] + t) + CollapseSpaces(b)
  {
    AppendAssoc([c], t, b);
    LStripAppend(t, b);
    CollapseCons(c, t);
    CollapseCons(c, t + b);
    AppendAssoc([' '], CollapseSpaces(LStrip(t)), CollapseSpaces(b));
  }

  /** A non-empty run of whitespace collapses to exactly one plain space. */
  lemma {:induction false} CollapseRun(s: string)
    requires s != [] && AllSpace(s)
    ensures CollapseSpaces(s) == " "
  {
    assert AllSpace(s[1..]) by {
      assert forall k :: 0 <= k < |s[1..]| ==> s[1..][k] == s[k + 1];
    }
    LStripAllSpace(s[1..]);
  }

  /** A string without whitespace is left as it is. */
  lemma {:induction false} CollapseOfNoSpace(s: string)
    requires forall k :: 0 <= k < |s| ==> !IsSpace(s[k])
    ensures CollapseSpaces(s) == s
    decreases |s|
  {
    if s != [] {
      CollapseOfNoSpace(s[1..]);
      assert s == [s[0]] + s[1..];
    }
  }

  /** Two words separated by any non-empty whitespace run come out separated by exactly one space. */
  lemma {:induction false} InnerRunCollapsed(u: string, w: string, v: string)
    requires u != [] && v != [] && w != [] && AllSpace(w)
    requires forall k :: 0 <= k < |u| ==> !IsSpace(u[k])
    requires forall k :: 0 <= k < |v| ==> !IsSpace(v[k])
    ensures NormalizeQuery(u + w + v) == u + " " + v
  {
    var s := u + w + v;
    assert s[0] == u[0] && s[|s| - 1] == v[|v| - 1];
    StripOfTrimmed(s);
    assert (u + w)[|u + w| - 1] == w[|w| - 1];
    CollapseAppend(u + w, v);
    CollapseAppend(u, w);
    CollapseOfNoSpace(u);
    CollapseOfNoSpace(v);
    CollapseRun(w);
  }

  /** Normalising twice is the same as normalising once. */
  lemma NormalizeIdempotent(name: string)
    ensures NormalizeQuery(NormalizeQuery(name)) == NormalizeQuery(name)
  {
    var q := NormalizeQuery(name);
    StripOfTrimmed(q);
    CollapseOfWellSpaced(q);
  }
}
