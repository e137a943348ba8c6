/**
 * src/utils/formatText.ts: `dash` and `dashCaseSensitive` turn a product
 * name into a file-name stem: every run of whitespace becomes '-', the first
 * "%20" becomes '-', and `dash` lowercases the result.
 */
module FormatText {
  import opened Records
  import opened Ascii

  predicate NoSpace(s: string)
  {
    forall i :: 0 <= i < |s| ==> !IsSpace(s[i])
  }

  predicate AllSpace(s: string)
  {
    forall i :: 0 <= i < |s| ==> IsSpace(s[i])
  }

  /** `s` without its leading whitespace. */
  function DropSpaces(s: string): (r: string)
    ensures |r| <= |s| && r == s[|s| - |r|..]
    ensures r == [] || !IsSpace(r[0])
  {
    if s != [] && IsSpace(s[0]) then
      var r := DropSpaces(s[1..]);
      assert s[1..][|s| - 1 - |r|..] == s[|s| - |r|..];
      r
    else s
  }

  /** Only whitespace is dropped. */
  lemma {:induction false} DropSpacesDropsSpace(s: string)
    ensures AllSpace(s[..|s| - |DropSpaces(s)|])
  {
    if s != [] && IsSpace(s[0]) {
      DropSpacesDropsSpace(s[1..]);
      assert s[1..][..|s| - 1 - |DropSpaces(s)|] == s[1..|s| - |DropSpaces(s)|];
    }
  }

  /** `s.replace(/\s+/g, '-')`. */
  function CollapseWhitespace(s: string): (r: string)
    ensures |r| <= |s|
    ensures r == [] <==> s == []
    decreases |s|
  {
    if s == [] then []
    else if IsSpace(s[0]) then "-" + CollapseWhitespace(DropSpaces(s[1..]))
    else [s[0]] + CollapseWhitespace(s[1..])
  }

  /** No whitespace survives. */
  lemma {:induction false} CollapseLeavesNoSpace(s: string)
    ensures NoSpace(CollapseWhitespace(s))
    decreases |s|
  {
    if s != [] {
      if IsSpace(s[0]) {
        CollapseLeavesNoSpace(DropSpaces(s[1..]));
      } else {
        CollapseLeavesNoSpace(s[1..]);
      }
    }
  }

  /** A string without whitespace comes through unchanged. */
  lemma {:induction false} CollapseNoSpace(s: string)
    requires NoSpace(s)
    ensures CollapseWhitespace(s) == s
  {
    if s != [] {
      CollapseNoSpace(s[1..]);
    }
  }

  lemma {:induction false} DropSpacesAppend(x: string, y: string)
    requires DropSpaces(x) != []
    ensures DropSpaces(x + y) == DropSpaces(x) + y
  {
    assert (x + y)[0] == x[0];
    if IsSpace(x[0]) {
      assert DropSpaces(x) == DropSpaces(x[1..]);
      DropSpacesAppend(x[1..], y);
      assert (x + y)[1..] == x[1..] + y;
    }
  }

  lemma {:induction false} DropSpacesRun(w: string, b: string)
    requires AllSpace(w)
    requires b == [] || !IsSpace(b[0])
    ensures DropSpaces(w + b) == b
  {
    if w != [] {
      assert (w + b)[1..] == w[1..] + b;
      DropSpacesRun(w[1..], b);
    } else {
      assert w + b == b;
    }
  }

  lemma DropSpacesKeepsLast(s: string)
    requires s != [] && !IsSpace(s[|s| - 1])
    ensures DropSpaces(s) != [] && DropSpaces(s)[|DropSpaces(s)| - 1] == s[|s| - 1]
  {
    var r := DropSpaces(s);
    DropSpacesDropsSpace(s);
    assert s == s[..|s| - |r|] + r;
    assert r[|r| - 1] == s[|s| - |r|..][|r| - 1];
  }

  /** A whitespace run cannot straddle a non-space end: collapsing splits there. */
  lemma {:induction false} CollapseAppend(a: string, x: string)
    requires a == [] || !IsSpace(a[|a| - 1])
    ensures CollapseWhitespace(a + x) == CollapseWhitespace(a) + CollapseWhitespace(x)
    decreases |a|
  {
    if a == [] {
      assert a + x == x;
      assert CollapseWhitespace(a) == [];
    } else if IsSpace(a[0]) {
      var rest := DropSpaces(a[1..]);
      assert rest != [] && rest[|rest| - 1] == a[|a| - 1] by {
        DropSpacesKeepsLast(a[1..]);
      }
      assert CollapseWhitespace(a + x) == "-" + CollapseWhitespace(rest + x) by {
        assert (a + x)[0] == a[0] && (a + x)[1..] == a[1..] + x;
        DropSpacesAppend(a[1..], x);
      }
      CollapseAppend(rest, x);
      ConcatAssoc("-", CollapseWhitespace(rest), CollapseWhitespace(x));
    } else {
      assert CollapseWhitespace(a + x) == [a[0]] + CollapseWhitespace(a[1..] + x) by {
        assert (a + x)[0] == a[0] && (a + x)[1..] == a[1..] + x;
      }
      CollapseAppend(a[1..], x);
      ConcatAssoc([a[0]], CollapseWhitespace(a[1..]), CollapseWhitespace(x));
    }
  }

  /** A leading whitespace run becomes one '-'. */
  lemma CollapseLeadingRun(w: string, b: string)
    requires w != [] && AllSpace(w)
    requires b == [] || !IsSpace(b[0])
    ensures CollapseWhitespace(w + b) == "-" + CollapseWhitespace(b)
  {
    assert (w + b)[1..] == w[1..] + b;
    DropSpacesRun(w[1..], b);
  }

  /**
   * A maximal run of whitespace becomes exactly one '-': for `w` all
   * whitespace and non-empty, with no whitespace right before or after it.
   */
  lemma CollapseRun(a: string, w: string, b: string)
    requires w != [] && AllSpace(w)
    requires a == [] || !IsSpace(a[|a| - 1])
    requires b == [] || !IsSpace(b[0])
    ensures CollapseWhitespace(a + w + b) == CollapseWhitespace(a) + "-" + CollapseWhitespace(b)
  {
    var wb := w + b;
    ConcatAssoc(a, w, b);
    CollapseAppend(a, wb);
    CollapseLeadingRun(w, b);
    ConcatAssoc(CollapseWhitespace(a), "-", CollapseWhitespace(b));
  }

  /** `pat` occurs in `s` at index `i`. */
  predicate OccursAt(s: string, pat: string, i: int)
  {
    0 <= i && i + |pat| <= |s| && s[i..i + |pat|] == pat
  }

  /** `s.indexOf(pat)`: the first occurrence, or -1. */
  function IndexOf(s: string, pat: string): (r: int)
    ensures -1 <= r
    ensures r == -1 <==> forall i :: !OccursAt(s, pat, i)
    ensures r >= 0 ==> OccursAt(s, pat, r) && forall i :: 0 <= i < r ==> !OccursAt(s, pat, i)
    decreases |s|
  {
    if |s| < |pat| then -1
    else if s[..|pat|] == pat then
      assert OccursAt(s, pat, 0);
      0
    else
      var k := IndexOf(s[1..], pat);
      assert forall i :: OccursAt(s[1..], pat, i) <==> OccursAt(s, pat, i + 1) by {
        forall i ensures OccursAt(s[1..], pat, i) <==> OccursAt(s, pat, i + 1) {
          if 0 <= i && i + |pat| <= |s| - 1 {
            assert s[1..][i..i + |pat|] == s[i + 1..i + 1 + |pat|];
          }
        }
      }
      assert forall i :: OccursAt(s, pat, i) ==> i == 0 || OccursAt(s[1..], pat, i - 1);
      if k < 0 then -1 else k + 1
  }

  /**
   * `s.replace(pat, rep)` with a string pattern: only the first occurrence
   * is replaced; without one, `s` comes back unchanged.
   */
  function ReplaceFirst(s: string, pat: string, rep: string): (r: string)
    ensures (forall i :: !OccursAt(s, pat, i)) ==> r == s
    ensures (exists i :: OccursAt(s, pat, i)) ==>
      exists i :: OccursAt(s, pat, i) && (forall j :: 0 <= j < i ==> !OccursAt(s, pat, j)) &&
                  r == s[..i] + rep + s[i + |pat|..]
  {
    var i := IndexOf(s, pat);
    if i < 0 then s else s[..i] + rep + s[i + |pat|..]
  }

  /** Replacing "%20" by '-' brings in no whitespace. */
  lemma ReplaceKeepsNoSpace(s: string)
    requires NoSpace(s)
    ensures NoSpace(ReplaceFirst(s, "%20", "-"))
  {
    var i := IndexOf(s, "%20");
    if i >= 0 {
      var r := ReplaceFirst(s, "%20", "-");
      assert r == s[..i] + "-" + s[i + 3..];
      forall j | 0 <= j < |r|
        ensures !IsSpace(r[j])
      {
        if j < i {
          assert r[j] == s[j];
        } else if j > i {
          assert r[j] == s[j + 2];
        }
      }
    }
  }

  /** `dashCaseSensitive`: undefined for a missing or empty text. */
  function DashCaseSensitive(text: Option<string>): (r: Option<string>)
    ensures r.None? <==> !Truthy(text)
    ensures r.Some? ==> NoSpace(r.value)
  {
    if !Truthy(text) then None
    else
      var collapsed := CollapseWhitespace(text.value);
      CollapseLeavesNoSpace(text.value);
      ReplaceKeepsNoSpace(collapsed);
      Some(ReplaceFirst(collapsed, "%20", "-"))
  }

  /** `dash`: as `dashCaseSensitive`, then lowercased. */
  function Dash(text: Option<string>): (r: Option<string>)
    ensures r.None? <==> !Truthy(text)
    ensures r.Some? ==> NoSpace(r.value)
    ensures r.Some? ==> forall i :: 0 <= i < |r.value| ==> !IsUpper(r.value[i])
  {
    if !Truthy(text) then None
    else
      var collapsed := CollapseWhitespace(text.value);
      var replaced := ReplaceFirst(collapsed, "%20", "-");
      CollapseLeavesNoSpace(text.value);
      ReplaceKeepsNoSpace(collapsed);
      ToLowerSpec(replaced);
      Some(ToLower(replaced))
  }

  /** Lowercasing the result of `dashCaseSensitive` gives `dash`. */
  lemma DashIsLoweredCaseSensitive(text: Option<string>)
    ensures Dash(text).Some? <==> DashCaseSensitive(text).Some?
    ensures Dash(text).Some? ==> Dash(text).value == ToLower(DashCaseSensitive(text).value)
  {
  }

  /** Lowercasing distributes over concatenation. */
  lemma ToLowerConcat(a: string, b: string)
    ensures ToLower(a + b) == ToLower(a) + ToLower(b)
  {
    assert forall i :: 0 <= i < |a + b| ==> ToLower(a + b)[i] == (ToLower(a) + ToLower(b))[i];
  }

  /** Lowercasing a non-empty text lowercases its head and its tail. */
  lemma ToLowerCons(s: string)
    requires s != []
    ensures ToLower(s)[0] == ToLowerChar(s[0])
    ensures ToLower(s)[1..] == ToLower(s[1..])
    ensures IsSpace(ToLower(s)[0]) <==> IsSpace(s[0])
  {
  }

  /** Dropping leading whitespace commutes with lowercasing. */
  lemma {:induction false} DropSpacesLower(s: string)
    ensures DropSpaces(ToLower(s)) == ToLower(DropSpaces(s))
    decreases |s|
  {
    if s != [] {
      ToLowerCons(s);
      if IsSpace(s[0]) {
        DropSpacesLower(s[1..]);
      }
    }
  }

  /** Collapsing whitespace commutes with lowercasing. */
  lemma {:induction false} CollapseLower(s: string)
    ensures CollapseWhitespace(ToLower(s)) == ToLower(CollapseWhitespace(s))
    decreases |s|
  {
    if s != [] {
      var t := ToLower(s);
      ToLowerCons(s);
      if IsSpace(s[0]) {
        var rest := DropSpaces(s[1..]);
        assert CollapseWhitespace(t) == "-" + CollapseWhitespace(DropSpaces(ToLower(s[1..])));
        DropSpacesLower(s[1..]);
        CollapseLower(rest);
        ToLowerConcat("-", CollapseWhitespace(rest));
      } else {
        assert CollapseWhitespace(t) == [ToLowerChar(s[0])] + CollapseWhitespace(ToLower(s[1..]));
        CollapseLower(s[1..]);
        ToLowerConcat([s[0]], CollapseWhitespace(s[1..]));
      }
    }
  }

  /** Lowercasing neither creates nor destroys an occurrence of "%20". */
  lemma OccursLower(s: string, i: int)
    ensures OccursAt(ToLower(s), "%20", i) <==> OccursAt(s, "%20", i)
  {
    if 0 <= i && i + 3 <= |s| {
      var t := ToLower(s);
      assert t[i..i + 3] == [t[i], t[i + 1], t[i + 2]];
      assert s[i..i + 3] == [s[i], s[i + 1], s[i + 2]];
    }
  }

  /** The first "%20" sits at the same index before and after lowercasing. */
  lemma IndexOfLower(s: string)
    ensures IndexOf(ToLower(s), "%20") == IndexOf(s, "%20")
  {
    var t := ToLower(s);
    forall i ensures OccursAt(t, "%20", i) <==> OccursAt(s, "%20", i) {
      OccursLower(s, i);
    }
  }

  /** Lowercasing a splice is splicing the lowercased text. */
  lemma SpliceLower(s: string, i: int)
    requires 0 <= i && i + 3 <= |s|
    ensures ToLower(s[..i] + "-" + s[i + 3..]) == ToLower(s)[..i] + "-" + ToLower(s)[i + 3..]
  {
    var u := s[..i] + "-" + s[i + 3..];
    var t := ToLower(s);
    var v := t[..i] + "-" + t[i + 3..];
    assert |ToLower(u)| == |v|;
    forall k | 0 <= k < |v|
      ensures ToLower(u)[k] == v[k]
    {
      if k < i {
        assert u[k] == s[k] && v[k] == t[k];
      } else if k > i {
        assert u[k] == s[k + 2] && v[k] == t[k + 2];
      }
    }
  }

  /** Replacing the first "%20" commutes with lowercasing. */
  lemma ReplaceLower(s: string)
    ensures ToLower(ReplaceFirst(s, "%20", "-")) == ReplaceFirst(ToLower(s), "%20", "-")
  {
    IndexOfLower(s);
    var i := IndexOf(s, "%20");
    if i >= 0 {
      SpliceLower(s, i);
    }
  }

  /** `dash` looks at letters only up to case: texts equal once lowercased dash alike. */
  lemma DashIgnoresCase(a: string, b: string)
    requires ToLower(a) == ToLower(b)
    ensures Dash(Some(a)) == Dash(Some(b))
  {
    if a != [] {
      CollapseLower(a);
      CollapseLower(b);
      ReplaceLower(CollapseWhitespace(a));
      ReplaceLower(CollapseWhitespace(b));
    }
  }
}
