/** `normalizaEnderecoComCidade` (api/calcular-entrega.js): trims the free-text
    address, collapses whitespace runs to one space, then either completes a
    mention of Porto Alegre with the state, keeps an explicit trailing city,
    or appends the default city. Each regular expression is an explicit
    predicate over the characters of the text. */
module Address {
  import opened Js

  const CityName: string := "Porto Alegre"
  const StateCountry: string := "RS, Brasil"
  /** "Porto Alegre - RS, Brasil". */
  const DefaultAddress: string := CityName + " - " + StateCountry
  /** ", RS, Brasil". */
  const RsSuffix: string := ", " + StateCountry
  /** ", Porto Alegre - RS, Brasil". */
  const PoaSuffix: string := ", " + DefaultAddress

  // ---------------------------------------------------------------- whitespace

  predicate SpacesOnly(s: string)
  {
    forall m :: 0 <= m < |s| ==> IsSpace(s[m])
  }

  /** No whitespace at either end. */
  predicate NoEdgeSpace(s: string)
  {
    s == [] || (!IsSpace(s[0]) && !IsSpace(s[|s| - 1]))
  }

  /** Every whitespace character is a plain space and no two are adjacent. */
  predicate SingleSpaced(s: string)
  {
    (forall i :: 0 <= i < |s| && IsSpace(s[i]) ==> s[i] == ' ') &&
    (forall i, j :: 0 <= i < |s| && 0 <= j < |s| && j == i + 1 ==> !(IsSpace(s[i]) && IsSpace(s[j])))
  }

  /** The non-whitespace characters of `s`, in order. */
  function Squeeze(s: string): string
  {
    if s == [] then [] else (if IsSpace(s[0]) then [] else [s[0]]) + Squeeze(s[1..])
  }

  /** The end of the whitespace run that starts at `i`. */
  function SkipSpaces(s: string, i: nat): (n: nat)
    requires i <= |s|
    ensures i <= n <= |s|
    ensures forall m :: i <= m < n ==> IsSpace(s[m])
    ensures n < |s| ==> !IsSpace(s[n])
    decreases |s| - i
  {
    if i < |s| && IsSpace(s[i]) then SkipSpaces(s, i + 1) else i
  }

  /** The start of the whitespace run that ends at `j`, not going below `lo`. */
  function BackSpaces(s: string, lo: nat, j: nat): (n: nat)
    requires lo <= j <= |s|
    ensures lo <= n <= j
    ensures forall m :: n <= m < j ==> IsSpace(s[m])
    ensures lo < n ==> !IsSpace(s[n - 1])
    decreases j
  {
    if lo < j && IsSpace(s[j - 1]) then BackSpaces(s, lo, j - 1) else j
  }

  /** `String.prototype.trim`: the text between the leading and the trailing
      whitespace runs, which has no whitespace at its ends and is empty exactly
      when the text is all whitespace. */
  function Trim(s: string): (r: string)
    ensures exists a, b ::
              0 <= a <= b <= |s| && r == s[a..b] && SpacesOnly(s[..a]) && SpacesOnly(s[b..])
    ensures NoEdgeSpace(r)
    ensures r == [] <==> SpacesOnly(s)
  {
    var a := SkipSpaces(s, 0);
    var b := BackSpaces(s, a, |s|);
    var r := s[a..b];
    assert SpacesOnly(s[..a]) && SpacesOnly(s[b..]);
    assert a < b ==> r[0] == s[a] && r[b - a - 1] == s[b - 1];
    r
  }

  /** `s.replace(/\s+/g, " ")`: each maximal whitespace run becomes one space,
      so the text never grows, and only the empty text collapses to nothing. */
  function Collapse(s: string): (r: string)
    ensures |r| <= |s|
    ensures r == [] <==> s == []
    decreases |s|
  {
    if s == [] then []
    else if IsSpace(s[0]) then " " + Collapse(s[SkipSpaces(s, 1)..])
    else [s[0]] + Collapse(s[1..])
  }

  // ------------------------------------------------- the regular expressions

  /** `/porto\s*alegre/i`: "porto", any whitespace, then "alegre", in any case. */
  predicate MentionsPortoAlegre(t: string)
    ensures MentionsPortoAlegre(t) ==> |t| >= 11
  {
    exists i, j :: 0 <= i && i + 5 <= j <= |t| &&
      CiMatchAt(t, i, "porto") && SpacesOnly(t[i + 5..j]) && CiMatchAt(t, j, "alegre")
  }

  /** `/(RS|Rio Grande do Sul)/i`: either text, in any case, anywhere. */
  predicate MentionsRs(t: string)
    ensures MentionsRs(t) ==> |t| >= 2
  {
    CiContains(t, "rs") || CiContains(t, "rio grande do sul")
  }

  /** The class `[A-Za-zÀ-ÿ'.\-\s]` under the `i` flag; U+0178 enters because
      it is the upper case of U+00FF. */
  predicate IsCityChar(c: char)
    ensures IsSpace(c) ==> IsCityChar(c)
    ensures IsCityChar(c) ==> c != ','
  {
    ('A' <= c <= 'Z') || ('a' <= c <= 'z') || (0xC0 <= c as int <= 0xFF) ||
    c as int == 0x178 || c == '\'' || c == '.' || c == '-' || IsSpace(c)
  }

  /** Two or more class characters. */
  predicate CityRun(s: string)
  {
    |s| >= 2 && forall m :: 0 <= m < |s| ==> IsCityChar(s[m])
  }

  /** `(?:\s*,\s*Brasil)?\s*$` after the run: nothing but whitespace, or a comma,
      whitespace, "Brasil" in any case, and whitespace to the end. */
  predicate OptBrasil(u: string)
    ensures OptBrasil(u) && u != [] && !IsSpace(u[0]) ==> u[0] == ',' && |u| >= 7
  {
    SpacesOnly(u) ||
    (u != [] && u[0] == ',' &&
     exists a :: 1 <= a && a + 6 <= |u| &&
       SpacesOnly(u[1..a]) && CiMatchAt(u, a, "brasil") && SpacesOnly(u[a + 6..]))
  }

  /** `TEM_CIDADE`: `/,\s*([A-Za-zÀ-ÿ'.\-\s]{2,})(?:\s*-\s*[A-Za-z]{2})?(?:\s*,\s*Brasil)?\s*$/i`.
      The leading `\s*`, the optional "- XX" state group and the whitespace
      before the second comma consist of class characters only, so they lie
      inside the run `t[i+1..j]`. */
  predicate TemCidade(t: string)
    ensures TemCidade(t) ==> |t| >= 3 && exists i :: 0 <= i < |t| && t[i] == ','
  {
    exists i, j :: 0 <= i < j <= |t| && t[i] == ',' && CityRun(t[i + 1..j]) && OptBrasil(t[j..])
  }

  // ----------------------------------------------------------- the function

  /** The three branches taken on the collapsed, non-empty text `t`: a
      mention of Porto Alegre is kept when it also names the state and
      otherwise gets the state; without Porto Alegre, an explicit trailing city
      is kept and anything else gets the default city. */
  function Complete(t: string): (r: string)
    ensures MentionsPortoAlegre(t) && MentionsRs(t) ==> r == t
    ensures MentionsPortoAlegre(t) && !MentionsRs(t) ==> r == t + RsSuffix
    ensures !MentionsPortoAlegre(t) && TemCidade(t) ==> r == t
    ensures !MentionsPortoAlegre(t) && !TemCidade(t) ==> r == t + PoaSuffix
  {
    if MentionsPortoAlegre(t) then
      if MentionsRs(t) then t else t + RsSuffix
    else if TemCidade(t) then t
    else t + PoaSuffix
  }

  /** `normalizaEnderecoComCidade`: blank input gives the default address;
      any other input keeps its trimmed, collapsed text as a prefix. */
  function NormalizaEnderecoComCidade(text: string): (r: string)
    ensures r != []
    ensures SpacesOnly(text) ==> r == DefaultAddress
    ensures !SpacesOnly(text) ==> Collapse(Trim(text)) <= r
  {
    var raw := Trim(text);
    if raw == [] then DefaultAddress else
      var t := Collapse(raw);
      assert t <= t + RsSuffix && t <= t + PoaSuffix;
      Complete(t)
  }

  // ------------------------------------------------------------------ lemmas

  lemma TrimFixed(s: string)
    requires NoEdgeSpace(s)
    ensures Trim(s) == s
  {
  }

  /** Dropping the first character of a single-spaced text keeps it single-spaced. */
  lemma SingleSpacedTail(s: string)
    requires s != [] && SingleSpaced(s)
    ensures SingleSpaced(s[1..])
  {
    var w := s[1..];
    assert forall i :: 0 <= i < |w| ==> w[i] == s[i + 1];
  }
  /** Two single-spaced texts stay single-spaced when joined, unless the
      join puts two whitespace characters side by side. */
  lemma SingleSpacedConcat(a: string, b: string)
    requires SingleSpaced(a) && SingleSpaced(b)
    requires a == [] || b == [] || !IsSpace(a[|a| - 1]) || !IsSpace(b[0])
    ensures SingleSpaced(a + b)
  {
    var u := a + b;
    assert forall i :: 0 <= i < |a| ==> u[i] == a[i];
    assert forall i :: |a| <= i < |u| ==> u[i] == b[i - |a|];
  }
  /** `r` is single-spaced and has whitespace at an end exactly when `s` has. */
  predicate ShapeOf(s: string, r: string)
  {
    SingleSpaced(r) &&
    (r != [] && s != [] ==> (IsSpace(r[0]) <==> IsSpace(s[0])) &&
                            (IsSpace(r[|r| - 1]) <==> IsSpace(s[|s| - 1])))
  }

  /** The collapsed text is single-spaced, and has whitespace at an end exactly
      when `s` has. */
  lemma {:induction false} CollapseShape(s: string)
    ensures ShapeOf(s, Collapse(s))
    decreases |s|
  {
    if s != [] {
      var c, t := s[0], s[1..];
      assert s == [c] + t;
      CollapseShape(t);
      CollapseShapeStep(c, t);
    }
  }

  /** The step of `CollapseShape`: from the text after the first character to
      the whole text. */
  lemma CollapseShapeStep(c: char, t: string)
    requires ShapeOf(t, Collapse(t))
    ensures ShapeOf([c] + t, Collapse([c] + t))
  {
    var ct := Collapse(t);
    var s := [c] + t;
    assert s[0] == c;
    assert t != [] ==> s[|s| - 1] == t[|t| - 1];
    if !IsSpace(c) {
      CollapseConsWord(c, t);
      SingleSpacedConcat([c], ct);
      ConsEnds([c], ct);
    } else if t != [] && IsSpace(t[0]) {
      CollapseConsDrop(c, t);
    } else {
      CollapseConsSpace(c, t);
      SingleSpacedConcat(" ", ct);
      ConsEnds(" ", ct);
    }
  }

  /** The ends of a join with a one-character head. */
  lemma ConsEnds(h: string, t: string)
    requires |h| == 1
    ensures (h + t)[0] == h[0]
    ensures (h + t)[|h + t| - 1] == if t == [] then h[0] else t[|t| - 1]
  {
  }

  /** Dropping leading whitespace keeps the other characters. */
  lemma {:induction false} SqueezeSkip(s: string, i: nat)
    requires i <= |s| && forall m :: 0 <= m < i ==> IsSpace(s[m])
    ensures Squeeze(s[i..]) == Squeeze(s)
    decreases i
  {
    if i > 0 {
      SqueezeSkip(s[1..], i - 1);
      assert s[1..][i - 1..] == s[i..];
    }
  }
  /** Collapsing keeps every non-whitespace character, in order. */
  lemma {:induction false} CollapseSqueeze(s: string)
    ensures Squeeze(Collapse(s)) == Squeeze(s)
    decreases |s|
  {
    if s != [] {
      if IsSpace(s[0]) {
        var rest := s[SkipSpaces(s, 1)..];
        CollapseSqueeze(rest);
        SqueezeSkip(s, SkipSpaces(s, 1));
        assert (" " + Collapse(rest))[1..] == Collapse(rest);
      } else {
        CollapseSqueeze(s[1..]);
        assert ([s[0]] + Collapse(s[1..]))[1..] == Collapse(s[1..]);
      }
    }
  }
  /** A whitespace run collapses to a single space. */
  lemma {:induction false} CollapseRun(w: string)
    requires w != [] && SpacesOnly(w)
    ensures Collapse(w) == " "
  {
    var n := SkipSpaces(w, 1);
    assert n == |w|;
    assert w[n..] == [];
  }

  /** Measured in the text without its first character, a whitespace run ends
      one position earlier. */
  lemma {:induction false} SkipSpacesShift(s: string, i: nat)
    requires 1 <= i <= |s|
    ensures SkipSpaces(s, i) == SkipSpaces(s[1..], i - 1) + 1
    decreases |s| - i
  {
    if i < |s| {
      assert s[1..][i - 1] == s[i];
      if IsSpace(s[i]) {
        SkipSpacesShift(s, i + 1);
      }
    }
  }

  /** A non-whitespace character is kept in front of the collapsed rest. */
  lemma CollapseConsWord(c: char, t: string)
    requires !IsSpace(c)
    ensures Collapse([c] + t) == [c] + Collapse(t)
  {
    assert ([c] + t)[1..] == t;
  }

  /** A whitespace character followed by more whitespace adds nothing. */
  lemma CollapseConsDrop(c: char, t: string)
    requires IsSpace(c) && t != [] && IsSpace(t[0])
    ensures Collapse([c] + t) == Collapse(t)
  {
    var s := [c] + t;
    assert s[1..] == t;
    var n := SkipSpaces(s, 1);
    SkipSpacesShift(s, 2);
    assert t[n - 1..] == s[n..];
  }

  /** A whitespace character followed by no whitespace becomes one space. */
  lemma CollapseConsSpace(c: char, t: string)
    requires IsSpace(c) && (t == [] || !IsSpace(t[0]))
    ensures Collapse([c] + t) == " " + Collapse(t)
  {
    var s := [c] + t;
    assert s[1..] == t;
    assert SkipSpaces(s, 1) == 1;
  }

  /** Collapsing distributes over a join that does not split a whitespace run. */
  lemma {:induction false} CollapseConcat(a: string, b: string)
    requires a == [] || b == [] || !IsSpace(a[|a| - 1]) || !IsSpace(b[0])
    ensures Collapse(a + b) == Collapse(a) + Collapse(b)
    decreases |a|
  {
    if a == [] {
      assert a + b == b;
    } else {
      var c, u := a[0], a[1..];
      assert a == [c] + u;
      assert a + b == [c] + (u + b);
      assert u != [] ==> u[|u| - 1] == a[|a| - 1];
      CollapseConcat(u, b);
      if !IsSpace(c) {
        CollapseConsWord(c, u + b);
        CollapseConsWord(c, u);
        JoinUnder([c], Collapse(a + b), Collapse(a), Collapse(u + b), Collapse(u), Collapse(b));
      } else if u != [] && IsSpace(u[0]) {
        assert (u + b)[0] == u[0];
        CollapseConsDrop(c, u + b);
        CollapseConsDrop(c, u);
      } else {
        assert u != [] ==> (u + b)[0] == u[0];
        assert u == [] ==> u + b == b;
        CollapseConsSpace(c, u + b);
        CollapseConsSpace(c, u);
        JoinUnder(" ", Collapse(a + b), Collapse(a), Collapse(u + b), Collapse(u), Collapse(b));
      }
    }
  }

  /** Joins under a common head. */
  lemma JoinUnder(h: string, ab: string, a: string, ub: string, u: string, b: string)
    requires ab == h + ub && a == h + u && ub == u + b
    ensures ab == a + b
  {
  }

  /** Between two words, a whitespace run of any length becomes exactly one
      space. */
  lemma CollapseBetweenWords(x: string, w: string, y: string)
    requires x != [] && !IsSpace(x[|x| - 1])
    requires w != [] && SpacesOnly(w)
    requires y != [] && !IsSpace(y[0])
    ensures Collapse(x + w + y) == Collapse(x) + " " + Collapse(y)
  {
    CollapseConcat(x, w);
    CollapseRun(w);
    assert (x + w)[|x + w| - 1] == w[|w| - 1];
    CollapseConcat(x + w, y);
  }

  /** Two spaces between words become one; they do not disappear. */
  lemma CollapseExample()
    ensures Collapse("a  b") == "a b"
  {
    assert "a  b" == "a" + "  " + "b";
    CollapseBetweenWords("a", "  ", "b");
    assert Collapse("a") == "a" && Collapse("b") == "b";
  }

  /** Collapsing a single-spaced text changes nothing. */
  lemma {:induction false} CollapseFixed(s: string)
    requires SingleSpaced(s)
    ensures Collapse(s) == s
    decreases |s|
  {
    if s != [] {
      var w := s[1..];
      SingleSpacedTail(s);
      CollapseFixed(w);
      if IsSpace(s[0]) {
        assert w != [] ==> !IsSpace(s[1]);
        assert SkipSpaces(s, 1) == 1;
      }
      assert s == [s[0]] + w;
    }
  }

  /** A join has no whitespace at its ends when its outer characters are not
      whitespace. */
  lemma NoEdgeSpaceConcat(a: string, b: string)
    requires a != [] && b != [] && !IsSpace(a[0]) && !IsSpace(b[|b| - 1])
    ensures NoEdgeSpace(a + b)
  {
    assert (a + b)[0] == a[0];
    assert (a + b)[|a + b| - 1] == b[|b| - 1];
  }

  lemma CiMatchAtPrefix(t: string, u: string, i: int, p: string)
    requires CiMatchAt(t, i, p)
    ensures CiMatchAt(t + u, i, p)
  {
    assert (t + u)[i..i + |p|] == t[i..i + |p|];
  }

  lemma CiMatchAtSuffix(t: string, u: string, i: int, p: string)
    requires CiMatchAt(u, i, p)
    ensures CiMatchAt(t + u, |t| + i, p)
  {
    assert (t + u)[|t| + i..|t| + i + |p|] == u[i..i + |p|];
  }

  /** A mention in `t` is still one in `t + u`. */
  lemma MentionsPrefix(t: string, u: string)
    ensures MentionsPortoAlegre(t) ==> MentionsPortoAlegre(t + u)
    ensures MentionsRs(t) ==> MentionsRs(t + u)
  {
    if MentionsPortoAlegre(t) {
      var i, j :| 0 <= i && i + 5 <= j <= |t| &&
        CiMatchAt(t, i, "porto") && SpacesOnly(t[i + 5..j]) && CiMatchAt(t, j, "alegre");
      CiMatchAtPrefix(t, u, i, "porto");
      CiMatchAtPrefix(t, u, j, "alegre");
      assert (t + u)[i + 5..j] == t[i + 5..j];
    }
    forall p | CiContains(t, p)
      ensures CiContains(t + u, p)
    {
      var i :| 0 <= i <= |t| && CiMatchAt(t, i, p);
      CiMatchAtPrefix(t, u, i, p);
    }
  }

  /** A mention in `u` is still one in `t + u`. */
  lemma MentionsSuffix(t: string, u: string)
    ensures MentionsPortoAlegre(u) ==> MentionsPortoAlegre(t + u)
    ensures MentionsRs(u) ==> MentionsRs(t + u)
  {
    if MentionsPortoAlegre(u) {
      var i, j :| 0 <= i && i + 5 <= j <= |u| &&
        CiMatchAt(u, i, "porto") && SpacesOnly(u[i + 5..j]) && CiMatchAt(u, j, "alegre");
      CiMatchAtSuffix(t, u, i, "porto");
      CiMatchAtSuffix(t, u, j, "alegre");
      assert (t + u)[|t| + i + 5..|t| + j] == u[i + 5..j];
    }
    forall p | CiContains(u, p)
      ensures CiContains(t + u, p)
    {
      var i :| 0 <= i <= |u| && CiMatchAt(u, i, p);
      CiMatchAtSuffix(t, u, i, p);
    }
  }

  /** "Porto Alegre" mentions the city and is in the output shape. */
  lemma CityNameFacts()
    ensures MentionsPortoAlegre(CityName)
    ensures NoEdgeSpace(CityName) && SingleSpaced(CityName)
  {
    var c := CityName;
    assert c[0..5] == [c[0], c[1], c[2], c[3], c[4]];
    assert c[6..12] == [c[6], c[7], c[8], c[9], c[10], c[11]];
    assert c[5..6] == [c[5]];
    assert CiMatchAt(c, 0, "porto") && SpacesOnly(c[5..6]) && CiMatchAt(c, 6, "alegre");
    assert forall i :: 0 <= i < |c| && IsSpace(c[i]) ==> i == 5;
  }

  /** "RS, Brasil" mentions the state and is in the output shape. */
  lemma StateCountryFacts()
    ensures MentionsRs(StateCountry)
    ensures NoEdgeSpace(StateCountry) && SingleSpaced(StateCountry)
  {
    var s := StateCountry;
    assert s[0..2] == [s[0], s[1]];
    assert CiMatchAt(s, 0, "rs");
    assert forall i :: 0 <= i < |s| && IsSpace(s[i]) ==> i == 3;
  }

  /** The separators are single-spaced. */
  lemma SeparatorFacts()
    ensures SingleSpaced(" - ") && SingleSpaced(", ")
    ensures ", "[0] == ','
  {
  }

  /** Appending ", RS, Brasil" makes the text mention the state. */
  lemma RsSuffixMentionsRs(t: string)
    ensures MentionsRs(t + RsSuffix)
  {
    StateCountryFacts();
    MentionsSuffix(", ", StateCountry);
    MentionsSuffix(t, RsSuffix);
  }

  /** The default address mentions Porto Alegre and the state. */
  lemma DefaultAddressMentions()
    ensures MentionsPortoAlegre(DefaultAddress) && MentionsRs(DefaultAddress)
  {
    CityNameFacts();
    StateCountryFacts();
    MentionsPrefix(CityName, " - ");
    MentionsPrefix(CityName + " - ", StateCountry);
    MentionsSuffix(CityName + " - ", StateCountry);
  }

  /** Appending ", Porto Alegre - RS, Brasil" makes the text mention both. */
  lemma PoaSuffixMentionsCityAndState(t: string)
    ensures MentionsPortoAlegre(t + PoaSuffix) && MentionsRs(t + PoaSuffix)
  {
    DefaultAddressMentions();
    MentionsSuffix(", ", DefaultAddress);
    MentionsSuffix(t, PoaSuffix);
  }

  /** The default address is already in the output shape. */
  lemma DefaultAddressSpacing()
    ensures NoEdgeSpace(DefaultAddress) && SingleSpaced(DefaultAddress)
  {
    CityNameFacts();
    StateCountryFacts();
    SeparatorFacts();
    SingleSpacedConcat(CityName, " - ");
    SingleSpacedConcat(CityName + " - ", StateCountry);
    NoEdgeSpaceConcat(CityName + " - ", StateCountry);
  }

  /** Both suffixes are single-spaced and have no whitespace at their ends. */
  lemma SuffixesShape()
    ensures NoEdgeSpace(RsSuffix) && SingleSpaced(RsSuffix)
    ensures NoEdgeSpace(PoaSuffix) && SingleSpaced(PoaSuffix)
  {
    StateCountryFacts();
    DefaultAddressSpacing();
    SeparatorFacts();
    SingleSpacedConcat(", ", StateCountry);
    SingleSpacedConcat(", ", DefaultAddress);
    NoEdgeSpaceConcat(", ", StateCountry);
    NoEdgeSpaceConcat(", ", DefaultAddress);
  }

  /** Whatever branch is taken on a text in output shape, the result is still
      in output shape. */
  lemma CompleteShape(t: string)
    requires t != [] && NoEdgeSpace(t) && SingleSpaced(t)
    ensures var r := Complete(t); r != [] && NoEdgeSpace(r) && SingleSpaced(r) && t <= r
  {
    SuffixesShape();
    SingleSpacedConcat(t, RsSuffix);
    SingleSpacedConcat(t, PoaSuffix);
  }

  /** The shape of every result: no whitespace at the ends and no whitespace
      other than single spaces. */
  lemma NormalizeShape(text: string)
    ensures var r := NormalizaEnderecoComCidade(text);
      NoEdgeSpace(r) && SingleSpaced(r)
  {
    var raw := Trim(text);
    if raw == [] {
      DefaultAddressSpacing();
    } else {
      CollapseShape(raw);
      CompleteShape(Collapse(raw));
    }
  }

  /** A text already in the output shape that either names Porto Alegre
      together with the state, or does not name Porto Alegre but ends in an
      explicit city, comes back unchanged. */
  lemma NormalizeKeeps(t: string)
    requires t != [] && NoEdgeSpace(t) && SingleSpaced(t)
    requires (MentionsPortoAlegre(t) && MentionsRs(t)) || (!MentionsPortoAlegre(t) && TemCidade(t))
    ensures NormalizaEnderecoComCidade(t) == t
  {
    TrimFixed(t);
    CollapseFixed(t);
  }

  /** Each branch's result is a fixed point of the branches. */
  lemma {:induction false} CompleteIdempotent(t: string)
    requires t != [] && NoEdgeSpace(t) && SingleSpaced(t)
    ensures NormalizaEnderecoComCidade(Complete(t)) == Complete(t)
  {
    var r := Complete(t);
    CompleteShape(t);
    if r == t + RsSuffix {
      RsSuffixMentionsRs(t);
      MentionsPrefix(t, RsSuffix);
    } else if r == t + PoaSuffix {
      PoaSuffixMentionsCityAndState(t);
    }
    NormalizeKeeps(r);
  }

  /** Normalising twice is normalising once. */
  lemma {:induction false} NormalizeIdempotent(text: string)
    ensures NormalizaEnderecoComCidade(NormalizaEnderecoComCidade(text)) == NormalizaEnderecoComCidade(text)
  {
    var raw := Trim(text);
    if raw == [] {
      DefaultAddressMentions();
      DefaultAddressSpacing();
      NormalizeKeeps(DefaultAddress);
    } else {
      CollapseShape(raw);
      CompleteIdempotent(Collapse(raw));
    }
  }

  /** Every result names a city: Porto Alegre, or an explicit trailing one. */
  lemma {:induction false} NormalizeNamesCity(text: string)
    ensures var r := NormalizaEnderecoComCidade(text);
      MentionsPortoAlegre(r) || TemCidade(r)
  {
    var raw := Trim(text);
    if raw == [] {
      DefaultAddressMentions();
    } else {
      var t := Collapse(raw);
      var r := Complete(t);
      if r == t + RsSuffix {
        MentionsPrefix(t, RsSuffix);
      } else if r == t + PoaSuffix {
        PoaSuffixMentionsCityAndState(t);
      }
    }
  }

  /** After a comma, "whitespace, Brasil, whitespace" is itself a city run. */
  lemma {:induction false} BrasilTailIsCityRun(u: string, a: int)
    requires u != [] && u[0] == ','
    requires 1 <= a && a + 6 <= |u|
    requires SpacesOnly(u[1..a]) && CiMatchAt(u, a, "brasil") && SpacesOnly(u[a + 6..])
    ensures CityRun(u[1..])
  {
    var w := u[1..];
    var b := u[a..a + 6];
    forall m | 0 <= m < |w|
      ensures IsCityChar(w[m])
    {
      assert w[m] == u[m + 1];
      if m + 1 < a {
        assert u[1..a][m] == u[m + 1];
      } else if m + 1 < a + 6 {
        assert b[m + 1 - a] == u[m + 1];
        assert CiEq(b[m + 1 - a], "brasil"[m + 1 - a]);
      } else {
        assert u[a + 6..][m + 1 - a - 6] == u[m + 1];
      }
    }
  }

  /** The optional ", Brasil" group adds nothing: `TEM_CIDADE` holds exactly
      when the text after some comma (necessarily the last one) is a run of
      two or more class characters. */
  lemma {:induction false} TemCidadeLastComma(t: string)
    ensures TemCidade(t) <==>
      exists i :: 0 <= i < |t| && t[i] == ',' && CityRun(t[i + 1..])
  {
    if TemCidade(t) {
      var i, j :| 0 <= i < j <= |t| && t[i] == ',' && CityRun(t[i + 1..j]) && OptBrasil(t[j..]);
      var u := t[j..];
      if SpacesOnly(u) {
        var w := t[i + 1..];
        forall m | 0 <= m < |w|
          ensures IsCityChar(w[m])
        {
          if m < j - (i + 1) {
            assert w[m] == t[i + 1..j][m];
          } else {
            assert w[m] == u[m - (j - (i + 1))];
          }
        }
        assert CityRun(w);
      } else {
        var a :| 1 <= a && a + 6 <= |u| &&
          SpacesOnly(u[1..a]) && CiMatchAt(u, a, "brasil") && SpacesOnly(u[a + 6..]);
        BrasilTailIsCityRun(u, a);
        assert u[1..] == t[j + 1..];
        assert t[j] == ',';
      }
    } else {
      forall i | 0 <= i < |t| && t[i] == ','
        ensures !CityRun(t[i + 1..])
      {
        assert t[i + 1..|t|] == t[i + 1..];
        assert SpacesOnly(t[|t|..]);
        assert OptBrasil(t[|t|..]);
      }
    }
  }

  /** A text with no character folding to 'p' cannot mention Porto Alegre. */
  lemma NoPNoPortoAlegre(t: string)
    requires forall i :: 0 <= i < |t| ==> AsciiFold(t[i]) != 'p'
    ensures !MentionsPortoAlegre(t)
  {
    forall i | 0 <= i && i + 5 <= |t|
      ensures !CiMatchAt(t, i, "porto")
    {
      assert t[i..i + 5][0] == t[i];
    }
  }

  /** A text in output shape with no comma that does not mention Porto Alegre
      gets the default city appended. */
  lemma NormalizeNoComma(t: string)
    requires t != [] && NoEdgeSpace(t) && SingleSpaced(t)
    requires !MentionsPortoAlegre(t)
    requires forall i :: 0 <= i < |t| ==> t[i] != ','
    ensures NormalizaEnderecoComCidade(t) == t + PoaSuffix
  {
    TrimFixed(t);
    CollapseFixed(t);
  }

  /** A bare city with no comma gets the default city appended. */
  lemma NormalizeBareCity()
    ensures NormalizaEnderecoComCidade("Canoas") == "Canoas" + PoaSuffix
  {
    var c := "Canoas";
    assert forall i :: 0 <= i < |c| ==> !IsSpace(c[i]) && c[i] != ',' && AsciiFold(c[i]) != 'p';
    NoPNoPortoAlegre(c);
    NormalizeNoComma(c);
  }

  /** A city after a comma is kept as written. */
  lemma NormalizeCityAfterComma()
    ensures NormalizaEnderecoComCidade("Centro, Canoas") == "Centro, Canoas"
  {
    var t := "Centro, Canoas";
    assert forall i :: 0 <= i < |t| ==> AsciiFold(t[i]) != 'p';
    NoPNoPortoAlegre(t);
    assert forall i :: 0 <= i < |t| ==> (IsSpace(t[i]) <==> i == 7);
    assert t[6] == ',' && CityRun(t[7..14]) && OptBrasil(t[14..]);
    NormalizeKeeps(t);
  }

  /** The state test is a plain substring search: the "rs" inside
      "Universidade" counts, so this address keeps its text and gets no state. */
  lemma NormalizeRsInsideWord()
    ensures NormalizaEnderecoComCidade("Av. Universidade, " + CityName) == "Av. Universidade, " + CityName
  {
    var a := "Av. Universidade, ";
    var t := a + CityName;
    assert a[9..11] == [a[9], a[10]];
    assert CiMatchAt(a, 9, "rs");
    MentionsPrefix(a, CityName);
    CityNameFacts();
    MentionsSuffix(a, CityName);
    assert forall i :: 0 <= i < |a| ==> (IsSpace(a[i]) <==> i == 3 || i == 17);
    SingleSpacedConcat(a, CityName);
    NoEdgeSpaceConcat(a, CityName);
    NormalizeKeeps(t);
  }
}
