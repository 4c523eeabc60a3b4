/**
 `slugify`: the URL-safe form of an application name. The input is lower-cased,
 every run of characters outside the word characters (and every `_`) becomes a
 single `-`, and `-` is trimmed from both ends. This is the regular-expression
 substitution `[\W_]+` -> `-` followed by `strip('-')`, written as a left-to-right
 scan.
 */
module Slug {
  import opened Text

  /** The letters and digits of `s`, in order. */
  function AlnumOf(s: string): (r: string)
    ensures |r| <= |s|
  {
    if |s| == 0 then ""
    else (if IsAlnum(s[0]) then [s[0]] else "") + AlnumOf(s[1..])
  }

  lemma {:induction false} AlnumOfAppend(a: string, b: string)
    ensures AlnumOf(a + b) == AlnumOf(a) + AlnumOf(b)
  {
    if |a| == 0 {
      assert a + b == b;
    } else {
      var ab := a + b;
      var head: string := if IsAlnum(a[0]) then [a[0]] else "";
      assert ab[0] == a[0];
      assert ab[1..] == a[1..] + b;
      assert AlnumOf(ab) == head + AlnumOf(a[1..] + b);
      AlnumOfAppend(a[1..], b);
      assert AlnumOf(a) == head + AlnumOf(a[1..]);
      assert head + (AlnumOf(a[1..]) + AlnumOf(b)) == (head + AlnumOf(a[1..])) + AlnumOf(b);
    }
  }

  /** A string of separators only has no letters or digits. */
  lemma {:induction false} AlnumOfSeparators(s: string)
    requires forall i :: 0 <= i < |s| ==> !IsAlnum(s[i])
    ensures AlnumOf(s) == ""
  {
    if |s| > 0 {
      AlnumOfSeparators(s[1..]);
    }
  }

  /** Lower-casing keeps exactly the letter/digit positions. */
  lemma {:induction false} AlnumOfLowerEmpty(s: string)
    ensures AlnumOf(Lower(s)) == "" <==> AlnumOf(s) == ""
  {
    if |s| > 0 {
      assert Lower(s)[1..] == Lower(s[1..]);
      AlnumOfLowerEmpty(s[1..]);
    }
  }

  /** No two adjacent `-`. */
  predicate NoDoubleDash(s: string) {
    forall i :: 0 <= i < |s| - 1 ==> !(s[i] == '-' && s[i + 1] == '-')
  }

  lemma {:induction false} NoDoubleDashNoSubstring(s: string)
    requires NoDoubleDash(s)
    ensures !Contains(s, "--")
    decreases |s|
  {
    if |s| > 0 {
      assert !StartsWith(s, "--") by {
        if |s| >= 2 {
          assert !(s[0] == '-' && s[1] == '-');
          assert s[..2] == [s[0], s[1]];
        }
      }
      NoDoubleDashNoSubstring(s[1..]);
    }
  }

  /** The length of the leading run of separator characters. */
  function SeparatorRun(s: string): (k: nat)
    ensures k <= |s|
    ensures k < |s| ==> IsAlnum(s[k])
    ensures forall i :: 0 <= i < k ==> !IsAlnum(s[i])
  {
    if |s| > 0 && !IsAlnum(s[0]) then 1 + SeparatorRun(s[1..]) else 0
  }

  /** Drops the leading run of separator characters. */
  function SkipSeparators(s: string): (r: string)
    ensures |r| > 0 ==> IsAlnum(r[0])
    ensures |r| <= |s|
  {
    s[SeparatorRun(s)..]
  }

  lemma AlnumOfSkipSeparators(s: string)
    ensures AlnumOf(SkipSeparators(s)) == AlnumOf(s)
  {
    var k := SeparatorRun(s);
    var r := SkipSeparators(s);
    assert s == s[..k] + r;
    AlnumOfAppend(s[..k], r);
    AlnumOfSeparators(s[..k]);
  }

  /**
   What `Collapse` guarantees: only dashes and letters or digits taken from
   the input, never two dashes in a row, a leading letter or digit kept in
   front, a leading dash only for a leading separator, and the same letters
   and digits in the same order.
   */
  predicate Collapsed(s: string, r: string) {
    && (forall i :: 0 <= i < |r| ==> r[i] == '-' || (IsAlnum(r[i]) && r[i] in s))
    && (|s| > 0 && IsAlnum(s[0]) ==> |r| > 0 && r[0] == s[0])
    && (|r| > 0 && r[0] == '-' ==> |s| > 0 && !IsAlnum(s[0]))
    && NoDoubleDash(r)
    && AlnumOf(r) == AlnumOf(s)
  }

  lemma CollapsedAlnumStep(s: string, rest: string)
    requires |s| > 0 && IsAlnum(s[0])
    requires Collapsed(s[1..], rest)
    ensures Collapsed(s, [s[0]] + rest)
  {
    var r := [s[0]] + rest;
    assert forall i :: 1 <= i < |r| ==> r[i] == rest[i - 1];
    assert forall c :: c in s[1..] ==> c in s;
    assert AlnumOf(s) == [s[0]] + AlnumOf(s[1..]);
    AlnumOfAppend([s[0]], rest);
  }

  /** A dash in front keeps no letter or digit and adds none. */
  lemma AlnumOfDash(rest: string)
    ensures AlnumOf("-" + rest) == AlnumOf(rest)
  {
    AlnumOfAppend("-", rest);
  }

  /** A dash in front of a string that does not start with one makes no double dash. */
  lemma NoDoubleDashCons(rest: string)
    requires NoDoubleDash(rest)
    requires |rest| > 0 ==> rest[0] != '-'
    ensures NoDoubleDash("-" + rest)
  {
    var r := "-" + rest;
    forall i | 0 <= i < |r| - 1
      ensures !(r[i] == '-' && r[i + 1] == '-')
    {
      if i > 0 {
        assert r[i] == rest[i - 1] && r[i + 1] == rest[i];
      }
    }
  }

  lemma CollapsedSeparatorStep(s: string, rest: string)
    requires |s| > 0 && !IsAlnum(s[0])
    requires Collapsed(SkipSeparators(s[1..]), rest)
    ensures Collapsed(s, "-" + rest)
  {
    var k := SeparatorRun(s[1..]);
    var tail := SkipSeparators(s[1..]);
    assert tail == s[k + 1..];
    var r := "-" + rest;
    forall i | 0 <= i < |r|
      ensures r[i] == '-' || (IsAlnum(r[i]) && r[i] in s)
    {
      if i > 0 && rest[i - 1] != '-' {
        var j :| 0 <= j < |tail| && tail[j] == rest[i - 1];
        assert s[k + 1 + j] == r[i];
      }
    }
    NoDoubleDashCons(rest);
    assert AlnumOf(s) == AlnumOf(s[1..]);
    AlnumOfSkipSeparators(s[1..]);
    AlnumOfDash(rest);
  }

  /** `re.sub(r'[\W_]+', '-', s)`: each maximal separator run becomes one `-`. */
  function Collapse(s: string): (r: string)
    decreases |s|
  {
    if |s| == 0 then ""
    else if IsAlnum(s[0]) then [s[0]] + Collapse(s[1..])
    else "-" + Collapse(SkipSeparators(s[1..]))
  }

  /** `Collapse` keeps the letters and digits in order and leaves single dashes where the separators were. */
  lemma {:induction false} CollapseIsCollapsed(s: string)
    ensures Collapsed(s, Collapse(s))
    decreases |s|
  {
    if |s| > 0 {
      if IsAlnum(s[0]) {
        CollapseIsCollapsed(s[1..]);
        CollapsedAlnumStep(s, Collapse(s[1..]));
      } else {
        CollapseIsCollapsed(SkipSeparators(s[1..]));
        CollapsedSeparatorStep(s, Collapse(SkipSeparators(s[1..])));
      }
    }
  }

  /** The number of leading `-`. */
  function LeadingDashes(s: string): (k: nat)
    ensures k <= |s|
    ensures k < |s| ==> s[k] != '-'
    ensures forall i :: 0 <= i < k ==> s[i] == '-'
  {
    if |s| > 0 && s[0] == '-' then 1 + LeadingDashes(s[1..]) else 0
  }

  /** The number of trailing `-`. */
  function TrailingDashes(s: string): (k: nat)
    ensures k <= |s|
    ensures k < |s| ==> s[|s| - 1 - k] != '-'
    ensures forall i :: |s| - k <= i < |s| ==> s[i] == '-'
  {
    if |s| > 0 && s[|s| - 1] == '-' then 1 + TrailingDashes(s[..|s| - 1]) else 0
  }

  /** Where `s.strip('-')` starts and ends. */
  function TrimBounds(s: string): (b: (nat, nat))
    ensures b.0 <= b.1 <= |s|
    ensures forall i :: 0 <= i < b.0 ==> s[i] == '-'
    ensures forall i :: b.1 <= i < |s| ==> s[i] == '-'
    ensures b.0 < b.1 ==> s[b.0] != '-' && s[b.1 - 1] != '-'
  {
    var a := LeadingDashes(s);
    var k := TrailingDashes(s[a..]);
    (a, |s| - k)
  }

  /** `s.strip('-')`. */
  function TrimDashes(s: string): (r: string)
    ensures |r| > 0 ==> r[0] != '-' && r[|r| - 1] != '-'
  {
    var b := TrimBounds(s);
    s[b.0..b.1]
  }

  /** The shape every slug has: lower-case letters, digits and single inner dashes. */
  predicate IsSlug(s: string) {
    && (forall i :: 0 <= i < |s| ==> IsLowerLetter(s[i]) || IsDigit(s[i]) || s[i] == '-')
    && NoDoubleDash(s)
    && (|s| > 0 ==> s[0] != '-' && s[|s| - 1] != '-')
  }

  // ---------------------------------------------------------------------------
  // An independent description of the slug: the words of the name joined by
  // single dashes.
  // ---------------------------------------------------------------------------

  /** The length of the leading run of letters and digits. */
  function AlnumRun(s: string): (k: nat)
    ensures k <= |s|
    ensures k < |s| ==> !IsAlnum(s[k])
    ensures forall i :: 0 <= i < k ==> IsAlnum(s[i])
  {
    if |s| > 0 && IsAlnum(s[0]) then 1 + AlnumRun(s[1..]) else 0
  }

  /**
   The words of `s`: its maximal runs of letters and digits, in order, i.e.
   `re.split(r'[\W_]+', s)` without the empty pieces.
   */
  function Words(s: string): (ws: seq<string>)
    ensures forall j :: 0 <= j < |ws| ==> |ws[j]| > 0
    decreases |s|
  {
    if |s| == 0 then []
    else if !IsAlnum(s[0]) then Words(s[1..])
    else
      var k := AlnumRun(s);
      [s[..k]] + Words(s[k..])
  }

  /** `"-".join(ws)`. */
  function JoinDash(ws: seq<string>): string {
    if |ws| == 0 then "" else if |ws| == 1 then ws[0] else ws[0] + "-" + JoinDash(ws[1..])
  }

  /** `strip('-')` of dashes, a middle part with no dash at either end, and dashes is that middle part. */
  lemma {:induction false} TrimDashesUnique(s: string, d1: string, m: string, d2: string)
    requires s == d1 + m + d2
    requires forall i :: 0 <= i < |d1| ==> d1[i] == '-'
    requires forall i :: 0 <= i < |d2| ==> d2[i] == '-'
    requires |m| > 0 ==> m[0] != '-' && m[|m| - 1] != '-'
    ensures TrimDashes(s) == m
  {
    var b := TrimBounds(s);
    var e := |d1| + |m|;
    assert forall i :: 0 <= i < |d1| ==> s[i] == d1[i];
    assert forall i :: e <= i < |s| ==> s[i] == d2[i - e];
    if |m| > 0 {
      assert s[|d1|] == m[0] && s[e - 1] == m[|m| - 1];
      assert b.0 <= |d1|;
      assert b.0 < b.1;
      assert b.0 == |d1|;
      assert b.1 == e;
      assert s[b.0..b.1] == m;
    }
  }

  /** A dash in front is trimmed away. */
  lemma TrimDashesDashCons(x: string)
    ensures TrimDashes("-" + x) == TrimDashes(x)
  {
    var d1, d2 := TrimSplit(x);
    var m := TrimDashes(x);
    Assoc("-", d1 + m, d2);
    Assoc("-", d1, m);
    DashCons(d1);
    TrimDashesUnique("-" + x, "-" + d1, m, d2);
  }

  /** Every text is its leading dashes, its trimmed form and its trailing dashes. */
  lemma TrimSplit(x: string) returns (d1: string, d2: string)
    ensures x == d1 + TrimDashes(x) + d2
    ensures forall i :: 0 <= i < |d1| ==> d1[i] == '-'
    ensures forall i :: 0 <= i < |d2| ==> d2[i] == '-'
  {
    var b := TrimBounds(x);
    d1, d2 := x[..b.0], x[b.1..];
    assert x == d1 + x[b.0..b.1] + d2;
    assert forall i :: 0 <= i < |d2| ==> d2[i] == x[b.1 + i];
  }

  lemma DashCons(d: string)
    requires forall i :: 0 <= i < |d| ==> d[i] == '-'
    ensures forall i :: 0 <= i < |"-" + d| ==> ("-" + d)[i] == '-'
  {
  }

  lemma CollapseAlnumCons(s: string)
    requires |s| > 0 && IsAlnum(s[0])
    ensures Collapse(s) == [s[0]] + Collapse(s[1..])
  {
  }

  lemma CollapseSeparatorCons(s: string)
    requires |s| > 0 && !IsAlnum(s[0])
    ensures Collapse(s) == "-" + Collapse(SkipSeparators(s[1..]))
  {
  }

  /** A leading run of letters and digits passes through `Collapse` unchanged. */
  lemma {:induction false} CollapseAlnumRun(s: string, k: nat)
    requires k <= AlnumRun(s)
    ensures Collapse(s) == s[..k] + Collapse(s[k..])
    decreases k
  {
    if k == 0 {
      assert s[..0] == "" && s[0..] == s;
    } else {
      var t := s[1..];
      CollapseAlnumCons(s);
      assert AlnumRun(t) == AlnumRun(s) - 1;
      CollapseAlnumRun(t, k - 1);
      SliceAfterFirst(s, k);
      Assoc([s[0]], s[1..k], Collapse(s[k..]));
    }
  }

  lemma SliceAfterFirst(s: string, k: nat)
    requires 0 < k <= |s|
    ensures s[1..][..k - 1] == s[1..k] && s[1..][k - 1..] == s[k..] && [s[0]] + s[1..k] == s[..k]
  {
  }

  lemma Assoc(a: string, b: string, c: string)
    ensures a + (b + c) == (a + b) + c
  {
  }

  /** Leading separators hold no word. */
  lemma {:induction false} WordsSkipSeparators(t: string)
    ensures Words(SkipSeparators(t)) == Words(t)
    decreases |t|
  {
    if |t| > 0 && !IsAlnum(t[0]) {
      assert SkipSeparators(t) == SkipSeparators(t[1..]);
      WordsSkipSeparators(t[1..]);
    } else {
      assert SkipSeparators(t) == t;
    }
  }

  /** A word trims to itself. */
  lemma TrimWord(w: string)
    requires |w| > 0 && forall i :: 0 <= i < |w| ==> IsAlnum(w[i])
    ensures TrimDashes(w) == w
  {
    assert w == "" + w + "";
    TrimDashesUnique(w, "", w, "");
  }

  /** A word followed by a dash trims to the word. */
  lemma TrimWordDashEnd(w: string)
    requires |w| > 0 && forall i :: 0 <= i < |w| ==> IsAlnum(w[i])
    ensures TrimDashes(w + "-") == w
  {
    assert w + "-" == "" + w + "-";
    TrimDashesUnique(w + "-", "", w, "-");
  }

  /** A word, a dash and a text that does not start with one: only the text's end is trimmed. */
  lemma {:induction false} TrimWordDash(w: string, c: string)
    requires |w| > 0 && forall i :: 0 <= i < |w| ==> IsAlnum(w[i])
    requires |c| > 0 && c[0] != '-' 
    requires TrimDashes(c) != ""
    ensures TrimDashes(w + "-" + c) == w + "-" + TrimDashes(c)
  {
    var b := TrimBounds(c);
    assert b.0 == 0;
    var m := c[..b.1];
    var d2 := c[b.1..];
    assert c == m + d2;
    assert forall i :: 0 <= i < |d2| ==> d2[i] == '-';
    var wm := w + "-" + m;
    assert w + "-" + c == "" + wm + d2;
    assert wm[0] == w[0] && wm[|wm| - 1] == m[|m| - 1];
    TrimDashesUnique(w + "-" + c, "", wm, d2);
  }

  /** The text left after the first word of `s` and the separators behind it. */
  function AfterFirstWord(s: string): (u: string)
    requires |s| > 0 && IsAlnum(s[0])
    ensures |u| < |s|
    ensures |u| > 0 ==> IsAlnum(u[0])
  {
    var k := AlnumRun(s);
    if k == |s| then "" else SkipSeparators(s[k + 1..])
  }

  /** The induction step for a leading separator. */
  lemma TrimCollapseSeparator(s: string)
    requires |s| > 0 && !IsAlnum(s[0])
    requires TrimDashes(Collapse(SkipSeparators(s[1..]))) == JoinDash(Words(SkipSeparators(s[1..])))
    ensures TrimDashes(Collapse(s)) == JoinDash(Words(s))
  {
    var u := SkipSeparators(s[1..]);
    CollapseSeparatorCons(s);
    WordsSkipSeparators(s[1..]);
    TrimDashesDashCons(Collapse(u));
  }

  /** The words of `s` are its first word and the words after it. */
  lemma WordsFirstWord(s: string)
    requires |s| > 0 && IsAlnum(s[0])
    ensures Words(s) == [s[..AlnumRun(s)]] + Words(AfterFirstWord(s))
  {
    var k := AlnumRun(s);
    if k < |s| {
      var t := s[k..];
      assert t[1..] == s[k + 1..];
      WordsSkipSeparators(t[1..]);
    } else {
      assert s[k..] == "";
    }
  }

  /** `Collapse` keeps the first word and turns the separators behind it into one dash. */
  lemma CollapseFirstWord(s: string)
    requires |s| > 0 && IsAlnum(s[0])
    ensures var k := AlnumRun(s);
      Collapse(s) == s[..k] + (if k == |s| then "" else "-" + Collapse(AfterFirstWord(s)))
  {
    var k := AlnumRun(s);
    CollapseAlnumRun(s, k);
    if k < |s| {
      var t := s[k..];
      assert t[1..] == s[k + 1..];
      CollapseSeparatorCons(t);
    } else {
      assert s[k..] == "";
    }
  }

  /** The induction step for a leading word. */
  lemma TrimCollapseWord(s: string)
    requires |s| > 0 && IsAlnum(s[0])
    requires TrimDashes(Collapse(AfterFirstWord(s))) == JoinDash(Words(AfterFirstWord(s)))
    ensures TrimDashes(Collapse(s)) == JoinDash(Words(s))
  {
    var k := AlnumRun(s);
    var w := s[..k];
    var u := AfterFirstWord(s);
    WordsFirstWord(s);
    CollapseFirstWord(s);
    if k == |s| {
      assert w == s;
      WordOnly(w, Collapse(s), Words(s));
    } else if Words(u) == [] {
      WordDashEnd(w, u, Collapse(s), Words(s));
    } else {
      WordBeforeWords(w, u, Collapse(s), Words(s));
    }
  }

  /** A text that is a single word. */
  lemma WordOnly(w: string, cs: string, ws: seq<string>)
    requires |w| > 0 && forall i :: 0 <= i < |w| ==> IsAlnum(w[i])
    requires cs == w + "" && ws == [w] + Words("")
    ensures TrimDashes(cs) == JoinDash(ws)
  {
    assert cs == w && ws == [w];
    TrimWord(w);
  }

  /** A word followed by separators only. */
  lemma WordDashEnd(w: string, u: string, cs: string, ws: seq<string>)
    requires |w| > 0 && forall i :: 0 <= i < |w| ==> IsAlnum(w[i])
    requires |u| > 0 ==> IsAlnum(u[0])
    requires Words(u) == []
    requires cs == w + ("-" + Collapse(u)) && ws == [w] + Words(u)
    ensures TrimDashes(cs) == JoinDash(ws)
  {
    assert u == "";
    assert cs == w + "-" && ws == [w];
    TrimWordDashEnd(w);
  }

  /** A word followed by separators and more words. */
  lemma WordBeforeWords(w: string, u: string, cs: string, ws: seq<string>)
    requires |w| > 0 && forall i :: 0 <= i < |w| ==> IsAlnum(w[i])
    requires |u| > 0 ==> IsAlnum(u[0])
    requires Words(u) != []
    requires TrimDashes(Collapse(u)) == JoinDash(Words(u))
    requires cs == w + ("-" + Collapse(u)) && ws == [w] + Words(u)
    ensures TrimDashes(cs) == JoinDash(ws)
  {
    assert |u| > 0;
    var c := Collapse(u);
    CollapseAlnumCons(u);
    Assoc(w, "-", c);
    JoinAfterWord(w, c, Words(u));
  }

  /** A word, a dash and a text whose trimmed form joins `ws`: the trimmed whole joins the word and `ws`. */
  lemma JoinAfterWord(w: string, c: string, ws: seq<string>)
    requires |w| > 0 && forall i :: 0 <= i < |w| ==> IsAlnum(w[i])
    requires |c| > 0 && c[0] != '-'
    requires |ws| > 0 && |ws[0]| > 0
    requires TrimDashes(c) == JoinDash(ws)
    ensures TrimDashes(w + "-" + c) == JoinDash([w] + ws)
  {
    assert ([w] + ws)[1..] == ws;
    TrimWordDash(w, c);
  }

  /** Trimming the collapsed text gives its words joined by single dashes. */
  lemma {:induction false} TrimCollapseWords(s: string)
    ensures TrimDashes(Collapse(s)) == JoinDash(Words(s))
    decreases |s|
  {
    if |s| == 0 {
      TrimDashesUnique("", "", "", "");
    } else if !IsAlnum(s[0]) {
      TrimCollapseWords(SkipSeparators(s[1..]));
      TrimCollapseSeparator(s);
    } else {
      TrimCollapseWords(AfterFirstWord(s));
      TrimCollapseWord(s);
    }
  }

  function Slugify(text: string): (r: string)
    ensures r == JoinDash(Words(Lower(text)))
    ensures IsSlug(r)
    ensures !Contains(r, "--")
    ensures forall i :: 0 <= i < |r| ==> !IsUpper(r[i]) && r[i] != '_'
    ensures AlnumOf(r) == AlnumOf(Lower(text))
    ensures r == "" <==> AlnumOf(text) == ""
  {
    SlugShape(text);
    TrimCollapseWords(Lower(text));
    TrimDashes(Collapse(Lower(text)))
  }

  /** The trimmed, collapsed, lower-cased text has the shape of a slug and keeps the letters and digits. */
  lemma SlugShape(text: string)
    ensures var r := TrimDashes(Collapse(Lower(text)));
      && IsSlug(r)
      && !Contains(r, "--")
      && (forall i :: 0 <= i < |r| ==> !IsUpper(r[i]) && r[i] != '_')
      && AlnumOf(r) == AlnumOf(Lower(text))
      && (r == "" <==> AlnumOf(text) == "")
  {
    var lowered := Lower(text);
    var collapsed := Collapse(lowered);
    CollapseIsCollapsed(lowered);
    var r := TrimDashes(collapsed);
    SlugOfCollapsed(collapsed, r);
    NoDoubleDashNoSubstring(r);
    AlnumOfLowerEmpty(text);
  }

  /** What trimming a collapsed, lower-cased string leaves behind. */
  lemma SlugOfCollapsed(c: string, r: string)
    requires forall i :: 0 <= i < |c| ==> c[i] == '-' || (IsAlnum(c[i]) && !IsUpper(c[i]))
    requires NoDoubleDash(c)
    requires r == TrimDashes(c)
    ensures IsSlug(r)
    ensures AlnumOf(r) == AlnumOf(c)
    ensures r == "" <==> AlnumOf(c) == ""
  {
    var b := TrimBounds(c);
    assert r == c[b.0..b.1];
    forall i | 0 <= i < |r|
      ensures r[i] == '-' || (IsAlnum(r[i]) && !IsUpper(r[i]))
    {
      assert r[i] == c[b.0 + i];
    }
    SliceNoDoubleDash(c, b.0, b.1);
    TrimKeepsAlnum(c);
    if r != "" {
      AlnumNonEmpty(r);
    }
  }

  lemma SliceNoDoubleDash(c: string, a: nat, b: nat)
    requires a <= b <= |c|
    requires NoDoubleDash(c)
    ensures NoDoubleDash(c[a..b])
  {
    var r := c[a..b];
    forall i | 0 <= i < |r| - 1
      ensures !(r[i] == '-' && r[i + 1] == '-')
    {
      assert r[i] == c[a + i] && r[i + 1] == c[a + i + 1];
    }
  }

  /** Cutting off separators at both ends keeps every letter and digit. */
  lemma AlnumOfSlice(c: string, a: nat, b: nat)
    requires a <= b <= |c|
    requires forall i :: 0 <= i < a ==> !IsAlnum(c[i])
    requires forall i :: b <= i < |c| ==> !IsAlnum(c[i])
    ensures AlnumOf(c[a..b]) == AlnumOf(c)
  {
    var pre, r, post := c[..a], c[a..b], c[b..];
    SplitThree(c, a, b);
    forall i | 0 <= i < |post|
      ensures !IsAlnum(post[i])
    {
      assert post[i] == c[b + i];
    }
    AlnumOfBetweenSeparators(pre, r, post);
  }

  lemma SplitThree(c: string, a: nat, b: nat)
    requires a <= b <= |c|
    ensures c == c[..a] + c[a..b] + c[b..]
  {
  }

  lemma AlnumOfBetweenSeparators(pre: string, r: string, post: string)
    requires forall i :: 0 <= i < |pre| ==> !IsAlnum(pre[i])
    requires forall i :: 0 <= i < |post| ==> !IsAlnum(post[i])
    ensures AlnumOf(pre + r + post) == AlnumOf(r)
  {
    AlnumOfSeparators(pre);
    AlnumOfSeparators(post);
    AlnumOfAppend(pre + r, post);
    AlnumOfAppend(pre, r);
  }

  /** Trimming dashes removes no letter or digit. */
  lemma TrimKeepsAlnum(c: string)
    ensures AlnumOf(TrimDashes(c)) == AlnumOf(c)
  {
    var b := TrimBounds(c);
    AlnumOfSlice(c, b.0, b.1);
  }

  /** A non-empty string with no dash at its start holds a letter or digit. */
  lemma AlnumNonEmpty(r: string)
    requires |r| > 0 && r[0] != '-'
    requires forall i :: 0 <= i < |r| ==> r[i] == '-' || IsAlnum(r[i])
    ensures AlnumOf(r) != ""
  {
    assert r == [r[0]] + r[1..];
    AlnumOfAppend([r[0]], r[1..]);
  }

  /** A string whose every dash is followed by a letter or digit survives `Collapse` unchanged. */
  lemma {:induction false} CollapseFixed(s: string)
    requires forall i :: 0 <= i < |s| ==> s[i] == '-' || IsAlnum(s[i])
    requires forall i :: 0 <= i < |s| && s[i] == '-' ==> i + 1 < |s| && s[i + 1] != '-'
    ensures Collapse(s) == s
  {
    if |s| > 0 {
      CollapseFixed(s[1..]);
      if s[0] == '-' {
        assert SkipSeparators(s[1..]) == s[1..];
      }
    }
  }

  /** A string with no `-` at either end is its own `strip('-')`. */
  lemma TrimDashesFixed(s: string)
    requires |s| > 0 ==> s[0] != '-' && s[|s| - 1] != '-'
    ensures TrimDashes(s) == s
  {
    assert LeadingDashes(s) == 0;
    assert s[0..] == s;
    assert TrailingDashes(s) == 0;
  }

  /** Slugifying a slug gives it back. */
  lemma {:induction false} SlugifyIdempotent(text: string)
    ensures Slugify(Slugify(text)) == Slugify(text)
  {
    var s := Slugify(text);
    assert IsSlug(s);
    LowerFixed(s);
    assert forall i :: 0 <= i < |s| ==> s[i] == '-' || IsAlnum(s[i]);
    forall i | 0 <= i < |s| && s[i] == '-'
      ensures i + 1 < |s| && s[i + 1] != '-'
    {
      assert i != |s| - 1;
    }
    CollapseFixed(s);
    TrimDashesFixed(s);
  }

}
