/**
 Searching a text for a quoted name: bytes.Index, and an automaton over the stretches between
 consecutive quotes that decides whether the quoted name, or the quoted name followed by a
 separator and a quote, occurs.
 */
module Scan {
  import opened Common
  import opened Text

  // ------------------------------------------------------------------- searching

  predicate OccursAt(t: string, i: nat, m: string) { i + |m| <= |t| && t[i..i + |m|] == m }

  predicate Occurs(t: string, m: string) { exists i :: 0 <= i <= |t| && OccursAt(t, i, m) }

  /** bytes.Index: the first occurrence of a non-empty text. */
  function Index(t: string, m: string): (r: Option<nat>)
    requires m != ""
    ensures r.Some? ==> OccursAt(t, r.value, m) && forall j :: 0 <= j < r.value ==> !OccursAt(t, j, m)
    ensures r.None? ==> forall j :: 0 <= j <= |t| ==> !OccursAt(t, j, m)
  {
    if |m| > |t| then None
    else if OccursAt(t, 0, m) then Some(0)
    else
      OccursShift(t, m);
      match Index(t[1..], m)
      case None => None
      case Some(k) => Some(k + 1)
  }

  lemma {:induction false} OccursShift(t: string, m: string)
    requires t != ""
    ensures forall j :: 1 <= j <= |t| ==> (OccursAt(t, j, m) <==> OccursAt(t[1..], j - 1, m))
  {
    forall j | 1 <= j <= |t|
      ensures OccursAt(t, j, m) <==> OccursAt(t[1..], j - 1, m)
    {
      if j + |m| <= |t| {
        var a, b := t[j..j + |m|], t[1..][j - 1..j - 1 + |m|];
        assert forall k :: 0 <= k < |m| ==> a[k] == b[k];
        assert a == b;
      }
    }
  }

  lemma {:induction false} IndexIs(t: string, m: string, i: nat)
    requires m != "" && OccursAt(t, i, m) && forall j :: 0 <= j < i ==> !OccursAt(t, j, m)
    ensures Index(t, m) == Some(i)
  {
  }

  lemma {:induction false} SuffixSplit(t: string, e: string)
    requires t != "" && e != ""
    ensures HasSuffix(t, e) <==> t[|t| - 1] == e[|e| - 1] && HasSuffix(t[..|t| - 1], e[..|e| - 1])
  {
    var n, k := |t| - 1, |e| - 1;
    if |e| <= |t| {
      var s := t[|t| - |e|..];
      assert t[..n][n - k..] == s[..k];
      assert s == s[..k] + [t[n]] && e == e[..k] + [e[k]];
    }
  }

  lemma {:induction false} OccursAtPush(t: string, c: char, m: string, i: nat)
    ensures i + |m| <= |t| ==> (OccursAt(t + [c], i, m) <==> OccursAt(t, i, m))
  {
    if i + |m| <= |t| {
      assert (t + [c])[i..i + |m|] == t[i..i + |m|];
    }
  }

  lemma {:induction false} OccursPush(t: string, c: char, m: string)
    requires m != ""
    ensures Occurs(t + [c], m) <==> Occurs(t, m) || HasSuffix(t + [c], m)
  {
    var u := t + [c];
    if i :| 0 <= i <= |u| && OccursAt(u, i, m) {
      OccursAtPush(t, c, m, i);
      if i + |m| > |t| {
        assert u[|u| - |m|..] == u[i..i + |m|];
      }
    }
    if i :| 0 <= i <= |t| && OccursAt(t, i, m) {
      OccursAtPush(t, c, m, i);
    }
    if HasSuffix(u, m) {
      assert OccursAt(u, |u| - |m|, m);
    }
  }

  // ------------------------------------------------------------------- the automaton

  function Quoted(s: string): string { "\"" + s + "\"" }

  /** gap: text since the last quote; prev: text between the last two quotes. */
  datatype State = State(marked: bool, prefixed: bool, prev: Option<string>, gap: Option<string>)

  const Start := State(false, false, None, None)

  /** marked: the quoted name occurred; prefixed: so did the name, the separator and a quote. */
  function Next(name: string, sep: string, s: State, c: char): State {
    if c == '"' then
      State(s.marked || s.gap == Some(name), s.prefixed || (s.prev == Some(name) && s.gap == Some(sep)), s.gap, Some(""))
    else
      s.(gap := match s.gap case None => None case Some(g) => Some(g + [c]))
  }

  function Scanned(name: string, sep: string, t: string): State {
    if t == "" then Start else Next(name, sep, Scanned(name, sep, t[..|t| - 1]), t[|t| - 1])
  }

  lemma {:induction false} GapIsPlain(name: string, sep: string, t: string)
    ensures var s := Scanned(name, sep, t); (s.gap.Some? ==> '"' !in s.gap.value) && (s.prev.Some? ==> '"' !in s.prev.value)
  {
    if t != "" {
      GapIsPlain(name, sep, t[..|t| - 1]);
    }
  }

  /** gap is the quote-free text after the last quote. */
  lemma {:induction false} GapMeans(name: string, sep: string, t: string, g: string)
    requires '"' !in g
    ensures Scanned(name, sep, t).gap == Some(g) <==> HasSuffix(t, "\"" + g)
  {
    if t != "" {
      var n := |t| - 1;
      SuffixSplit(t, "\"" + g);
      if g == "" {
        assert "\"" + g == "\"";
        assert HasSuffix(t[..n], "");
      } else {
        var k := |g| - 1;
        GapMeans(name, sep, t[..n], g[..k]);
        assert ("\"" + g)[..|g|] == "\"" + g[..k];
        assert g == g[..k] + [g[k]];
      }
    }
  }

  /** prev is the quote-free text before that quote. */
  lemma {:induction false} PrevMeans(name: string, sep: string, t: string, p: string, g: string)
    requires '"' !in g && '"' !in p
    ensures Scanned(name, sep, t).prev == Some(p) && Scanned(name, sep, t).gap == Some(g) <==>
            HasSuffix(t, "\"" + p + "\"" + g)
  {
    var e := "\"" + p + "\"" + g;
    if t != "" {
      var n := |t| - 1;
      SuffixSplit(t, e);
      if g == "" {
        GapMeans(name, sep, t[..n], p);
        assert e[..|e| - 1] == "\"" + p;
      } else {
        var k := |g| - 1;
        PrevMeans(name, sep, t[..n], p, g[..k]);
        assert e[..|e| - 1] == "\"" + p + "\"" + g[..k];
        assert g == g[..k] + [g[k]];
      }
    }
  }

  /** The flag says whether the quoted name occurs. */
  lemma {:induction false} MarkedMeans(name: string, sep: string, t: string)
    requires '"' !in name
    ensures Scanned(name, sep, t).marked <==> Occurs(t, Quoted(name))
  {
    if t != "" {
      var n, m := |t| - 1, Quoted(name);
      MarkedMeans(name, sep, t[..n]);
      assert t == t[..n] + [t[n]];
      OccursPush(t[..n], t[n], m);
      SuffixSplit(t, m);
      GapMeans(name, sep, t[..n], name);
      assert m[..|m| - 1] == "\"" + name;
    }
  }

  /** The flag says whether the quoted name, separator and quote occur. */
  lemma {:induction false} PrefixedMeans(name: string, sep: string, t: string)
    requires '"' !in name && '"' !in sep
    ensures Scanned(name, sep, t).prefixed <==> Occurs(t, Quoted(name) + sep + "\"")
  {
    if t != "" {
      var n, m := |t| - 1, Quoted(name) + sep + "\"";
      PrefixedMeans(name, sep, t[..n]);
      assert t == t[..n] + [t[n]];
      OccursPush(t[..n], t[n], m);
      SuffixSplit(t, m);
      PrevMeans(name, sep, t[..n], name, sep);
      assert m[..|m| - 1] == "\"" + name + "\"" + sep;
    }
  }

  // ------------------------------------------------------------- appending text

  function Extended(gap: Option<string>, s: string): Option<string> {
    match gap case None => None case Some(g) => Some(g + s)
  }

  lemma {:induction false} AppendPlain(name: string, sep: string, t: string, s: string)
    requires '"' !in s
    ensures Scanned(name, sep, t + s) == Scanned(name, sep, t).(gap := Extended(Scanned(name, sep, t).gap, s))
  {
    if s == "" {
      assert t + s == t;
      var gap := Scanned(name, sep, t).gap;
      assert gap.Some? ==> gap.value + s == gap.value;
    } else {
      var n := |s| - 1;
      AppendPlain(name, sep, t, s[..n]);
      assert (t + s)[..|t + s| - 1] == t + s[..n];
      assert s == s[..n] + [s[n]];
      var gap := Scanned(name, sep, t).gap;
      assert gap.Some? ==> gap.value + s == gap.value + s[..n] + [s[n]];
    }
  }

  lemma {:induction false} AppendQuote(name: string, sep: string, t: string)
    ensures Scanned(name, sep, t + "\"") == Next(name, sep, Scanned(name, sep, t), '"')
  {
    assert (t + "\"")[..|t|] == t;
  }

  /** The two laws of appending, for any scanner. */
  ghost predicate Lawful(name: string, sep: string, sc: string -> State) {
    && sc("") == Start
    && (forall t, s :: '"' !in s ==> sc(t + s) == sc(t).(gap := Extended(sc(t).gap, s)))
    && (forall t :: sc(t + "\"") == Next(name, sep, sc(t), '"'))
  }

  lemma {:induction false} ScannedIsLawful(name: string, sep: string)
    ensures Lawful(name, sep, t => Scanned(name, sep, t))
  {
    forall t, s | '"' !in s
      ensures Scanned(name, sep, t + s) == Scanned(name, sep, t).(gap := Extended(Scanned(name, sep, t).gap, s))
    {
      AppendPlain(name, sep, t, s);
    }
    forall t
      ensures Scanned(name, sep, t + "\"") == Next(name, sep, Scanned(name, sep, t), '"')
    {
      AppendQuote(name, sep, t);
    }
  }

  /** A text that ends in a quote, or has none. */
  predicate AtQuote(s: State) { s.gap == Some("") || (s.gap == None && s.prev == None) }

  /** Padding and an opening quote. */
  lemma {:induction false} AppendOpening(name: string, sep: string, sc: string -> State, t: string, pad: string)
    requires Lawful(name, sep, sc) && '"' !in pad && pad != name && AtQuote(sc(t))
    ensures var a, b := sc(t), sc(t + pad + "\"");
            && b.gap == Some("") && b.prev != Some(name) && b.marked == a.marked
            && (b.prefixed <==> a.prefixed || (a.prev == Some(name) && pad == sep))
  {
    assert "" + pad == pad;
    assert sc(t + pad).gap == Extended(sc(t).gap, pad);
  }

  /** Padding and a quoted text. */
  lemma {:induction false} AppendField(name: string, sep: string, sc: string -> State, t: string, pad: string, s: string)
    requires Lawful(name, sep, sc) && '"' !in pad && pad != name && '"' !in s && AtQuote(sc(t))
    ensures var a, b := sc(t), sc(t + (pad + Quoted(s)));
            && b.gap == Some("") && b.prev == Some(s)
            && (b.marked <==> a.marked || s == name)
            && (b.prefixed <==> a.prefixed || (a.prev == Some(name) && pad == sep))
  {
    assert t + (pad + Quoted(s)) == t + pad + "\"" + s + "\"";
    AppendOpening(name, sep, sc, t, pad);
    assert "" + s == s;
    assert sc(t + pad + "\"" + s).gap == Some(s);
  }
}
