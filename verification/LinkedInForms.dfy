/** The two kinds of profile links in full, and what percent escapes stand for. */
module LinkedInForms {
  import opened Text
  import opened LinkedIn

  // ---------- percent escapes ----------

  /** The digit of this value, in either letter case. */
  predicate IsDigitOf(c: char, v: int) {
    0 <= v < 16 && (c == "0123456789abcdef"[v] || c == "0123456789ABCDEF"[v])
  }

  lemma HexValueExactly(c: char, v: int)
    ensures HexValue(c) == Some(v) <==> IsDigitOf(c, v)
  {
    if IsDigitOf(c, v) {
      assert v < 10 ==> "0123456789abcdef"[v] == (('0' as int) + v) as char;
      assert v >= 10 ==> "0123456789abcdef"[v] == (('a' as int) + v - 10) as char;
    }
  }

  /** `e` spells out `s`, each character as itself (a percent sign excepted) or as the two hexadecimal
      digits of its code after a percent sign. */
  predicate Encodes(e: string, s: string)
    decreases |s|
  {
    if s == "" then e == ""
    else
      || (e != "" && e[0] != '%' && e[0] == s[0] && Encodes(e[1..], s[1..]))
      || (|e| >= 3 && e[0] == '%' && IsDigitOf(e[1], s[0] as int / 16) && IsDigitOf(e[2], s[0] as int % 16)
          && Encodes(e[3..], s[1..]))
  }

  /** Decoding undoes exactly these spellings. */
  lemma {:induction false} UnescapeExactly(e: string, s: string)
    ensures Unescape(e) == Some(s) <==> Encodes(e, s)
    decreases |e|
  {
    hide HexValue, IsDigitOf;
    if e != "" && s != "" {
      if e[0] == '%' {
        if |e| >= 3 {
          EscapeExactly(e[1], e[2], s[0]);
          UnescapeExactly(e[3..], s[1..]);
          PrependExactly(e[1], e[2], e[3..], s);
        }
      } else {
        UnescapeExactly(e[1..], s[1..]);
        assert s == [s[0]] + s[1..];
      }
    }
  }

  lemma EscapeExactly(h: char, l: char, c: char)
    ensures (HexValue(h).Some? && HexValue(l).Some? && (HexValue(h).value * 16 + HexValue(l).value) as char == c)
      <==> (IsDigitOf(h, c as int / 16) && IsDigitOf(l, c as int % 16))
  {
    HexValueExactly(h, c as int / 16);
    HexValueExactly(l, c as int % 16);
    hide HexValue, IsDigitOf;
  }

  lemma PrependExactly(h: char, l: char, rest: string, s: string)
    requires s != ""
    ensures HexValue(h).Some? && HexValue(l).Some? ==>
      var c := (HexValue(h).value * 16 + HexValue(l).value) as char;
      (Prepend(c, Unescape(rest)) == Some(s) <==> c == s[0] && Unescape(rest) == Some(s[1..]))
  {
    hide HexValue, Unescape;
    assert s == [s[0]] + s[1..];
  }

  // ---------- links with /pub/ ----------

  /** Some spelling, in any letter case, of "linkedin.com/pub/". */
  predicate HostPub(w: string) {
    Lower(w) == PubPrefix()
  }

  predicate PubPath(s: string) {
    s != "" && forall i :: 0 <= i < |s| ==> !PubDelimiter(s[i])
  }

  lemma HostPubParts(w: string)
    requires HostPub(w)
    ensures |w| == 17 && !IsSpace(w[0]) && w[16] == '/'
    ensures forall rest :: !FoldPrefix(w + rest, InPrefix())
    ensures forall i :: 0 <= i < 17 ==> w[i] != '%'
  {
    hide InPrefix, Https;
    PrefixFacts();
    assert forall i :: 0 <= i < 17 ==> PubPrefix()[i] != '%' && Lower(w)[i] == LowerChar(w[i]);
    forall rest ensures !FoldPrefix(w + rest, InPrefix()) {
      assert (w + rest)[13] == w[13];
      FoldPrefixAt(w + rest, InPrefix(), 13);
    }
  }

  lemma MatchOfPub(w: string, path: string, suffix: string)
    requires HostPub(w) && PubPath(path) && (suffix != "" ==> PubDelimiter(suffix[0]))
    ensures Find(w + path + suffix) == Some(w + path)
  {
    hide InPrefix, PubPrefix, Https, Run, FoldPrefix;
    PrefixFacts();
    HostPubParts(w);
    var s := w + path + suffix;
    assert s == w + (path + suffix) && !FoldPrefix(s, InPrefix());
    assert s[..17] == w && s[17..] == path + suffix;
    RunStops(path, suffix, true);
    FoldPrefixOf(s, w, PubPrefix());
    assert MatchLen(s) == 17 + |path|;
    assert s[..17 + |path|] == w + path;
  }

  lemma FoldPrefixOf(s: string, w: string, p: string)
    requires |w| == |p| <= |s| && s[..|w|] == w && Lower(w) == p
    ensures FoldPrefix(s, p)
  {
  }

  /** Whatever text surrounds it, an old-style link with several path segments is what is normalised. */
  lemma CanonicalPubInContext(pre: string, w: string, path: string, suffix: string)
    requires HostPub(w) && PubPath(path) && Sheltered(path, suffix)
    requires suffix != "" ==> PubDelimiter(suffix[0])
    requires NoEarlierMatch(pre, w + path + suffix)
    ensures Canonical(pre + (w + path + suffix)) == Normal(w + path)
  {
    hide InPrefix, PubPrefix, Https, Run, MatchLen, Find, TrimSpace, IsSpace, PubDelimiter, Normal, HostPub, FoldPrefix;
    var core := w + path;
    HostPubParts(w);
    var a, b := TrimAround(pre, core, suffix);
    assert pre + (core + suffix) == pre + core + suffix;
    NoEarlierAfterTrim(pre, core, suffix, a, b);
    FindAfter(pre[a..], core + suffix[..b]);
    assert pre[a..] + (core + suffix[..b]) == pre[a..] + core + suffix[..b];
    MatchOfPub(w, path, suffix[..b]);
  }

  /** An address with nothing after it is no link. */
  lemma NothingWithoutPath(w: string, rest: string)
    ensures HostPub(w) && (rest != "" ==> PubDelimiter(rest[0])) ==> MatchLen(w + rest) == 0
    ensures HostIn(w) && (rest != "" ==> InDelimiter(rest[0])) ==> MatchLen(w + rest) == 0
  {
    hide InPrefix, PubPrefix, Https, Run, FoldPrefix;
    PrefixFacts();
    var s := w + rest;
    if HostPub(w) && (rest != "" ==> PubDelimiter(rest[0])) {
      HostPubParts(w);
      assert s[17..] == "" + rest;
      RunStops("", rest, true);
    }
    if HostIn(w) && (rest != "" ==> InDelimiter(rest[0])) {
      assert Lower(w)[13] == LowerChar(w[13]) == 'i' && s[..16] == w;
      FoldPrefixOf(s, w, InPrefix());
      FoldPrefixAt(s, PubPrefix(), 13);
      assert s[16..] == "" + rest;
      RunStops("", rest, false);
    }
  }

  /** The characters that end a link, and those cut from its end, as the importer lists them. */
  lemma CharacterSets(c: char)
    ensures PubDelimiter(c) <==> c in " \t\n\U{C}\r?#<>\"'\\"
    ensures InDelimiter(c) <==> c in " \t\n\U{C}\r/?#<>\"'\\"
    ensures Trailing(c) <==> c in ".,;:!?)]}>'\""
  {
  }

  /** Such a link without escapes and without punctuation at its end keeps its whole path, in lower case,
      but for one slash at its end. */
  lemma PlainPubIs(w: string, path: string)
    requires HostPub(w) && PubPath(path) && !Trailing(path[|path| - 1])
    requires forall i :: 0 <= i < |path| ==> path[i] != '%'
    ensures Normal(w + path) == "https://www.linkedin.com/pub/" + Lower(TrimSlash(path))
  {
    PubAddress();
    hide InPrefix, PubPrefix, Https, Trailing, PubDelimiter, Unescape, FoldPrefix;
    HostPubParts(w);
    var m := w + path;
    assert m[|m| - 1] == path[|path| - 1];
    TrimTrailingNothing(m);
    NothingToUnescape(m);
    assert TrimSlash(m) == w + TrimSlash(path);
    LowerAppend(w, TrimSlash(path));
    assert Https() + (PubPrefix() + Lower(TrimSlash(path))) == (Https() + PubPrefix()) + Lower(TrimSlash(path));
  }

  lemma PubAddress()
    ensures Https() + PubPrefix() == "https://www.linkedin.com/pub/"
  {
  }

  /** And a link with /in/ keeps its one segment, in lower case. */
  lemma PlainInIs(w: string, slug: string)
    requires HostIn(w) && Slug(slug) && !Trailing(slug[|slug| - 1])
    requires forall i :: 0 <= i < |slug| ==> slug[i] != '%'
    ensures Normal(w + slug) == "https://www.linkedin.com/in/" + Lower(slug)
  {
    InAddress();
    hide InPrefix, PubPrefix, Https, Trailing, InDelimiter, Unescape;
    HostHasNoPercent(w);
    HostLower(w);
    var m := w + slug;
    assert m[|m| - 1] == slug[|slug| - 1] && slug[|slug| - 1] != '/' by { SlashDelimits(); }
    TrimTrailingNothing(m);
    NothingToUnescape(m);
    assert TrimSlash(m) == m;
    LowerAppend(w, slug);
    assert Https() + (InPrefix() + Lower(slug)) == (Https() + InPrefix()) + Lower(slug);
  }

  lemma InAddress()
    ensures Https() + InPrefix() == "https://www.linkedin.com/in/"
  {
  }

  /** A link with escapes is the link of what they stand for: decoded before its final slash is cut and
      before it is put in lower case. */
  lemma EscapedIsDecoded(m: string, s: string)
    requires Encodes(TrimTrailing(m), s)
    ensures Normal(m) == Https() + Lower(TrimSlash(s))
  {
    hide Https, TrimTrailing, Encodes, Unescape, TrimSlash;
    UnescapeExactly(TrimTrailing(m), s);
  }
}
