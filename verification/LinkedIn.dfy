/** Profile URLs: how the importer finds and normalises a LinkedIn profile link in any text. */
module LinkedIn {
  import opened Text

  function Https(): string { "https://www." }
  function InPrefix(): string { "linkedin.com/in/" }
  function PubPrefix(): string { "linkedin.com/pub/" }

  predicate InDelimiter(c: char) {
    PubDelimiter(c) || c == '/'
  }

  predicate PubDelimiter(c: char) {
    c in {' ', '\t', '\n', '\U{C}', '\r', '?', '#', '<', '>', '"', '\'', '\\'}
  }

  predicate Trailing(c: char) {
    c in {'.', ',', ';', ':', '!', '?', ')', ']', '}', '>', '\'', '"'}
  }

  predicate FoldPrefix(s: string, p: string) {
    |p| <= |s| && Lower(s[..|p|]) == p
  }

  /** Length of the longest prefix without a delimiter of the kind in use. */
  function Run(s: string, pub: bool): (r: nat)
    ensures r <= |s|
    ensures forall i :: 0 <= i < r ==> !Delimits(s[i], pub)
    ensures r < |s| ==> Delimits(s[r], pub)
  {
    if s != "" && !Delimits(s[0], pub) then 1 + Run(s[1..], pub) else 0
  }

  predicate Delimits(c: char, pub: bool) {
    if pub then PubDelimiter(c) else InDelimiter(c)
  }

  /** Length of the pattern's match at the start of the text; 0 when there is none. */
  function MatchLen(s: string): (r: nat)
    ensures r <= |s|
  {
    if FoldPrefix(s, InPrefix()) then
      var n := Run(s[|InPrefix()|..], false);
      if n > 0 then |InPrefix()| + n else 0
    else if FoldPrefix(s, PubPrefix()) then
      var n := Run(s[|PubPrefix()|..], true);
      if n > 0 then |PubPrefix()| + n else 0
    else 0
  }

  /** The leftmost match. */
  function Find(s: string): (r: Option<string>)
    ensures r.Some? ==> 0 < |r.value| <= |s|
  {
    if s == "" then None
    else if MatchLen(s) > 0 then Some(s[..MatchLen(s)])
    else Find(s[1..])
  }

  function TrimTrailing(s: string): (r: string)
    ensures |r| <= |s| && r == s[..|r|]
    ensures forall i :: |r| <= i < |s| ==> Trailing(s[i])
    ensures r != "" ==> !Trailing(r[|r| - 1])
  {
    if s != "" && Trailing(s[|s| - 1]) then TrimTrailing(s[..|s| - 1]) else s
  }

  function HexValue(c: char): (r: Option<int>)
    ensures r.Some? ==> 0 <= r.value < 16
  {
    if '0' <= c <= '9' then Some(c as int - '0' as int)
    else if 'a' <= LowerChar(c) <= 'f' then Some(LowerChar(c) as int - 'a' as int + 10)
    else None
  }

  /** Percent-decoding of a path segment; None when a percent sign lacks two hex digits. */
  function Unescape(s: string): (r: Option<string>)
    ensures r.Some? ==> |r.value| <= |s|
  {
    if s == "" then Some("")
    else if s[0] == '%' then
      if |s| >= 3 && HexValue(s[1]).Some? && HexValue(s[2]).Some? then
        Prepend((HexValue(s[1]).value * 16 + HexValue(s[2]).value) as char, Unescape(s[3..]))
      else None
    else Prepend(s[0], Unescape(s[1..]))
  }

  function Prepend(c: char, rest: Option<string>): Option<string> {
    if rest.Some? then Some([c] + rest.value) else None
  }

  function Decoded(s: string): string {
    var u := Unescape(s);
    if u.Some? then u.value else s
  }

  function TrimSlash(s: string): string {
    if s != "" && s[|s| - 1] == '/' then s[..|s| - 1] else s
  }

  /** The normal form of a matched piece of text. */
  function Normal(m: string): string {
    Https() + Lower(TrimSlash(Decoded(TrimTrailing(m))))
  }

  function Canonical(raw: string): string {
    match Find(TrimSpace(raw))
    case None => ""
    case Some(m) => Normal(m)
  }

  method CanonicalLinkedInURL(raw: string) returns (url: string)
    ensures url == Canonical(raw)
  {
    var found := Find(TrimSpace(raw));
    if found.None? { return ""; }
    var m := TrimTrailing(found.value);
    var dec := Unescape(m);
    if dec.Some? { m := dec.value; }
    m := Lower(TrimSlash(m));
    return Https() + m;
  }

  // ---------- finding ----------

  lemma PrefixFacts()
    ensures |InPrefix()| == 16 && |PubPrefix()| == 17 && |Https()| == 12
    ensures InPrefix()[0] == 'l' && PubPrefix()[0] == 'l' && InPrefix()[13] == 'i' && PubPrefix()[13] == 'p'
    ensures InPrefix()[15] == '/' && Lower(InPrefix()) == InPrefix()
    ensures forall i :: 0 <= i < 16 ==> InPrefix()[i] != '%'
    ensures forall i :: 0 <= i < 12 ==> LowerChar(Https()[i]) != 'l'
    ensures !IsSpace(Https()[0])
  {
  }

  lemma FoldPrefixFirst(s: string, p: string)
    requires p != "" && s != "" && LowerChar(s[0]) != p[0]
    ensures !FoldPrefix(s, p)
  {
    assert |p| <= |s| ==> Lower(s[..|p|])[0] == LowerChar(s[0]);
  }

  lemma NoMatchAt(s: string)
    requires s != "" ==> LowerChar(s[0]) != 'l'
    ensures MatchLen(s) == 0
  {
    hide InPrefix, PubPrefix, Https, Run;
    PrefixFacts();
    if s != "" {
      FoldPrefixFirst(s, InPrefix());
      FoldPrefixFirst(s, PubPrefix());
    }
  }

  lemma {:induction false} FindAfter(pre: string, rest: string)
    requires forall i :: 0 <= i < |pre| ==> MatchLen((pre + rest)[i..]) == 0
    ensures Find(pre + rest) == Find(rest)
  {
    hide MatchLen;
    if pre == "" {
      assert pre + rest == rest;
    } else {
      assert (pre + rest)[0..] == pre + rest;
      assert (pre + rest)[1..] == pre[1..] + rest;
      assert forall i :: 0 <= i < |pre[1..]| ==> (pre[1..] + rest)[i..] == (pre + rest)[i + 1..];
      FindAfter(pre[1..], rest);
    }
  }

  lemma {:induction false} RunStops(s: string, rest: string, pub: bool)
    requires forall i :: 0 <= i < |s| ==> !Delimits(s[i], pub)
    requires rest != "" ==> Delimits(rest[0], pub)
    ensures Run(s + rest, pub) == |s|
  {
    hide Delimits;
    if s == "" {
      assert s + rest == rest;
    } else {
      assert (s + rest)[1..] == s[1..] + rest;
      RunStops(s[1..], rest, pub);
    }
  }

  lemma {:induction false} RunGrows(s: string, rest: string, pub: bool)
    ensures Run(s, pub) > 0 ==> Run(s + rest, pub) > 0
  {
    if s != "" { assert (s + rest)[0] == s[0]; }
  }

  lemma FoldPrefixAt(s: string, p: string, i: nat)
    requires i < |p| && i < |s| && LowerChar(s[i]) != p[i]
    ensures !FoldPrefix(s, p)
  {
    assert |p| <= |s| ==> Lower(s[..|p|])[i] == LowerChar(s[i]);
  }

  lemma MatchGrows(s: string, rest: string)
    ensures MatchLen(s) > 0 ==> MatchLen(s + rest) > 0
  {
    hide InPrefix, PubPrefix, Https, Run;
    PrefixFacts();
    var t := s + rest;
    if FoldPrefix(s, InPrefix()) {
      assert t[..16] == s[..16] && t[16..] == s[16..] + rest;
      RunGrows(s[16..], rest, false);
    } else if FoldPrefix(s, PubPrefix()) {
      assert t[..17] == s[..17] && t[17..] == s[17..] + rest;
      RunGrows(s[17..], rest, true);
      assert Lower(s[..17])[13] == LowerChar(t[13]);
      FoldPrefixAt(t, InPrefix(), 13);
    }
  }

  predicate Slug(s: string) {
    s != "" && forall i :: 0 <= i < |s| ==> !InDelimiter(s[i])
  }

  /** Some spelling, in any letter case, of "linkedin.com/in/". */
  predicate HostIn(w: string) {
    Lower(w) == InPrefix()
  }

  lemma MatchOfProfile(w: string, slug: string, suffix: string)
    requires HostIn(w) && Slug(slug) && (suffix != "" ==> InDelimiter(suffix[0]))
    ensures Find(w + slug + suffix) == Some(w + slug)
  {
    hide InPrefix, PubPrefix, Https, Run;
    PrefixFacts();
    var s := w + slug + suffix;
    assert |w| == 16 && s[..16] == w && s[16..] == slug + suffix;
    RunStops(slug, suffix, false);
    assert MatchLen(s) == 16 + |slug|;
    assert s[..16 + |slug|] == w + slug;
  }

  predicate AllSpace(s: string) {
    forall i :: 0 <= i < |s| ==> IsSpace(s[i])
  }

  /** Trimming the text does not reach into the slug: the slug ends in no space, or something else
      follows it. (The pattern takes spaces outside ASCII for part of a slug.) */
  predicate Sheltered(slug: string, suffix: string) {
    slug != "" && (!IsSpace(slug[|slug| - 1]) || !AllSpace(suffix))
  }

  lemma TrimRightKeeps(s: string, k: nat, i: nat)
    requires k <= i + 1 <= |s| && !IsSpace(s[i])
    ensures |TrimRight(s)| >= k
  {
    hide IsSpace;
  }

  lemma TrimLeftUpTo(pre: string, rest: string) returns (a: nat)
    requires rest != "" && !IsSpace(rest[0])
    ensures a <= |pre| && TrimLeft(pre + rest) == pre[a..] + rest
  {
    hide IsSpace;
    var l := TrimLeft(pre + rest);
    a := |pre + rest| - |l|;
    assert (pre + rest)[|pre|] == rest[0];
  }

  lemma TrimAround(pre: string, core: string, suffix: string) returns (a: nat, b: nat)
    requires core != "" && !IsSpace(core[0]) && (!IsSpace(core[|core| - 1]) || !AllSpace(suffix))
    ensures a <= |pre| && b <= |suffix|
    ensures TrimSpace(pre + core + suffix) == pre[a..] + core + suffix[..b]
  {
    hide IsSpace, TrimLeft, TrimRight, AllSpace;
    assert pre + core + suffix == pre + (core + suffix);
    a := TrimLeftUpTo(pre, core + suffix);
    b := TrimRightDownTo(pre[a..] + core, suffix);
    assert pre[a..] + (core + suffix) == pre[a..] + core + suffix;
  }

  lemma TrimRightDownTo(s: string, suffix: string) returns (b: nat)
    requires s != "" && (!IsSpace(s[|s| - 1]) || !AllSpace(suffix))
    ensures b <= |suffix| && TrimRight(s + suffix) == s + suffix[..b]
  {
    hide IsSpace, TrimRight;
    var l := s + suffix;
    if IsSpace(s[|s| - 1]) {
      var i :| 0 <= i < |suffix| && !IsSpace(suffix[i]);
      TrimRightKeeps(l, |s|, |s| + i);
    } else {
      TrimRightKeeps(l, |s|, |s| - 1);
    }
    b := |TrimRight(l)| - |s|;
    assert l[..|s| + b] == s + suffix[..b];
  }

  lemma LetterNotSpace(w: string)
    requires HostIn(w)
    ensures |w| == 16 && !IsSpace(w[0]) && LowerChar(w[15]) == '/'
  {
    hide InPrefix, PubPrefix, Https;
    PrefixFacts();
    assert Lower(w)[0] == LowerChar(w[0]) && Lower(w)[15] == LowerChar(w[15]);
  }

  /** The text before the link holds no match of its own. */
  predicate NoEarlierMatch(pre: string, rest: string) {
    forall i :: 0 <= i < |pre| ==> MatchLen((pre + rest)[i..]) == 0
  }

  lemma NoEarlierAfterTrim(pre: string, core: string, suffix: string, a: nat, b: nat)
    requires NoEarlierMatch(pre, core + suffix) && a <= |pre| && b <= |suffix|
    ensures NoEarlierMatch(pre[a..], core + suffix[..b])
  {
    hide MatchLen;
    var t := pre[a..] + (core + suffix[..b]);
    forall i | 0 <= i < |pre[a..]| ensures MatchLen(t[i..]) == 0 {
      MatchGrows(t[i..], suffix[b..]);
      assert t[i..] + suffix[b..] == (pre + (core + suffix))[i + a..];
    }
  }

  /** Whatever surrounds it, the profile link is what is normalised. */
  lemma CanonicalInContext(pre: string, w: string, slug: string, suffix: string)
    requires HostIn(w) && Slug(slug) && Sheltered(slug, suffix)
    requires suffix != "" ==> InDelimiter(suffix[0])
    requires NoEarlierMatch(pre, w + slug + suffix)
    ensures Canonical(pre + (w + slug + suffix)) == Normal(w + slug)
  {
    hide InPrefix, PubPrefix, Https, Run, MatchLen, Find, TrimSpace, IsSpace, InDelimiter, Normal, HostIn;
    var core := w + slug;
    LetterNotSpace(w);
    var a, b := TrimAround(pre, core, suffix);
    assert pre + (core + suffix) == pre + core + suffix;
    NoEarlierAfterTrim(pre, core, suffix, a, b);
    FindAfter(pre[a..], core + suffix[..b]);
    assert pre[a..] + (core + suffix[..b]) == pre[a..] + core + suffix[..b];
    MatchOfProfile(w, slug, suffix[..b]);
  }

  lemma {:induction false} TrimRightSpaces(s: string, t: string)
    requires AllSpace(t)
    ensures TrimRight(s + t) == TrimRight(s)
    decreases |t|
  {
    hide IsSpace;
    if t == "" {
      assert s + t == s;
    } else {
      assert (s + t)[..|s + t| - 1] == s + t[..|t| - 1];
      TrimRightSpaces(s, t[..|t| - 1]);
    }
  }

  lemma {:induction false} TrimLeftAppend(s: string, i: nat, t: string)
    requires i < |s| && !IsSpace(s[i])
    ensures TrimLeft(s + t) == TrimLeft(s) + t
    decreases |s|
  {
    hide IsSpace;
    if IsSpace(s[0]) {
      assert (s + t)[1..] == s[1..] + t;
      TrimLeftAppend(s[1..], i - 1, t);
    }
  }

  lemma TrimDropsSpaces(s: string, i: nat, spaces: string)
    requires i < |s| && !IsSpace(s[i]) && AllSpace(spaces)
    ensures TrimSpace(s + spaces) == TrimSpace(s)
  {
    hide IsSpace, TrimLeft, TrimRight, AllSpace;
    TrimLeftAppend(s, i, spaces);
    TrimRightSpaces(TrimLeft(s), spaces);
  }

  lemma SpacesJoin(slug: string, suffix: string)
    requires AllSpace(suffix)
    ensures var cut := TrimRight(slug); slug == cut + slug[|cut|..] && AllSpace(slug[|cut|..] + suffix)
  {
    hide IsSpace;
  }

  /** In the remaining case, nothing but white space after a slug that ends in a space character, the
      link is what is left when the text is trimmed. */
  lemma CanonicalUnsheltered(pre: string, w: string, slug: string, suffix: string)
    requires HostIn(w) && AllSpace(suffix)
    ensures Canonical(pre + (w + slug + suffix)) == Canonical(pre + (w + TrimRight(slug)))
  {
    hide IsSpace, AllSpace, TrimSpace, TrimRight, Find, Normal, HostIn;
    LetterNotSpace(w);
    SpacesJoin(slug, suffix);
    var cut := TrimRight(slug);
    var s, spaces := pre + (w + cut), slug[|cut|..] + suffix;
    assert s[|pre|] == w[0];
    TrimDropsSpaces(s, |pre|, spaces);
    assert w + slug + suffix == w + cut + spaces;
    assert pre + (w + slug + suffix) == s + spaces;
  }

  // ---------- letter case ----------

  lemma SameCase(s: string, t: string)
    requires Lower(s) == Lower(t)
    ensures |s| == |t| && forall i :: 0 <= i < |s| ==> LowerChar(s[i]) == LowerChar(t[i])
    ensures forall k :: 0 <= k <= |s| ==> Lower(s[k..]) == Lower(t[k..]) && Lower(s[..k]) == Lower(t[..k])
  {
    assert forall i :: 0 <= i < |s| ==> Lower(s)[i] == Lower(t)[i];
  }

  lemma TrailingCase(c: char, d: char)
    requires LowerChar(c) == LowerChar(d)
    ensures Trailing(c) <==> Trailing(d)
  {
  }

  lemma {:induction false} TrimTrailingCase(s: string, t: string)
    requires Lower(s) == Lower(t)
    ensures Lower(TrimTrailing(s)) == Lower(TrimTrailing(t))
  {
    hide Trailing, Lower;
    SameCase(s, t);
    if s != "" {
      TrailingCase(s[|s| - 1], t[|s| - 1]);
      if Trailing(s[|s| - 1]) { TrimTrailingCase(s[..|s| - 1], t[..|s| - 1]); }
    }
  }

  lemma {:induction false} UnescapeCase(s: string, t: string)
    requires Lower(s) == Lower(t)
    ensures Unescape(s).Some? == Unescape(t).Some?
    ensures Unescape(s).Some? ==> Lower(Unescape(s).value) == Lower(Unescape(t).value)
  {
    hide HexValue, Lower;
    SameCase(s, t);
    if s != "" {
      if s[0] == '%' {
        if |s| >= 3 {
          HexCase(s[1], t[1]);
          HexCase(s[2], t[2]);
          UnescapeCase(s[3..], t[3..]);
          if HexValue(s[1]).Some? && HexValue(s[2]).Some? {
            var c := (HexValue(s[1]).value * 16 + HexValue(s[2]).value) as char;
            PrependCase(c, c, Unescape(s[3..]), Unescape(t[3..]));
          }
        }
      } else {
        UnescapeCase(s[1..], t[1..]);
        PrependCase(s[0], t[0], Unescape(s[1..]), Unescape(t[1..]));
      }
    }
  }

  lemma PrependCase(c: char, d: char, u: Option<string>, v: Option<string>)
    requires LowerChar(c) == LowerChar(d)
    requires u.Some? == v.Some? && (u.Some? ==> Lower(u.value) == Lower(v.value))
    ensures Prepend(c, u).Some? == Prepend(d, v).Some?
    ensures u.Some? ==> Lower(Prepend(c, u).value) == Lower(Prepend(d, v).value)
  {
    if u.Some? {
      LowerAppend([c], u.value);
      LowerAppend([d], v.value);
      assert Lower([c]) == Lower([d]);
    }
  }

  lemma HexCase(c: char, d: char)
    requires LowerChar(c) == LowerChar(d)
    ensures HexValue(c) == HexValue(d)
  {
  }

  lemma NormalCase(m: string, n: string)
    requires Lower(m) == Lower(n)
    ensures Normal(m) == Normal(n)
  {
    hide Https, TrimTrailing, Unescape;
    TrimTrailingCase(m, n);
    var x, y := TrimTrailing(m), TrimTrailing(n);
    UnescapeCase(x, y);
    var u, v := Decoded(x), Decoded(y);
    assert Lower(u) == Lower(v);
    assert |u| == |v| && forall i :: 0 <= i < |u| ==> Lower(u)[i] == Lower(v)[i];
    assert Lower(TrimSlash(u)) == Lower(TrimSlash(v));
  }

  /** The same profile written in different texts, in any letter case of host and slug
      (percent escapes included), has one canonical URL. */
  lemma SpellingDoesNotMatter(
    pre1: string, w1: string, slug1: string, suffix1: string,
    pre2: string, w2: string, slug2: string, suffix2: string)
    requires HostIn(w1) && Slug(slug1) && Sheltered(slug1, suffix1)
    requires HostIn(w2) && Slug(slug2) && Sheltered(slug2, suffix2)
    requires (suffix1 != "" ==> InDelimiter(suffix1[0])) && (suffix2 != "" ==> InDelimiter(suffix2[0]))
    requires NoEarlierMatch(pre1, w1 + slug1 + suffix1) && NoEarlierMatch(pre2, w2 + slug2 + suffix2)
    requires Lower(slug1) == Lower(slug2)
    ensures Canonical(pre1 + (w1 + slug1 + suffix1)) == Canonical(pre2 + (w2 + slug2 + suffix2))
  {
    hide Canonical, Normal, InPrefix, NoEarlierMatch, Slug, IsSpace, InDelimiter;
    CanonicalInContext(pre1, w1, slug1, suffix1);
    CanonicalInContext(pre2, w2, slug2, suffix2);
    LowerAppend(w1, slug1);
    LowerAppend(w2, slug2);
    NormalCase(w1 + slug1, w2 + slug2);
  }

  lemma LowerAppend(s: string, t: string)
    ensures Lower(s + t) == Lower(s) + Lower(t)
  {
  }

  // ---------- idempotence ----------

  lemma {:induction false} NothingToUnescape(s: string)
    requires forall i :: 0 <= i < |s| ==> s[i] != '%'
    ensures Unescape(s) == Some(s)
  {
    if s != "" {
      NothingToUnescape(s[1..]);
      assert s == [s[0]] + s[1..];
    }
  }

  /** A profile link without percent escapes, as the pattern matches it. */
  predicate PlainProfile(m: string) {
    |m| > 16 && HostIn(m[..16]) && Slug(m[16..]) && forall i :: 16 <= i < |m| ==> m[i] != '%'
  }

  lemma HostHasNoPercent(w: string)
    requires HostIn(w)
    ensures |w| == 16 && forall i :: 0 <= i < |w| ==> w[i] != '%' && !Trailing(w[15])
  {
    hide InPrefix, PubPrefix, Https;
    PrefixFacts();
    assert forall i :: 0 <= i < 16 ==> Lower(w)[i] == LowerChar(w[i]);
    assert Lower(w)[15] == '/';
  }

  /** What remains of the slug once trailing punctuation is cut. */
  function CutSlug(m: string): string
    requires |m| > 16
  {
    var t := TrimTrailing(m);
    if |t| > 16 then t[16..] else ""
  }

  /** A plain link loses only trailing punctuation, and none of "linkedin.com/in/". */
  lemma CutOfPlain(m: string)
    requires PlainProfile(m)
    ensures var t := TrimTrailing(m);
      && t == m[..16] + CutSlug(m) && Decoded(t) == t
      && (CutSlug(m) != "" ==> Slug(CutSlug(m)) && !Trailing(CutSlug(m)[|CutSlug(m)| - 1]))
  {
    hide InPrefix, PubPrefix, Https, HostIn, Trailing, InDelimiter, Unescape;
    var w, t := m[..16], TrimTrailing(m);
    HostHasNoPercent(w);
    PlainParts(m);
    assert |t| >= 16 by { assert m[15] == w[15]; }
    assert forall i :: 0 <= i < |t| ==> t[i] == m[i];
    assert forall i :: 0 <= i < 16 ==> m[i] == w[i];
    NothingToUnescape(t);
    var slug := t[16..];
    assert t == w + slug;
    assert forall i :: 0 <= i < |slug| ==> slug[i] == m[16..][i];
  }

  lemma NormalOfPlain(m: string)
    requires PlainProfile(m)
    ensures var slug := CutSlug(m);
      if slug == "" then Normal(m) == Https() + InPrefix()[..15]
      else Normal(m) == Https() + (InPrefix() + Lower(slug)) && Slug(slug) && !Trailing(slug[|slug| - 1])
  {
    hide InPrefix, PubPrefix, Https, HostIn, Trailing, InDelimiter, Decoded, TrimTrailing, CutSlug;
    var w, t, slug := m[..16], TrimTrailing(m), CutSlug(m);
    CutOfPlain(m);
    PlainParts(m);
    LowerAppend(w, slug);
    HostLower(w);
    if slug == "" {
      assert t == w && TrimSlash(t) == w[..15];
      assert Lower(w[..15]) == Lower(w)[..15];
    } else {
      SlashDelimits();
      assert t[|t| - 1] == slug[|slug| - 1];
      assert TrimSlash(t) == t;
    }
  }

  lemma SlashDelimits()
    ensures InDelimiter('/')
  {
  }

  lemma PlainParts(m: string)
    requires PlainProfile(m)
    ensures HostIn(m[..16]) && forall i :: 0 <= i < |m[16..]| ==> !InDelimiter(m[16..][i])
  {
  }

  lemma HostLower(w: string)
    requires HostIn(w)
    ensures Lower(w) == InPrefix() && |w| == 16 && w[15] == '/'
  {
    hide InPrefix, PubPrefix, Https;
    PrefixFacts();
    assert Lower(w)[15] == LowerChar(w[15]);
  }

  lemma NothingInHttps(rest: string)
    ensures NoEarlierMatch(Https(), rest)
  {
    hide Https, MatchLen;
    PrefixFacts();
    forall i | 0 <= i < |Https()| ensures MatchLen((Https() + rest)[i..]) == 0 {
      assert (Https() + rest)[i..][0] == Https()[i];
      NoMatchAt((Https() + rest)[i..]);
    }
  }

  lemma LowerSlug(s: string)
    requires Slug(s) && !Trailing(s[|s| - 1])
    ensures Slug(Lower(s)) && !Trailing(Lower(s)[|s| - 1]) && Lower(Lower(s)) == Lower(s)
    ensures IsSpace(Lower(s)[|s| - 1]) <==> IsSpace(s[|s| - 1])
    ensures (forall i :: 0 <= i < |s| ==> s[i] != '%') ==> forall i :: 0 <= i < |s| ==> Lower(s)[i] != '%'
  {
  }

  lemma NoLinkWithoutSlug()
    ensures Canonical(Https() + InPrefix()[..15]) == ""
  {
    hide Https, InPrefix, PubPrefix, MatchLen, Find, TrimSpace, IsSpace;
    PrefixFacts();
    var core := InPrefix()[..15];
    LetterNotSpaceAt();
    var a, b := TrimAround("", Https() + core, "");
    assert "" + (Https() + core) + "" == Https() + core;
    assert ""[a..] + (Https() + core) + ""[..b] == Https() + core;
    NothingInHttps(core);
    FindAfter(Https(), core);
    ShortTextHasNoMatch(core);
  }

  lemma LetterNotSpaceAt()
    ensures !IsSpace(Https()[0]) && !IsSpace(InPrefix()[14])
  {
  }

  lemma {:induction false} ShortTextHasNoMatch(s: string)
    requires |s| <= 16
    ensures Find(s) == None
  {
    hide InPrefix, PubPrefix, Https, Run;
    PrefixFacts();
    if s != "" { ShortTextHasNoMatch(s[1..]); }
  }

  lemma {:induction false} FindIsNoLonger(s: string)
    ensures Find(s).Some? ==> |Normal(Find(s).value)| <= |Https()| + |s|
  {
    hide MatchLen, Https, TrimTrailing;
    if s != "" && MatchLen(s) == 0 { FindIsNoLonger(s[1..]); }
  }

  lemma SpaceAtEndIsLost(core: string)
    requires core != "" && IsSpace(core[|core| - 1])
    requires exists i :: 0 <= i < |core| && !IsSpace(core[i])
    ensures Canonical(Https() + core) != Https() + core
  {
    hide Https, IsSpace, Find, Normal, MatchLen;
    PrefixFacts();
    var r := Https() + core;
    var l, t := TrimLeft(r), TrimSpace(r);
    assert l == r by { assert r[0] == Https()[0]; }
    assert r[|r| - 1] == core[|core| - 1];
    assert |t| < |r|;
    var i :| 0 <= i < |core| && !IsSpace(core[i]);
    assert r[12 + i] == core[i];
    assert |t| > 12;
    var rest := t[12..];
    assert t == Https() + rest by { assert t == r[..|t|]; }
    NothingInHttps(rest);
    FindAfter(Https(), rest);
    FindIsNoLonger(rest);
    if Find(rest).None? { assert Canonical(r) == ""; }
  }

  lemma PlainCanonicalAgain(m: string)
    requires PlainProfile(m) && CutSlug(m) != "" && !IsSpace(CutSlug(m)[|CutSlug(m)| - 1])
    ensures Canonical(Normal(m)) == Normal(m)
  {
    hide Https, InPrefix, PubPrefix, Find, MatchLen, TrimSpace, Normal, IsSpace, Slug, Trailing, Canonical;
    var slug := CutSlug(m);
    NormalOfPlain(m);
    var low := Lower(slug);
    LowerSlug(slug);
    CutSlugPlain(m);
    PrefixFacts();
    HostInItself();
    var n := InPrefix() + low;
    NothingInHttps(n + "");
    assert n + "" == n;
    CanonicalInContext(Https(), InPrefix(), low, "");
    assert InPrefix() + low + "" == n;
    PlainOfParts(low);
    assert n[16..] == low;
    assert TrimTrailing(n) == n by { TrimTrailingNothing(n); }
    NormalOfPlain(n);
    assert CutSlug(n) == low;
  }

  lemma TrimTrailingNothing(n: string)
    requires n != "" && !Trailing(n[|n| - 1])
    ensures TrimTrailing(n) == n
  {
  }

  lemma HostInItself()
    ensures HostIn(InPrefix())
  {
    hide InPrefix, PubPrefix, Https;
    PrefixFacts();
  }

  lemma CutSlugPlain(m: string)
    requires PlainProfile(m) && CutSlug(m) != ""
    ensures forall i :: 0 <= i < |CutSlug(m)| ==> CutSlug(m)[i] != '%'
  {
    hide InPrefix, HostIn, Slug, Trailing;
    var t := TrimTrailing(m);
    assert forall i :: 0 <= i < |t[16..]| ==> t[16..][i] == m[16 + i];
  }

  lemma PlainOfParts(low: string)
    requires Slug(low) && forall i :: 0 <= i < |low| ==> low[i] != '%'
    ensures PlainProfile(InPrefix() + low)
  {
    hide InPrefix, PubPrefix, Https, Slug;
    PrefixFacts();
    var n := InPrefix() + low;
    assert low != "" by { SlugNotEmpty(low); }
    assert n[..16] == InPrefix() && n[16..] == low;
    HostInItself();
  }

  lemma SlugNotEmpty(low: string)
    requires Slug(low)
    ensures low != ""
  {
  }

  /** Normalising a normalised link changes nothing exactly when something other than trailing
      punctuation is left of its slug, and that does not end in white space (percent-free
      profile links). */
  lemma IdempotentExactly(raw: string, m: string)
    requires Find(TrimSpace(raw)) == Some(m) && PlainProfile(m)
    ensures Canonical(Canonical(raw)) == Canonical(raw)
      <==> CutSlug(m) != "" && !IsSpace(CutSlug(m)[|CutSlug(m)| - 1])
  {
    hide Https, InPrefix, PubPrefix, Find, MatchLen, TrimSpace, Normal, IsSpace, Slug, Trailing, CutSlug;
    var slug := CutSlug(m);
    assert Canonical(raw) == Normal(m);
    PrefixFacts();
    NormalOfPlain(m);
    if slug == "" {
      NoLinkWithoutSlug();
      assert |Normal(m)| == 27;
    } else if IsSpace(slug[|slug| - 1]) {
      LowerSlug(slug);
      var core := InPrefix() + Lower(slug);
      assert core[|core| - 1] == Lower(slug)[|slug| - 1];
      LetterNotSpaceAt();
      assert core[14] == InPrefix()[14];
      SpaceAtEndIsLost(core);
    } else {
      PlainCanonicalAgain(m);
    }
  }
}
