/** The name columns of an imported contact: how they are split, joined and made up. */
module ContactNames {
  import opened Text

  datatype Columns = Columns(first: string, last: string, full: string, company: string, job: string)

  datatype Name = Name(first: string, last: string)

  // ---------- words ----------

  /** How far the word that begins the text goes. */
  function WordLen(s: string): (r: nat)
    requires s != ""
    ensures 1 <= r <= |s|
  {
    if |s| == 1 || IsSpace(s[1]) then 1 else 1 + WordLen(s[1..])
  }

  /** The words of a text, as white space separates them. */
  function Words(s: string): seq<string>
    decreases |s|
  {
    var t := TrimLeft(s);
    if t == "" then []
    else
      var n := WordLen(t);
      [t[..n]] + Words(t[n..])
  }

  lemma {:induction false} WordsNotEmpty(s: string)
    ensures forall i :: 0 <= i < |Words(s)| ==> Words(s)[i] != ""
    decreases |s|
  {
    hide IsSpace, TrimLeft;
    var t := TrimLeft(s);
    if t != "" { WordsNotEmpty(t[WordLen(t)..]); }
  }

  function Join(parts: seq<string>): string {
    if parts == [] then "" else if |parts| == 1 then parts[0] else parts[0] + " " + Join(parts[1..])
  }

  /** The pieces between the occurrences of a separator. */
  function SplitOn(s: string, c: char): (r: seq<string>)
    ensures |r| >= 1
  {
    if s == "" then [""]
    else
      var rest := SplitOn(s[1..], c);
      if s[0] == c then [""] + rest else [[s[0]] + rest[0]] + rest[1..]
  }

  // ---------- names ----------

  /** "Last, First" by the first comma; otherwise the first word and the remaining words. */
  function SplitFullName(full: string): Name {
    var comma := IndexOf(full, ",");
    if comma >= 0 then Name(TrimSpace(full[comma + 1..]), TrimSpace(full[..comma]))
    else
      var words := Words(full);
      if words == [] then Name("", "") else Name(words[0], Join(words[1..]))
  }

  /** Without a comma the two parts are the words of the name, in order, none lost. */
  lemma SplitKeepsWords(full: string)
    requires IndexOf(full, ",") < 0
    ensures var n := SplitFullName(full);
      Join(Words(full)) == if n.last == "" then n.first else n.first + " " + n.last
  {
    hide Words, IndexOf;
    var words := Words(full);
    WordsNotEmpty(full);
    if |words| > 1 { JoinNotEmpty(words[1..]); }
  }

  lemma JoinNotEmpty(parts: seq<string>)
    requires parts != [] && parts[0] != ""
    ensures Join(parts) != ""
  {
  }

  function UpperChar(c: char): char {
    if 'a' <= c <= 'z' then c - 'a' + 'A' else c
  }

  function Capitalized(parts: seq<string>): seq<string> {
    seq(|parts|, i requires 0 <= i < |parts| =>
      if parts[i] == "" then "" else [UpperChar(parts[i][0])] + parts[i][1..])
  }

  /** What a link has before its slug. */
  function Marker(url: string): (r: string)
    ensures r != ""
  {
    if IndexOf(url, "/pub/") >= 0 then "/pub/" else "/in/"
  }

  /** The readable name a profile link suggests. */
  function SlugName(url: string): string {
    var marker := Marker(url);
    var at := IndexOf(url, marker);
    if at < 0 then ""
    else
      var slug := url[at + |marker|..];
      var end := IndexOf(slug, "/");
      Join(Capitalized(SplitOn(if end >= 0 then slug[..end] else slug, '-')))
  }

  /** The name columns, completed from one another and, failing all, from the link. */
  function Completed(c: Columns, url: string): Columns {
    var c1 := if c.full == "" && c.first != "" then c.(full := TrimSpace(c.first + " " + c.last)) else c;
    var n1 := SplitFullName(c1.full);
    var c2 := if c1.first == "" && c1.full != "" then c1.(first := n1.first, last := n1.last) else c1;
    var derived := SlugName(url);
    var n2 := SplitFullName(derived);
    if c2.first == "" && c2.full == "" && derived != "" then c2.(full := derived, first := n2.first, last := n2.last)
    else c2
  }

  /** Completing fills empty columns only: a full name that was given stays, and so do a first name
      with its last name, company and job title. */
  lemma CompletedKeeps(c: Columns, url: string)
    ensures var d := Completed(c, url);
      && (c.full != "" ==> d.full == c.full)
      && (c.first != "" ==> d.first == c.first && d.last == c.last)
      && d.company == c.company && d.job == c.job
  {
    hide SplitFullName, SlugName;
  }

  // ---------- what words are ----------

  predicate Spaceless(w: string) {
    forall i :: 0 <= i < |w| ==> !IsSpace(w[i])
  }

  lemma {:induction false} WordLenStops(a: string, rest: string)
    requires a != "" && (rest == "" || IsSpace(rest[0]))
    ensures WordLen(a + rest) == WordLen(a)
  {
    hide IsSpace;
    if |a| > 1 {
      assert (a + rest)[1..] == a[1..] + rest;
      WordLenStops(a[1..], rest);
    }
  }

  lemma {:induction false} WordLenOfWord(w: string)
    requires w != "" && Spaceless(w)
    ensures WordLen(w) == |w|
  {
    hide IsSpace;
    if |w| > 1 { WordLenOfWord(w[1..]); }
  }

  /** A text without white space is one word, and nothing has no words. */
  lemma WordsOfWord(w: string)
    requires Spaceless(w)
    ensures Words(w) == if w == "" then [] else [w]
  {
    hide IsSpace;
    if w != "" {
      WordLenOfWord(w);
      assert w[..|w|] == w && w[|w|..] == "";
      assert Words("") == [];
    }
  }

  /** White space separates words wherever it stands: together with the words of a text without any, this
      says what the words of every text are. */
  lemma {:induction false} WordsSplit(a: string, c: char, b: string)
    requires IsSpace(c)
    ensures Words(a + [c] + b) == Words(a) + Words(b)
    decreases |a|
  {
    hide IsSpace, WordLen, Words;
    var s := a + [c] + b;
    if a == "" {
      assert s[0] == c && s[1..] == b;
      TrimsOne(s);
      NoWords();
    } else if IsSpace(a[0]) {
      assert s[0] == a[0] && s[1..] == a[1..] + [c] + b;
      TrimsOne(s);
      TrimsOne(a);
      WordsSplit(a[1..], c, b);
    } else {
      var n := WordLen(a);
      assert s == a + ([c] + b);
      WordLenStops(a, [c] + b);
      assert s[0] == a[0] && s[..n] == a[..n] && s[n..] == a[n..] + [c] + b;
      FirstWord(s);
      FirstWord(a);
      WordsSplit(a[n..], c, b);
    }
  }

  lemma NoWords()
    ensures Words("") == []
  {
  }

  lemma FirstWord(s: string)
    requires s != "" && !IsSpace(s[0])
    ensures var n := WordLen(s); Words(s) == [s[..n]] + Words(s[n..])
  {
    hide IsSpace, WordLen;
  }

  lemma TrimsOne(s: string)
    requires s != "" && IsSpace(s[0])
    ensures Words(s) == Words(s[1..])
  {
    hide IsSpace, WordLen;
  }

  // ---------- what the names are split into ----------

  predicate CommaFree(s: string) {
    forall i :: 0 <= i < |s| ==> s[i] != ','
  }

  lemma {:induction false} FirstComma(a: string, b: string)
    requires CommaFree(a)
    ensures IndexOf(a + "," + b, ",") == |a|
  {
    var s := a + "," + b;
    if a == "" {
      assert s[..1] == ",";
    } else {
      assert s[1..] == a[1..] + "," + b;
      FirstComma(a[1..], b);
      assert s[..1][0] == a[0] && a[0] != ',';
    }
  }

  lemma {:induction false} NoComma(s: string)
    requires CommaFree(s)
    ensures IndexOf(s, ",") < 0
  {
    if s != "" {
      NoComma(s[1..]);
      assert s[..1][0] == s[0] && s[0] != ',';
    }
  }

  /** "Last, First". */
  lemma SplitAtComma(last: string, first: string)
    requires CommaFree(last)
    ensures SplitFullName(last + "," + first) == Name(TrimSpace(first), TrimSpace(last))
  {
    hide TrimSpace;
    var s := last + "," + first;
    FirstComma(last, first);
    assert s[..|last|] == last && s[|last| + 1..] == first;
  }

  /** "First Middle Last", and a single name without a last one. */
  lemma SplitAtSpace(first: string, c: char, rest: string)
    requires first != "" && Spaceless(first) && IsSpace(c) && CommaFree(first + [c] + rest)
    ensures SplitFullName(first + [c] + rest) == Name(first, Join(Words(rest)))
    ensures SplitFullName(first) == Name(first, "")
  {
    hide IsSpace, Words;
    NoComma(first + [c] + rest);
    assert forall i :: 0 <= i < |first| ==> first[i] == (first + [c] + rest)[i];
    NoComma(first);
    WordsSplit(first, c, rest);
    WordsOfWord(first);
  }

  // ---------- what a link suggests ----------

  function Dashed(parts: seq<string>): string {
    if parts == [] then "" else if |parts| == 1 then parts[0] else parts[0] + "-" + Dashed(parts[1..])
  }

  predicate Free(s: string, c: char) {
    forall i :: 0 <= i < |s| ==> s[i] != c
  }

  lemma {:induction false} SplitsAt(a: string, c: char, b: string)
    requires Free(a, c)
    ensures SplitOn(a + [c] + b, c) == [a] + SplitOn(b, c)
    ensures SplitOn(a, c) == [a]
  {
    if a == "" {
      assert (a + [c] + b)[1..] == b;
    } else {
      assert (a + [c] + b)[1..] == a[1..] + [c] + b;
      SplitsAt(a[1..], c, b);
      assert [a[0]] + a[1..] == a;
    }
  }

  lemma {:induction false} SplitOfDashed(parts: seq<string>)
    requires parts != [] && forall i :: 0 <= i < |parts| ==> Free(parts[i], '-')
    ensures SplitOn(Dashed(parts), '-') == parts
  {
    if |parts| == 1 {
      SplitsAt(parts[0], '-', "");
    } else {
      SplitOfDashed(parts[1..]);
      SplitsAt(parts[0], '-', Dashed(parts[1..]));
    }
  }

  lemma {:induction false} FirstSlash(a: string, rest: string)
    requires Free(a, '/') && (rest == "" || rest[0] == '/')
    ensures IndexOf(a + rest, "/") == if rest == "" then -1 else |a|
  {
    if a == "" {
      if rest != "" { assert rest[..1] == "/"; }
      assert a + rest == rest;
    } else {
      assert (a + rest)[1..] == a[1..] + rest;
      FirstSlash(a[1..], rest);
      assert (a + rest)[..1][0] == a[0] && a[0] != '/';
    }
  }

  /** A link suggests the parts of its slug, each with a capital letter, as the words of a name; what
      follows the slug's end does not matter. */
  lemma SlugOfProfile(head: string, marker: string, parts: seq<string>, tail: string)
    requires parts != [] && forall i :: 0 <= i < |parts| ==> Free(parts[i], '-')
    requires Free(Dashed(parts), '/') && (tail == "" || tail[0] == '/')
    requires var url := head + marker + Dashed(parts) + tail;
      marker == Marker(url) && IndexOf(url, marker) == |head|
    ensures SlugName(head + marker + Dashed(parts) + tail) == Join(Capitalized(parts))
  {
    hide IndexOf, UpperChar, SplitOn, Join, Dashed, Marker;
    var url, slug := head + marker + Dashed(parts) + tail, Dashed(parts);
    assert url[|head| + |marker|..] == slug + tail;
    FirstSlash(slug, tail);
    CutAt(slug, tail);
    SplitOfDashed(parts);
  }

  lemma CutAt(a: string, b: string)
    ensures (a + b)[..|a|] == a && (b == "" ==> a + b == a)
  {
  }

  /** Each small letter has its capital, and nothing else changes. */
  lemma RaisesLetters(c: char, i: nat)
    ensures i < 26 && SMALL[i] == c ==> UpperChar(c) == CAPITALS[i]
    ensures c !in SMALL ==> UpperChar(c) == c
  {
    AreSmall(c);
  }

  lemma FoundAt(s: string, p: string, k: nat)
    requires p != "" && k <= |s| && HasPrefix(s[k..], p) && forall i :: 0 <= i < k ==> !HasPrefix(s[i..], p)
    ensures IndexOf(s, p) == k
  {
    hide IndexOf;
    IndexOfExactly(s, p);
    assert k < |s|;
  }

  lemma NotFound(s: string, p: string)
    requires p != "" && forall i :: 0 <= i < |s| ==> !HasPrefix(s[i..], p)
    ensures IndexOf(s, p) < 0
  {
    hide IndexOf;
    IndexOfExactly(s, p);
  }

  function Address(): string { "https://www.linkedin.com" }

  lemma NoPrefixFrom(s: string, i: nat, p: string, j: nat)
    requires j < |p| && i + j < |s| && s[i + j] != p[j]
    ensures !HasPrefix(s[i..], p)
  {
    assert |p| <= |s[i..]| ==> s[i..][..|p|][j] == s[i + j];
  }

  lemma AddressSlashes(rest: string, p: string)
    requires |p| >= 4 && p[0] == '/' && p[1] != '/' && p[1] != 'w'
    ensures |Address()| == 24 && forall i :: 0 <= i < 24 ==> !HasPrefix((Address() + rest)[i..], p)
  {
    hide HasPrefix;
    var s, a := Address() + rest, Address();
    assert forall i :: 0 <= i < 24 && a[i] == '/' ==> i == 6 || i == 7;
    forall i | 0 <= i < 24 ensures !HasPrefix(s[i..], p) {
      NoPrefixFrom(s, i, p, if a[i] == '/' then 1 else 0);
    }
  }

  /** The canonical link of a profile, "https://www.linkedin.com/in/ana-silva", suggests "Ana Silva". */
  lemma SlugOfIn(parts: seq<string>)
    requires parts != [] && forall i :: 0 <= i < |parts| ==> Free(parts[i], '-')
    requires Free(Dashed(parts), '/')
    ensures SlugName(Address() + "/in/" + Dashed(parts)) == Join(Capitalized(parts))
  {
    hide Dashed, SlugName, Join, IndexOf, HasPrefix, Marker, Address, Capitalized;
    var slug := Dashed(parts);
    var rest := "/in/" + slug;
    var url := Address() + "/in/" + slug;
    assert url == Address() + rest && url == url + "";
    AddressSlashes(rest, "/in/");
    AddressSlashes(rest, "/pub/");
    assert url[24..] == rest;
    StartsWith("/in/", slug);
    FoundAt(url, "/in/", 24);
    NoPubIn(url, slug);
    NotFound(url, "/pub/");
    MarkerOf(url);
    SlugOfProfile(Address(), "/in/", parts, "");
  }

  lemma StartsWith(p: string, rest: string)
    ensures HasPrefix(p + rest, p)
  {
  }

  lemma MarkerOf(url: string)
    ensures IndexOf(url, "/pub/") < 0 ==> Marker(url) == "/in/"
    ensures IndexOf(url, "/pub/") >= 0 ==> Marker(url) == "/pub/"
  {
    hide IndexOf;
  }

  lemma NoPubIn(url: string, slug: string)
    requires url == Address() + "/in/" + slug && Free(slug, '/')
    requires |Address()| == 24 && forall i :: 0 <= i < 24 ==> !HasPrefix(url[i..], "/pub/")
    ensures forall i :: 0 <= i < |url| ==> !HasPrefix(url[i..], "/pub/")
  {
    hide HasPrefix, Address;
    forall i | 24 <= i < |url| ensures !HasPrefix(url[i..], "/pub/") {
      assert i >= 28 ==> url[i] == slug[i - 28];
      if i == 27 {
        if |slug| >= 4 { NoPrefixFrom(url, i, "/pub/", 4); } else { TooShort(url[i..], "/pub/"); }
      } else {
        NoPrefixFrom(url, i, "/pub/", if i == 24 then 1 else 0);
      }
    }
  }

  lemma TooShort(s: string, p: string)
    requires |s| < |p|
    ensures !HasPrefix(s, p)
  {
  }

  /** And an old-style one, ".../pub/ana-silva/1/2/3", does so too, whatever follows the name. */
  lemma SlugOfPub(parts: seq<string>, tail: string)
    requires parts != [] && forall i :: 0 <= i < |parts| ==> Free(parts[i], '-')
    requires Free(Dashed(parts), '/') && (tail == "" || tail[0] == '/')
    ensures SlugName(Address() + "/pub/" + Dashed(parts) + tail) == Join(Capitalized(parts))
  {
    hide Dashed, SlugName, Join, IndexOf, HasPrefix, Marker, Address, Capitalized;
    PubUrl(Dashed(parts), tail);
    SlugOfProfile(Address(), "/pub/", parts, tail);
  }

  lemma PubUrl(slug: string, tail: string)
    ensures var url := Address() + "/pub/" + slug + tail;
      Marker(url) == "/pub/" && IndexOf(url, "/pub/") == |Address()|
  {
    hide IndexOf, HasPrefix, Marker, Address;
    var rest := slug + tail;
    var url := Address() + "/pub/" + slug + tail;
    assert url == Address() + ("/pub/" + rest);
    AddressSlashes("/pub/" + rest, "/pub/");
    assert url[24..] == "/pub/" + rest;
    StartsWith("/pub/", rest);
    FoundAt(url, "/pub/", 24);
    MarkerOf(url);
  }
}
