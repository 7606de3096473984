/** The message template renderer and the launch preview that runs beside it. */
module Templates {
  import opened Text

  datatype ContactData = ContactData(
    firstName: string, lastName: string, fullName: string, company: string, jobTitle: string,
    metadata: seq<(string, string)>)  // the string-valued entries, in the order the map is walked

  datatype RenderResult = RenderResult(text: string, needsReview: bool, missing: seq<string>)

  // ---------- the placeholder pattern ----------

  predicate NameChar(c: char) {
    'a' <= c <= 'z' || 'A' <= c <= 'Z' || '0' <= c <= '9' || c == '_' || c == '-'
  }

  predicate IsName(n: string) {
    n != "" && forall i :: 0 <= i < |n| ==> NameChar(n[i])
  }

  function NameRun(s: string): (r: nat)
    ensures r <= |s|
    ensures forall i :: 0 <= i < r ==> NameChar(s[i])
    ensures r < |s| ==> !NameChar(s[r])
  {
    if s != "" && NameChar(s[0]) then 1 + NameRun(s[1..]) else 0
  }

  /** The placeholder's name when the text starts with a match of the pattern. */
  function NameAtStart(s: string): (r: Option<string>)
    ensures r.Some? ==> IsName(r.value) && HasPrefix(s, Placeholder(r.value))
  {
    if |s| < 2 || s[0] != '{' || s[1] != '{' then None
    else
      var k := NameRun(s[2..]);
      if 0 < k && k + 4 <= |s| && s[k + 2] == '}' && s[k + 3] == '}' then
        assert s[..k + 4] == Placeholder(s[2..k + 2]);
        Some(s[2..k + 2])
      else None
  }

  /** The match at the start of a text, in both directions. */
  lemma NameAtStartExactly(s: string, n: string)
    ensures NameAtStart(s) == Some(n) <==> IsName(n) && HasPrefix(s, Placeholder(n))
  {
    if IsName(n) && HasPrefix(s, Placeholder(n)) {
      var p := Placeholder(n);
      assert |p| == |n| + 4 && s[..|p|] == p;
      assert s[0] == p[0] && s[1] == p[1];
      assert s[|n| + 2] == p[|n| + 2] == '}' && s[|n| + 3] == p[|n| + 3] == '}';
      assert forall i :: 0 <= i < |n| ==> s[2..][i] == s[i + 2] == p[i + 2] == n[i];
      assert s[2..][|n|] == '}';
      assert NameRun(s[2..]) == |n|;
      assert s[2..|n| + 2] == n;
    }
  }

  predicate MatchesAt(s: string, i: nat, n: string) {
    i <= |s| && IsName(n) && HasPrefix(s[i..], Placeholder(n))
  }

  /** The list of matches is what leftmost search without overlap gives: nothing if there is no match
      anywhere, and otherwise the leftmost match followed by the matches after its end. */
  lemma {:induction false} FindAllIsLeftmost(s: string, i: nat, n: string)
    ensures (forall j, m :: 0 <= j <= |s| ==> !MatchesAt(s, j, m)) ==> FindAll(s) == []
    ensures MatchesAt(s, i, n) && (forall j, m :: 0 <= j < i ==> !MatchesAt(s, j, m)) ==>
      i + |n| + 4 <= |s| && FindAll(s) == [n] + FindAll(s[i + |n| + 4..])
    decreases |s|
  {
    hide IsName, NameAtStart, HasPrefix;
    assert s[0..] == s;
    if MatchesAt(s, i, n) { PlaceholderFits(s[i..], n); }
    if s != "" {
      if NameAtStart(s).Some? {
        NameAtStartExactly(s, NameAtStart(s).value);
        assert MatchesAt(s, 0, NameAtStart(s).value);
      }
      if i == 0 {
        NameAtStartExactly(s, n);
        FindAllIsLeftmost(s[1..], 0, n);
      } else {
        FindAllIsLeftmost(s[1..], i - 1, n);
        if i <= |s| { assert s[1..][i - 1..] == s[i..]; }
        if i + |n| + 4 <= |s| { assert s[1..][i - 1 + |n| + 4..] == s[i + |n| + 4..]; }
      }
      forall j: nat, m | j <= |s[1..]| ensures MatchesAt(s[1..], j, m) <==> MatchesAt(s, j + 1, m) {
        assert s[1..][j..] == s[j + 1..];
      }
    }
  }

  lemma PlaceholderFits(s: string, n: string)
    requires HasPrefix(s, Placeholder(n))
    ensures |n| + 4 <= |s|
  {
  }

  function Placeholder(name: string): string {
    "{{" + name + "}}"
  }

  /** All matches of the pattern, left to right without overlap (the captured names). */
  function FindAll(s: string): seq<string> {
    if s == "" then []
    else match NameAtStart(s)
      case Some(n) => [n] + FindAll(s[|n| + 4..])
      case None => FindAll(s[1..])
  }

  // ---------- the values ----------

  function StandardValues(c: ContactData): map<string, string> {
    map["first_name" := TrimSpace(c.firstName), "last_name" := TrimSpace(c.lastName),
        "full_name" := TrimSpace(c.fullName), "company" := TrimSpace(c.company),
        "job_title" := TrimSpace(c.jobTitle)]
  }

  function WithMetadata(values: map<string, string>, metadata: seq<(string, string)>): map<string, string>
    decreases |metadata|
  {
    if metadata == [] then values
    else WithMetadata(values[Lower(metadata[0].0) := TrimSpace(metadata[0].1)], metadata[1..])
  }

  function Values(c: ContactData): map<string, string> {
    WithMetadata(StandardValues(c), c.metadata)
  }

  predicate Resolves(values: map<string, string>, name: string) {
    Lower(name) in values && values[Lower(name)] != ""
  }

  // ---------- sequential rendering ----------

  function MissingOf(names: seq<string>, values: map<string, string>): seq<string> {
    if names == [] then []
    else (if Resolves(values, names[0]) then [] else [Lower(names[0])]) + MissingOf(names[1..], values)
  }

  /** One replacement pass over the whole text for each match, in match order. */
  function ReplaceEach(text: string, names: seq<string>, values: map<string, string>): string
    decreases |names|
  {
    if names == [] then text
    else
      ReplaceEach(ReplaceOne(text, names[0], values), names[1..], values)
  }

  const TEMPLATE_EMPTY: seq<string> := ["template_empty"]

  function Rendered(template: string, contact: ContactData): RenderResult {
    RenderedWith(template, Values(contact))
  }

  function RenderedWith(template: string, values: map<string, string>): RenderResult {
    if Blank(template) then RenderResult("", true, TEMPLATE_EMPTY)
    else
      var names := FindAll(template);
      var missing := MissingOf(names, values);
      if missing != [] then RenderResult(template, true, missing)
      else RenderResult(ReplaceEach(template, names, values), false, [])
  }

  function ReplaceOne(text: string, n: string, values: map<string, string>): string {
    if Resolves(values, n) then ReplaceAll(text, Placeholder(n), values[Lower(n)]) else text
  }

  lemma {:induction false} MissingOfAppend(a: seq<string>, n: string, values: map<string, string>)
    ensures MissingOf(a + [n], values) == MissingOf(a, values) + (if Resolves(values, n) then [] else [Lower(n)])
  {
    if a == [] {
      assert a + [n] == [n];
    } else {
      assert (a + [n])[1..] == a[1..] + [n];
      MissingOfAppend(a[1..], n, values);
    }
  }

  lemma {:induction false} ReplaceEachAppend(text: string, a: seq<string>, n: string, values: map<string, string>)
    ensures ReplaceEach(text, a + [n], values) == ReplaceOne(ReplaceEach(text, a, values), n, values)
    decreases |a|
  {
    if a == [] {
      assert a + [n] == [n];
    } else {
      assert (a + [n])[1..] == a[1..] + [n];
      ReplaceEachAppend(ReplaceOne(text, a[0], values), a[1..], n, values);
    }
  }

  method CollectValues(contact: ContactData) returns (values: map<string, string>)
    ensures values == Values(contact)
  {
    hide StandardValues, Lower, TrimSpace;
    values := StandardValues(contact);
    var k := 0;
    while k < |contact.metadata|
      invariant 0 <= k <= |contact.metadata|
      invariant WithMetadata(values, contact.metadata[k..]) == Values(contact)
    {
      assert contact.metadata[k..][1..] == contact.metadata[k + 1..];
      values := values[Lower(contact.metadata[k].0) := TrimSpace(contact.metadata[k].1)];
      k := k + 1;
    }
  }

  method ReplaceMatches(template: string, matches: seq<string>, values: map<string, string>)
    returns (missing: seq<string>, rendered: string)
    ensures missing == MissingOf(matches, values)
    ensures rendered == ReplaceEach(template, matches, values)
  {
    missing, rendered := [], template;
    var k := 0;
    while k < |matches|
      invariant 0 <= k <= |matches|
      invariant missing == MissingOf(matches[..k], values)
      invariant rendered == ReplaceEach(template, matches[..k], values)
    {
      var name := matches[k];
      assert matches[..k + 1] == matches[..k] + [name];
      MissingOfAppend(matches[..k], name, values);
      ReplaceEachAppend(template, matches[..k], name, values);
      if !Resolves(values, name) {
        missing := missing + [Lower(name)];
      } else {
        rendered := ReplaceAll(rendered, Placeholder(name), values[Lower(name)]);
      }
      k := k + 1;
    }
    assert matches[..k] == matches;
  }

  method RenderWith(template: string, values: map<string, string>) returns (r: RenderResult)
    ensures r == RenderedWith(template, values)
  {
    if Blank(template) {
      return RenderResult("", true, TEMPLATE_EMPTY);
    }
    var matches := FindAll(template);
    var missing, rendered := ReplaceMatches(template, matches, values);
    if missing != [] {
      return RenderResult(template, true, missing);
    }
    return RenderResult(rendered, false, []);
  }

  method Render(template: string, contact: ContactData) returns (r: RenderResult)
    ensures r == Rendered(template, contact)
  {
    var values := CollectValues(contact);
    r := RenderWith(template, values);
  }

  // ---------- one-pass substitution ----------

  datatype Segment = Ch(c: char) | Var(name: string)

  function Parse(s: string): seq<Segment> {
    if s == "" then []
    else match NameAtStart(s)
      case Some(n) => [Var(n)] + Parse(s[|n| + 4..])
      case None => [Ch(s[0])] + Parse(s[1..])
  }

  predicate BraceFree(s: string) {
    forall i :: 0 <= i < |s| ==> s[i] != '{' && s[i] != '}'
  }

  /** Literal text without braces around well-formed placeholders. */
  predicate CleanSegments(segs: seq<Segment>) {
    forall i :: 0 <= i < |segs| ==>
      match segs[i] case Ch(c) => c != '{' && c != '}' case Var(n) => IsName(n)
  }

  function Names(segs: seq<Segment>): seq<string> {
    if segs == [] then []
    else (if segs[0].Var? then [segs[0].name] else []) + Names(segs[1..])
  }

  /** Every placeholder whose name is in `done` replaced by its value, in a single walk. */
  function Substitute(segs: seq<Segment>, done: set<string>, value: string -> string): string {
    if segs == [] then ""
    else
      (match segs[0]
       case Ch(c) => [c]
       case Var(n) => if n in done then value(n) else Placeholder(n))
      + Substitute(segs[1..], done, value)
  }

  function NameSet(names: seq<string>): set<string> {
    set n | n in names
  }

  function ValueOf(values: map<string, string>): string -> string {
    n => if Lower(n) in values then values[Lower(n)] else ""
  }

  /** The template parsed once, each placeholder replaced by its value. */
  function OnePass(template: string, values: map<string, string>): string {
    Substitute(Parse(template), NameSet(FindAll(template)), ValueOf(values))
  }

  predicate CleanTemplate(template: string) {
    CleanSegments(Parse(template))
  }

  lemma SegmentsCons(g: Segment, rest: seq<Segment>, value: string -> string)
    ensures Substitute([g] + rest, {}, value)
         == (match g case Ch(c) => [c] case Var(n) => Placeholder(n)) + Substitute(rest, {}, value)
    ensures Names([g] + rest) == (match g case Ch(_) => [] case Var(n) => [n]) + Names(rest)
  {
    assert ([g] + rest)[1..] == rest;
  }

  lemma {:induction false} ParseReproduces(s: string, value: string -> string)
    ensures Substitute(Parse(s), {}, value) == s
    ensures Names(Parse(s)) == FindAll(s)
  {
    hide NameAtStart, Placeholder, Substitute, Names;
    if s == "" {
      EmptySegments(value);
    } else {
      match NameAtStart(s)
      case Some(n) =>
        PlaceholderShape(n);
        var rest := s[|n| + 4..];
        ParseReproduces(rest, value);
        SegmentsCons(Var(n), Parse(rest), value);
        assert s == Placeholder(n) + rest;
      case None =>
        ParseReproduces(s[1..], value);
        SegmentsCons(Ch(s[0]), Parse(s[1..]), value);
        assert s == [s[0]] + s[1..];
    }
  }

  lemma EmptySegments(value: string -> string)
    ensures Substitute([], {}, value) == "" && Names([]) == []
  {
  }

  lemma PlaceholderShape(n: string)
    ensures |Placeholder(n)| == |n| + 4 && Placeholder(n)[0] == '{'
  {
  }

  lemma {:induction false} ReplaceSkipsPlainText(a: string, b: string, p: string, v: string)
    requires p != "" && forall i :: 0 <= i < |a| ==> a[i] != p[0]
    ensures ReplaceAll(a + b, p, v) == a + ReplaceAll(b, p, v)
  {
    if a == "" {
      assert a + b == b;
    } else {
      ReplaceSkipsPlainText(a[1..], b, p, v);
      ReplaceStep(a[0], a[1..] + b, p, v);
      assert a + b == [a[0]] + (a[1..] + b);
      assert a + ReplaceAll(b, p, v) == [a[0]] + (a[1..] + ReplaceAll(b, p, v));
    }
  }

  lemma ReplaceStep(c: char, rest: string, p: string, v: string)
    requires p != "" && c != p[0]
    ensures ReplaceAll([c] + rest, p, v) == [c] + ReplaceAll(rest, p, v)
  {
    NoPrefixAt([c] + rest, p, 0);
    assert ([c] + rest)[1..] == rest;
  }

  lemma NoPrefixAt(s: string, p: string, i: nat)
    requires i < |p| && i < |s| && s[i] != p[i]
    ensures !HasPrefix(s, p)
  {
    assert |p| <= |s| ==> s[..|p|][i] == s[i];
  }

  lemma SameLengthDiffer(m: string, n: string) returns (i: nat)
    requires |m| == |n| && m != n
    ensures i < |m| && m[i] != n[i]
  {
    assert m[..|m|] == m && n[..|n|] == n;
    i := 0;
    while i < |m| && m[i] == n[i]
      invariant i <= |m| && m[..i] == n[..i]
    {
      i := i + 1;
    }
  }

  lemma PlaceholdersDiffer(m: string, n: string, b: string)
    requires IsName(m) && IsName(n) && m != n
    ensures !HasPrefix(Placeholder(m) + b, Placeholder(n))
  {
    var s, p := Placeholder(m) + b, Placeholder(n);
    if |m| < |n| {
      assert NameChar(n[|m|]);
      NoPrefixAt(s, p, |m| + 2);
    } else if |n| < |m| {
      assert NameChar(m[|n|]);
      NoPrefixAt(s, p, |n| + 2);
    } else {
      var i := SameLengthDiffer(m, n);
      assert s[i + 2] == m[i] && p[i + 2] == n[i];
      NoPrefixAt(s, p, i + 2);
    }
  }

  lemma ReplaceSkipsOtherPlaceholder(m: string, n: string, b: string, v: string)
    requires IsName(m) && IsName(n) && m != n
    ensures ReplaceAll(Placeholder(m) + b, Placeholder(n), v)
         == Placeholder(m) + ReplaceAll(b, Placeholder(n), v)
  {
    var s, p := Placeholder(m) + b, Placeholder(n);
    PlaceholdersDiffer(m, n, b);
    var s1 := s[1..];
    var plain := m + "}}";
    assert s1 == "{" + (plain + b);
    assert s1[1] == m[0];
    assert NameChar(m[0]);
    NoPrefixAt(s1, p, 1);
    assert s1[1..] == plain + b;
    ReplaceSkipsPlainText(plain, b, Placeholder(n), v);
    assert Placeholder(m) == "{" + ("{" + plain);
    calc {
      ReplaceAll(s, p, v);
      [s[0]] + ReplaceAll(s1, p, v);
      "{" + ([s1[0]] + ReplaceAll(plain + b, p, v));
      "{" + ("{" + (plain + ReplaceAll(b, p, v)));
      ("{" + ("{" + plain)) + ReplaceAll(b, p, v);
    }
  }

  /** One ReplaceAll pass resolves exactly one more name. */
  lemma {:induction false} ReplaceResolvesOneName(
    segs: seq<Segment>, done: set<string>, n: string, value: string -> string)
    requires CleanSegments(segs) && IsName(n) && n !in done
    requires forall m :: m in done ==> BraceFree(value(m))
    ensures ReplaceAll(Substitute(segs, done, value), Placeholder(n), value(n))
         == Substitute(segs, done + {n}, value)
  {
    if segs != [] {
      var rest := Substitute(segs[1..], done, value);
      ReplaceResolvesOneName(segs[1..], done, n, value);
      match segs[0]
      case Ch(c) =>
        ReplaceSkipsPlainText([c], rest, Placeholder(n), value(n));
      case Var(m) =>
        if m in done {
          ReplaceSkipsPlainText(value(m), rest, Placeholder(n), value(n));
        } else if m == n {
          var s := Placeholder(n) + rest;
          assert s[..|n| + 4] == Placeholder(n) && s[|n| + 4..] == rest;
        } else {
          ReplaceSkipsOtherPlaceholder(m, n, rest, value(n));
        }
    }
  }

  /** A pass for a name that is already resolved finds nothing. */
  lemma {:induction false} ReplaceAgainFindsNothing(
    segs: seq<Segment>, done: set<string>, n: string, value: string -> string, v: string)
    requires CleanSegments(segs) && IsName(n) && n in done
    requires forall m :: m in done ==> BraceFree(value(m))
    ensures ReplaceAll(Substitute(segs, done, value), Placeholder(n), v) == Substitute(segs, done, value)
  {
    if segs != [] {
      var rest := Substitute(segs[1..], done, value);
      ReplaceAgainFindsNothing(segs[1..], done, n, value, v);
      match segs[0]
      case Ch(c) =>
        ReplaceSkipsPlainText([c], rest, Placeholder(n), v);
      case Var(m) =>
        if m in done {
          ReplaceSkipsPlainText(value(m), rest, Placeholder(n), v);
        } else {
          ReplaceSkipsOtherPlaceholder(m, n, rest, v);
        }
    }
  }

  lemma {:induction false} ReplaceEachIsSubstitution(
    segs: seq<Segment>, done: set<string>, names: seq<string>, values: map<string, string>)
    requires CleanSegments(segs)
    requires forall n :: n in names ==> IsName(n) && Resolves(values, n)
    requires forall n :: n in done || n in names ==> BraceFree(ValueOf(values)(n))
    ensures ReplaceEach(Substitute(segs, done, ValueOf(values)), names, values)
         == Substitute(segs, done + NameSet(names), ValueOf(values))
    decreases |names|
  {
    hide ReplaceAll, Placeholder, Substitute, BraceFree, IsName, CleanSegments, Lower;
    var value := ValueOf(values);
    if names == [] {
      assert done + NameSet(names) == done;
    } else {
      var n := names[0];
      assert n in names;
      if n in done {
        ReplaceAgainFindsNothing(segs, done, n, value, value(n));
        assert done + {n} == done;
      } else {
        ReplaceResolvesOneName(segs, done, n, value);
      }
      assert forall m :: m in names[1..] ==> m in names;
      ReplaceEachIsSubstitution(segs, done + {n}, names[1..], values);
      assert done + {n} + NameSet(names[1..]) == done + NameSet(names) by {
        assert names == [n] + names[1..];
      }
    }
  }

  lemma {:induction false} FoundNamesAreNames(s: string)
    ensures forall n :: n in FindAll(s) ==> IsName(n)
  {
    if s != "" {
      match NameAtStart(s)
      case Some(n) => FoundNamesAreNames(s[|n| + 4..]);
      case None => FoundNamesAreNames(s[1..]);
    }
  }

  lemma {:induction false} NothingMissingIff(names: seq<string>, values: map<string, string>)
    ensures MissingOf(names, values) == [] <==> forall n :: n in names ==> Resolves(values, n)
  {
    if names != [] {
      NothingMissingIff(names[1..], values);
      assert names == [names[0]] + names[1..];
    }
  }

  /** Review is asked for exactly when the template is blank or a variable has no
      non-blank value; a non-blank template that needs review comes back untouched. */
  lemma ReviewExactly(template: string, values: map<string, string>)
    ensures var r := RenderedWith(template, values);
      && (r.needsReview <==> Blank(template) || exists n :: n in FindAll(template) && !Resolves(values, n))
      && (r.needsReview && !Blank(template) ==> r.text == template && r.missing == MissingOf(FindAll(template), values))
  {
    NothingMissingIff(FindAll(template), values);
  }

  /** The renderer's replacement loop over the match list, with its repeats and case
      variants, is a single substitution pass over the parsed template. */
  lemma SequentialIsOnePass(template: string, values: map<string, string>)
    requires CleanTemplate(template)
    requires !RenderedWith(template, values).needsReview
    requires forall n :: n in FindAll(template) ==> BraceFree(ValueOf(values)(n))
    ensures RenderedWith(template, values).text == OnePass(template, values)
  {
    var names := FindAll(template);
    ParseReproduces(template, ValueOf(values));
    FoundNamesAreNames(template);
    NothingMissingIff(names, values);
    ReplaceEachIsSubstitution(Parse(template), {}, names, values);
    assert {} + NameSet(names) == NameSet(names);
  }

  // ---------- the launch preview ----------

  datatype PreviewItem = PreviewItem(rendered: string, blocked: bool, missingVar: string)

  /** The variables the preview knows, in the order it replaces them, with the stored
      (untrimmed) field each one stands for. */
  function PreviewFields(c: ContactData): seq<(string, string)> {
    [("first_name", c.firstName), ("full_name", c.fullName), ("company", c.company), ("job_title", c.jobTitle)]
  }

  function ReplaceFields(text: string, fields: seq<(string, string)>): string
    decreases |fields|
  {
    if fields == [] then text
    else ReplaceFields(ReplaceAll(text, Placeholder(fields[0].0), fields[0].1), fields[1..])
  }

  function PreviewOf(template: string, fields: seq<(string, string)>): PreviewItem {
    var rendered := ReplaceFields(template, fields);
    var idx := IndexOf(rendered, "{{");
    var end := if idx < 0 then -1 else IndexOf(rendered[idx..], "}}");
    PreviewItem(rendered, idx >= 0, if 2 <= end then rendered[idx + 2..idx + end] else "")
  }

  datatype PreviewEntry = PreviewEntry(contactName: string, company: string, item: PreviewItem)

  const PREVIEWS: nat := 5

  /** The preview of the first five contacts of a cadence, in order, and whether it may be launched.
      `template` is the first MESSAGE step's, if the campaign has one. */
  method Preview(template: Option<string>, contacts: seq<ContactData>)
    returns (entries: seq<PreviewEntry>, canLaunch: bool)
    ensures |entries| == if template.None? then 0 else if |contacts| < PREVIEWS then |contacts| else PREVIEWS
    ensures forall i :: 0 <= i < |entries| ==>
      entries[i] == PreviewEntry(contacts[i].fullName, contacts[i].company,
                                 PreviewOf(template.value, PreviewFields(contacts[i])))
    ensures canLaunch
      <==> template.Some? && contacts != [] && forall i :: 0 <= i < |entries| ==> !entries[i].item.blocked
  {
    hide PreviewOf, PreviewFields;
    entries := [];
    if template.None? { return [], false; }
    var blocked := false;
    var n := if |contacts| < PREVIEWS then |contacts| else PREVIEWS;
    for k := 0 to n
      invariant |entries| == k
      invariant forall i :: 0 <= i < k ==>
        entries[i] == PreviewEntry(contacts[i].fullName, contacts[i].company,
                                   PreviewOf(template.value, PreviewFields(contacts[i])))
      invariant blocked <==> exists i :: 0 <= i < k && entries[i].item.blocked
    {
      var item := PreviewOf(template.value, PreviewFields(contacts[k]));
      entries := entries + [PreviewEntry(contacts[k].fullName, contacts[k].company, item)];
      blocked := blocked || item.blocked;
    }
    canLaunch := entries != [] && !blocked;
  }

  function FieldNames(fields: seq<(string, string)>): (r: set<string>)
    ensures forall i :: 0 <= i < |fields| ==> fields[i].0 in r
    ensures forall n :: n in r ==> exists i :: 0 <= i < |fields| && fields[i].0 == n
  {
    set i | 0 <= i < |fields| :: fields[i].0
  }

  /** Proper variable names, no name twice, and no brace inside a stored value. */
  predicate CleanFields(fields: seq<(string, string)>) {
    && (forall i :: 0 <= i < |fields| ==> IsName(fields[i].0) && BraceFree(fields[i].1))
    && (forall i, j :: 0 <= i < j < |fields| ==> fields[i].0 != fields[j].0)
  }

  function FieldValue(fields: seq<(string, string)>): string -> string {
    (n: string) => Lookup(fields, n)
  }

  function Lookup(fields: seq<(string, string)>, n: string): string {
    if fields == [] then "" else if fields[0].0 == n then fields[0].1 else Lookup(fields[1..], n)
  }

  lemma {:induction false} LookupAt(fields: seq<(string, string)>, k: nat)
    requires CleanFields(fields) && k < |fields|
    ensures Lookup(fields, fields[k].0) == fields[k].1
  {
    if k > 0 {
      LookupAt(fields[1..], k - 1);
    }
  }

  lemma {:induction false} ReplaceFieldsIsSubstitution(
    segs: seq<Segment>, done: set<string>, fields: seq<(string, string)>, value: string -> string)
    requires CleanSegments(segs) && CleanFields(fields)
    requires FieldNames(fields) !! done
    requires forall n :: n in done ==> BraceFree(value(n))
    requires forall i :: 0 <= i < |fields| ==> value(fields[i].0) == fields[i].1
    ensures ReplaceFields(Substitute(segs, done, value), fields)
         == Substitute(segs, done + FieldNames(fields), value)
    decreases |fields|
  {
    if fields == [] {
      assert done + FieldNames(fields) == done;
    } else {
      var n, rest := fields[0].0, fields[1..];
      ReplaceResolvesOneName(segs, done, n, value);
      assert forall i :: 0 <= i < |rest| ==> rest[i] == fields[i + 1];
      ReplaceFieldsIsSubstitution(segs, done + {n}, rest, value);
      assert FieldNames(fields) == {n} + FieldNames(rest) by {
        assert fields == [fields[0]] + rest;
      }
      assert done + {n} + FieldNames(rest) == done + FieldNames(fields);
    }
  }

  lemma PreviewTextIsSubstitution(template: string, fields: seq<(string, string)>)
    requires CleanTemplate(template) && CleanFields(fields)
    ensures ReplaceFields(template, fields)
         == Substitute(Parse(template), FieldNames(fields), FieldValue(fields))
    ensures forall n :: n in FieldNames(fields) ==> BraceFree(FieldValue(fields)(n))
  {
    hide ReplaceFields, Substitute, Parse, BraceFree, Lookup;
    var value := FieldValue(fields);
    ParseReproduces(template, value);
    forall i | 0 <= i < |fields| ensures value(fields[i].0) == fields[i].1 { LookupAt(fields, i); }
    ReplaceFieldsIsSubstitution(Parse(template), {}, fields, value);
    assert {} + FieldNames(fields) == FieldNames(fields);
  }

  lemma {:induction false} IndexSkipsPlainText(a: string, b: string, p: string)
    requires p != "" && forall i :: 0 <= i < |a| ==> a[i] != p[0]
    ensures var r := IndexOf(b, p); IndexOf(a + b, p) == if r < 0 then -1 else |a| + r
  {
    if a == "" {
      assert a + b == b;
    } else {
      NoPrefixAt(a + b, p, 0);
      assert (a + b)[1..] == a[1..] + b;
      IndexSkipsPlainText(a[1..], b, p);
    }
  }

  /** The first name outside `done`, if any. */
  function FirstOpen(names: seq<string>, done: set<string>): Option<string> {
    if names == [] then None
    else if names[0] !in done then Some(names[0])
    else FirstOpen(names[1..], done)
  }

  /** What the preview reads off a rendered text: the name between the leftmost double
      opening brace and the next double closing brace, if there is one. */
  predicate OpensWith(s: string, name: Option<string>) {
    var idx := IndexOf(s, "{{");
    && (idx < 0 <==> name.None?)
    && (name.Some? ==> var end := IndexOf(s[idx..], "}}"); 2 <= end && s[idx + 2..idx + end] == name.value)
  }

  lemma OpensAfterPlainText(a: string, rest: string, name: Option<string>)
    requires BraceFree(a) && OpensWith(rest, name)
    ensures OpensWith(a + rest, name)
  {
    hide IndexOf, HasPrefix;
    var i := IndexOf(rest, "{{");
    IndexSkipsPlainText(a, rest, "{{");
    if name.Some? {
      assert (a + rest)[|a| + i..] == rest[i..];
      var end := IndexOf(rest[i..], "}}");
      assert (a + rest)[|a| + i + 2..|a| + i + end] == rest[i + 2..i + end];
    }
  }

  lemma OpensWithPlaceholder(n: string, rest: string)
    requires IsName(n)
    ensures OpensWith(Placeholder(n) + rest, Some(n))
  {
    var s, body := Placeholder(n) + rest, "{{" + n;
    assert s[..2] == "{{";
    assert s[0..] == s == body + ("}}" + rest);
    IndexSkipsPlainText(body, "}}" + rest, "}}");
    assert ("}}" + rest)[..2] == "}}";
    assert s[2..|n| + 2] == n;
  }

  /** In a substituted text the leftmost double brace opens the first unresolved placeholder. */
  lemma {:induction false} LeftmostBraceIsFirstOpen(segs: seq<Segment>, done: set<string>, value: string -> string)
    requires CleanSegments(segs)
    requires forall n :: n in done ==> BraceFree(value(n))
    ensures OpensWith(Substitute(segs, done, value), FirstOpen(Names(segs), done))
  {
    hide OpensWith, Placeholder;
    if segs == [] {
      EmptyOpensNothing();
    } else {
      var rest := Substitute(segs[1..], done, value);
      LeftmostBraceIsFirstOpen(segs[1..], done, value);
      match segs[0]
      case Ch(c) =>
        OpensAfterPlainText([c], rest, FirstOpen(Names(segs[1..]), done));
        assert Names(segs) == Names(segs[1..]);
      case Var(n) =>
        if n in done {
          OpensAfterPlainText(value(n), rest, FirstOpen(Names(segs[1..]), done));
        } else {
          OpensWithPlaceholder(n, rest);
        }
        assert Names(segs)[1..] == Names(segs[1..]);
    }
  }

  lemma EmptyOpensNothing()
    ensures OpensWith("", None)
  {
  }

  lemma {:induction false} FirstOpenIff(names: seq<string>, done: set<string>)
    ensures FirstOpen(names, done).None? <==> forall n :: n in names ==> n in done
  {
    if names != [] {
      assert names == [names[0]] + names[1..];
      FirstOpenIff(names[1..], done);
    }
  }

  lemma PreviewReads(template: string, fields: seq<(string, string)>, name: Option<string>)
    requires OpensWith(ReplaceFields(template, fields), name)
    ensures var item := PreviewOf(template, fields);
      && (item.blocked <==> name.Some?) && (name.Some? ==> item.missingVar == name.value)
      && item.rendered == ReplaceFields(template, fields)
  {
    hide ReplaceFields, IndexOf;
  }

  /** A preview is blocked exactly when the template uses a variable other than the fields it
      knows, spelt as it spells them, and then it names the first such variable. */
  lemma PreviewBlocksExactly(template: string, fields: seq<(string, string)>)
    requires CleanTemplate(template) && CleanFields(fields)
    ensures var item := PreviewOf(template, fields);
      && (item.blocked <==> exists n :: n in FindAll(template) && n !in FieldNames(fields))
      && (item.blocked ==> Some(item.missingVar) == FirstOpen(FindAll(template), FieldNames(fields)))
  {
    hide *;
    var value, done := FieldValue(fields), FieldNames(fields);
    PreviewTextIsSubstitution(template, fields);
    ParseReproduces(template, value);
    CleanMeans(template);
    LeftmostBraceIsFirstOpen(Parse(template), done, value);
    FirstOpenIff(FindAll(template), done);
    PreviewReads(template, fields, FirstOpen(FindAll(template), done));
  }

  lemma CleanMeans(template: string)
    ensures CleanTemplate(template) <==> CleanSegments(Parse(template))
  {
  }

  lemma {:induction false} SubstituteAgrees(
    segs: seq<Segment>, d1: set<string>, v1: string -> string, d2: set<string>, v2: string -> string)
    requires forall n :: n in Names(segs) ==> n in d1 && n in d2 && v1(n) == v2(n)
    ensures Substitute(segs, d1, v1) == Substitute(segs, d2, v2)
  {
    if segs != [] {
      assert forall n :: n in Names(segs[1..]) ==> n in Names(segs);
      SubstituteAgrees(segs[1..], d1, v1, d2, v2);
      if segs[0].Var? {
        assert segs[0].name in Names(segs);
      }
    }
  }

  /** The renderer's value of every previewed variable is the stored field, trimmed. */
  predicate SameFields(fields: seq<(string, string)>, values: map<string, string>) {
    forall i :: 0 <= i < |fields| ==>
      var n := fields[i].0; Lower(n) in values && values[Lower(n)] == TrimSpace(fields[i].1)
  }

  lemma SameFieldValue(fields: seq<(string, string)>, values: map<string, string>, n: string)
    requires CleanFields(fields) && SameFields(fields, values) && n in FieldNames(fields)
    ensures Resolves(values, n) <==> !Blank(FieldValue(fields)(n))
    ensures BraceFree(ValueOf(values)(n))
    ensures Trimmed(FieldValue(fields)(n)) ==> ValueOf(values)(n) == FieldValue(fields)(n)
  {
    hide Trimmed, TrimSpace, Lookup, BraceFree, IsName;
    var i :| 0 <= i < |fields| && fields[i].0 == n;
    LookupAt(fields, i);
    var v := fields[i].1;
    if Trimmed(v) { TrimSpaceKeepsTrimmed(v); }
    BraceFreeTrim(v);
  }

  lemma BraceFreeTrim(v: string)
    requires BraceFree(v)
    ensures BraceFree(TrimSpace(v))
  {
    hide TrimLeft, TrimRight;
    var l := TrimLeft(v);
    BraceFreeSlice(v, |v| - |l|, |v|);
    BraceFreeSlice(l, 0, |TrimRight(l)|);
  }

  lemma BraceFreeSlice(v: string, i: nat, j: nat)
    requires BraceFree(v) && i <= j <= |v|
    ensures BraceFree(v[i..j])
  {
  }

  /** What an unblocked preview promises: the worker's renderer refuses the contact exactly
      when a field the template uses is blank, and otherwise, for fields stored trimmed, it
      sends the very text that was previewed. */
  lemma PreviewSoundForRenderer(template: string, fields: seq<(string, string)>, values: map<string, string>)
    requires CleanTemplate(template) && !Blank(template)
    requires CleanFields(fields) && SameFields(fields, values)
    requires !PreviewOf(template, fields).blocked
    ensures RenderedWith(template, values).needsReview
      <==> exists n :: n in FindAll(template) && Blank(FieldValue(fields)(n))
    ensures !RenderedWith(template, values).needsReview
      && (forall n :: n in FindAll(template) ==> Trimmed(FieldValue(fields)(n)))
      ==> RenderedWith(template, values).text == PreviewOf(template, fields).rendered
  {
    hide *;
    var names, value := FindAll(template), FieldValue(fields);
    PreviewBlocksExactly(template, fields);
    ReviewExactly(template, values);
    forall n | n in names
      ensures Resolves(values, n) <==> !Blank(value(n))
      ensures BraceFree(ValueOf(values)(n))
      ensures Trimmed(value(n)) ==> ValueOf(values)(n) == value(n)
    {
      SameFieldValue(fields, values, n);
    }
    if !RenderedWith(template, values).needsReview && forall n :: n in names ==> Trimmed(value(n)) {
      SequentialIsOnePass(template, values);
      PreviewTextIsSubstitution(template, fields);
      PreviewTextIs(template, fields);
      ParseReproduces(template, value);
      OnePassIs(template, values);
      SubstituteAgrees(Parse(template), NameSet(names), ValueOf(values), FieldNames(fields), value);
    }
  }

  lemma PreviewTextIs(template: string, fields: seq<(string, string)>)
    ensures PreviewOf(template, fields).rendered == ReplaceFields(template, fields)
  {
    hide ReplaceFields;
  }

  lemma OnePassIs(template: string, values: map<string, string>)
    ensures OnePass(template, values) == Substitute(Parse(template), NameSet(FindAll(template)), ValueOf(values))
    ensures forall n :: n in FindAll(template) ==> n in NameSet(FindAll(template))
  {
  }

  /** The four columns the preview replaces are among the columns the renderer fills in. */
  lemma PreviewFieldsAgree(c: ContactData)
    requires c.metadata == []
    requires BraceFree(c.firstName) && BraceFree(c.fullName) && BraceFree(c.company) && BraceFree(c.jobTitle)
    ensures CleanFields(PreviewFields(c)) && SameFields(PreviewFields(c), Values(c))
  {
    hide TrimSpace, BraceFree;
    PreviewNamesDiffer();
    PreviewNamesLower();
    StandardValuesOf(c);
  }

  lemma PreviewNamesDiffer()
    ensures IsName("first_name") && IsName("full_name") && IsName("company") && IsName("job_title")
    ensures "full_name" != "first_name" && "company" !in {"first_name", "full_name"}
    ensures "job_title" !in {"first_name", "full_name", "company"}
  {
    assert "job_title"[0] != "full_name"[0];
  }

  lemma PreviewNamesLower()
    ensures Lower("first_name") == "first_name" && Lower("full_name") == "full_name"
    ensures Lower("company") == "company" && Lower("job_title") == "job_title"
  {
  }

  lemma StandardValuesOf(c: ContactData)
    ensures var v := StandardValues(c);
      && {"first_name", "full_name", "company", "job_title"} <= v.Keys
      && v["first_name"] == TrimSpace(c.firstName) && v["full_name"] == TrimSpace(c.fullName)
      && v["company"] == TrimSpace(c.company) && v["job_title"] == TrimSpace(c.jobTitle)
  {
    hide TrimSpace;
    PreviewNamesDiffer();
  }

  lemma RunOfName(n: string)
    requires IsName(n)
    ensures NameRun(n + "}}") == |n|
  {
    var tail := n + "}}";
    assert tail[|n|] == '}' && !NameChar('}');
    assert forall i :: 0 <= i < |n| ==> tail[i] == n[i] && NameChar(tail[i]);
  }

  lemma PlaceholderAtStart(n: string)
    requires IsName(n)
    ensures NameAtStart(Placeholder(n)) == Some(n)
  {
    hide NameRun;
    var t := Placeholder(n);
    assert t[2..] == n + "}}";
    RunOfName(n);
    assert t[2..|n| + 2] == n;
  }

  lemma LonePlaceholder(n: string)
    requires IsName(n)
    ensures Parse(Placeholder(n)) == [Var(n)] && FindAll(Placeholder(n)) == [n]
    ensures !Blank(Placeholder(n))
  {
    hide NameAtStart, TrimSpace;
    PlaceholderAtStart(n);
    var t := Placeholder(n);
    assert t != "" && t[|n| + 4..] == "";
    TrimSpaceKeepsTrimmed(t);
  }

  /** The case the preview misses: a blank field is previewed as launchable, and the worker
      then stops the contact. */
  lemma PreviewMissesBlankField(fields: seq<(string, string)>, k: nat, values: map<string, string>)
    requires k < |fields| && CleanFields(fields) && SameFields(fields, values) && Blank(fields[k].1)
    ensures var t := Placeholder(fields[k].0);
      !PreviewOf(t, fields).blocked && RenderedWith(t, values).needsReview
  {
    hide PreviewOf, RenderedWith, Parse, FindAll, Placeholder, Blank, Lookup;
    var n := fields[k].0;
    LonePlaceholder(n);
    LookupAt(fields, k);
    PreviewBlocksExactly(Placeholder(n), fields);
    PreviewSoundForRenderer(Placeholder(n), fields, values);
    assert n in FindAll(Placeholder(n));
  }
}
