/** Where the renderer takes each variable's value from, said of its names and columns. */
module TemplateValues {
  import opened Text
  import opened Templates

  // ---------- the table ----------

  /** The i-th metadata entry is the last one whose key is `n` in lower case. */
  predicate LastEntry(metadata: seq<(string, string)>, n: string, i: nat) {
    && i < |metadata| && Lower(metadata[i].0) == n
    && forall j :: i < j < |metadata| ==> Lower(metadata[j].0) != n
  }

  predicate NoEntry(metadata: seq<(string, string)>, n: string) {
    forall i :: 0 <= i < |metadata| ==> Lower(metadata[i].0) != n
  }

  lemma {:induction false} MetadataExactly(
    values: map<string, string>, metadata: seq<(string, string)>, n: string, i: nat)
    ensures var v := WithMetadata(values, metadata);
      && (LastEntry(metadata, n, i) ==> n in v && v[n] == TrimSpace(metadata[i].1))
      && (NoEntry(metadata, n) ==> (n in v <==> n in values) && (n in v ==> v[n] == values[n]))
    decreases |metadata|
  {
    hide Lower, TrimSpace;
    if metadata != [] {
      var rest := metadata[1..];
      var next := values[Lower(metadata[0].0) := TrimSpace(metadata[0].1)];
      if i > 0 {
        MetadataExactly(next, rest, n, i - 1);
        if LastEntry(metadata, n, i) { assert LastEntry(rest, n, i - 1); }
      } else {
        MetadataExactly(next, rest, n, 0);
        if LastEntry(metadata, n, 0) { assert NoEntry(rest, n); }
      }
      if NoEntry(metadata, n) { assert NoEntry(rest, n); }
    }
  }

  /** Under each column's name `v` holds that column, trimmed, and under any other name nothing. */
  predicate ColumnsUnder(c: ContactData, n: string, v: map<string, string>) {
    && (n == "first_name" ==> n in v && v[n] == TrimSpace(c.firstName))
    && (n == "last_name" ==> n in v && v[n] == TrimSpace(c.lastName))
    && (n == "full_name" ==> n in v && v[n] == TrimSpace(c.fullName))
    && (n == "company" ==> n in v && v[n] == TrimSpace(c.company))
    && (n == "job_title" ==> n in v && v[n] == TrimSpace(c.jobTitle))
    && (n !in {"first_name", "last_name", "full_name", "company", "job_title"} ==> n !in v)
  }

  lemma StandardExactly(c: ContactData, n: string)
    ensures ColumnsUnder(c, n, StandardValues(c))
  {
    hide TrimSpace;
    ColumnNamesDiffer();
  }

  lemma ColumnNamesDiffer()
    ensures "job_title" !in {"first_name", "last_name", "full_name", "company"}
    ensures "full_name" !in {"first_name", "last_name", "company"} && "company" !in {"first_name", "last_name"}
    ensures "last_name" != "first_name"
  {
    assert "job_title"[0] == 'j' && "full_name"[1] == 'u' && "last_name"[0] == 'l' && "first_name"[1] == 'i';
    assert "company"[0] == 'c' && "full_name"[0] == 'f' && "first_name"[0] == 'f';
  }

  /** The value of every name: the trimmed text of the last metadata entry with that key in lower case;
      without one, the trimmed column of that name; and otherwise there is none. */
  lemma ValuesExactly(c: ContactData, n: string)
    ensures forall i: nat :: LastEntry(c.metadata, n, i) ==>
      n in Values(c) && Values(c)[n] == TrimSpace(c.metadata[i].1)
    ensures NoEntry(c.metadata, n) ==> ColumnsUnder(c, n, Values(c))
  {
    StandardExactly(c, n);
    var standard, v := StandardValues(c), Values(c);
    forall i: nat ensures LastEntry(c.metadata, n, i) ==> n in v && v[n] == TrimSpace(c.metadata[i].1) {
      MetadataExactly(standard, c.metadata, n, i);
    }
    if NoEntry(c.metadata, n) {
      MetadataExactly(standard, c.metadata, n, 0);
      SameUnder(c, n, standard, v);
    }
    hide *;
  }

  lemma SameUnder(c: ContactData, n: string, v: map<string, string>, w: map<string, string>)
    requires ColumnsUnder(c, n, v) && (n in v <==> n in w) && (n in v ==> w[n] == v[n])
    ensures ColumnsUnder(c, n, w)
  {
    hide TrimSpace;
  }

  /** What a name may be made of. */
  lemma NameCharsExactly(c: char)
    ensures NameChar(c) <==> c in SMALL || c in CAPITALS || c in "0123456789_-"
  {
    AreSmall(c);
    AreCapitals(c);
    AreOthers(c);
    hide SMALL, CAPITALS;
  }

  lemma AreOthers(c: char)
    ensures c in "0123456789_-" <==> '0' <= c <= '9' || c == '_' || c == '-'
  {
    if '0' <= c <= '9' { assert "0123456789_-"[c as int - '0' as int] == c; }
  }

  // ---------- what a placeholder renders to ----------

  /** A template that is one placeholder, in any letter case, renders to its variable's value, and is
      held back, naming the variable, when that value is missing or blank. */
  lemma LonePlaceholderRenders(n: string, values: map<string, string>)
    requires IsName(n)
    ensures RenderedWith(Placeholder(n), values)
         == if Lower(n) in values && values[Lower(n)] != "" then RenderResult(values[Lower(n)], false, [])
            else RenderResult(Placeholder(n), true, [Lower(n)])
  {
    LonePlaceholder(n);
    var t := Placeholder(n);
    assert [n][1..] == [] && MissingOf([], values) == [];
    if Resolves(values, n) {
      var v := values[Lower(n)];
      ReplacesItself(t, v);
      assert ReplaceEach(t, [n], values) == ReplaceEach(ReplaceOne(t, n, values), [], values);
    }
    hide *;
  }

  lemma ReplacesItself(t: string, v: string)
    requires t != ""
    ensures ReplaceAll(t, t, v) == v
  {
    assert t[..|t|] == t && t[|t|..] == "";
  }

  /** The renderer's answer for a template that is one placeholder, for a column holding `text`. */
  function ColumnAnswer(n: string, text: string): RenderResult {
    if Blank(text) then RenderResult(Placeholder(n), true, [Lower(n)])
    else RenderResult(TrimSpace(text), false, [])
  }

  /** Each column under its own placeholder, however that is capitalised. */
  lemma ColumnsRender(c: ContactData, n: string)
    requires IsName(n) && NoEntry(c.metadata, Lower(n))
    ensures var r := Rendered(Placeholder(n), c);
      && (Lower(n) == "first_name" ==> r == ColumnAnswer(n, c.firstName))
      && (Lower(n) == "last_name" ==> r == ColumnAnswer(n, c.lastName))
      && (Lower(n) == "full_name" ==> r == ColumnAnswer(n, c.fullName))
      && (Lower(n) == "company" ==> r == ColumnAnswer(n, c.company))
      && (Lower(n) == "job_title" ==> r == ColumnAnswer(n, c.jobTitle))
      && (Lower(n) !in {"first_name", "last_name", "full_name", "company", "job_title"} ==>
            r == RenderResult(Placeholder(n), true, [Lower(n)]))
  {
    hide Values, RenderedWith, Placeholder, TrimSpace, Lower, IsName;
    ValuesExactly(c, Lower(n));
    LonePlaceholderRenders(n, Values(c));
  }

  /** And a metadata entry under its key, before any column of that name. */
  lemma EntryRenders(c: ContactData, n: string, i: nat)
    requires IsName(n) && LastEntry(c.metadata, Lower(n), i)
    ensures Rendered(Placeholder(n), c) == ColumnAnswer(n, c.metadata[i].1)
  {
    hide Values, RenderedWith, Placeholder, TrimSpace, Lower, IsName;
    ValuesExactly(c, Lower(n));
    LonePlaceholderRenders(n, Values(c));
  }

  // ---------- no placeholder is left over ----------

  lemma {:induction false} BraceFreeHasNoMatch(s: string)
    requires BraceFree(s)
    ensures FindAll(s) == [] && IndexOf(s, "{{") < 0
  {
    if s != "" { BraceFreeHasNoMatch(s[1..]); }
  }

  lemma {:induction false} SubstitutedIsBraceFree(segs: seq<Segment>, done: set<string>, value: string -> string)
    requires CleanSegments(segs) && (forall n :: n in Names(segs) ==> n in done)
    requires forall n :: n in done ==> BraceFree(value(n))
    ensures BraceFree(Substitute(segs, done, value))
  {
    if segs != [] {
      assert forall n :: n in Names(segs[1..]) ==> n in Names(segs);
      if segs[0].Var? { assert segs[0].name in Names(segs); }
      SubstitutedIsBraceFree(segs[1..], done, value);
    }
  }

  /** A text that is sent never shows a raw placeholder: not a brace of the template is left. */
  lemma NothingLeftToFill(template: string, values: map<string, string>)
    requires CleanTemplate(template) && !RenderedWith(template, values).needsReview
    requires forall n :: n in FindAll(template) ==> BraceFree(ValueOf(values)(n))
    ensures var text := RenderedWith(template, values).text;
      BraceFree(text) && FindAll(text) == [] && IndexOf(text, "{{") < 0
  {
    hide RenderedWith, Substitute, BraceFree, Parse, FindAll;
    SequentialIsOnePass(template, values);
    ParseReproduces(template, ValueOf(values));
    CleanMeans(template);
    OnePassIs(template, values);
    SubstitutedIsBraceFree(Parse(template), NameSet(FindAll(template)), ValueOf(values));
    BraceFreeHasNoMatch(RenderedWith(template, values).text);
  }
}
