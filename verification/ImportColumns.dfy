/** Which fields of a record fill which columns of its row, said of the keys a file may spell. */
module ImportColumns {
  import opened Text
  import opened ContactNames
  import opened Import

  // ---------- the text under an alias ----------

  /** Some field has this key, once normalised, and every such field holds this text. */
  predicate Holds(rec: Record, k: string, t: string) {
    && (exists i :: 0 <= i < |rec| && NormalKey(rec[i].key) == k)
    && (forall i :: 0 <= i < |rec| && NormalKey(rec[i].key) == k ==> TextIn(rec[i].value) == t)
  }

  /** No field with this key holds any text. */
  predicate Textless(rec: Record, k: string) {
    forall i :: 0 <= i < |rec| && NormalKey(rec[i].key) == k ==> TextIn(rec[i].value) == ""
  }

  /** The alias at position `a` is the first one under which there is text, and that is `t`. */
  predicate FirstIs(rec: Record, aliases: seq<string>, a: nat, t: string) {
    && a < |aliases| && t != "" && Holds(rec, aliases[a], t)
    && forall b :: 0 <= b < a ==> Textless(rec, aliases[b])
  }

  predicate NoneHas(rec: Record, aliases: seq<string>) {
    forall b :: 0 <= b < |aliases| ==> Textless(rec, aliases[b])
  }

  lemma KeyText(rec: Record, norm: map<string, Json>, k: string)
    requires norm in PossibleNorms(rec)
    ensures forall t :: Holds(rec, k, t) ==> k in norm && TextIn(norm[k]) == t
    ensures Textless(rec, k) && k in norm ==> TextIn(norm[k]) == ""
  {
    hide PossibleNorms, NormalKey, TextIn;
    assert rec[..|rec|] == rec;
    NormsArePicks(rec, |rec|, norm);
    if k in norm {
      var i :| i in Indices(|rec|) && NormalKey(rec[i].key) == k && rec[i].value == norm[k];
    }
    forall t | Holds(rec, k, t) ensures k in norm {
      var i :| 0 <= i < |rec| && NormalKey(rec[i].key) == k;
      assert i in Indices(|rec|);
    }
  }

  lemma {:induction false} AliasText(rec: Record, norm: map<string, Json>, aliases: seq<string>, a: nat, t: string)
    requires norm in PossibleNorms(rec)
    ensures FirstIs(rec, aliases, a, t) ==> FirstText(norm, aliases) == t
    ensures NoneHas(rec, aliases) ==> FirstText(norm, aliases) == ""
  {
    hide PossibleNorms, NormalKey, TextIn, Holds, Textless;
    if aliases != [] {
      KeyText(rec, norm, aliases[0]);
      if a > 0 {
        AliasText(rec, norm, aliases[1..], a - 1, t);
        if FirstIs(rec, aliases, a, t) {
          assert forall b :: 0 <= b < a - 1 ==> aliases[1..][b] == aliases[b + 1];
          assert FirstIs(rec, aliases[1..], a - 1, t);
        }
      } else {
        AliasText(rec, norm, aliases[1..], 0, t);
      }
      if NoneHas(rec, aliases) {
        assert forall b :: 0 <= b < |aliases[1..]| ==> aliases[1..][b] == aliases[b + 1];
      }
    }
  }

  /** Some field with this key holds this text. */
  predicate Offers(rec: Record, k: string, t: string) {
    exists i :: 0 <= i < |rec| && NormalKey(rec[i].key) == k && TextIn(rec[i].value) == t
  }

  /** No field has this key, or one that does holds no text. */
  predicate MaySkip(rec: Record, k: string) {
    Offers(rec, k, "") || forall i :: 0 <= i < |rec| ==> NormalKey(rec[i].key) != k
  }

  /** The text comes from one of the aliases, and every alias before it may turn out without any. */
  predicate ComesFrom(rec: Record, aliases: seq<string>, t: string) {
    if aliases == [] then t == ""
    else
      (t != "" && Offers(rec, aliases[0], t))
      || (MaySkip(rec, aliases[0]) && ComesFrom(rec, aliases[1..], t))
  }

  lemma KeyOffers(rec: Record, norm: map<string, Json>, k: string)
    requires norm in PossibleNorms(rec)
    ensures k in norm ==> Offers(rec, k, TextIn(norm[k]))
    ensures k !in norm ==> MaySkip(rec, k)
  {
    hide PossibleNorms, NormalKey, TextIn;
    assert rec[..|rec|] == rec;
    NormsArePicks(rec, |rec|, norm);
    if k in norm {
      var i :| i in Indices(|rec|) && NormalKey(rec[i].key) == k && rec[i].value == norm[k];
    } else {
      assert forall i :: 0 <= i < |rec| ==> i in Indices(|rec|);
    }
  }

  lemma {:induction false} TextComesFrom(rec: Record, norm: map<string, Json>, aliases: seq<string>)
    requires norm in PossibleNorms(rec)
    ensures ComesFrom(rec, aliases, FirstText(norm, aliases))
  {
    hide PossibleNorms, NormalKey, TextIn, Offers;
    if aliases != [] {
      KeyOffers(rec, norm, aliases[0]);
      TextComesFrom(rec, norm, aliases[1..]);
    }
  }

  // ---------- the columns ----------

  /** Whatever the walks, the column holds the text of the first alias with any, or nothing; where several
      fields share a key, that of one of them. */
  ghost predicate FilledFrom(rec: Record, aliases: seq<string>, column: string) {
    && (forall a: nat, t :: FirstIs(rec, aliases, a, t) ==> column == t)
    && (NoneHas(rec, aliases) ==> column == "")
    && ComesFrom(rec, aliases, column)
  }

  lemma FilledBy(rec: Record, norm: map<string, Json>, aliases: seq<string>)
    requires norm in PossibleNorms(rec)
    ensures FilledFrom(rec, aliases, FirstText(norm, aliases))
  {
    hide PossibleNorms, FirstText, FirstIs, NoneHas, ComesFrom;
    TextComesFrom(rec, norm, aliases);
    forall a: nat, t ensures FirstIs(rec, aliases, a, t) ==> FirstText(norm, aliases) == t {
      AliasText(rec, norm, aliases, a, t);
    }
    AliasText(rec, norm, aliases, 0, "");
  }

  /** The columns as they are read off the record, before names are completed. */
  function ReadOff(norm: map<string, Json>): Columns {
    Columns(FirstText(norm, FirstKeys()), FirstText(norm, LastKeys()), FirstText(norm, FullKeys()),
            FirstText(norm, CompanyKeys()), FirstText(norm, JobKeys()))
  }

  lemma NormOf(rec: Record, row: Row) returns (norm: map<string, Json>)
    requires row in PossibleRows(rec)
    ensures norm in PossibleNorms(rec) && row.columns == Completed(ReadOff(norm), row.url)
  {
    hide PossibleNorms, FirstText, Completed, UrlsUnder, FirstKeys, LastKeys, FullKeys, CompanyKeys, JobKeys;
    var n, u :| n in PossibleNorms(rec) && u in UrlsUnder(rec, n) && row == Row(u, ColumnsOf(n, u), rec);
    norm := n;
  }

  /** The company: "company", or else "empresa", and so on down the list. */
  lemma CompanyColumn(rec: Record, row: Row)
    requires row in PossibleRows(rec)
    ensures FilledFrom(rec, ["company", "empresa", "empresa_nome", "nome_empresa", "razao_social", "organizacao",
                             "organization", "companhia"], row.columns.company)
  {
    hide PossibleNorms, PossibleRows, FirstText, FilledFrom, Completed, FirstKeys, LastKeys, FullKeys, JobKeys;
    var norm := NormOf(rec, row);
    CompletedKeeps(ReadOff(norm), row.url);
    FilledBy(rec, norm, CompanyKeys());
  }

  /** The job title: "job_title", or else "jobtitle", "cargo", and so on. */
  lemma JobColumn(rec: Record, row: Row)
    requires row in PossibleRows(rec)
    ensures FilledFrom(rec, ["job_title", "jobtitle", "cargo", "title", "funcao", "posicao", "position", "titulo"],
                       row.columns.job)
  {
    hide PossibleNorms, PossibleRows, FirstText, FilledFrom, Completed, FirstKeys, LastKeys, FullKeys, CompanyKeys;
    var norm := NormOf(rec, row);
    CompletedKeeps(ReadOff(norm), row.url);
    FilledBy(rec, norm, JobKeys());
  }

  /** The three names as the record gives them. */
  ghost predicate NamesGiven(rec: Record, first: string, last: string, full: string) {
    && FilledFrom(rec, ["first_name", "firstname", "primeiro_nome"], first)
    && FilledFrom(rec, ["last_name", "lastname", "sobrenome", "ultimo_nome"], last)
    && FilledFrom(rec, ["full_name", "nome_completo", "nome", "nome_decisor", "decisor", "name", "contato",
                        "responsavel"], full)
  }

  lemma ReadOffNames(rec: Record, norm: map<string, Json>)
    requires norm in PossibleNorms(rec)
    ensures var c := ReadOff(norm); NamesGiven(rec, c.first, c.last, c.full)
  {
    hide PossibleNorms, FirstText, FilledFrom, CompanyKeys, JobKeys;
    FilledBy(rec, norm, FirstKeys());
    FilledBy(rec, norm, LastKeys());
    FilledBy(rec, norm, FullKeys());
  }

  /** The names of the row: those given, and where the full or the first name is missing, the other one
      makes it up; the link's slug makes up both when neither is given. */
  predicate NamesCompleted(first: string, last: string, full: string, url: string, c: Columns) {
    && (full != "" ==> c.full == full)
    && (first != "" ==> c.first == first && c.last == last)
    && (first != "" && full == "" ==> c.full == if last == "" then first else first + " " + last)
    && (first == "" && full != "" ==> Name(c.first, c.last) == SplitFullName(full))
    && (first == "" && full == "" ==>
          if SlugName(url) == "" then c.first == "" && c.full == "" && c.last == last
          else c.full == SlugName(url) && Name(c.first, c.last) == SplitFullName(SlugName(url)))
  }

  lemma CompletedExactly(c: Columns, url: string)
    requires Trimmed(c.first) && Trimmed(c.last)
    ensures NamesCompleted(c.first, c.last, c.full, url, Completed(c, url))
  {
    hide SplitFullName, SlugName, TrimSpace, IsSpace;
    if c.first != "" && c.full == "" { JoinedName(c.first, c.last); }
  }

  lemma JoinedName(first: string, last: string)
    requires first != "" && Trimmed(first) && Trimmed(last)
    ensures TrimSpace(first + " " + last) == if last == "" then first else first + " " + last
  {
    hide TrimLeft, TrimRight, TrimSpace;
    if last == "" {
      TrimsBlankEnd(first);
      assert first + " " + last == first + " ";
    } else {
      var s := first + " " + last;
      assert s[0] == first[0] && s[|s| - 1] == last[|last| - 1];
      TrimSpaceKeepsTrimmed(s);
    }
  }

  lemma TrimsBlankEnd(s: string)
    requires s != "" && Trimmed(s)
    ensures TrimSpace(s + " ") == s
  {
    var t := s + " ";
    assert TrimLeft(t) == t;
    assert t[..|t| - 1] == s && TrimRight(s) == s;
  }

  lemma {:induction false} TextIsTrimmed(norm: map<string, Json>, keys: seq<string>)
    ensures Trimmed(FirstText(norm, keys))
  {
    hide TrimSpace, Trimmed;
    TrimmedEmpty();
    if keys != [] {
      TextIsTrimmed(norm, keys[1..]);
      if keys[0] in norm && norm[keys[0]].Str? { var a, b := TrimSpaceExactly(norm[keys[0]].s); }
    }
  }

  lemma TrimmedEmpty()
    ensures Trimmed("")
  {
  }

  /** The names: what each list of aliases gives, and how the row completes it. */
  lemma NameColumns(rec: Record, row: Row) returns (first: string, last: string, full: string)
    requires row in PossibleRows(rec)
    ensures NamesGiven(rec, first, last, full)
    ensures NamesCompleted(first, last, full, row.url, row.columns)
  {
    hide PossibleNorms, PossibleRows, FirstText, FilledFrom, Completed, NamesGiven, NamesCompleted, Trimmed;
    hide FirstKeys, LastKeys, FullKeys, CompanyKeys, JobKeys;
    var norm := NormOf(rec, row);
    var c := ReadOff(norm);
    first, last, full := c.first, c.last, c.full;
    ReadOffNames(rec, norm);
    TextIsTrimmed(norm, FirstKeys());
    TextIsTrimmed(norm, LastKeys());
    CompletedExactly(c, row.url);
  }

  // ---------- the link ----------

  /** Some field has this key, and every such field holds this link. */
  predicate HoldsLink(rec: Record, k: string, u: string) {
    && (exists i :: 0 <= i < |rec| && NormalKey(rec[i].key) == k)
    && (forall i :: 0 <= i < |rec| && NormalKey(rec[i].key) == k ==> LinkIn(rec[i].value) == u)
  }

  predicate Linkless(rec: Record, k: string) {
    forall i :: 0 <= i < |rec| && NormalKey(rec[i].key) == k ==> LinkIn(rec[i].value) == ""
  }

  /** The alias at position `a` is the first one under which there is a link, and that is `u`. */
  predicate FirstLinkIs(rec: Record, aliases: seq<string>, a: nat, u: string) {
    && a < |aliases| && u != "" && HoldsLink(rec, aliases[a], u)
    && forall b :: 0 <= b < a ==> Linkless(rec, aliases[b])
  }

  lemma KeyLink(rec: Record, norm: map<string, Json>, k: string)
    requires norm in PossibleNorms(rec)
    ensures forall u :: HoldsLink(rec, k, u) ==> k in norm && LinkIn(norm[k]) == u
    ensures Linkless(rec, k) && k in norm ==> LinkIn(norm[k]) == ""
  {
    hide PossibleNorms, NormalKey, LinkIn;
    assert rec[..|rec|] == rec;
    NormsArePicks(rec, |rec|, norm);
    if k in norm {
      var i :| i in Indices(|rec|) && NormalKey(rec[i].key) == k && rec[i].value == norm[k];
    }
    forall u | HoldsLink(rec, k, u) ensures k in norm {
      var i :| 0 <= i < |rec| && NormalKey(rec[i].key) == k;
      assert i in Indices(|rec|);
    }
  }

  lemma {:induction false} AliasLink(rec: Record, norm: map<string, Json>, aliases: seq<string>, a: nat, u: string)
    requires norm in PossibleNorms(rec) && FirstLinkIs(rec, aliases, a, u)
    ensures AliasUrl(norm, aliases) == u
  {
    hide PossibleNorms, NormalKey, LinkIn, HoldsLink, Linkless;
    KeyLink(rec, norm, aliases[0]);
    if a > 0 {
      assert forall b :: 0 <= b < a - 1 ==> aliases[1..][b] == aliases[b + 1];
      AliasLink(rec, norm, aliases[1..], a - 1, u);
    }
  }

  /** The link: that of "linkedin_url", or else "perfil_linkedin_url", and so on down the list, before any
      link elsewhere in the record. */
  lemma LinkColumn(rec: Record, row: Row, a: nat, u: string)
    requires row in PossibleRows(rec)
    requires FirstLinkIs(rec, ["linkedin_url", "perfil_linkedin_url", "linkedin_decisor", "url_do_linkedin",
                               "url_linkedin", "linkedin", "profile_url", "profileurl", "url_perfil", "perfil", "url",
                               "link"], a, u)
    ensures row.url == u
  {
    hide PossibleRows, FirstLinkIs;
    LinkOfRow(rec, row, a, u);
  }

  lemma LinkOfRow(rec: Record, row: Row, a: nat, u: string)
    requires row in PossibleRows(rec) && FirstLinkIs(rec, LinkKeys(), a, u)
    ensures row.url == u
  {
    hide PossibleNorms, AliasUrl, ColumnsOf, LinkKeys, PossibleInFields, HoldsLink, Linkless;
    var n, w :| n in PossibleNorms(rec) && w in UrlsUnder(rec, n) && row == Row(w, ColumnsOf(n, w), rec);
    AliasLink(rec, n, LinkKeys(), a, u);
  }
}
