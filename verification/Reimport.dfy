/** What an import keeps of a file, what the upsert leaves, and when importing the file again changes
    nothing. */
module Reimport {
  import opened Text
  import opened ContactNames
  import opened Import
  import LinkedIn

  // ---------- duplicates inside the file ----------

  /** One import's rows, each a possible one; None where a record is skipped. */
  ghost predicate ValidRows(records: seq<Record>, chosen: seq<Option<Row>>) {
    |chosen| == |records| && forall i :: 0 <= i < |records| ==> RowOf(records[i], chosen[i])
  }

  function LinkAt(r: Option<Row>): string {
    if r.Some? then r.value.url else ""
  }

  function LinksOf(chosen: seq<Option<Row>>): seq<string> {
    seq(|chosen|, i requires 0 <= i < |chosen| => LinkAt(chosen[i]))
  }

  predicate IsFirst(links: seq<string>, i: nat)
    requires i < |links|
  {
    links[i] != "" && forall j :: 0 <= j < i ==> links[j] != links[i]
  }

  /** The positions of the records that are imported: the first of each link. */
  function Firsts(links: seq<string>): seq<nat> {
    if links == [] then []
    else
      var n := |links| - 1;
      Firsts(links[..n]) + if IsFirst(links, n) then [n] else []
  }

  function Kept(chosen: seq<Option<Row>>): seq<Row> {
    if chosen == [] then []
    else
      var n := |chosen| - 1;
      Kept(chosen[..n]) + if IsFirst(LinksOf(chosen), n) then [chosen[n].value] else []
  }

  function Skipped(links: seq<string>): nat {
    if links == [] then 0
    else Skipped(links[..|links| - 1]) + if links[|links| - 1] == "" then 1 else 0
  }

  lemma FirstInPrefix(links: seq<string>, n: nat, i: nat)
    requires i < n <= |links|
    ensures IsFirst(links[..n], i) <==> IsFirst(links, i)
  {
  }

  lemma {:induction false} FirstsAre(links: seq<string>)
    ensures forall j :: 0 <= j < |Firsts(links)| ==> Firsts(links)[j] < |links| && IsFirst(links, Firsts(links)[j])
    ensures forall j, k :: 0 <= j < k < |Firsts(links)| ==> Firsts(links)[j] < Firsts(links)[k]
    ensures forall i :: 0 <= i < |links| && IsFirst(links, i) ==> i in Firsts(links)
  {
    if links != [] {
      var n := |links| - 1;
      hide IsFirst;
      FirstsAre(links[..n]);
      forall i | 0 <= i < n ensures IsFirst(links[..n], i) <==> IsFirst(links, i) { FirstInPrefix(links, n, i); }
    }
  }

  lemma {:induction false} KeptAreFirsts(chosen: seq<Option<Row>>)
    ensures var f := Firsts(LinksOf(chosen));
      && |Kept(chosen)| == |f|
      && forall j :: 0 <= j < |f| ==> f[j] < |chosen| && chosen[f[j]] == Some(Kept(chosen)[j])
  {
    if chosen != [] {
      var n := |chosen| - 1;
      KeptAreFirsts(chosen[..n]);
      assert LinksOf(chosen)[..n] == LinksOf(chosen[..n]);
    }
  }

  lemma {:induction false} FirstOfLink(links: seq<string>, i: nat) returns (j: nat)
    requires i < |links| && links[i] != ""
    ensures j <= i && IsFirst(links, j) && links[j] == links[i]
  {
    j := i;
    while exists k :: 0 <= k < j && links[k] == links[i]
      invariant j <= i && links[j] == links[i]
      decreases j
    {
      var k :| 0 <= k < j && links[k] == links[i];
      j := k;
    }
  }

  /** Nothing is lost, invented or repeated: the rows are those of the records at the positions Firsts
      gives, in file order; these are exactly the first records of their links; the links are pairwise
      different; and every record with a link finds it among them. */
  lemma KeptExactly(records: seq<Record>, chosen: seq<Option<Row>>)
    requires ValidRows(records, chosen)
    ensures var rows, links := Kept(chosen), LinksOf(chosen); var f := Firsts(links);
      && |rows| == |f|
      && (forall j :: 0 <= j < |f| ==>
            f[j] < |records| && chosen[f[j]] == Some(rows[j]) && rows[j].record == records[f[j]])
      && (forall j, k :: 0 <= j < k < |f| ==> f[j] < f[k])
      && (forall i :: 0 <= i < |records| ==> (i in f <==> IsFirst(links, i)))
    ensures var rows, links := Kept(chosen), LinksOf(chosen);
      && (forall j :: 0 <= j < |rows| ==> rows[j].url != "")
      && DistinctLinks(rows)
      && (forall i :: 0 <= i < |records| && links[i] != "" ==> exists j :: 0 <= j < |rows| && rows[j].url == links[i])
  {
    hide Kept, Firsts, RowOf;
    var links := LinksOf(chosen);
    KeptAreFirsts(chosen);
    FirstsAre(links);
    var f, rows := Firsts(links), Kept(chosen);
    forall j | 0 <= j < |f| ensures rows[j].record == records[f[j]] && rows[j].url == links[f[j]] {
      RowsRecord(records[f[j]], chosen[f[j]]);
    }
    forall i | 0 <= i < |records| && links[i] != ""
      ensures exists j :: 0 <= j < |rows| && rows[j].url == links[i]
    {
      var first := FirstOfLink(links, i);
      var j :| 0 <= j < |f| && f[j] == first;
      assert rows[j].url == links[i];
    }
    forall j, k | 0 <= j < k < |rows| ensures rows[j].url != rows[k].url {
      assert f[j] < f[k] && IsFirst(links, f[k]);
    }
  }

  lemma RowsRecord(rec: Record, r: Option<Row>)
    requires RowOf(rec, r)
    ensures r.Some? ==> r.value.record == rec && r.value.url != ""
  {
    hide Normalizes, UrlUnder, ColumnsOf, LinkKeys;
  }

  lemma NoneYet()
    ensures Kept([]) == [] && LinksOf([]) == [] && Skipped(LinksOf([])) == 0
  {
  }

  lemma OneMore(chosen: seq<Option<Row>>, r: Option<Row>)
    ensures LinksOf(chosen + [r]) == LinksOf(chosen) + [LinkAt(r)]
    ensures Kept(chosen + [r])
         == Kept(chosen) + if LinkAt(r) != "" && LinkAt(r) !in LinksOf(chosen) then [r.value] else []
    ensures Skipped(LinksOf(chosen + [r])) == Skipped(LinksOf(chosen)) + if LinkAt(r) == "" then 1 else 0
  {
    var links, n := LinksOf(chosen), |chosen|;
    assert (chosen + [r])[..n] == chosen && (links + [LinkAt(r)])[..n] == links;
    assert LinksOf(chosen + [r]) == links + [LinkAt(r)];
    assert IsFirst(links + [LinkAt(r)], n) <==> LinkAt(r) != "" && LinkAt(r) !in links;
    hide IsFirst;
  }

  method CollectRows(records: seq<Record>)
    returns (rows: seq<Row>, skipped: nat, duplicates: nat, ghost chosen: seq<Option<Row>>)
    ensures ValidRows(records, chosen)
    ensures rows == Kept(chosen)
    ensures skipped == Skipped(LinksOf(chosen))
    ensures |rows| + skipped + duplicates == |records|
  {
    hide RowOf, Kept, LinksOf, Skipped;
    NoneYet();
    rows, skipped, duplicates, chosen := [], 0, 0, [];
    var seen: set<string> := {};
    var i := 0;
    while i < |records|
      invariant 0 <= i <= |records| && ValidRows(records[..i], chosen)
      invariant rows == Kept(chosen) && skipped == Skipped(LinksOf(chosen))
      invariant |rows| + skipped + duplicates == i
      invariant forall u :: u in seen <==> u != "" && u in LinksOf(chosen)
    {
      var row := ContactRow(records[i]);
      RowsRecord(records[i], row);
      OneMore(chosen, row);
      chosen := chosen + [row];
      if row.None? {
        skipped := skipped + 1;
      } else if row.value.url in seen {
        duplicates := duplicates + 1;
      } else {
        seen := seen + {row.value.url};
        rows := rows + [row.value];
      }
      i := i + 1;
    }
    assert records[..i] == records;
  }

  // ---------- the upsert ----------

  datatype Stored = Stored(row: Row, createdAt: int, updatedAt: int)

  function Upsert(table: map<string, Stored>, row: Row, now: int): map<string, Stored> {
    if row.url in table then table[row.url := Stored(row, table[row.url].createdAt, now)]
    else table[row.url := Stored(row, now, now)]
  }

  function UpsertAll(table: map<string, Stored>, rows: seq<Row>, now: int): map<string, Stored> {
    if rows == [] then table
    else Upsert(UpsertAll(table, rows[..|rows| - 1], now), rows[|rows| - 1], now)
  }

  predicate DistinctLinks(rows: seq<Row>) {
    forall j, k :: 0 <= j < k < |rows| ==> rows[j].url != rows[k].url
  }

  /** The organisation's contacts, by link. */
  class ContactTable {
    var table: map<string, Stored>
    ghost var statements: seq<Row>  // the upserts executed so far

    constructor ()
      ensures table == map[] && statements == []
    {
      table, statements := map[], [];
    }

    method Execute(row: Row, now: int)
      modifies this
      ensures table == Upsert(old(table), row, now)
      ensures statements == old(statements) + [row]
    {
      if row.url in table {
        table := table[row.url := Stored(row, table[row.url].createdAt, now)];
      } else {
        table := table[row.url := Stored(row, now, now)];
      }
      statements := statements + [row];
    }

    /** Batches of 500; every row is executed once, in order. */
    method InsertContactsUpsert(rows: seq<Row>, now: int)
      modifies this
      ensures statements == old(statements) + rows
      ensures table == UpsertAll(old(table), rows, now)
    {
      var start := 0;
      while start < |rows|
        invariant 0 <= start <= |rows|
        invariant statements == old(statements) + rows[..start]
        invariant table == UpsertAll(old(table), rows[..start], now)
      {
        var end := if start + 500 < |rows| then start + 500 else |rows|;
        var i := start;
        while i < end
          invariant start <= i <= end
          invariant statements == old(statements) + rows[..i]
          invariant table == UpsertAll(old(table), rows[..i], now)
        {
          assert rows[..i + 1] == rows[..i] + [rows[i]];
          assert rows[..i + 1][..i] == rows[..i];
          Execute(rows[i], now);
          i := i + 1;
        }
        start := end;
      }
      assert rows[..start] == rows;
    }
  }

  /** Each row is stored under its link, keeping the creation time of a known contact. */
  lemma {:induction false} UpsertAllHit(table: map<string, Stored>, rows: seq<Row>, now: int, j: nat)
    requires DistinctLinks(rows) && j < |rows|
    ensures var t, u := UpsertAll(table, rows, now), rows[j].url;
      u in t && t[u] == Stored(rows[j], if u in table then table[u].createdAt else now, now)
  {
    var n := |rows| - 1;
    if j < n {
      UpsertAllHit(table, rows[..n], now, j);
    } else {
      UpsertAllMiss(table, rows[..n], now, rows[j].url);
    }
  }

  /** A link that is not imported is not touched. */
  lemma {:induction false} UpsertAllMiss(table: map<string, Stored>, rows: seq<Row>, now: int, u: string)
    requires forall j :: 0 <= j < |rows| ==> rows[j].url != u
    ensures var t := UpsertAll(table, rows, now); (u in t <==> u in table) && (u in table ==> t[u] == table[u])
  {
    if rows != [] { UpsertAllMiss(table, rows[..|rows| - 1], now, u); }
  }

  /** Equal but for the time of the last update. */
  predicate SameButUpdated(t1: map<string, Stored>, t2: map<string, Stored>) {
    t1.Keys == t2.Keys && forall u :: u in t1 ==> t2[u] == t1[u].(updatedAt := t2[u].updatedAt)
  }

  /** Importing the same rows again changes nothing but update times. */
  lemma SameRowsChangeNothing(table: map<string, Stored>, rows: seq<Row>, now: int, later: int)
    requires DistinctLinks(rows)
    ensures var once := UpsertAll(table, rows, now);
      SameButUpdated(once, UpsertAll(once, rows, later))
  {
    hide UpsertAll;
    var once := UpsertAll(table, rows, now);
    var twice := UpsertAll(once, rows, later);
    forall u
      ensures (u in twice <==> u in once) && (u in once ==> twice[u] == once[u].(updatedAt := twice[u].updatedAt))
    {
      if exists j :: 0 <= j < |rows| && rows[j].url == u {
        var j :| 0 <= j < |rows| && rows[j].url == u;
        UpsertAllHit(table, rows, now, j);
        UpsertAllHit(once, rows, later, j);
      } else {
        UpsertAllMiss(once, rows, later, u);
      }
    }
  }

  // ---------- importing the same file again ----------

  function Links(rec: Record): set<string> {
    PossibleLinks(rec, LinkKeys())
  }

  lemma LinkKeysDistinct()
    ensures Distinct(LinkKeys())
  {
  }

  lemma LinkOfExactly(rec: Record, u: string)
    ensures LinkOf(rec, u) <==> AnswersWith(u, Links(rec))
    ensures "" !in Links(rec)
  {
    hide LinkWith, PossibleAliases, PossibleInFields, LinkKeys;
    LinkKeysDistinct();
    LinksExactly(rec, LinkKeys(), u);
    NoEmptyLink(Obj(rec));
    PossibleObj(rec);
    AliasesPossible(rec, LinkKeys());
  }

  /** The exact condition under which two imports agree on a record's link. */
  lemma LinksAgreeExactly(rec: Record)
    ensures (forall u, v :: LinkOf(rec, u) && LinkOf(rec, v) ==> u == v)
      <==> forall u, v :: u in Links(rec) && v in Links(rec) ==> u == v
  {
    hide LinkOf, Links;
    forall u ensures LinkOf(rec, u) <==> AnswersWith(u, Links(rec)) { LinkOfExactly(rec, u); }
    LinkOfExactly(rec, "");
    if u, v :| u in Links(rec) && v in Links(rec) && u != v {
      assert LinkOf(rec, u) && LinkOf(rec, v);
    }
  }

  lemma RowLink(rec: Record, r: Option<Row>)
    requires RowOf(rec, r)
    ensures LinkOf(rec, LinkAt(r))
  {
    hide Normalizes, UrlUnder, ColumnsOf, LinkKeys;
    var norm, u :| RowUnder(rec, norm, u, r);
    assert Normalizes(rec, norm) && UrlUnder(rec, norm, LinkKeys(), u);
  }

  /** Every possible link has a possible row. */
  lemma RowForLink(rec: Record, u: string) returns (row: Row)
    requires u in Links(rec)
    ensures row in PossibleRows(rec) && row.url == u
  {
    hide Normalizes, UrlUnder, ColumnsOf, LinkKeys, PossibleRows, Links;
    LinkOfExactly(rec, u);
    var norm :| Normalizes(rec, norm) && UrlUnder(rec, norm, LinkKeys(), u);
    row := Row(u, ColumnsOf(norm, u), rec);
    assert RowUnder(rec, norm, u, Some(row));
    RowsExactly(rec, Some(row));
  }

  /** At most one row is possible, link and columns. */
  predicate Steady(rec: Record) {
    forall r1, r2 :: r1 in PossibleRows(rec) && r2 in PossibleRows(rec) ==> r1 == r2
  }

  function EarlierLinks(records: seq<Record>, n: nat): set<string>
    requires n <= |records|
  {
    if n == 0 then {} else EarlierLinks(records, n - 1) + Links(records[n - 1])
  }

  /** Each record of the file has one possible row at most, or no possible link that earlier records
      may not have taken. */
  predicate Firm(records: seq<Record>) {
    forall i :: 0 <= i < |records| ==> Steady(records[i]) || Links(records[i]) <= EarlierLinks(records, i)
  }

  /** What an import can make of one record. */
  lemma RowFacts(rec: Record, r: Option<Row>)
    requires RowOf(rec, r)
    ensures AnswersWith(LinkAt(r), Links(rec)) && "" !in Links(rec)
    ensures r.Some? ==> r.value in PossibleRows(rec) && r.value.record == rec && r.value.url != ""
    ensures r.None? ==> PossibleRows(rec) == {}
    ensures Steady(rec) ==> forall u :: u in Links(rec) ==> u == LinkAt(r)
  {
    hide RowOf, Links, PossibleRows;
    RowsRecord(rec, r);
    RowsExactly(rec, r);
    RowLink(rec, r);
    LinkOfExactly(rec, LinkAt(r));
    if Steady(rec) {
      forall u | u in Links(rec) ensures u == LinkAt(r) { var row := RowForLink(rec, u); }
    }
  }

  lemma {:induction false} EarlierHas(records: seq<Record>, n: nat, j: nat)
    requires j < n <= |records|
    ensures Links(records[j]) <= EarlierLinks(records, n)
  {
    hide Links;
    if j < n - 1 { EarlierHas(records, n - 1, j); }
  }

  /** In a firm file, the links taken so far are all those that were possible so far. */
  lemma {:induction false} TakenAre(records: seq<Record>, chosen: seq<Option<Row>>, n: nat)
    requires ValidRows(records, chosen) && Firm(records) && n <= |records|
    ensures forall u :: u in EarlierLinks(records, n) <==> u != "" && exists j :: 0 <= j < n && LinksOf(chosen)[j] == u
  {
    hide Links, RowOf, Firm, LinkAt;
    if n > 0 {
      TakenAre(records, chosen, n - 1);
      FirmStep(records, chosen[n - 1], n - 1);
      assert LinksOf(chosen)[n - 1] == LinkAt(chosen[n - 1]);
      hide LinksOf, EarlierLinks;
    }
  }

  /** In a firm file, a record adds to the links possible so far the one it takes and no other. */
  lemma FirmStep(records: seq<Record>, r: Option<Row>, n: nat)
    requires Firm(records) && n < |records| && RowOf(records[n], r)
    ensures EarlierLinks(records, n + 1) == EarlierLinks(records, n) + if LinkAt(r) == "" then {} else {LinkAt(r)}
  {
    hide Links, RowOf, Steady;
    RowFacts(records[n], r);
    assert EarlierLinks(records, n + 1) == EarlierLinks(records, n) + Links(records[n]);
  }

  lemma FirstIsNew(records: seq<Record>, chosen: seq<Option<Row>>, i: nat)
    requires ValidRows(records, chosen) && Firm(records) && i < |records|
    ensures IsFirst(LinksOf(chosen), i) <==> chosen[i].Some? && LinkAt(chosen[i]) !in EarlierLinks(records, i)
  {
    hide Links, RowOf, Firm;
    TakenAre(records, chosen, i);
    RowsRecord(records[i], chosen[i]);
  }

  lemma SameFirst(records: seq<Record>, chosen1: seq<Option<Row>>, chosen2: seq<Option<Row>>, i: nat)
    requires ValidRows(records, chosen1) && ValidRows(records, chosen2) && Firm(records) && i < |records|
    ensures IsFirst(LinksOf(chosen1), i) <==> IsFirst(LinksOf(chosen2), i)
    ensures IsFirst(LinksOf(chosen1), i) ==> chosen1[i] == chosen2[i]
  {
    hide Links, RowOf, PossibleRows, IsFirst, EarlierLinks, LinksOf;
    FirstIsNew(records, chosen1, i);
    FirstIsNew(records, chosen2, i);
    RowFacts(records[i], chosen1[i]);
    RowFacts(records[i], chosen2[i]);
  }

  lemma {:induction false} SameKept(records: seq<Record>, chosen1: seq<Option<Row>>, chosen2: seq<Option<Row>>, n: nat)
    requires ValidRows(records, chosen1) && ValidRows(records, chosen2) && Firm(records) && n <= |records|
    ensures Kept(chosen1[..n]) == Kept(chosen2[..n])
  {
    hide Firm, RowOf;
    if n > 0 {
      SameKept(records, chosen1, chosen2, n - 1);
      SameFirst(records, chosen1, chosen2, n - 1);
      hide IsFirst, LinksOf;
      KeptStep(chosen1, n);
      KeptStep(chosen2, n);
    }
  }

  lemma KeptStep(chosen: seq<Option<Row>>, n: nat)
    requires 0 < n <= |chosen|
    ensures IsFirst(LinksOf(chosen), n - 1) ==> chosen[n - 1].Some?
    ensures Kept(chosen[..n])
         == Kept(chosen[..n - 1]) + if IsFirst(LinksOf(chosen), n - 1) then [chosen[n - 1].value] else []
  {
    assert chosen[..n][..n - 1] == chosen[..n - 1];
    assert LinksOf(chosen[..n]) == LinksOf(chosen)[..n];
    FirstInPrefix(LinksOf(chosen), n, n - 1);
  }

  /** Rows an import may choose: x for the i-th record, and the link u for others only where nothing
      else is possible. */
  lemma {:induction false} ChooseRows(records: seq<Record>, n: nat, i: nat, x: Row, u: string)
    returns (chosen: seq<Option<Row>>)
    requires n <= |records| && i < |records| && x in PossibleRows(records[i])
    ensures |chosen| == n && forall j :: 0 <= j < n ==>
      && RowOf(records[j], chosen[j])
      && (j == i ==> chosen[j] == Some(x))
      && (j != i && LinkAt(chosen[j]) == u != "" ==> forall w :: w in Links(records[j]) ==> w == u)
  {
    hide Links, RowOf, PossibleRows;
    if n == 0 {
      chosen := [];
    } else {
      var rec := records[n - 1];
      var before := ChooseRows(records, n - 1, i, x, u);
      var r: Option<Row>;
      if n - 1 == i {
        r := Some(x);
      } else if w :| w in Links(rec) && w != u {
        var row := RowForLink(rec, w);
        r := Some(row);
      } else if row :| row in PossibleRows(rec) {
        r := Some(row);
      } else {
        r := None;
      }
      RowsExactly(rec, r);
      chosen := before + [r];
    }
  }

  /** Two rows of a record that is not steady, one with a link that no earlier record can take. */
  lemma TwoRows(records: seq<Record>) returns (i: nat, x: Row, y: Row)
    requires !Firm(records)
    ensures i < |records| && x in PossibleRows(records[i]) && y in PossibleRows(records[i]) && x != y
    ensures x.url in Links(records[i]) && x.url !in EarlierLinks(records, i)
  {
    hide Links, PossibleRows;
    i :| 0 <= i < |records| && !Steady(records[i]) && !(Links(records[i]) <= EarlierLinks(records, i));
    var u :| u in Links(records[i]) && u !in EarlierLinks(records, i);
    x := RowForLink(records[i], u);
    var r1, r2 :| r1 in PossibleRows(records[i]) && r2 in PossibleRows(records[i]) && r1 != r2;
    y := if r1 != x then r1 else r2;
  }

  lemma IsFirstFor(records: seq<Record>, chosen: seq<Option<Row>>, i: nat)
    requires ValidRows(records, chosen) && i < |records| && chosen[i].Some?
    requires chosen[i].value.url !in EarlierLinks(records, i)
    ensures IsFirst(LinksOf(chosen), i)
  {
    hide Links, RowOf;
    RowsRecord(records[i], chosen[i]);
    forall j | 0 <= j < i ensures LinksOf(chosen)[j] != chosen[i].value.url {
      EarlierHas(records, i, j);
      RowFacts(records[j], chosen[j]);
    }
  }

  lemma OnceHas(rows: seq<Row>, u: string)
    requires u in UpsertAll(map[], rows, 0)
    ensures exists j :: 0 <= j < |rows| && rows[j].url == u
  {
    hide UpsertAll;
    if !exists j :: 0 <= j < |rows| && rows[j].url == u { UpsertAllMiss(map[], rows, 0, u); }
  }

  /** The row kept for the first record of a link is stored under it. */
  lemma FirstIsStored(records: seq<Record>, chosen: seq<Option<Row>>, i: nat, table: map<string, Stored>, now: int)
    requires ValidRows(records, chosen) && i < |records| && IsFirst(LinksOf(chosen), i)
    ensures var t := UpsertAll(table, Kept(chosen), now);
      chosen[i].Some? && chosen[i].value.url in t && t[chosen[i].value.url].row == chosen[i].value
  {
    hide UpsertAll, Kept, Firsts, RowOf;
    KeptExactly(records, chosen);
    var f := Firsts(LinksOf(chosen));
    var j :| 0 <= j < |f| && f[j] == i;
    UpsertAllHit(table, Kept(chosen), now, j);
  }

  /** Whatever is stored under a link is the row chosen for some record with that link. */
  lemma StoredIsChosen(records: seq<Record>, chosen: seq<Option<Row>>, u: string) returns (k: nat)
    requires ValidRows(records, chosen) && u in UpsertAll(map[], Kept(chosen), 0)
    ensures k < |records| && chosen[k] == Some(UpsertAll(map[], Kept(chosen), 0)[u].row) && chosen[k].value.url == u
  {
    hide UpsertAll, Kept, Firsts, RowOf, IsFirst;
    KeptExactly(records, chosen);
    OnceHas(Kept(chosen), u);
    var j :| 0 <= j < |Kept(chosen)| && Kept(chosen)[j].url == u;
    UpsertAllHit(map[], Kept(chosen), 0, j);
    k := Firsts(LinksOf(chosen))[j];
  }

  /** A second import may change a file that is not firm. */
  lemma NotFirmChanges(records: seq<Record>) returns (chosen1: seq<Option<Row>>, chosen2: seq<Option<Row>>)
    requires !Firm(records)
    ensures ValidRows(records, chosen1) && ValidRows(records, chosen2)
    ensures var once := UpsertAll(map[], Kept(chosen1), 0);
      !SameButUpdated(once, UpsertAll(once, Kept(chosen2), 1))
  {
    hide Links, RowOf, UpsertAll, Kept, PossibleRows, Firm, EarlierLinks, IsFirst, LinksOf;
    var i, x, y := TwoRows(records);
    var u := x.url;
    chosen1 := ChooseRows(records, |records|, i, y, u);
    chosen2 := ChooseRows(records, |records|, i, x, u);
    IsFirstFor(records, chosen2, i);
    var once := UpsertAll(map[], Kept(chosen1), 0);
    FirstIsStored(records, chosen2, i, once, 1);
    if y.url == u {
      IsFirstFor(records, chosen1, i);
      FirstIsStored(records, chosen1, i, map[], 0);
    } else if u in once {
      var k := StoredIsChosen(records, chosen1, u);
      PossibleIsRow(records[i], x);
      assert k != i && LinkAt(chosen1[k]) == u != "";
      OtherRecord(records[i], records[k], x, y, chosen1[k].value);
    }
  }

  /** A record whose only link is u is not one that may also get another link. */
  lemma OtherRecord(rec: Record, other: Record, x: Row, y: Row, z: Row)
    requires x in PossibleRows(rec) && y in PossibleRows(rec) && y.url != x.url
    requires RowOf(other, Some(z)) && forall w :: w in Links(other) ==> w == x.url
    ensures z != x
  {
    hide Links, RowOf, PossibleRows;
    PossibleIsRow(rec, x);
    PossibleIsRow(rec, y);
    RowFacts(rec, Some(y));
    RowFacts(other, Some(z));
  }

  /** Importing the same file again changes nothing but update times, whatever the table and whatever
      orders the two imports walk the objects in, if and only if the file is firm. */
  lemma ReimportExactly(records: seq<Record>)
    ensures (forall table, chosen1, chosen2, now, later ::
               ValidRows(records, chosen1) && ValidRows(records, chosen2) ==>
                 var once := UpsertAll(table, Kept(chosen1), now);
                 SameButUpdated(once, UpsertAll(once, Kept(chosen2), later)))
            <==> Firm(records)
  {
    hide Firm, RowOf, UpsertAll, Kept, SameButUpdated, Firsts;
    if Firm(records) {
      forall table, chosen1, chosen2, now, later | ValidRows(records, chosen1) && ValidRows(records, chosen2)
        ensures var once := UpsertAll(table, Kept(chosen1), now);
          SameButUpdated(once, UpsertAll(once, Kept(chosen2), later))
      {
        SameKept(records, chosen1, chosen2, |records|);
        assert chosen1[..|records|] == chosen1 && chosen2[..|records|] == chosen2;
        KeptExactly(records, chosen1);
        SameRowsChangeNothing(table, Kept(chosen1), now, later);
      }
    } else {
      var chosen1, chosen2 := NotFirmChanges(records);
    }
  }

  // ---------- the files that fail ----------

  lemma {:induction false} NotAnAlias(rec: Record, keys: seq<string>)
    requires forall i :: 0 <= i < |rec| ==> NormalKey(rec[i].key) !in keys
    ensures PossibleLinks(rec, keys) == PossibleInFields(rec)
  {
    hide NormalKey, LinkIn, PossibleInFields;
    if keys != [] {
      assert keys == [keys[0]] + keys[1..];
      NotAnAlias(rec, keys[1..]);
      assert UnderKey(rec, keys[0]) == {};
    }
  }

  /** One record with two different profile links in fields that are no aliases, such as notes: the
      second import may add a second contact. */
  lemma TwoLinks(key1: string, text1: string, key2: string, text2: string) returns (x: Row, y: Row)
    requires NormalKey(key1) !in LinkKeys() && NormalKey(key2) !in LinkKeys()
    requires LinkedIn.Canonical(text1) != "" && LinkedIn.Canonical(text2) != ""
    requires LinkedIn.Canonical(text1) != LinkedIn.Canonical(text2)
    ensures var records := [[Field(key1, Str(text1)), Field(key2, Str(text2))]];
      && x.url == LinkedIn.Canonical(text1) && y.url == LinkedIn.Canonical(text2)
      && !Firm(records) && ValidRows(records, [Some(x)]) && ValidRows(records, [Some(y)])
      && var once := UpsertAll(map[], Kept([Some(x)]), 0);
         var twice := UpsertAll(once, Kept([Some(y)]), 1);
         once.Keys == {x.url} && twice.Keys == {x.url, y.url}
  {
    hide NormalKey, LinkKeys, RowOf, LinkedIn.Canonical, PossibleRows;
    var a, b := LinkedIn.Canonical(text1), LinkedIn.Canonical(text2);
    var rec := [Field(key1, Str(text1)), Field(key2, Str(text2))];
    NotAnAlias(rec, LinkKeys());
    FieldPossible(rec, 0);
    FieldPossible(rec, 1);
    assert Possible(rec[0].value) == {a} && Possible(rec[1].value) == {b};
    hide PossibleLinks, PossibleInFields, Possible;
    assert a in Links(rec) && b in Links(rec);
    x := RowForLink(rec, a);
    y := RowForLink(rec, b);
    RowsExactly(rec, Some(x));
    RowsExactly(rec, Some(y));
    assert [rec][0] == rec && !Steady(rec) && EarlierLinks([rec], 0) == {};
    TwoImports(x, y);
  }

  lemma KeptOne(x: Row)
    requires x.url != ""
    ensures Kept([Some(x)]) == [x]
  {
    assert LinksOf([Some(x)]) == [x.url] && IsFirst([x.url], 0);
    assert [Some(x)][..0] == [];
  }

  lemma UpsertOne(table: map<string, Stored>, x: Row, now: int)
    ensures UpsertAll(table, [x], now) == Upsert(table, x, now)
  {
    assert [x][..|[x]| - 1] == [];
    assert UpsertAll(table, [], now) == table;
  }

  lemma TwoImports(x: Row, y: Row)
    requires x.url != "" && y.url != ""
    ensures var once := UpsertAll(map[], Kept([Some(x)]), 0);
      var twice := UpsertAll(once, Kept([Some(y)]), 1);
      && once == map[x.url := Stored(x, 0, 0)] && twice.Keys == {x.url, y.url}
      && twice[y.url].row == y
  {
    KeptOne(x);
    KeptOne(y);
    var once := UpsertAll(map[], [x], 0);
    UpsertOne(map[], x, 0);
    UpsertOne(once, y, 1);
  }

  lemma FullNameOnly(norm: map<string, Json>, text: string, url: string)
    requires "nome" in norm && norm["nome"] == Str(text) && TrimSpace(text) != ""
    requires "full_name" !in norm && "nome_completo" !in norm
    ensures ColumnsOf(norm, url).full == TrimSpace(text)
  {
    hide Completed, TrimSpace, FirstKeys, LastKeys, CompanyKeys, JobKeys;
    var keys := FullKeys();
    assert keys[1..][1..][0] == "nome";
    assert FirstText(norm, keys) == FirstText(norm, keys[1..]) == FirstText(norm, keys[1..][1..]) == TrimSpace(text);
    CompletedKeeps(
      Columns(FirstText(norm, FirstKeys()), FirstText(norm, LastKeys()), FirstText(norm, FullKeys()),
              FirstText(norm, CompanyKeys()), FirstText(norm, JobKeys())),
      url);
  }

  /** A result of the walk in which the key of these names carries the one at position i. */
  lemma NameStays(rec: Record, i: nat, text: string) returns (norm: map<string, Json>)
    requires |rec| == 3 && i < 2 && NormalKey(rec[0].key) == NormalKey(rec[1].key) == "nome"
    requires NormalKey(rec[2].key) == "linkedin" && rec[i].value == Str(text)
    ensures Normalizes(rec, norm) && norm.Keys == {"nome", "linkedin"} && norm["nome"] == Str(text)
  {
    hide NormalKey, NormalizesAmong;
    norm := map["nome" := rec[i].value, "linkedin" := rec[2].value];
    assert 0 in Indices(3) && 1 in Indices(3) && 2 in Indices(3);
    assert PicksAmong(rec, Indices(3), norm);
    PicksNormalize(rec, Indices(3), norm);
  }

  lemma NamedRow(rec: Record, i: nat, text: string, u: string) returns (x: Row)
    requires |rec| == 3 && i < 2 && NormalKey(rec[0].key) == NormalKey(rec[1].key) == "nome"
    requires NormalKey(rec[2].key) == "linkedin" && rec[i].value == Str(text) && TrimSpace(text) != ""
    requires PossibleInFields(rec) == {u}
    ensures x in PossibleRows(rec) && x.url == u && x.columns.full == TrimSpace(text)
  {
    hide NormalKey, Normalizes, ColumnsOf, UrlUnder, UrlsUnder, PossibleInFields, PossibleNorms, LinkKeys, TrimSpace;
    var norm := NameStays(rec, i, text);
    assert "full_name" !in norm && "nome_completo" !in norm;
    FullNameOnly(norm, text, u);
    UrlsExactly(rec, norm, u);
    assert u in UrlsUnder(rec, norm);
    NormsExactly(rec, norm);
    x := Row(u, ColumnsOf(norm, u), rec);
  }

  lemma ThreeFields(rec: Record)
    requires |rec| == 3
    ensures PossibleInFields(rec)
         == Possible(rec[0].value) + Possible(rec[1].value) + Possible(rec[2].value)
  {
    hide Possible;
    assert rec[1..][1..] == [rec[2]] && [rec[2]][1..] == [];
    assert PossibleInFields([rec[2]]) == Possible(rec[2].value) + PossibleInFields([]);
    assert PossibleInFields(rec[1..]) == Possible(rec[1].value) + PossibleInFields([rec[2]]);
  }

  /** One record with one link, and two names under keys that normalise alike: it keeps its link, and
      the second import may change its name. */
  lemma CollidingNames(key1: string, name1: string, key2: string, name2: string, key3: string, text: string)
    returns (x: Row, y: Row)
    requires NormalKey(key1) == NormalKey(key2) == "nome" && NormalKey(key3) == "linkedin"
    requires LinkedIn.Canonical(name1) == "" && LinkedIn.Canonical(name2) == "" && LinkedIn.Canonical(text) != ""
    requires TrimSpace(name1) != "" && TrimSpace(name2) != "" && TrimSpace(name1) != TrimSpace(name2)
    ensures var rec, u := [Field(key1, Str(name1)), Field(key2, Str(name2)), Field(key3, Str(text))],
                          LinkedIn.Canonical(text);
      && Links(rec) == {u} && !Firm([rec]) && ValidRows([rec], [Some(x)]) && ValidRows([rec], [Some(y)])
      && var once := UpsertAll(map[], Kept([Some(x)]), 0);
         var twice := UpsertAll(once, Kept([Some(y)]), 1);
         && u in once && once[u].row.columns.full == TrimSpace(name1)
         && u in twice && twice[u].row.columns.full == TrimSpace(name2)
  {
    hide NormalKey, RowOf, LinkedIn.Canonical, TrimSpace, UpsertAll, Kept, LinkKeys, PossibleInFields, PossibleRows;
    hide Links, Firm;
    var u := LinkedIn.Canonical(text);
    var rec := [Field(key1, Str(name1)), Field(key2, Str(name2)), Field(key3, Str(text))];
    OneLinkInFields(rec, name1, name2, text);
    x := NamedRow(rec, 0, name1, u);
    y := NamedRow(rec, 1, name2, u);
    OneLink(rec, x, u);
    NotSteady(rec, x, y);
    RowsExactly(rec, Some(x));
    RowsExactly(rec, Some(y));
    TwoImports(x, y);
  }

  lemma OneLinkInFields(rec: Record, name1: string, name2: string, text: string)
    requires |rec| == 3 && rec[0].value == Str(name1) && rec[1].value == Str(name2) && rec[2].value == Str(text)
    requires LinkedIn.Canonical(name1) == "" && LinkedIn.Canonical(name2) == "" && LinkedIn.Canonical(text) != ""
    ensures PossibleInFields(rec) == {LinkedIn.Canonical(text)}
  {
    hide LinkedIn.Canonical, PossibleInFields;
    ThreeFields(rec);
  }

  /** A file of one record that two rows are possible for, with a link, is not firm. */
  lemma NotSteady(rec: Record, x: Row, y: Row)
    requires x in PossibleRows(rec) && y in PossibleRows(rec) && x != y && Links(rec) != {}
    ensures !Firm([rec])
  {
    hide PossibleRows, Links;
    assert [rec][0] == rec && !Steady(rec) && EarlierLinks([rec], 0) == {};
  }

  lemma OneLink(rec: Record, x: Row, u: string)
    requires PossibleInFields(rec) == {u} && x in PossibleRows(rec) && x.url == u
    ensures Links(rec) == {u}
  {
    hide PossibleInFields, PossibleAliases, AllMayMiss, PossibleRows, RowOf, LinkKeys;
    AliasesPossible(rec, LinkKeys());
    PossibleIsRow(rec, x);
    RowLink(rec, Some(x));
    LinkOfExactly(rec, u);
  }

  lemma PlainKey(k: string)
    requires Trimmed(k) && forall i :: 0 <= i < |k| ==> k[i] != ' ' && k[i] != '.'
    ensures NormalKey(k) == Lower(k)
  {
    TrimSpaceKeepsTrimmed(k);
    hide TrimSpace, IsSpace, Trimmed;
    assert ReplaceChar(Lower(k), ' ', '_') == Lower(k);
    assert ReplaceChar(Lower(k), '.', '_') == Lower(k);
  }

  /** Such keys, as a spreadsheet and a program may spell them. */
  lemma SpellingsCollide()
    ensures "Nome" != "nome" && NormalKey("Nome") == NormalKey("nome") == "nome"
  {
    hide NormalKey, Lower;
    PlainKey("Nome");
    PlainKey("nome");
    assert LowerChar('N') == 'n' && LowerChar('n') == 'n' && LowerChar('o') == 'o' && LowerChar('m') == 'm';
    assert LowerChar('e') == 'e';
    assert Lower("Nome") == "nome" && Lower("nome") == "nome";
  }
}
