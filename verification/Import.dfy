/** The tolerant JSON import: the link and the columns a record is given. An object is a map, which
    every walk over it visits in an order of its own. */
module Import {
  import opened Text
  import opened ContactNames
  import LinkedIn

  /** Parsed JSON; the order of an object's fields here means nothing. */
  datatype Json = Str(s: string) | Arr(items: seq<Json>) | Obj(fields: seq<Field>) | Other

  datatype Field = Field(key: string, value: Json)

  type Record = seq<Field>

  // ---------- the deep search ----------

  /** `u` is what the search may answer, each object being walked in some order. */
  ghost predicate Finds(v: Json, u: string)
    decreases v, 1, 0
  {
    match v
    case Str(s) => u == LinkedIn.Canonical(s)
    case Arr(items) => FindsInItems(items, u)
    case Obj(fields) => FindsAmong(fields, Indices(|fields|), u)
    case Other => u == ""
  }

  ghost predicate FindsInItems(items: seq<Json>, u: string)
    decreases items, 0, 0
  {
    if items == [] then u == ""
    else (u != "" && Finds(items[0], u)) || (Finds(items[0], "") && FindsInItems(items[1..], u))
  }

  /** The fields still to be walked are those at `left`; any of them may be next. */
  ghost predicate FindsAmong(fields: seq<Field>, left: set<nat>, u: string)
    requires forall i :: i in left ==> i < |fields|
    decreases fields, 0, |left|
  {
    if left == {} then u == ""
    else
      exists i :: i in left
        && ((u != "" && Finds(fields[i].value, u))
            || (Finds(fields[i].value, "") && FindsAmong(fields, left - {i}, u)))
  }

  function Indices(n: nat): (r: set<nat>)
    ensures forall i: nat :: i in r <==> i < n
  {
    if n == 0 then {} else Indices(n - 1) + {n - 1}
  }

  /** The links the search can answer with, over all orders. */
  function Possible(v: Json): set<string>
    decreases v, 1
  {
    match v
    case Str(s) => {LinkedIn.Canonical(s)} - {""}
    case Arr(items) => PossibleInItems(items)
    case Obj(fields) => PossibleInFields(fields)
    case Other => {}
  }

  function PossibleInItems(items: seq<Json>): set<string>
    decreases items, 0
  {
    if items == [] then {} else if Possible(items[0]) != {} then Possible(items[0]) else PossibleInItems(items[1..])
  }

  function PossibleInFields(fields: seq<Field>): set<string>
    decreases fields, 0
  {
    if fields == [] then {} else Possible(fields[0].value) + PossibleInFields(fields[1..])
  }

  /** An empty answer exactly when no link is possible, and otherwise any of the possible ones. */
  predicate AnswersWith(u: string, links: set<string>) {
    if u == "" then links == {} else u in links
  }

  lemma {:induction false} NoEmptyLink(v: Json)
    ensures "" !in Possible(v)
    decreases v, 1
  {
    hide LinkedIn.Canonical;
    match v
    case Str(_) =>
    case Arr(items) => NoEmptyLinkInItems(items);
    case Obj(fields) => NoEmptyLinkInFields(fields);
    case Other =>
  }

  lemma {:induction false} NoEmptyLinkInItems(items: seq<Json>)
    ensures "" !in PossibleInItems(items)
    decreases items, 0
  {
    if items != [] {
      NoEmptyLink(items[0]);
      NoEmptyLinkInItems(items[1..]);
    }
  }

  lemma {:induction false} NoEmptyLinkInFields(fields: seq<Field>)
    ensures "" !in PossibleInFields(fields)
    decreases fields, 0
  {
    if fields != [] {
      NoEmptyLink(fields[0].value);
      NoEmptyLinkInFields(fields[1..]);
    }
  }

  lemma {:induction false} FieldPossible(fields: seq<Field>, i: nat)
    requires i < |fields|
    ensures Possible(fields[i].value) <= PossibleInFields(fields)
  {
    hide Possible;
    if i > 0 { FieldPossible(fields[1..], i - 1); }
  }

  lemma {:induction false} PossibleFromField(fields: seq<Field>, u: string) returns (i: nat)
    requires u in PossibleInFields(fields)
    ensures i < |fields| && u in Possible(fields[i].value)
  {
    hide Possible;
    if u in Possible(fields[0].value) {
      i := 0;
    } else {
      var j := PossibleFromField(fields[1..], u);
      i := j + 1;
    }
  }

  /** Over all orders in which objects can be walked, the search answers exactly the possible links. */
  lemma {:induction false} FindsExactly(v: Json, u: string)
    ensures Finds(v, u) <==> AnswersWith(u, Possible(v))
    decreases v, 1, 0
  {
    hide LinkedIn.Canonical;
    match v
    case Str(_) =>
    case Arr(items) => FindsInItemsExactly(items, u);
    case Obj(fields) => FindsInFieldsExactly(fields, u);
    case Other =>
  }

  lemma {:induction false} FindsInItemsExactly(items: seq<Json>, u: string)
    ensures FindsInItems(items, u) <==> AnswersWith(u, PossibleInItems(items))
    decreases items, 0, 0
  {
    hide Finds, Possible;
    if items != [] {
      FindsExactly(items[0], u);
      FindsExactly(items[0], "");
      FindsInItemsExactly(items[1..], u);
    }
  }

  lemma {:induction false} FindsInFieldsExactly(fields: seq<Field>, u: string)
    ensures FindsAmong(fields, Indices(|fields|), u) <==> AnswersWith(u, PossibleInFields(fields))
    decreases fields, 1, 0
  {
    hide Finds, Possible, FindsAmong, PossibleInFields;
    FindsAmongExactly(fields, Indices(|fields|), u);
    forall i: nat | i < |fields|
      ensures Possible(fields[i].value) <= PossibleInFields(fields)
    {
      FieldPossible(fields, i);
    }
    if PossibleInFields(fields) != {} {
      var w :| w in PossibleInFields(fields);
      var i := PossibleFromField(fields, w);
      if u in PossibleInFields(fields) { var j := PossibleFromField(fields, u); }
    }
  }

  lemma {:induction false} FindsAmongExactly(fields: seq<Field>, left: set<nat>, u: string)
    requires forall i :: i in left ==> i < |fields|
    ensures FindsAmong(fields, left, u)
      <==> if u == "" then forall i :: i in left ==> Possible(fields[i].value) == {}
           else exists i :: i in left && u in Possible(fields[i].value)
    decreases fields, 0, |left|
  {
    hide Finds, Possible;
    forall i | i in left
      ensures Finds(fields[i].value, u) <==> AnswersWith(u, Possible(fields[i].value))
      ensures Finds(fields[i].value, "") <==> Possible(fields[i].value) == {}
      ensures FindsAmong(fields, left - {i}, u)
        <==> if u == "" then forall j :: j in left - {i} ==> Possible(fields[j].value) == {}
             else exists j :: j in left - {i} && u in Possible(fields[j].value)
    {
      FindsExactly(fields[i].value, u);
      FindsExactly(fields[i].value, "");
      FindsAmongExactly(fields, left - {i}, u);
    }
  }

  /** findLinkedInDeep: the order an object is walked in is whatever the map's iteration gives. */
  method FindLinkedInDeep(v: Json) returns (u: string)
    ensures Finds(v, u)
    decreases v
  {
    hide LinkedIn.Canonical;
    match v
    case Str(s) =>
      u := LinkedIn.CanonicalLinkedInURL(s);
    case Arr(items) =>
      var i := 0;
      u := "";
      while i < |items| && u == ""
        invariant 0 <= i <= |items|
        invariant if u == "" then forall j :: 0 <= j < i ==> Possible(items[j]) == {}
                  else AnswersWith(u, PossibleInItems(items))
      {
        u := FindLinkedInDeep(items[i]);
        FindsExactly(items[i], u);
        hide Finds, Possible;
        if u != "" {
          FirstItemAnswers(items, i);
          NoEmptyLink(items[i]);
        }
        i := i + 1;
      }
      if u == "" { NoItemAnswers(items); }
      FindsInItemsExactly(items, u);
    case Obj(fields) =>
      var left := Indices(|fields|);
      u := "";
      while left != {} && u == ""
        invariant left <= Indices(|fields|)
        invariant forall i :: i in left ==> i < |fields|
        invariant if u == "" then forall j :: j in Indices(|fields|) - left ==> Possible(fields[j].value) == {}
                  else exists j :: j in Indices(|fields|) && u in Possible(fields[j].value)
        decreases |left|
      {
        var i :| i in left;
        u := FindLinkedInDeep(fields[i].value);
        FindsExactly(fields[i].value, u);
        left := left - {i};
      }
      FindsAmongExactly(fields, Indices(|fields|), u);
    case Other =>
      u := "";
  }

  lemma {:induction false} FirstItemAnswers(items: seq<Json>, i: nat)
    requires i < |items| && Possible(items[i]) != {} && forall j :: 0 <= j < i ==> Possible(items[j]) == {}
    ensures PossibleInItems(items) == Possible(items[i])
  {
    hide Possible;
    if i > 0 { FirstItemAnswers(items[1..], i - 1); }
  }

  lemma {:induction false} NoItemAnswers(items: seq<Json>)
    requires forall j :: 0 <= j < |items| ==> Possible(items[j]) == {}
    ensures PossibleInItems(items) == {}
  {
    hide Possible;
    if items != [] { NoItemAnswers(items[1..]); }
  }

  // ---------- normalised keys ----------

  function ReplaceChar(s: string, a: char, b: char): string {
    seq(|s|, i requires 0 <= i < |s| => if s[i] == a then b else s[i])
  }

  function NormalKey(k: string): string {
    ReplaceChar(ReplaceChar(Lower(TrimSpace(k)), ' ', '_'), '.', '_')
  }

  /** `norm` is a result of the walk over the fields at `left`: some order, each value written under
      its normalised key over what was there. */
  ghost predicate NormalizesAmong(rec: Record, left: set<nat>, norm: map<string, Json>)
    requires forall i :: i in left ==> i < |rec|
    decreases |left|
  {
    if left == {} then norm == map[]
    else
      exists i, before :: i in left && NormalizesAmong(rec, left - {i}, before)
        && norm == before[NormalKey(rec[i].key) := rec[i].value]
  }

  ghost predicate Normalizes(rec: Record, norm: map<string, Json>) {
    NormalizesAmong(rec, Indices(|rec|), norm)
  }

  /** Each key carries the value of one of the fields that normalise to it. */
  ghost predicate PicksAmong(rec: Record, left: set<nat>, norm: map<string, Json>)
    requires forall i :: i in left ==> i < |rec|
  {
    && (forall i :: i in left ==> NormalKey(rec[i].key) in norm)
    && (forall k :: k in norm ==> exists i :: i in left && NormalKey(rec[i].key) == k && rec[i].value == norm[k])
  }

  lemma {:induction false} NormalizesPicks(rec: Record, left: set<nat>, norm: map<string, Json>)
    requires (forall i :: i in left ==> i < |rec|) && NormalizesAmong(rec, left, norm)
    ensures PicksAmong(rec, left, norm)
    decreases |left|
  {
    hide NormalKey;
    if left != {} {
      var i, before :| i in left && NormalizesAmong(rec, left - {i}, before)
        && norm == before[NormalKey(rec[i].key) := rec[i].value];
      NormalizesPicks(rec, left - {i}, before);
    }
  }

  /** And any such choice comes of some order: the field chosen is walked after its rivals. */
  lemma {:induction false} PicksNormalize(rec: Record, left: set<nat>, norm: map<string, Json>)
    requires (forall i :: i in left ==> i < |rec|) && PicksAmong(rec, left, norm)
    ensures NormalizesAmong(rec, left, norm)
    decreases |left|
  {
    hide NormalKey;
    if left == {} {
      assert norm == map[];
    } else {
      var j :| j in left;
      var k := NormalKey(rec[j].key);
      var i :| i in left && NormalKey(rec[i].key) == k && rec[i].value == norm[k];
      var before := BeforeLast(rec, left, norm, i);
      PicksNormalize(rec, left - {i}, before);
      assert norm == before[NormalKey(rec[i].key) := rec[i].value];
    }
  }

  lemma BeforeLast(rec: Record, left: set<nat>, norm: map<string, Json>, i: nat) returns (before: map<string, Json>)
    requires (forall i :: i in left ==> i < |rec|) && PicksAmong(rec, left, norm)
    requires i in left && rec[i].value == norm[NormalKey(rec[i].key)]
    ensures PicksAmong(rec, left - {i}, before) && norm == before[NormalKey(rec[i].key) := rec[i].value]
  {
    hide NormalKey;
    var k := NormalKey(rec[i].key);
    if exists h :: h in left - {i} && NormalKey(rec[h].key) == k {
      var h :| h in left - {i} && NormalKey(rec[h].key) == k;
      before := norm[k := rec[h].value];
    } else {
      before := norm - {k};
    }
    assert norm == before[k := rec[i].value];
    forall x | x in before
      ensures exists h :: h in left - {i} && NormalKey(rec[h].key) == x && rec[h].value == before[x]
    {
      if x != k {
        var h :| h in left && NormalKey(rec[h].key) == x && rec[h].value == norm[x];
        assert h != i;
      }
    }
  }

  method NormalizeKeys(rec: Record) returns (norm: map<string, Json>)
    ensures Normalizes(rec, norm)
  {
    hide NormalKey;
    norm := map[];
    var left := Indices(|rec|);
    while left != {}
      invariant left <= Indices(|rec|)
      invariant forall i :: i in Indices(|rec|) - left ==> i < |rec|
      invariant NormalizesAmong(rec, Indices(|rec|) - left, norm)
      decreases |left|
    {
      var i :| i in left;
      assert Indices(|rec|) - (left - {i}) - {i} == Indices(|rec|) - left;
      left := left - {i};
      norm := norm[NormalKey(rec[i].key) := rec[i].value];
    }
    assert Indices(|rec|) - left == Indices(|rec|);
  }

  // ---------- the link of a record ----------

  /** The fields that may carry the link, in order of precedence. */
  function LinkKeys(): seq<string> {
    ["linkedin_url", "perfil_linkedin_url", "linkedin_decisor", "url_do_linkedin", "url_linkedin", "linkedin",
     "profile_url", "profileurl", "url_perfil", "perfil", "url", "link"]
  }

  function LinkIn(v: Json): string {
    if v.Str? then LinkedIn.Canonical(v.s) else ""
  }

  function AliasUrl(norm: map<string, Json>, keys: seq<string>): string {
    if keys == [] then ""
    else
      var u := if keys[0] in norm then LinkIn(norm[keys[0]]) else "";
      if u != "" then u else AliasUrl(norm, keys[1..])
  }

  /** The link once one walk has given `norm`: that of the aliases, or what the deep search, a second
      walk, may answer. */
  ghost predicate UrlUnder(rec: Record, norm: map<string, Json>, keys: seq<string>, u: string) {
    if AliasUrl(norm, keys) != "" then u == AliasUrl(norm, keys) else Finds(Obj(rec), u)
  }

  /** `u` is what the importer may take as the record's link. */
  ghost predicate LinkWith(rec: Record, keys: seq<string>, u: string) {
    exists norm :: Normalizes(rec, norm) && UrlUnder(rec, norm, keys, u)
  }

  ghost predicate LinkOf(rec: Record, u: string) {
    LinkWith(rec, LinkKeys(), u)
  }

  /** The links under one alias, over the fields whose keys normalise to it. */
  function UnderKey(rec: Record, k: string): set<string> {
    set i: nat | i in Indices(|rec|) && NormalKey(rec[i].key) == k :: LinkIn(rec[i].value)
  }

  predicate Carries(rec: Record, k: string) {
    exists i :: 0 <= i < |rec| && NormalKey(rec[i].key) == k
  }

  /** The alias may turn out without a link. */
  predicate MayMiss(rec: Record, k: string) {
    !Carries(rec, k) || "" in UnderKey(rec, k)
  }

  function PossibleAliases(rec: Record, keys: seq<string>): set<string> {
    if keys == [] then {}
    else (UnderKey(rec, keys[0]) - {""}) + if MayMiss(rec, keys[0]) then PossibleAliases(rec, keys[1..]) else {}
  }

  predicate AllMayMiss(rec: Record, keys: seq<string>) {
    forall k :: k in keys ==> MayMiss(rec, k)
  }

  /** The links a record can be given. */
  function PossibleLinks(rec: Record, keys: seq<string>): set<string> {
    PossibleAliases(rec, keys) + if AllMayMiss(rec, keys) then PossibleInFields(rec) else {}
  }

  predicate Distinct(keys: seq<string>) {
    forall i, j :: 0 <= i < j < |keys| ==> keys[i] != keys[j]
  }

  lemma {:induction false} AliasIsPossible(rec: Record, norm: map<string, Json>, keys: seq<string>)
    requires Normalizes(rec, norm)
    ensures if AliasUrl(norm, keys) == "" then AllMayMiss(rec, keys)
            else AliasUrl(norm, keys) in PossibleAliases(rec, keys)
  {
    hide LinkIn, Normalizes, NormalKey, MayMiss;
    if keys != [] {
      KeyHasLink(rec, norm, keys[0]);
      AliasIsPossible(rec, norm, keys[1..]);
      assert forall k :: k in keys <==> k == keys[0] || k in keys[1..];
    }
  }

  lemma KeyHasLink(rec: Record, norm: map<string, Json>, k: string)
    requires Normalizes(rec, norm)
    ensures k !in norm ==> MayMiss(rec, k)
    ensures k in norm ==> LinkIn(norm[k]) in UnderKey(rec, k) && (LinkIn(norm[k]) == "" ==> MayMiss(rec, k))
  {
    hide LinkIn, NormalKey;
    NormalizesPicks(rec, Indices(|rec|), norm);
  }

  lemma {:induction false} AliasUnaffected(norm: map<string, Json>, keys: seq<string>, k: string, v: Json)
    requires k !in keys
    ensures AliasUrl(norm[k := v], keys) == AliasUrl(norm, keys)
  {
    hide LinkIn;
    if keys != [] { AliasUnaffected(norm, keys[1..], k, v); }
  }

  /** Another field of the same key may be the one that stays. */
  lemma Repick(rec: Record, norm: map<string, Json>, i: nat)
    requires Normalizes(rec, norm) && i < |rec|
    ensures Normalizes(rec, norm[NormalKey(rec[i].key) := rec[i].value])
  {
    hide NormalKey, NormalizesAmong;
    NormalizesPicks(rec, Indices(|rec|), norm);
    var norm' := norm[NormalKey(rec[i].key) := rec[i].value];
    assert PicksAmong(rec, Indices(|rec|), norm');
    PicksNormalize(rec, Indices(|rec|), norm');
  }

  lemma {:induction false} SomeNorm(rec: Record, left: set<nat>) returns (norm: map<string, Json>)
    requires forall i :: i in left ==> i < |rec|
    ensures NormalizesAmong(rec, left, norm)
    decreases |left|
  {
    hide NormalKey;
    if left == {} {
      norm := map[];
    } else {
      var i :| i in left;
      var before := SomeNorm(rec, left - {i});
      norm := before[NormalKey(rec[i].key) := rec[i].value];
    }
  }

  /** A walk after which the aliases give this link, or none. */
  lemma {:induction false} AliasReached(rec: Record, keys: seq<string>, u: string) returns (norm: map<string, Json>)
    requires Distinct(keys) && if u == "" then AllMayMiss(rec, keys) else u in PossibleAliases(rec, keys)
    ensures Normalizes(rec, norm) && AliasUrl(norm, keys) == u
    decreases |keys|
  {
    hide LinkIn, NormalKey, NormalizesAmong;
    if keys == [] {
      norm := SomeNorm(rec, Indices(|rec|));
    } else {
      var k := keys[0];
      if u != "" && u in UnderKey(rec, k) {
        var i :| i in Indices(|rec|) && NormalKey(rec[i].key) == k && LinkIn(rec[i].value) == u;
        var before := SomeNorm(rec, Indices(|rec|));
        Repick(rec, before, i);
        norm := before[k := rec[i].value];
      } else {
        assert keys == [k] + keys[1..];
        assert MayMiss(rec, k);
        norm := AliasReached(rec, keys[1..], u);
        norm := MissAt(rec, keys[1..], norm, k);
      }
    }
  }

  lemma MissAt(rec: Record, keys: seq<string>, norm: map<string, Json>, k: string) returns (norm': map<string, Json>)
    requires Normalizes(rec, norm) && MayMiss(rec, k) && k !in keys
    ensures Normalizes(rec, norm') && AliasUrl(norm', keys) == AliasUrl(norm, keys)
    ensures k in norm' ==> LinkIn(norm'[k]) == ""
  {
    hide LinkIn, NormalKey, NormalizesAmong;
    NormalizesPicks(rec, Indices(|rec|), norm);
    if Carries(rec, k) {
      var i :| i in Indices(|rec|) && NormalKey(rec[i].key) == k && LinkIn(rec[i].value) == "";
      Repick(rec, norm, i);
      norm' := norm[k := rec[i].value];
      AliasUnaffected(norm, keys, k, rec[i].value);
    } else {
      norm' := norm;
    }
  }

  lemma LinkPossible(rec: Record, i: nat)
    requires i < |rec|
    ensures LinkIn(rec[i].value) == "" || LinkIn(rec[i].value) in PossibleInFields(rec)
  {
    hide PossibleInFields, LinkedIn.Canonical;
    FieldPossible(rec, i);
  }

  lemma UnderKeyPossible(rec: Record, k: string)
    ensures UnderKey(rec, k) - {""} <= PossibleInFields(rec)
  {
    hide NormalKey, PossibleInFields, LinkIn;
    forall u | u in UnderKey(rec, k) - {""} ensures u in PossibleInFields(rec) {
      var i :| i in Indices(|rec|) && NormalKey(rec[i].key) == k && LinkIn(rec[i].value) == u;
      LinkPossible(rec, i);
    }
  }

  lemma {:induction false} AliasesPossible(rec: Record, keys: seq<string>)
    ensures PossibleAliases(rec, keys) <= PossibleInFields(rec)
    ensures !AllMayMiss(rec, keys) ==> PossibleAliases(rec, keys) != {}
  {
    hide PossibleInFields, MayMiss, UnderKey;
    if keys != [] {
      assert keys == [keys[0]] + keys[1..];
      UnderKeyPossible(rec, keys[0]);
      AliasesPossible(rec, keys[1..]);
      if !MayMiss(rec, keys[0]) { SomethingUnder(rec, keys[0]); }
    }
  }

  lemma SomethingUnder(rec: Record, k: string)
    requires !MayMiss(rec, k)
    ensures UnderKey(rec, k) - {""} != {}
  {
    hide NormalKey, LinkIn;
    var i :| 0 <= i < |rec| && NormalKey(rec[i].key) == k;
    assert i in Indices(|rec|);
    assert LinkIn(rec[i].value) in UnderKey(rec, k) - {""};
  }

  /** Over all orders of both walks, a record is given exactly one of its possible links, and is
      skipped exactly when it has none. */
  lemma LinksExactly(rec: Record, keys: seq<string>, u: string)
    requires Distinct(keys)
    ensures LinkWith(rec, keys, u) <==> AnswersWith(u, PossibleLinks(rec, keys))
  {
    hide Finds, Normalizes, AliasUrl, PossibleAliases, PossibleInFields, AllMayMiss, LinkedIn.Canonical;
    FindsExactly(Obj(rec), u);
    NoEmptyLink(Obj(rec));
    AliasesPossible(rec, keys);
    assert Possible(Obj(rec)) == PossibleInFields(rec);
    if LinkWith(rec, keys, u) {
      var norm :| Normalizes(rec, norm) && UrlUnder(rec, norm, keys, u);
      AliasIsPossible(rec, norm, keys);
    }
    if AnswersWith(u, PossibleLinks(rec, keys)) {
      var norm := AliasReached(rec, keys, if u in PossibleAliases(rec, keys) then u else "");
      assert UrlUnder(rec, norm, keys, u);
    }
  }

  // ---------- the strings of a record ----------

  /** Every string of the value, at any depth. */
  function Strings(v: Json): set<string>
    decreases v, 1
  {
    match v
    case Str(s) => {s}
    case Arr(items) => StringsOfItems(items)
    case Obj(fields) => StringsOfFields(fields)
    case Other => {}
  }

  function StringsOfItems(items: seq<Json>): set<string>
    decreases items, 0
  {
    if items == [] then {} else Strings(items[0]) + StringsOfItems(items[1..])
  }

  function StringsOfFields(fields: seq<Field>): set<string>
    decreases fields, 0
  {
    if fields == [] then {} else Strings(fields[0].value) + StringsOfFields(fields[1..])
  }

  /** The links are normal forms of these strings, and there are none only when none of the strings
      holds a profile link. */
  ghost predicate LinksOfStrings(links: set<string>, strings: set<string>) {
    && (forall u :: u in links ==> exists s :: s in strings && LinkedIn.Canonical(s) == u)
    && (links == {} ==> forall s :: s in strings ==> LinkedIn.Canonical(s) == "")
  }

  lemma {:induction false} PossibleStrings(v: Json)
    ensures LinksOfStrings(Possible(v), Strings(v))
    decreases v, 1
  {
    hide LinkedIn.Canonical;
    match v
    case Str(s) =>
      assert s in Strings(v);
      assert LinkedIn.Canonical(s) != "" ==> LinkedIn.Canonical(s) in Possible(v);
    case Arr(items) => ItemStrings(items);
    case Obj(fields) => FieldStrings(fields);
    case Other =>
  }

  lemma {:induction false} ItemStrings(items: seq<Json>)
    ensures LinksOfStrings(PossibleInItems(items), StringsOfItems(items))
    decreases items, 0
  {
    hide LinkedIn.Canonical, Possible, Strings;
    if items != [] {
      PossibleStrings(items[0]);
      ItemStrings(items[1..]);
    }
  }

  lemma {:induction false} FieldStrings(fields: seq<Field>)
    ensures LinksOfStrings(PossibleInFields(fields), StringsOfFields(fields))
    decreases fields, 0
  {
    hide LinkedIn.Canonical, Possible, Strings;
    if fields != [] {
      PossibleStrings(fields[0].value);
      FieldStrings(fields[1..]);
    }
  }

  /** `url` is the normal form of one of these strings, and empty only when none holds a link. */
  ghost predicate AnswerFor(url: string, strings: set<string>) {
    if url == "" then forall s :: s in strings ==> LinkedIn.Canonical(s) == ""
    else exists s :: s in strings && LinkedIn.Canonical(s) == url
  }

  /** What the deep search answers, in whatever order objects are walked: nothing exactly when no
      string at any depth holds a profile link, and otherwise the normal form of one of them. */
  lemma DeepAnswers(v: Json, u: string)
    requires Finds(v, u)
    ensures AnswerFor(u, Strings(v))
  {
    hide LinkedIn.Canonical, Finds, Possible, Strings;
    FindsExactly(v, u);
    PossibleStrings(v);
  }

  /** Whatever the field names, the precedence list and the orders of the two walks: a record is
      skipped exactly when no string at any depth of it holds a profile link, and otherwise its link
      is the normal form of one of its own strings. */
  lemma RecordUrlExactly(rec: Record, keys: seq<string>, u: string)
    requires LinkWith(rec, keys, u)
    ensures AnswerFor(u, Strings(Obj(rec)))
  {
    hide LinkedIn.Canonical, Finds, Possible, Strings, Normalizes, AliasUrl, PossibleAliases, PossibleInFields;
    var norm :| Normalizes(rec, norm) && UrlUnder(rec, norm, keys, u);
    AliasIsPossible(rec, norm, keys);
    AliasesPossible(rec, keys);
    PossibleStrings(Obj(rec));
    PossibleObj(rec);
    if AliasUrl(norm, keys) == "" { DeepAnswers(Obj(rec), u); }
  }

  lemma PossibleObj(rec: Record)
    ensures Possible(Obj(rec)) == PossibleInFields(rec)
  {
  }

  method ContactUrl(rec: Record, norm: map<string, Json>) returns (url: string)
    ensures UrlUnder(rec, norm, LinkKeys(), url)
  {
    hide LinkKeys, Finds, LinkIn;
    var keys := LinkKeys();
    url := "";
    var i := 0;
    while i < |keys| && url == ""
      invariant 0 <= i <= |keys|
      invariant if url == "" then AliasUrl(norm, keys[i..]) == AliasUrl(norm, keys) else url == AliasUrl(norm, keys)
    {
      assert keys[i..][1..] == keys[i + 1..];
      if keys[i] in norm {
        url := LinkIn(norm[keys[i]]);
      }
      i := i + 1;
    }
    if url == "" {
      url := FindLinkedInDeep(Obj(rec));
    }
  }

  // ---------- the columns of a record ----------

  function FirstKeys(): seq<string> { ["first_name", "firstname", "primeiro_nome"] }
  function LastKeys(): seq<string> { ["last_name", "lastname", "sobrenome", "ultimo_nome"] }

  function FullKeys(): seq<string> {
    ["full_name", "nome_completo", "nome", "nome_decisor", "decisor", "name", "contato", "responsavel"]
  }

  function CompanyKeys(): seq<string> {
    ["company", "empresa", "empresa_nome", "nome_empresa", "razao_social", "organizacao", "organization", "companhia"]
  }

  function JobKeys(): seq<string> {
    ["job_title", "jobtitle", "cargo", "title", "funcao", "posicao", "position", "titulo"]
  }

  function TextIn(v: Json): string {
    if v.Str? then TrimSpace(v.s) else ""
  }

  function FirstText(norm: map<string, Json>, keys: seq<string>): string {
    if keys == [] then ""
    else
      var t := if keys[0] in norm then TextIn(norm[keys[0]]) else "";
      if t != "" then t else FirstText(norm, keys[1..])
  }

  method FirstNonEmptyString(norm: map<string, Json>, keys: seq<string>) returns (t: string)
    ensures t == FirstText(norm, keys)
  {
    hide TextIn;
    for i := 0 to |keys|
      invariant FirstText(norm, keys[i..]) == FirstText(norm, keys)
    {
      assert keys[i..][1..] == keys[i + 1..];
      if keys[i] in norm {
        t := TextIn(norm[keys[i]]);
        if t != "" { return t; }
      }
    }
    return "";
  }

  function ColumnsOf(norm: map<string, Json>, url: string): Columns {
    Completed(
      Columns(FirstText(norm, FirstKeys()), FirstText(norm, LastKeys()), FirstText(norm, FullKeys()),
              FirstText(norm, CompanyKeys()), FirstText(norm, JobKeys())),
      url)
  }

  // ---------- the row of a record ----------

  datatype Row = Row(url: string, columns: Columns, record: Record)  // the record is kept as metadata

  /** What the importer may make of the record: one walk decides the columns and the alias link. */
  ghost predicate RowOf(rec: Record, r: Option<Row>) {
    exists norm, u :: RowUnder(rec, norm, u, r)
  }

  ghost predicate RowUnder(rec: Record, norm: map<string, Json>, u: string, r: Option<Row>) {
    Normalizes(rec, norm) && UrlUnder(rec, norm, LinkKeys(), u)
    && r == if u == "" then None else Some(Row(u, ColumnsOf(norm, u), rec))
  }

  method ContactRow(rec: Record) returns (r: Option<Row>)
    ensures RowOf(rec, r)
  {
    hide Completed, Normalizes, UrlUnder, LinkKeys, FirstKeys, LastKeys, FullKeys, CompanyKeys, JobKeys;
    var norm := NormalizeKeys(rec);
    var first := FirstNonEmptyString(norm, FirstKeys());
    var last := FirstNonEmptyString(norm, LastKeys());
    var full := FirstNonEmptyString(norm, FullKeys());
    var company := FirstNonEmptyString(norm, CompanyKeys());
    var job := FirstNonEmptyString(norm, JobKeys());
    var url := ContactUrl(rec, norm);
    r := if url == "" then None else Some(Row(url, Completed(Columns(first, last, full, company, job), url), rec));
    assert RowUnder(rec, norm, url, r);
  }

  /** The results the walk that normalises keys can have, computed field by field: of two values under
      one key either may be the one written last. */
  function PossibleNorms(rec: Record): set<map<string, Json>> {
    if rec == [] then {map[]}
    else
      var f, before := rec[|rec| - 1], PossibleNorms(rec[..|rec| - 1]);
      var k := NormalKey(f.key);
      (set m | m in before :: m[k := f.value]) + (set m | m in before && k in m)
  }

  function UrlsUnder(rec: Record, norm: map<string, Json>): set<string> {
    if AliasUrl(norm, LinkKeys()) != "" then {AliasUrl(norm, LinkKeys())} else PossibleInFields(rec)
  }

  /** The rows a record can be given. */
  function PossibleRows(rec: Record): set<Row> {
    set norm, u | norm in PossibleNorms(rec) && u in UrlsUnder(rec, norm) :: Row(u, ColumnsOf(norm, u), rec)
  }

  lemma NormStep(rec: Record, n: nat, norm: map<string, Json>)
    requires 0 < n <= |rec|
    ensures var k, v, before := NormalKey(rec[n - 1].key), rec[n - 1].value, PossibleNorms(rec[..n - 1]);
      norm in PossibleNorms(rec[..n])
      <==> (exists m :: m in before && norm == m[k := v]) || (norm in before && k in norm)
  {
    hide NormalKey;
    assert rec[..n][..n - 1] == rec[..n - 1];
  }

  lemma {:induction false} NormsArePicks(rec: Record, n: nat, norm: map<string, Json>)
    requires n <= |rec|
    ensures norm in PossibleNorms(rec[..n]) <==> PicksAmong(rec, Indices(n), norm)
    decreases n, 1
  {
    hide NormalKey;
    if n == 0 {
      assert norm == map[] <==> norm.Keys == {};
    } else {
      hide PossibleNorms, PicksAmong;
      if norm in PossibleNorms(rec[..n]) { NormPicks(rec, n, norm); }
      if PicksAmong(rec, Indices(n), norm) { PickIsNorm(rec, n, norm); }
    }
  }

  lemma {:induction false} NormPicks(rec: Record, n: nat, norm: map<string, Json>)
    requires 0 < n <= |rec| && norm in PossibleNorms(rec[..n])
    ensures PicksAmong(rec, Indices(n), norm)
    decreases n, 0
  {
    hide NormalKey, PossibleNorms;
    NormStep(rec, n, norm);
    var k, v, before := NormalKey(rec[n - 1].key), rec[n - 1].value, PossibleNorms(rec[..n - 1]);
    if m :| m in before && norm == m[k := v] {
      NormsArePicks(rec, n - 1, m);
    } else {
      NormsArePicks(rec, n - 1, norm);
    }
  }

  lemma NormFrom(rec: Record, n: nat, before: map<string, Json>, norm: map<string, Json>)
    requires 0 < n <= |rec| && before in PossibleNorms(rec[..n - 1])
    requires var k, v := NormalKey(rec[n - 1].key), rec[n - 1].value;
      norm == before[k := v] || (norm == before && k in norm)
    ensures norm in PossibleNorms(rec[..n])
  {
    hide NormalKey, PossibleNorms;
    NormStep(rec, n, norm);
  }

  lemma {:induction false} PickIsNorm(rec: Record, n: nat, norm: map<string, Json>)
    requires 0 < n <= |rec| && PicksAmong(rec, Indices(n), norm)
    ensures norm in PossibleNorms(rec[..n])
    decreases n, 0
  {
    hide NormalKey, PossibleNorms;
    assert Indices(n) - {n - 1} == Indices(n - 1);
    assert n - 1 in Indices(n);
    LastPicked(rec, n, norm);
    hide PicksAmong, Indices;
    if norm[NormalKey(rec[n - 1].key)] == rec[n - 1].value {
      var before := BeforeLast(rec, Indices(n), norm, n - 1);
      NormsArePicks(rec, n - 1, before);
      NormFrom(rec, n, before, norm);
    } else {
      PicksWithoutLast(rec, n, norm);
      NormsArePicks(rec, n - 1, norm);
      NormFrom(rec, n, norm, norm);
    }
  }

  lemma LastPicked(rec: Record, n: nat, norm: map<string, Json>)
    requires 0 < n <= |rec| && PicksAmong(rec, Indices(n), norm)
    ensures NormalKey(rec[n - 1].key) in norm
  {
    hide NormalKey;
    assert n - 1 in Indices(n);
  }

  lemma PicksWithoutLast(rec: Record, n: nat, norm: map<string, Json>)
    requires 0 < n <= |rec| && PicksAmong(rec, Indices(n), norm)
    requires norm[NormalKey(rec[n - 1].key)] != rec[n - 1].value
    ensures PicksAmong(rec, Indices(n - 1), norm)
  {
    hide NormalKey;
    forall x | x in norm
      ensures exists h :: h in Indices(n - 1) && NormalKey(rec[h].key) == x && rec[h].value == norm[x]
    {
      var h :| h in Indices(n) && NormalKey(rec[h].key) == x && rec[h].value == norm[x];
      assert h != n - 1;
    }
  }

  /** The walk over the record's map ends with one of these, and may end with any. */
  lemma NormsExactly(rec: Record, norm: map<string, Json>)
    ensures Normalizes(rec, norm) <==> norm in PossibleNorms(rec)
  {
    hide PicksAmong, NormalizesAmong, PossibleNorms;
    assert rec[..|rec|] == rec;
    NormsArePicks(rec, |rec|, norm);
    if Normalizes(rec, norm) { NormalizesPicks(rec, Indices(|rec|), norm); }
    if PicksAmong(rec, Indices(|rec|), norm) { PicksNormalize(rec, Indices(|rec|), norm); }
  }

  lemma UrlsExactly(rec: Record, norm: map<string, Json>, u: string)
    requires Normalizes(rec, norm)
    ensures UrlUnder(rec, norm, LinkKeys(), u) <==> AnswersWith(u, UrlsUnder(rec, norm))
    ensures "" !in UrlsUnder(rec, norm) && UrlsUnder(rec, norm) <= PossibleInFields(rec)
    ensures UrlsUnder(rec, norm) == {} ==> PossibleInFields(rec) == {}
  {
    hide Finds, Normalizes, AliasUrl, PossibleAliases, PossibleInFields, AllMayMiss, LinkKeys;
    FindsExactly(Obj(rec), u);
    NoEmptyLink(Obj(rec));
    PossibleObj(rec);
    AliasIsPossible(rec, norm, LinkKeys());
    AliasesPossible(rec, LinkKeys());
  }

  predicate RowAnswers(r: Option<Row>, rows: set<Row>) {
    if r.None? then rows == {} else r.value in rows
  }

  lemma RowIsPossible(rec: Record, norm: map<string, Json>, u: string, r: Option<Row>)
    requires RowUnder(rec, norm, u, r)
    ensures r.Some? ==> r.value in PossibleRows(rec)
    ensures r.None? ==> PossibleInFields(rec) == {}
  {
    NormsExactly(rec, norm);
    UrlsExactly(rec, norm, u);
    hide Normalizes, UrlUnder, UrlsUnder, ColumnsOf, PossibleNorms, LinkKeys, PossibleInFields;
  }

  lemma PossibleIsRow(rec: Record, row: Row)
    requires row in PossibleRows(rec)
    ensures RowOf(rec, Some(row)) && row.record == rec && row.url != "" && row.url in PossibleInFields(rec)
  {
    hide Normalizes, UrlUnder, UrlsUnder, ColumnsOf, PossibleNorms, LinkKeys, PossibleInFields;
    var norm, u :| norm in PossibleNorms(rec) && u in UrlsUnder(rec, norm) && row == Row(u, ColumnsOf(norm, u), rec);
    NormsExactly(rec, norm);
    UrlsExactly(rec, norm, u);
    assert RowUnder(rec, norm, u, Some(row));
  }

  lemma NoRowPossible(rec: Record)
    ensures PossibleRows(rec) == {} <==> RowOf(rec, None)
    ensures PossibleRows(rec) == {} <==> PossibleInFields(rec) == {}
  {
    hide Normalizes, UrlUnder, UrlsUnder, ColumnsOf, PossibleNorms, LinkKeys, PossibleInFields;
    var norm := SomeNorm(rec, Indices(|rec|));
    SomeNormIs(rec, norm);
    NormsExactly(rec, norm);
    UrlsExactly(rec, norm, "");
    if u :| u in UrlsUnder(rec, norm) { assert Row(u, ColumnsOf(norm, u), rec) in PossibleRows(rec); }
    if PossibleRows(rec) == {} {
      assert RowUnder(rec, norm, "", None);
    } else {
      var row :| row in PossibleRows(rec);
      PossibleIsRow(rec, row);
    }
    if RowOf(rec, None) {
      var m, u :| RowUnder(rec, m, u, None);
      RowIsPossible(rec, m, u, None);
    }
  }

  /** Over all orders of both walks, the importer makes of a record exactly one of its possible rows,
      columns included, and skips it exactly when there is none. */
  lemma RowsExactly(rec: Record, r: Option<Row>)
    ensures RowOf(rec, r) <==> RowAnswers(r, PossibleRows(rec))
  {
    hide RowUnder, PossibleRows, PossibleInFields;
    NoRowPossible(rec);
    if RowOf(rec, r) {
      var norm, u :| RowUnder(rec, norm, u, r);
      RowIsPossible(rec, norm, u, r);
    }
    if r.Some? && r.value in PossibleRows(rec) { PossibleIsRow(rec, r.value); }
  }

  lemma SomeNormIs(rec: Record, norm: map<string, Json>)
    requires NormalizesAmong(rec, Indices(|rec|), norm)
    ensures Normalizes(rec, norm)
  {
  }
}
