/**
  The search record of `city_class.py` and the candidate filter of its city lookup:
  from the entities of the first suggestion group, keep the cities whose name is the
  title-cased query, keyed by destination id and labelled with the caption's last
  segment.
 */
module Cities {
  import opened Wrappers
  import opened Json
  import PyStr
  import PyDict
  import opened Hotels

  /** One user's search in progress.  The first five fields are the attributes the class
      declares.  The last four are not declared by the class, yet the dialog reads and
      writes them; they are modelled here as fields that start empty. */
  datatype City = City(
    name: Option<string>,
    cityId: Option<Json>,
    sortOrder: Option<string>,
    totalHotels: Option<string>,
    infoHotels: seq<Json>,
    lang: Option<string>,
    minMaxPrice: seq<string>,
    minMaxDistance: seq<string>,
    hotels: seq<Hotel>)

  /** `City(name, city_id, sort_order, total_hotels, info_hotels)`; a missing
      `info_hotels` becomes a new empty list. */
  function MakeCity(name: Option<string>, cityId: Option<Json>, sortOrder: Option<string>,
                    totalHotels: Option<string>, infoHotels: Option<seq<Json>>): (c: City)
    ensures c.name == name && c.cityId == cityId && c.sortOrder == sortOrder
    ensures c.totalHotels == totalHotels
    ensures infoHotels.None? ==> c.infoHotels == []
    ensures infoHotels.Some? ==> c.infoHotels == infoHotels.value
    ensures c.lang.None? && c.minMaxPrice == [] && c.minMaxDistance == [] && c.hotels == []
  {
    City(name, cityId, sortOrder, totalHotels,
         if infoHotels.None? then [] else infoHotels.value,
         None, [], [], [])
  }

  /** `City()` with every argument defaulted. */
  function NewCity(): (c: City)
    ensures c.name.None? && c.cityId.None? && c.sortOrder.None? && c.totalHotels.None?
    ensures c.infoHotels == []
    ensures c.lang.None? && c.minMaxPrice == [] && c.minMaxDistance == [] && c.hotels == []
  {
    MakeCity(None, None, None, None, None)
  }

  // The property setters: each changes its own field and restoring that field gives
  // back the original record.

  function SetName(c: City, name: Option<string>): (r: City)
    ensures r.name == name && r.(name := c.name) == c
  {
    c.(name := name)
  }

  function SetCityId(c: City, cityId: Option<Json>): (r: City)
    ensures r.cityId == cityId && r.(cityId := c.cityId) == c
  {
    c.(cityId := cityId)
  }

  function SetSortOrder(c: City, sortOrder: Option<string>): (r: City)
    ensures r.sortOrder == sortOrder && r.(sortOrder := c.sortOrder) == c
  {
    c.(sortOrder := sortOrder)
  }

  function SetTotalHotels(c: City, totalHotels: Option<string>): (r: City)
    ensures r.totalHotels == totalHotels && r.(totalHotels := c.totalHotels) == c
  {
    c.(totalHotels := totalHotels)
  }

  function SetInfoHotels(c: City, infoHotels: seq<Json>): (r: City)
    ensures r.infoHotels == infoHotels && r.(infoHotels := c.infoHotels) == c
  {
    c.(infoHotels := infoHotels)
  }

  /** Setters of two different fields commute, and a second write to a field wins. */
  lemma SettersCommute(c: City, n: Option<string>, id: Option<Json>, s: Option<string>, t: Option<string>)
    ensures SetCityId(SetName(c, n), id) == SetName(SetCityId(c, id), n)
    ensures SetTotalHotels(SetSortOrder(c, s), t) == SetSortOrder(SetTotalHotels(c, t), s)
    ensures SetSortOrder(SetSortOrder(c, t), s) == SetSortOrder(c, s)
  {
  }

  // ---------------------------------------------------------------------------
  // The city lookup filter.

  /** The separator whose last segment of a caption names the region. */
  const CaptionSeparator: string := "</span>, "

  /** `data["suggestions"][0]["entities"]`, iterated: only the first group is read. */
  function Entities(data: Json): (r: Result<seq<Json>, Exception>)
    ensures !data.JObj? ==> r == Failure(TypeError)
    ensures data.JObj? && Lookup(data.fields, "suggestions").None? ==> r == Failure(KeyError)
    ensures data.JObj? && Lookup(data.fields, "suggestions").Some? ==>
              var groups := Lookup(data.fields, "suggestions").value;
              && (groups.JObj? ==> r == Failure(KeyError))
              && (groups.JArr? && |groups.items| == 0 ==> r == Failure(IndexError))
              && (groups.JArr? && |groups.items| > 0 ==>
                    var first := groups.items[0];
                    && (!first.JObj? ==> r == Failure(TypeError))
                    && (first.JObj? && Lookup(first.fields, "entities").None? ==> r == Failure(KeyError))
                    && (first.JObj? && Lookup(first.fields, "entities").Some? ==>
                          r == Iterate(Lookup(first.fields, "entities").value)))
  {
    var groups :- Subscript(data, "suggestions");
    var first :- First(groups);
    var entities :- Subscript(first, "entities");
    Iterate(entities)
  }

  /** `e.get("type") == "CITY" and e.get("name") == title` for a dict entity. */
  predicate Kept(e: Json, title: string) {
    e.JObj? && Lookup(e.fields, "type") == Some(JStr("CITY")) && Lookup(e.fields, "name") == Some(JStr(title))
  }

  /** `e.get("destinationId")`: `None` when absent. */
  function IdOf(e: Json): Json {
    if e.JObj? && Lookup(e.fields, "destinationId").Some? then Lookup(e.fields, "destinationId").value else JNull
  }

  /** `e.get("caption")`, when it is a string. */
  function CaptionOf(e: Json): string {
    if e.JObj? && Lookup(e.fields, "caption").Some? && Lookup(e.fields, "caption").value.JStr?
    then Lookup(e.fields, "caption").value.s else ""
  }

  predicate HasCaption(e: Json) {
    e.JObj? && Lookup(e.fields, "caption").Some? && Lookup(e.fields, "caption").value.JStr?
  }

  /** The label shown for a kept entity. */
  function Label(e: Json, title: string): string {
    title + ", " + PyStr.LastSegment(CaptionOf(e), CaptionSeparator)
  }

  /** What one loop iteration does with an entity: skip it, add an (id, label) pair, or raise. */
  function Verdict(e: Json, title: string): (r: Result<Option<(Json, string)>, Exception>)
    ensures r == Success(None) <==> e.JObj? && !Kept(e, title)
    ensures r.Success? && r.value.Some? <==> Kept(e, title) && HasCaption(e) && Hashable(IdOf(e))
    ensures r.Success? && r.value.Some? ==> r.value.value == (IdOf(e), Label(e, title))
  {
    if !e.JObj? then Failure(AttributeError)
    else if !Kept(e, title) then Success(None)
    else if !HasCaption(e) then Failure(AttributeError)
    else if !Hashable(IdOf(e)) then Failure(TypeError)
    else Success(Some((IdOf(e), Label(e, title))))
  }

  /** The loop of the city lookup: a fold over the entities into an insertion-ordered dict. */
  function Candidates(es: seq<Json>, title: string): (r: Result<PyDict.Dict<Json, string>, Exception>)
    ensures r.Success? ==> PyDict.DistinctKeys(r.value)
    decreases |es|
  {
    if |es| == 0 then Success([])
    else
      var d :- Candidates(es[..|es| - 1], title);
      var v :- Verdict(es[|es| - 1], title);
      Success(Extend(d, v))
  }

  /** `cities[city_id] = name` when the entity was kept; the dict as it was otherwise. */
  function Extend(d: PyDict.Dict<Json, string>, v: Option<(Json, string)>): (r: PyDict.Dict<Json, string>)
    requires PyDict.DistinctKeys(d)
    ensures PyDict.DistinctKeys(r)
    ensures v.None? ==> r == d
    ensures v.Some? ==> PyDict.Keys(r) == PyDict.Keys(d) + {v.value.0}
    ensures v.Some? ==> PyDict.ToMap(r) == PyDict.ToMap(d)[v.value.0 := v.value.1]
  {
    if v.None? then d else PyDict.Put(d, v.value.0, v.value.1)
  }

  /** `search_all_id_for_name` once the response has been decoded. */
  function SearchAllIdForName(data: Json, title: string): (r: Result<PyDict.Dict<Json, string>, Exception>)
    ensures Entities(data).Failure? ==> r == Failure(Entities(data).error)
    ensures r.Success? ==> Entities(data).Success? && PyDict.DistinctKeys(r.value)
    ensures r.Success? <==>
              Entities(data).Success? &&
              forall i :: 0 <= i < |Entities(data).value| ==> EntityOk(Entities(data).value[i], title)
  {
    CandidatesOk(data, title);
    var es :- Entities(data);
    Candidates(es, title)
  }

  lemma CandidatesOk(data: Json, title: string)
    ensures Entities(data).Success? ==>
              (Candidates(Entities(data).value, title).Success? <==>
               forall i :: 0 <= i < |Entities(data).value| ==> EntityOk(Entities(data).value[i], title))
  {
    if Entities(data).Success? {
      CandidatesSucceedIff(Entities(data).value, title);
    }
  }

  /** An entity the loop body gets through without raising. */
  predicate EntityOk(e: Json, title: string) {
    e.JObj? && (Kept(e, title) ==> HasCaption(e) && Hashable(IdOf(e)))
  }

  /** The loop raises exactly when some entity is not a dict, or is a kept city whose
      caption is not a string or whose id cannot be a dict key. */
  lemma {:induction false} CandidatesSucceedIff(es: seq<Json>, title: string)
    ensures Candidates(es, title).Success? <==> forall i :: 0 <= i < |es| ==> EntityOk(es[i], title)
    decreases |es|
  {
    if |es| > 0 {
      var init := es[..|es| - 1];
      CandidatesSucceedIff(init, title);
      CandidatesSuccessStep(es, title);
      assert forall i :: 0 <= i < |init| ==> init[i] == es[i];
    }
  }

  /** The fold gets through a non-empty list exactly when it gets through all but the last
      entity and then through the last one. */
  lemma CandidatesSuccessStep(es: seq<Json>, title: string)
    requires |es| > 0
    ensures Candidates(es, title).Success? <==>
            Candidates(es[..|es| - 1], title).Success? && EntityOk(es[|es| - 1], title)
  {
    assert Verdict(es[|es| - 1], title).Success? <==> EntityOk(es[|es| - 1], title);
  }

  /** One step of the fold: the last entity adds its id when it is kept. */
  lemma CandidatesStep(es: seq<Json>, title: string)
    requires |es| > 0 && Candidates(es, title).Success?
    ensures Candidates(es[..|es| - 1], title).Success?
    ensures PyDict.Keys(Candidates(es, title).value) ==
            PyDict.Keys(Candidates(es[..|es| - 1], title).value) +
            (if Kept(es[|es| - 1], title) then {IdOf(es[|es| - 1])} else {})
  {
  }

  /** The keys of the result are exactly the ids of the kept entities. */
  lemma CandidatesKeys(es: seq<Json>, title: string)
    requires Candidates(es, title).Success?
    ensures forall k :: k in PyDict.Keys(Candidates(es, title).value) <==>
                        exists i :: 0 <= i < |es| && Kept(es[i], title) && IdOf(es[i]) == k
  {
    forall k | k in PyDict.Keys(Candidates(es, title).value)
      ensures exists i :: 0 <= i < |es| && Kept(es[i], title) && IdOf(es[i]) == k
    {
      var i := KeyHasEntity(es, title, k);
    }
    forall i | 0 <= i < |es| && Kept(es[i], title)
      ensures IdOf(es[i]) in PyDict.Keys(Candidates(es, title).value)
    {
      KeptEntityHasKey(es, title, i);
    }
  }

  /** Every key comes from a kept entity. */
  lemma {:induction false} KeyHasEntity(es: seq<Json>, title: string, k: Json) returns (i: nat)
    requires Candidates(es, title).Success?
    requires k in PyDict.Keys(Candidates(es, title).value)
    ensures i < |es| && Kept(es[i], title) && IdOf(es[i]) == k
    decreases |es|
  {
    var init := es[..|es| - 1];
    CandidatesStep(es, title);
    if k in PyDict.Keys(Candidates(init, title).value) {
      i := KeyHasEntity(init, title, k);
      assert es[i] == init[i];
    } else {
      i := |es| - 1;
    }
  }

  /** Every kept entity contributes its id as a key. */
  lemma {:induction false} KeptEntityHasKey(es: seq<Json>, title: string, i: nat)
    requires Candidates(es, title).Success?
    requires i < |es| && Kept(es[i], title)
    ensures IdOf(es[i]) in PyDict.Keys(Candidates(es, title).value)
    decreases |es|
  {
    var init := es[..|es| - 1];
    var last := es[|es| - 1];
    CandidatesStep(es, title);
    var before := PyDict.Keys(Candidates(init, title).value);
    var after := PyDict.Keys(Candidates(es, title).value);
    assert before <= after;
    if i < |init| {
      assert es[i] == init[i];
      KeptEntityHasKey(init, title, i);
      assert IdOf(es[i]) in before;
    } else {
      assert es[i] == last && Kept(last, title);
      assert after == before + {IdOf(last)};
    }
  }

  /** Each key carries the label of the LAST kept entity with that id: a later entity
      with the same id overwrites an earlier one. */
  lemma {:induction false} CandidatesLastWins(es: seq<Json>, title: string, i: nat)
    requires Candidates(es, title).Success?
    requires i < |es| && Kept(es[i], title)
    requires forall j :: i < j < |es| && Kept(es[j], title) ==> IdOf(es[j]) != IdOf(es[i])
    ensures IdOf(es[i]) in PyDict.ToMap(Candidates(es, title).value)
    ensures PyDict.ToMap(Candidates(es, title).value)[IdOf(es[i])] == Label(es[i], title)
    decreases |es|
  {
    var init := es[..|es| - 1];
    var last := es[|es| - 1];
    CandidatesUnfold(es, title);
    var d := Candidates(init, title).value;
    var v := Verdict(last, title).value;
    var m := PyDict.ToMap(Candidates(es, title).value);
    if i < |init| {
      assert forall j :: i < j < |init| ==> init[j] == es[j];
      CandidatesLastWins(init, title, i);
      assert init[i] == es[i];
      assert v.Some? ==> v.value.0 != IdOf(es[i]);
    } else {
      assert last == es[i];
      assert v == Some((IdOf(last), Label(last, title)));
    }
  }

  /** The fold's result is the previous result, extended by the last entity's verdict. */
  lemma CandidatesUnfold(es: seq<Json>, title: string)
    requires |es| > 0 && Candidates(es, title).Success?
    ensures Candidates(es[..|es| - 1], title).Success? && Verdict(es[|es| - 1], title).Success?
    ensures Candidates(es, title).value ==
            Extend(Candidates(es[..|es| - 1], title).value, Verdict(es[|es| - 1], title).value)
  {
  }

  /** No kept entity, no candidate. */
  lemma CandidatesEmptyIff(es: seq<Json>, title: string)
    requires Candidates(es, title).Success?
    ensures |Candidates(es, title).value| == 0 <==> forall i :: 0 <= i < |es| ==> !Kept(es[i], title)
  {
    CandidatesKeys(es, title);
    var d := Candidates(es, title).value;
    if |d| > 0 {
      assert d[0].0 in PyDict.Keys(d);
    }
    if exists i :: 0 <= i < |es| && Kept(es[i], title) {
      var i :| 0 <= i < |es| && Kept(es[i], title);
      assert IdOf(es[i]) in PyDict.Keys(d);
    }
  }

  /** Only the first suggestion group is examined: later groups, and the other top-level
      keys before or after `suggestions`, never matter. */
  lemma FirstGroupOnly(before: seq<(string, Json)>, group: Json, rest: seq<Json>, other: seq<(string, Json)>,
                       title: string)
    requires forall i :: 0 <= i < |before| ==> before[i].0 != "suggestions"
    ensures SearchAllIdForName(JObj(before + [("suggestions", JArr([group] + rest))] + other), title)
         == SearchAllIdForName(JObj([("suggestions", JArr([group]))]), title)
  {
    var at := [("suggestions", JArr([group] + rest))] + other;
    assert before + [("suggestions", JArr([group] + rest))] + other == before + at;
    LookupSkips(before, at, "suggestions");
  }
}
