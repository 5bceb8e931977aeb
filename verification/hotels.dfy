/**
  The hotel record of `hotel_class.py`: the constructor pulls the displayed fields out
  of one raw API record, falling back to defaults where keys are missing.  A lookup on
  something that is not a dict, `int()` of a missing rating, or a non-string address
  part raises, exactly as the Python expressions would.
 */
module Hotels {
  import opened Wrappers
  import opened Json
  import PyStr

  /** One normalised search result; `allInfo` keeps the raw record it came from. */
  datatype Hotel = Hotel(
    allInfo: Json,
    name: Json,
    stars: int,
    rating: Json,
    ratingText: Json,
    address: string,
    distance: Json,
    price: Json)

  /** The only address keys that make it into the displayed address. */
  const AddressKeys: set<string> := {"streetAddress", "locality", "countryName"}

  const AddressSeparator: string := ", "

  /** A top-level field of a record, absent when the record is not a dict. */
  function Field(info: Json, key: string): Option<Json> {
    if info.JObj? then Lookup(info.fields, key) else None
  }

  /** The values stored under whitelisted keys, in the record's own key order. */
  function AddressParts(fields: seq<(string, Json)>): (parts: seq<Json>)
    ensures |parts| <= |fields|
    decreases |fields|
  {
    if |fields| == 0 then []
    else (if fields[0].0 in AddressKeys then [fields[0].1] else []) + AddressParts(fields[1..])
  }

  /** `str.join` accepts strings only: every part must be a string, else `TypeError`. */
  function Strings(parts: seq<Json>): (r: Result<seq<string>, Exception>)
    ensures r.Success? <==> forall i :: 0 <= i < |parts| ==> parts[i].JStr?
    ensures r.Success? ==> |r.value| == |parts|
    ensures r.Success? ==> forall i :: 0 <= i < |parts| ==> r.value[i] == parts[i].s
    ensures r.Failure? ==> r.error == TypeError
    decreases |parts|
  {
    if |parts| == 0 then Success([])
    else if !parts[0].JStr? then Failure(TypeError)
    else
      match Strings(parts[1..])
      case Failure(e) => Failure(e)
      case Success(rest) => Success([parts[0].s] + rest)
  }

  /** `', '.join(v for k, v in addr.items() if k in AddressKeys)`. */
  function Address(addr: Json): Result<string, Exception> {
    if !addr.JObj? then Failure(AttributeError)
    else
      var strs :- Strings(AddressParts(addr.fields));
      Success(PyStr.Join(strs, AddressSeparator))
  }

  /** `info.get("landmarks", [{}])[0].get("distance", '')`. */
  function Distance(info: Json): Result<Json, Exception> {
    var landmarks :- Get(info, "landmarks", JArr([JObj([])]));
    var first :- First(landmarks);
    Get(first, "distance", EmptyStr)
  }

  /** `info.get("ratePlan", {}).get("price", {}).get("current", '')`. */
  function Price(info: Json): Result<Json, Exception> {
    var plan :- Get(info, "ratePlan", JObj([]));
    var price :- Get(plan, "price", JObj([]));
    Get(price, "current", EmptyStr)
  }

  /** The shape of a record that normalises without raising. */
  predicate WellShaped(info: Json) {
    && info.JObj?
    && (Field(info, "starRating").Some? && ToInt(Field(info, "starRating").value).Success?)
    && (Field(info, "guestReviews").None? || Field(info, "guestReviews").value.JObj?)
    && (Field(info, "address").None? ||
        (Field(info, "address").value.JObj? &&
         forall i :: 0 <= i < |AddressParts(Field(info, "address").value.fields)| ==>
           AddressParts(Field(info, "address").value.fields)[i].JStr?))
    && (Field(info, "landmarks").None? ||
        (Field(info, "landmarks").value.JArr? && |Field(info, "landmarks").value.items| > 0 &&
         Field(info, "landmarks").value.items[0].JObj?))
    && (Field(info, "ratePlan").None? ||
        (Field(info, "ratePlan").value.JObj? &&
         (Field(Field(info, "ratePlan").value, "price").None? ||
          Field(Field(info, "ratePlan").value, "price").value.JObj?)))
  }

  /** `Hotel(all_info=info)`. */
  function Normalise(info: Json): (r: Result<Hotel, Exception>)
    ensures r.Success? ==> r.value.allInfo == info
    ensures !info.JObj? ==> r == Failure(AttributeError)
    ensures info.JObj? && Field(info, "starRating").None? ==> r == Failure(TypeError)
    ensures r.Success? ==> (Field(info, "starRating").Some? &&
                            ToInt(Field(info, "starRating").value) == Success(r.value.stars))
    ensures r.Success? && Field(info, "name").None? ==> r.value.name == EmptyStr
    ensures r.Success? && Field(info, "name").Some? ==> r.value.name == Field(info, "name").value
    ensures r.Success? && Field(info, "guestReviews").None? ==>
              r.value.rating == EmptyStr && r.value.ratingText == EmptyStr
    ensures r.Success? && Field(info, "address").None? ==> r.value.address == ""
    ensures r.Success? && Field(info, "landmarks").None? ==> r.value.distance == EmptyStr
    ensures r.Success? && Field(info, "ratePlan").None? ==> r.value.price == EmptyStr
  {
    var name :- Get(info, "name", EmptyStr);
    var starRating :- Get(info, "starRating", JNull);
    var stars :- ToInt(starRating);
    var review :- Review(info);
    var address :- AddressOf(info);
    var distance :- Distance(info);
    var price :- Price(info);
    Success(Hotel(info, name, stars, review.0, review.1, address, distance, price))
  }

  /** `info.get("guestReviews", {})`, then its `rating` and `badgeText`, each `''` when missing. */
  function Review(info: Json): Result<(Json, Json), Exception> {
    var reviews :- Get(info, "guestReviews", JObj([]));
    var rating :- Get(reviews, "rating", EmptyStr);
    var text :- Get(reviews, "badgeText", EmptyStr);
    Success((rating, text))
  }

  /** `info.get("address", {})`, joined. */
  function AddressOf(info: Json): Result<string, Exception> {
    var addr :- Get(info, "address", JObj([]));
    Address(addr)
  }

  /** Normalisation succeeds exactly on well-shaped records. */
  lemma NormaliseSucceedsIff(info: Json)
    ensures Normalise(info).Success? <==> WellShaped(info)
  {
    if info.JObj? {
      NormaliseSucceedsIffSteps(info);
      AddressSucceedsIff(info);
      DistanceSucceedsIff(info);
      PriceSucceedsIff(info);
    }
  }

  /** On a dict, normalisation succeeds exactly when every step does. */
  lemma NormaliseSucceedsIffSteps(info: Json)
    requires info.JObj?
    ensures Normalise(info).Success? <==>
            && ToInt(Get(info, "starRating", JNull).value).Success?
            && Review(info).Success? && AddressOf(info).Success?
            && Distance(info).Success? && Price(info).Success?
    ensures Review(info).Success? <==> (Field(info, "guestReviews").None? || Field(info, "guestReviews").value.JObj?)
    ensures Field(info, "starRating").None? ==> Get(info, "starRating", JNull).value == JNull
    ensures Field(info, "starRating").Some? ==> Get(info, "starRating", JNull).value == Field(info, "starRating").value
  {
  }

  lemma AddressSucceedsIff(info: Json)
    requires info.JObj?
    ensures AddressOf(info).Success? <==>
            (Field(info, "address").None? ||
             (Field(info, "address").value.JObj? &&
              forall i :: 0 <= i < |AddressParts(Field(info, "address").value.fields)| ==>
                AddressParts(Field(info, "address").value.fields)[i].JStr?))
  {
    var addr := Get(info, "address", JObj([])).value;
    assert AddressOf(info) == Address(addr);
    if Field(info, "address").None? {
      assert addr == JObj([]);
      assert AddressParts([]) == [];
      assert Strings([]) == Success([]);
    } else {
      assert addr == Field(info, "address").value;
      if addr.JObj? {
        assert Address(addr).Success? <==> Strings(AddressParts(addr.fields)).Success?;
      }
    }
  }

  lemma DistanceSucceedsIff(info: Json)
    requires info.JObj?
    ensures Distance(info).Success? <==>
            (Field(info, "landmarks").None? ||
             (Field(info, "landmarks").value.JArr? && |Field(info, "landmarks").value.items| > 0 &&
              Field(info, "landmarks").value.items[0].JObj?))
  {
  }

  lemma PriceSucceedsIff(info: Json)
    requires info.JObj?
    ensures Price(info).Success? <==>
            (Field(info, "ratePlan").None? ||
             (Field(info, "ratePlan").value.JObj? &&
              (Field(Field(info, "ratePlan").value, "price").None? ||
               Field(Field(info, "ratePlan").value, "price").value.JObj?)))
  {
  }

  /** The fields read from nested dicts: rating and label from `guestReviews`, distance from
      the first landmark, price from `ratePlan.price.current`, each `''` when missing. */
  lemma NormaliseNested(info: Json)
    requires Normalise(info).Success?
    ensures Field(info, "guestReviews").Some? ==>
              Normalise(info).value.rating == LookupOr(Field(info, "guestReviews").value, "rating")
              && Normalise(info).value.ratingText == LookupOr(Field(info, "guestReviews").value, "badgeText")
    ensures Field(info, "landmarks").Some? ==>
              Normalise(info).value.distance == LookupOr(FirstItem(Field(info, "landmarks").value), "distance")
    ensures Field(info, "ratePlan").Some? && Field(Field(info, "ratePlan").value, "price").Some? ==>
              Normalise(info).value.price ==
              LookupOr(Field(Field(info, "ratePlan").value, "price").value, "current")
    ensures Field(info, "ratePlan").Some? && Field(Field(info, "ratePlan").value, "price").None? ==>
              Normalise(info).value.price == EmptyStr
    ensures Field(info, "address").Some? ==>
              Address(Field(info, "address").value) == Success(Normalise(info).value.address)
  {
    NormaliseParts(info);
    AddressField(info);
    ReviewFields(info);
    DistanceField(info);
    PriceField(info);
  }

  lemma ReviewFields(info: Json)
    requires info.JObj? && Review(info).Success?
    ensures Field(info, "guestReviews").Some? ==>
              Review(info).value == (LookupOr(Field(info, "guestReviews").value, "rating"),
                                     LookupOr(Field(info, "guestReviews").value, "badgeText"))
  {
  }

  lemma AddressField(info: Json)
    requires info.JObj?
    ensures Field(info, "address").Some? ==> AddressOf(info) == Address(Field(info, "address").value)
  {
  }

  lemma DistanceField(info: Json)
    requires info.JObj? && Distance(info).Success?
    ensures Field(info, "landmarks").Some? ==>
              Distance(info).value == LookupOr(FirstItem(Field(info, "landmarks").value), "distance")
  {
  }

  lemma PriceField(info: Json)
    requires info.JObj? && Price(info).Success?
    ensures Field(info, "ratePlan").Some? && Field(Field(info, "ratePlan").value, "price").Some? ==>
              Price(info).value == LookupOr(Field(Field(info, "ratePlan").value, "price").value, "current")
    ensures Field(info, "ratePlan").Some? && Field(Field(info, "ratePlan").value, "price").None? ==>
              Price(info).value == EmptyStr
  {
  }

  /** The pieces of a hotel are what the separate lookups yield. */
  lemma NormaliseParts(info: Json)
    requires Normalise(info).Success?
    ensures info.JObj?
    ensures Review(info) == Success((Normalise(info).value.rating, Normalise(info).value.ratingText))
    ensures Distance(info) == Success(Normalise(info).value.distance)
    ensures Price(info) == Success(Normalise(info).value.price)
    ensures AddressOf(info) == Success(Normalise(info).value.address)
  {
    var r := Normalise(info);
    var name := Get(info, "name", EmptyStr);
    var star := Get(info, "starRating", JNull);
    assert name.Success? && star.Success? && ToInt(star.value).Success?;
    assert Review(info).Success? && AddressOf(info).Success? && Distance(info).Success? && Price(info).Success?;
  }

  /** A list's first item, or `None` for anything else. */
  function FirstItem(x: Json): Json {
    if x.JArr? && |x.items| > 0 then x.items[0] else JNull
  }

  /** A dict's value under `key`, or `''`. */
  function LookupOr(x: Json, key: string): Json {
    if x.JObj? && Lookup(x.fields, key).Some? then Lookup(x.fields, key).value else EmptyStr
  }

  /** Selecting address parts distributes over concatenation of fields. */
  lemma {:induction false} AddressPartsAppend(a: seq<(string, Json)>, b: seq<(string, Json)>)
    ensures AddressParts(a + b) == AddressParts(a) + AddressParts(b)
    decreases |a|
  {
    if |a| > 0 {
      assert (a + b)[1..] == a[1..] + b;
      AddressPartsAppend(a[1..], b);
    } else {
      assert a + b == b;
    }
  }

  /** `idx` lists the indices of the whitelisted fields, in increasing order, and `parts`
      holds their values. */
  predicate Selects(fields: seq<(string, Json)>, parts: seq<Json>, idx: seq<nat>) {
    && SelectsValues(fields, parts, idx)
    && Increasing(idx)
    && SelectsAll(fields, idx)
  }

  predicate SelectsValues(fields: seq<(string, Json)>, parts: seq<Json>, idx: seq<nat>) {
    && |idx| == |parts|
    && forall j :: 0 <= j < |idx| ==>
         idx[j] < |fields| && fields[idx[j]].0 in AddressKeys && parts[j] == fields[idx[j]].1
  }

  predicate Increasing(idx: seq<nat>) {
    forall j, k :: 0 <= j < k < |idx| ==> idx[j] < idx[k]
  }

  predicate SelectsAll(fields: seq<(string, Json)>, idx: seq<nat>) {
    forall i :: 0 <= i < |fields| && fields[i].0 in AddressKeys ==> i in idx
  }

  /** The address parts are exactly the values under whitelisted keys, each once, in the
      record's key order: a filter of the fields. */
  lemma {:induction false} AddressPartsSelect(fields: seq<(string, Json)>) returns (idx: seq<nat>)
    ensures Selects(fields, AddressParts(fields), idx)
    decreases |fields|
  {
    if |fields| == 0 {
      return [];
    }
    var rest := AddressPartsSelect(fields[1..]);
    var shifted := Shift(rest);
    ShiftSelects(fields, AddressParts(fields[1..]), rest, shifted);
    if fields[0].0 in AddressKeys {
      idx := [0] + shifted;
      assert AddressParts(fields) == [fields[0].1] + AddressParts(fields[1..]);
      SelectsCons(fields, AddressParts(fields[1..]), shifted);
    } else {
      idx := shifted;
      assert AddressParts(fields) == AddressParts(fields[1..]);
      SelectsSkip(fields, AddressParts(fields[1..]), shifted);
    }
  }

  /** A first field under another key adds nothing. */
  lemma SelectsSkip(fields: seq<(string, Json)>, parts: seq<Json>, shifted: seq<nat>)
    requires |fields| > 0 && fields[0].0 !in AddressKeys
    requires SelectsTail(fields, parts, shifted)
    ensures Selects(fields, parts, shifted)
  {
    forall i | 0 <= i < |fields| && fields[i].0 in AddressKeys
      ensures i in shifted
    {
      assert i != 0;
    }
  }

  /** `shifted` selects `parts` from every field but the first. */
  predicate SelectsTail(fields: seq<(string, Json)>, parts: seq<Json>, shifted: seq<nat>) {
    && |shifted| == |parts|
    && (forall j :: 0 <= j < |shifted| ==>
          0 < shifted[j] < |fields| && fields[shifted[j]].0 in AddressKeys && parts[j] == fields[shifted[j]].1)
    && Increasing(shifted)
    && (forall i :: 0 < i < |fields| && fields[i].0 in AddressKeys ==> i in shifted)
  }

  function Shift(idx: seq<nat>): (r: seq<nat>)
    ensures |r| == |idx| && forall j :: 0 <= j < |idx| ==> r[j] == idx[j] + 1
  {
    seq(|idx|, j requires 0 <= j < |idx| => idx[j] + 1)
  }

  /** Indices into the tail, shifted by one, select the same values from the whole list. */
  lemma ShiftSelects(fields: seq<(string, Json)>, parts: seq<Json>, rest: seq<nat>, shifted: seq<nat>)
    requires |fields| > 0 && Selects(fields[1..], parts, rest)
    requires |shifted| == |rest| && forall j :: 0 <= j < |rest| ==> shifted[j] == rest[j] + 1
    ensures SelectsTail(fields, parts, shifted)
  {
    forall j | 0 <= j < |shifted|
      ensures 0 < shifted[j] < |fields| && fields[shifted[j]].0 in AddressKeys && parts[j] == fields[shifted[j]].1
    {
      assert fields[shifted[j]] == fields[1..][rest[j]];
    }
    forall i | 0 < i < |fields| && fields[i].0 in AddressKeys
      ensures i in shifted
    {
      assert fields[1..][i - 1] == fields[i];
      var j :| 0 <= j < |rest| && rest[j] == i - 1;
      assert shifted[j] == i;
    }
  }

  /** A whitelisted first field puts index 0 in front. */
  lemma SelectsCons(fields: seq<(string, Json)>, parts: seq<Json>, shifted: seq<nat>)
    requires |fields| > 0 && fields[0].0 in AddressKeys
    requires SelectsTail(fields, parts, shifted)
    ensures Selects(fields, [fields[0].1] + parts, [0] + shifted)
  {
    ConsValues(fields, parts, shifted);
    ConsIncreasing(shifted);
    ConsAll(fields, shifted);
  }

  lemma ConsValues(fields: seq<(string, Json)>, parts: seq<Json>, shifted: seq<nat>)
    requires |fields| > 0 && fields[0].0 in AddressKeys
    requires |shifted| == |parts|
    requires forall j :: 0 <= j < |shifted| ==>
               shifted[j] < |fields| && fields[shifted[j]].0 in AddressKeys && parts[j] == fields[shifted[j]].1
    ensures SelectsValues(fields, [fields[0].1] + parts, [0] + shifted)
  {
    var idx := [0] + shifted;
    var all := [fields[0].1] + parts;
    forall j | 0 <= j < |idx|
      ensures idx[j] < |fields| && fields[idx[j]].0 in AddressKeys && all[j] == fields[idx[j]].1
    {
      if j > 0 {
        assert idx[j] == shifted[j - 1] && all[j] == parts[j - 1];
      }
    }
  }

  lemma ConsIncreasing(shifted: seq<nat>)
    requires Increasing(shifted) && forall j :: 0 <= j < |shifted| ==> 0 < shifted[j]
    ensures Increasing([0] + shifted)
  {
    var idx := [0] + shifted;
    forall j, k | 0 <= j < k < |idx|
      ensures idx[j] < idx[k]
    {
      assert idx[k] == shifted[k - 1];
      if j > 0 {
        assert idx[j] == shifted[j - 1];
      }
    }
  }

  lemma ConsAll(fields: seq<(string, Json)>, shifted: seq<nat>)
    requires forall i :: 0 < i < |fields| && fields[i].0 in AddressKeys ==> i in shifted
    ensures SelectsAll(fields, [0] + shifted)
  {
    var idx := [0] + shifted;
    forall i | 0 <= i < |fields| && fields[i].0 in AddressKeys
      ensures i in idx
    {
      if i > 0 {
        var j :| 0 <= j < |shifted| && shifted[j] == i;
        assert idx[j + 1] == i;
      }
    }
  }

  /** A field under any other key, wherever it sits, never changes the address. */
  lemma AddressIgnoresOtherKeys(a: seq<(string, Json)>, k: string, v: Json, b: seq<(string, Json)>)
    requires k !in AddressKeys
    ensures Address(JObj(a + [(k, v)] + b)) == Address(JObj(a + b))
  {
    AddressPartsAppend(a + [(k, v)], b);
    AddressPartsAppend(a, [(k, v)]);
    AddressPartsAppend(a, b);
    assert [(k, v)][1..] == [];
    assert AddressParts([(k, v)]) == [];
    assert AddressParts(a + [(k, v)] + b) == AddressParts(a + b);
  }

  /** The address is the whitelisted values joined by ", ", in the order they appear. */
  lemma AddressOfWhitelisted(fields: seq<(string, Json)>, values: seq<string>)
    requires |fields| == |values|
    requires forall i :: 0 <= i < |fields| ==> fields[i].0 in AddressKeys && fields[i].1 == JStr(values[i])
    ensures Address(JObj(fields)) == Success(PyStr.Join(values, AddressSeparator))
  {
    AllWhitelisted(fields);
    var parts := AddressParts(fields);
    assert Strings(parts).Success?;
    assert Strings(parts).value == values;
  }

  lemma {:induction false} AllWhitelisted(fields: seq<(string, Json)>)
    requires forall i :: 0 <= i < |fields| ==> fields[i].0 in AddressKeys
    ensures AddressParts(fields) == seq(|fields|, i requires 0 <= i < |fields| => fields[i].1)
    decreases |fields|
  {
    if |fields| > 0 {
      AllWhitelisted(fields[1..]);
    }
  }
}
