/**
  One conversation worked through concretely: a `/lowprice` search for "London" whose
  lookup offers two cities, a button press, two refused counts, and a search that finds
  nothing.
 */
module Scenarios {
  import opened Wrappers
  import opened Json
  import opened Cities
  import opened Sessions
  import opened Dialog
  import PyStr
  import PyDict

  const Chat: int := 7

  function Entity(kind: string, name: string, id: string, caption: string): Json {
    JObj([("type", JStr(kind)), ("name", JStr(name)), ("destinationId", JStr(id)), ("caption", JStr(caption))])
  }

  const UkCity: Json := Entity("CITY", "London", "1", "a</span>, UK")
  const SomeHotel: Json := Entity("HOTEL", "London", "9", "x")
  const CanadaCity: Json := Entity("CITY", "London", "2", "Canada")

  /** A locations response: two cities called London and a hotel of that name. */
  const Locations: Json :=
    JObj([("suggestions", JArr([JObj([("entities", JArr([UkCity, SomeHotel, CanadaCity]))])]))])

  /** `title` leaves "London" alone, the lookup answers as above, every listing is empty. */
  const Quiet: Backend := Backend(s => s, s => Locations, c => JArr([]))

  lemma LocationsEntities()
    ensures Entities(Locations) == Success([UkCity, SomeHotel, CanadaCity])
  {
  }

  lemma UkSegment()
    ensures PyStr.LastSegment("a</span>, UK", CaptionSeparator) == "UK"
  {
    assert PyStr.FindFrom("a</span>, UK", CaptionSeparator, 1) == Some(1);
    assert "a</span>, UK"[0..|CaptionSeparator|][0] == 'a';
    assert PyStr.FindFrom("a</span>, UK", CaptionSeparator, 0) == Some(1);
    assert "a</span>, UK"[1 + |CaptionSeparator|..] == "UK";
    assert PyStr.FindFrom("UK", CaptionSeparator, 0) == None;
  }

  lemma EntityFacts(kind: string, name: string, id: string, caption: string)
    ensures var e := Entity(kind, name, id, caption);
            && Lookup(e.fields, "type") == Some(JStr(kind))
            && Lookup(e.fields, "name") == Some(JStr(name))
            && IdOf(e) == JStr(id)
            && HasCaption(e) && CaptionOf(e) == caption
  {
    var f := Entity(kind, name, id, caption).fields;
    assert "type"[0] != "name"[0];
    EntityId(f, id);
    EntityCaption(f, caption);
  }

  lemma EntityId(f: seq<(string, Json)>, id: string)
    requires |f| == 4 && f[0].0 == "type" && f[1].0 == "name" && f[2] == ("destinationId", JStr(id))
    ensures Lookup(f, "destinationId") == Some(JStr(id))
  {
    assert |"type"| != |"destinationId"| && |"name"| != |"destinationId"|;
    assert Lookup(f[1..], "destinationId") == Some(JStr(id)) by { assert f[1..][1..] == f[2..]; }
  }

  lemma EntityCaption(f: seq<(string, Json)>, caption: string)
    requires |f| == 4 && f[0].0 == "type" && f[1].0 == "name" && f[2].0 == "destinationId"
    requires f[3] == ("caption", JStr(caption))
    ensures Lookup(f, "caption") == Some(JStr(caption))
  {
    assert |"type"| != |"caption"| && |"name"| != |"caption"| && |"destinationId"| != |"caption"|;
    assert Lookup(f[3..], "caption") == Some(JStr(caption));
    assert Lookup(f[2..], "caption") == Some(JStr(caption)) by { assert f[2..][1..] == f[3..]; }
    assert Lookup(f[1..], "caption") == Some(JStr(caption)) by { assert f[1..][1..] == f[2..]; }
  }

  /** The caption's last segment names the region. */
  lemma UkVerdict()
    ensures Verdict(UkCity, "London") == Success(Some((JStr("1"), "London, UK")))
  {
    EntityFacts("CITY", "London", "1", "a</span>, UK");
    assert Kept(UkCity, "London") && HasCaption(UkCity) && Hashable(IdOf(UkCity));
    UkSegment();
    UkLabel();
    assert Label(UkCity, "London") == "London, UK";
  }

  lemma UkLabel()
    ensures "London" + ", " + "UK" == "London, UK"
  {
    Concat("London", ", ", "UK", "London, UK");
  }

  /** A caption without the separator is its own last segment. */
  lemma CanadaVerdict()
    ensures Verdict(CanadaCity, "London") == Success(Some((JStr("2"), "London, Canada")))
  {
    EntityFacts("CITY", "London", "2", "Canada");
    CanadaSegment();
    CanadaLabel();
  }

  lemma CanadaSegment()
    ensures PyStr.LastSegment("Canada", CaptionSeparator) == "Canada"
  {
    assert PyStr.FindFrom("Canada", CaptionSeparator, 0) == None;
  }

  lemma CanadaLabel()
    ensures "London" + ", " + "Canada" == "London, Canada"
  {
    Concat("London", ", ", "Canada", "London, Canada");
  }

  /** An entity of another type is skipped. */
  lemma HotelVerdict()
    ensures Verdict(SomeHotel, "London") == Success(None)
  {
    EntityFacts("HOTEL", "London", "9", "x");
    assert "HOTEL"[0] != "CITY"[0];
  }

  lemma Concat(a: string, b: string, c: string, abc: string)
    requires |abc| == |a| + |b| + |c|
    requires forall i :: 0 <= i < |a| ==> abc[i] == a[i]
    requires forall i :: 0 <= i < |b| ==> abc[|a| + i] == b[i]
    requires forall i :: 0 <= i < |c| ==> abc[|a| + |b| + i] == c[i]
    ensures a + b + c == abc
  {
  }

  /** The two Londons are offered in response order. */
  lemma LondonCandidates()
    ensures SearchAllIdForName(Locations, "London") ==
            Success([(JStr("1"), "London, UK"), (JStr("2"), "London, Canada")])
  {
    LocationsEntities();
    FirstCandidate();
    SecondEntitySkipped();
    ThirdCandidate();
  }

  lemma FirstCandidate()
    ensures Candidates([UkCity], "London") == Success([(JStr("1"), "London, UK")])
  {
    var one := [UkCity];
    assert one[..0] == [];
    assert Candidates(one[..0], "London") == Success([]);
    UkVerdict();
    assert Extend([], Some((JStr("1"), "London, UK"))) == [(JStr("1"), "London, UK")];
  }

  lemma SecondEntitySkipped()
    ensures Candidates([UkCity, SomeHotel], "London") == Candidates([UkCity], "London")
  {
    assert [UkCity, SomeHotel][..1] == [UkCity];
    HotelVerdict();
    FirstCandidate();
  }

  lemma ThirdCandidate()
    ensures Candidates([UkCity, SomeHotel, CanadaCity], "London") ==
            Success([(JStr("1"), "London, UK"), (JStr("2"), "London, Canada")])
  {
    var uk, ca := (JStr("1"), "London, UK"), (JStr("2"), "London, Canada");
    var three := [UkCity, SomeHotel, CanadaCity];
    assert three[..2] == [UkCity, SomeHotel];
    assert three[2] == CanadaCity;
    SecondEntitySkipped();
    FirstCandidate();
    CanadaVerdict();
    AppendSecond(uk, ca);
  }

  lemma AppendSecond(uk: (Json, string), ca: (Json, string))
    requires uk == (JStr("1"), "London, UK") && ca == (JStr("2"), "London, Canada")
    ensures Extend([uk], Some(ca)) == [uk, ca]
  {
    assert PyDict.Keys([uk]) == {uk.0};
    assert uk.0 != ca.0 by { assert uk.0.s[0] != ca.0.s[0]; }
  }

  /** The record once the city has been named, and once it has been chosen. */
  const Named: City := City(Some("London"), None, Some("PRICE"), None, [], Some("en_US"), [], [], [])
  const Chosen: City := Named.(cityId := Some(JStr("2")))

  /** `/lowprice` creates the record, stores the price order and asks for the city. */
  lemma AskForCity()
    ensures Step(Bot(map[], map[]), Chat, Command("/lowprice"), Quiet) ==
            Turn(Bot(map[Chat := NewCity().(sortOrder := Some("PRICE"))], map[Chat := AwaitCity]), [AskCity])
  {
    assert PyStr.Lower("/lowprice") == "/lowprice";
  }

  /** A Latin name switches the language and, with two candidates, offers both. */
  lemma OfferCities()
    ensures Step(Bot(map[Chat := NewCity().(sortOrder := Some("PRICE"))], map[Chat := AwaitCity]),
                 Chat, Message("London"), Quiet) ==
            Turn(Bot(map[Chat := Named], map[]),
                 [ChooseCity([(JStr("1"), "London, UK"), (JStr("2"), "London, Canada")])])
  {
    var before := Bot(map[Chat := NewCity().(sortOrder := Some("PRICE"))], map[Chat := AwaitCity]);
    var unregistered := Bot(map[Chat := NewCity().(sortOrder := Some("PRICE"))], map[]);
    assert before.(pending := before.pending - {Chat}) == unregistered;
    assert Step(before, Chat, Message("London"), Quiet) == SearchForCity(unregistered, Chat, "London", Quiet);
    SearchLondon(unregistered, "London", Quiet);
  }

  lemma SearchLondon(b: Bot, text: string, be: Backend)
    requires b == Bot(map[Chat := NewCity().(sortOrder := Some("PRICE"))], map[])
    requires text == "London" && be == Quiet
    ensures SearchForCity(b, Chat, text, be) ==
            Turn(Bot(map[Chat := Named], map[]),
                 [ChooseCity([(JStr("1"), "London, UK"), (JStr("2"), "London, Canada")])])
  {
    LondonLookup(text, be);
    LondonRecord(b, text);
  }

  /** The lookup of "London" finds both cities. */
  lemma LondonLookup(text: string, be: Backend)
    requires text == "London" && be == Quiet
    ensures SearchAllIdForName(be.locate(text), be.title(text)) ==
            Success([(JStr("1"), "London, UK"), (JStr("2"), "London, Canada")])
  {
    QuietLookup();
  }

  /** Storing the Latin name gives the named record. */
  lemma LondonRecord(b: Bot, text: string)
    requires b == Bot(map[Chat := NewCity().(sortOrder := Some("PRICE"))], map[])
    requires text == "London"
    ensures Record(b, Chat, LangAfter(SetName(b.sessions[Chat], Some(text)), text)) == Bot(map[Chat := Named], map[])
  {
    NamedRecord(b.sessions[Chat]);
    assert Record(b, Chat, Named) == Bot(map[Chat := Named], map[]);
  }

  lemma NamedRecord(c: City)
    requires c == NewCity().(sortOrder := Some("PRICE"))
    ensures LangAfter(SetName(c, Some("London")), "London") == Named
  {
    assert !PyStr.StartsWithCyrillic("London");
  }

  lemma QuietLookup()
    ensures SearchAllIdForName(Quiet.locate("London"), Quiet.title("London")) ==
            Success([(JStr("1"), "London, UK"), (JStr("2"), "London, Canada")])
  {
    assert Quiet.locate("London") == Locations && Quiet.title("London") == "London";
    LondonCandidates();
  }

  /** Pressing the second button chooses that city and asks for the count. */
  lemma PressSecond()
    ensures Step(Bot(map[Chat := Named], map[]), Chat, Press(JStr("2")), Quiet) ==
            Turn(Bot(map[Chat := Chosen], map[Chat := AwaitCount]), [AskCount])
  {
  }

  /** Letters and an out-of-range number are both refused, and nothing changes. */
  lemma RefuseCounts()
    ensures Step(Bot(map[Chat := Chosen], map[Chat := AwaitCount]), Chat, Message("abc"), Quiet) ==
            Turn(Bot(map[Chat := Chosen], map[Chat := AwaitCount]), [DigitsOnly, AskCount])
    ensures Step(Bot(map[Chat := Chosen], map[Chat := AwaitCount]), Chat, Message("30"), Quiet) ==
            Turn(Bot(map[Chat := Chosen], map[Chat := AwaitCount]), [CountOutOfRange, AskCount])
  {
    assert !PyStr.IsDigits("abc") by { assert "abc"[0] == 'a'; }
    assert PyStr.IsDigits("30") && PyStr.DigitsValue("30") == 30 by {
      assert "30"[..1] == "3";
    }
  }

  /** A valid count under the price order searches at once; the empty listing ends the session. */
  lemma NothingFoundEnds()
    ensures Step(Bot(map[Chat := Chosen], map[Chat := AwaitCount]), Chat, Message("3"), Quiet) ==
            Turn(Bot(map[], map[]), [Searching, NothingFound])
  {
    assert PyStr.IsDigits("3") && PyStr.DigitsValue("3") == 3;
    var b := Bot(map[Chat := Chosen.(totalHotels := Some("3"))], map[]);
    assert CountAccepted(b, Chat, Quiet) == ChoiceHotels(b, Chat, [], Quiet);
    assert Iterate(JArr([])) == Success([]);
    assert Remove(b.sessions, Chat) == map[];
  }

  /** A star rating of 4.5 is shown as 4 stars, and -4.5 truncates to -4, not -5. */
  lemma HalfStarRating()
    ensures ToInt(JNum(45, 1)) == Success(4)
    ensures ToInt(JNum(-45, 1)) == Success(-4)
  {
    assert PyStr.Pow10(1) == 10;
  }
}
