/**
  The per-chat search dialog of `main.py`.  Each handler of the bot becomes a pure
  function from the bot's state to a new state and the prompts it sends.  The state is
  the session store plus, per chat, the step handler waiting for that chat's next text
  message (what `register_next_step_handler` records).

  A Python exception inside a handler is swallowed by the logging wrapper: the turn
  ends with whatever was already sent and no step handler waiting.
 */
module Dialog {
  import opened Wrappers
  import opened Json
  import PyStr
  import PyDict
  import opened Hotels
  import opened Cities
  import opened Sessions

  /** The sort-order codes the commands store. */
  const PriceOrder: string := "PRICE"
  const PriceHighestFirst: string := "PRICE_HIGHEST_FIRST"
  const DistanceFromLandmark: string := "DISTANCE_FROM_LANDMARK"

  /** The most hotels a user may ask for. */
  const MaxHotels: nat := 25

  /** The step handler waiting for a chat's next text message. */
  datatype Phase =
    | AwaitCity      // search_for_city
    | AwaitCount     // check_errors_in_total_hotels
    | AwaitPrice     // check_errors_in_min_max_price
    | AwaitDistance  // check_errors_in_min_max_distance

  datatype Bot = Bot(sessions: Store, pending: map<int, Phase>)

  /** What arrives from a chat: a message the bot routes to the search commands, any
      other text message, or a press on a city button carrying its callback data. */
  datatype Event = Command(text: string) | Message(text: string) | Press(data: Json)

  /** What the bot sends back, without its wording or markup. */
  datatype Prompt =
    | AskCity
    | NoSuchCity
    | ChooseCity(options: seq<(Json, string)>)
    | AskCount
    | DigitsOnly
    | CountOutOfRange
    | AskMinPrice
    | AskMaxPrice
    | AskMinDistance
    | AskMaxDistance
    | Searching
    | NothingFound
    | ShowHotel(hotel: Hotel)
    | Chatter

  datatype Turn = Turn(bot: Bot, out: seq<Prompt>)

  /** What the dialog needs from outside: Python's `str.title`, the decoded response of the
      locations search for a query, and the decoded response of the hotel listing for a
      search record. */
  datatype Backend = Backend(title: string -> string, locate: string -> Json, search: City -> Json)

  // ---------------------------------------------------------------------------
  // Invariant and framing.

  /** Every waiting handler has a record to work on; the two bound lists never hold more
      than two entries; a handler waits for a price only while fewer than two prices are
      known, and for a distance only once both prices and fewer than two distances are. */
  ghost predicate Inv(bot: Bot) {
    && (forall c :: c in bot.pending ==> c in bot.sessions)
    && (forall c :: c in bot.sessions ==>
          |bot.sessions[c].minMaxPrice| <= 2 && |bot.sessions[c].minMaxDistance| <= 2)
    && (forall c :: c in bot.pending && c in bot.sessions && bot.pending[c] == AwaitPrice ==>
          |bot.sessions[c].minMaxPrice| < 2)
    && (forall c :: c in bot.pending && c in bot.sessions && bot.pending[c] == AwaitDistance ==>
          |bot.sessions[c].minMaxPrice| == 2 && |bot.sessions[c].minMaxDistance| < 2)
  }

  /** Nothing about any other chat changed. */
  ghost predicate Elsewhere(b: Bot, b': Bot, chat: int) {
    && (forall c :: c != chat ==> (c in b.sessions <==> c in b'.sessions))
    && (forall c :: c != chat && c in b.sessions ==> b'.sessions[c] == b.sessions[c])
    && (forall c :: c != chat ==> (c in b.pending <==> c in b'.pending))
    && (forall c :: c != chat && c in b.pending ==> b'.pending[c] == b.pending[c])
  }

  function Record(bot: Bot, chat: int, c: City): Bot {
    bot.(sessions := bot.sessions[chat := c])
  }

  function Await(bot: Bot, chat: int, phase: Phase): Bot {
    bot.(pending := bot.pending[chat := phase])
  }

  // ---------------------------------------------------------------------------
  // Commands.

  /** The sort order a command text selects, compared after lower-casing. */
  function SortOrderFor(text: string): (r: Option<string>)
    ensures r == Some(PriceOrder) <==> PyStr.Lower(text) == "/lowprice"
    ensures r == Some(PriceHighestFirst) <==> PyStr.Lower(text) == "/highprice"
    ensures r == Some(DistanceFromLandmark) <==> PyStr.Lower(text) == "/bestdeal"
    ensures r.None? <==> PyStr.Lower(text) !in {"/lowprice", "/highprice", "/bestdeal"}
  {
    var t := PyStr.Lower(text);
    if t == "/lowprice" then Some(PriceOrder)
    else if t == "/highprice" then Some(PriceHighestFirst)
    else if t == "/bestdeal" then Some(DistanceFromLandmark)
    else None
  }

  /** `commands` then `query_city`: make sure the chat has a record, store the sort order
      of a recognised command (nothing else changes), and ask for the city. */
  function Commands(bot: Bot, chat: int, text: string): (r: Turn)
    ensures chat in r.bot.sessions && chat in r.bot.pending && r.bot.pending[chat] == AwaitCity
    ensures r.out == [AskCity]
    ensures var before := NewUser(bot.sessions, chat)[chat];
            && (SortOrderFor(text).Some? ==> r.bot.sessions[chat].sortOrder == SortOrderFor(text))
            && (SortOrderFor(text).None? ==> r.bot.sessions[chat].sortOrder == before.sortOrder)
            && r.bot.sessions[chat].(sortOrder := before.sortOrder) == before
    ensures Elsewhere(bot, r.bot, chat)
  {
    var store := NewUser(bot.sessions, chat);
    var c := store[chat];
    var c' := if SortOrderFor(text).Some? then SetSortOrder(c, SortOrderFor(text)) else c;
    Turn(Bot(store[chat := c'], bot.pending[chat := AwaitCity]), [AskCity])
  }

  /** The handlers that only greet or explain (`start`, `help`, `hello_world`, `say_hello`):
      they make sure the chat has a record and reply. */
  function Chat(bot: Bot, chat: int): (r: Turn)
    ensures r.bot.sessions == NewUser(bot.sessions, chat) && r.bot.pending == bot.pending
    ensures r.out == [Chatter]
  {
    Turn(bot.(sessions := NewUser(bot.sessions, chat)), [Chatter])
  }

  // ---------------------------------------------------------------------------
  // City.

  /** The language tag after a city name is typed: `en_US` unless the name starts with a
      Cyrillic letter, otherwise whatever it was. */
  function LangAfter(c: City, text: string): (r: City)
    ensures !PyStr.StartsWithCyrillic(text) ==> r.lang == Some("en_US")
    ensures PyStr.StartsWithCyrillic(text) ==> r.lang == c.lang
    ensures r.(lang := c.lang) == c
  {
    if !PyStr.StartsWithCyrillic(text) then c.(lang := Some("en_US")) else c
  }

  /** `search_for_city`: record the name, look the city up, and branch on the number of
      candidates (none: say so and ask again; one: take it and ask for the count; more:
      offer them as choices).  A lookup that raises `KeyError` counts as "not found". */
  function SearchForCity(bot: Bot, chat: int, text: string, be: Backend): (r: Turn)
    ensures chat !in bot.sessions ==> r == Turn(bot, [])
    ensures chat in bot.sessions ==> chat in r.bot.sessions
    ensures chat in bot.sessions ==>
              r.bot.sessions[chat].name == Some(text)
              && r.bot.sessions[chat].lang == LangAfter(bot.sessions[chat], text).lang
    ensures chat in bot.sessions ==>
              var lookup := SearchAllIdForName(be.locate(text), be.title(text));
              && ((lookup == Failure(KeyError) || lookup == Success([])) ==>
                    r.bot.pending == bot.pending[chat := AwaitCity] && r.out == [NoSuchCity, AskCity])
              && (lookup.Success? && |lookup.value| == 1 ==>
                    r.bot.sessions[chat].cityId == Some(lookup.value[0].0)
                    && r.bot.pending == bot.pending[chat := AwaitCount] && r.out == [AskCount])
              && (lookup.Success? && |lookup.value| > 1 ==>
                    r == Turn(Record(bot, chat, LangAfter(SetName(bot.sessions[chat], Some(text)), text)),
                              [ChooseCity(lookup.value)]))
              && (lookup.Failure? && lookup.error != KeyError ==> r.bot.pending == bot.pending && r.out == [])
    ensures Elsewhere(bot, r.bot, chat)
  {
    if chat !in bot.sessions then Turn(bot, [])
    else
      var c := LangAfter(SetName(bot.sessions[chat], Some(text)), text);
      var lookup := SearchAllIdForName(be.locate(text), be.title(text));
      CityFound(Record(bot, chat, c), chat, lookup)
  }

  /** The branch on the outcome of the city lookup. */
  function CityFound(bot: Bot, chat: int, lookup: Result<PyDict.Dict<Json, string>, Exception>): (r: Turn)
    requires chat in bot.sessions
    ensures chat in r.bot.sessions
    ensures (lookup == Failure(KeyError) || lookup == Success([])) ==>
              r.bot.sessions == bot.sessions && r.bot.pending == bot.pending[chat := AwaitCity]
              && r.out == [NoSuchCity, AskCity]
    ensures lookup.Success? && |lookup.value| == 1 ==>
              r.bot.sessions[chat] == SetCityId(bot.sessions[chat], Some(lookup.value[0].0))
              && r.bot.pending == bot.pending[chat := AwaitCount] && r.out == [AskCount]
    ensures lookup.Success? && |lookup.value| > 1 ==>
              r.bot == bot && r.out == [ChooseCity(lookup.value)]
    ensures lookup.Failure? && lookup.error != KeyError ==> r == Turn(bot, [])
    ensures r.bot.sessions[chat].(cityId := bot.sessions[chat].cityId) == bot.sessions[chat]
    ensures Elsewhere(bot, r.bot, chat)
  {
    match lookup
    case Failure(e) =>
      if e == KeyError then Turn(Await(bot, chat, AwaitCity), [NoSuchCity, AskCity])
      else Turn(bot, [])
    case Success(cities) =>
      if |cities| == 0 then Turn(Await(bot, chat, AwaitCity), [NoSuchCity, AskCity])
      else if |cities| > 1 then Turn(bot, [ChooseCity(cities)])
      else
        var c := SetCityId(bot.sessions[chat], Some(cities[0].0));
        Turn(Await(Record(bot, chat, c), chat, AwaitCount), [AskCount])
  }

  /** `callback_worker`: a pressed city button stores its data as the city id and asks for
      the hotel count. */
  function CallbackWorker(bot: Bot, chat: int, data: Json): (r: Turn)
    ensures chat !in bot.sessions ==> r == Turn(bot, [])
    ensures chat in bot.sessions ==>
              r.bot.sessions == bot.sessions[chat := SetCityId(bot.sessions[chat], Some(data))]
              && r.bot.pending == bot.pending[chat := AwaitCount] && r.out == [AskCount]
    ensures Elsewhere(bot, r.bot, chat)
  {
    if chat !in bot.sessions then Turn(bot, [])
    else
      var c := SetCityId(bot.sessions[chat], Some(data));
      Turn(Await(Record(bot, chat, c), chat, AwaitCount), [AskCount])
  }

  // ---------------------------------------------------------------------------
  // Hotel count, prices and distances.

  /** A count the bot accepts: all digits, and between 1 and 25. */
  predicate ValidCount(text: string) {
    PyStr.IsDigits(text) && 1 <= PyStr.DigitsValue(text) <= MaxHotels
  }

  /** `check_errors_in_total_hotels`: a count that is not all digits, or out of range, is
      refused and asked for again; an accepted count is stored as typed. */
  function CheckTotalHotels(bot: Bot, chat: int, text: string, be: Backend): (r: Turn)
    ensures !ValidCount(text) ==>
              r.bot.sessions == bot.sessions && r.bot.pending == bot.pending[chat := AwaitCount]
              && r.out == [if PyStr.IsDigits(text) then CountOutOfRange else DigitsOnly, AskCount]
    ensures ValidCount(text) && chat !in bot.pending ==> chat !in r.bot.pending || r.bot.pending[chat] != AwaitCount
    ensures ValidCount(text) && chat in bot.sessions && chat in r.bot.sessions ==>
              r.bot.sessions[chat].totalHotels == Some(text)
    ensures ValidCount(text) && chat !in bot.sessions ==> r == Turn(bot, [])
    ensures ValidCount(text) && chat in bot.sessions ==>
              r == CountAccepted(Record(bot, chat, SetTotalHotels(bot.sessions[chat], Some(text))), chat, be)
    ensures Elsewhere(bot, r.bot, chat)
  {
    if !PyStr.IsDigits(text) then Turn(Await(bot, chat, AwaitCount), [DigitsOnly, AskCount])
    else if !(1 <= PyStr.DigitsValue(text) <= MaxHotels) then
      Turn(Await(bot, chat, AwaitCount), [CountOutOfRange, AskCount])
    else if chat !in bot.sessions then Turn(bot, [])
    else CountAccepted(Record(bot, chat, SetTotalHotels(bot.sessions[chat], Some(text))), chat, be)
  }

  /** After an accepted count: the best-deal order goes on to the price bounds, any other
      order straight to the search. */
  function CountAccepted(bot: Bot, chat: int, be: Backend): (r: Turn)
    ensures chat in bot.sessions && bot.sessions[chat].sortOrder == Some(DistanceFromLandmark) ==>
              r == QueryMinMaxPrice(bot, chat, [], be)
    ensures chat in bot.sessions && bot.sessions[chat].sortOrder != Some(DistanceFromLandmark) ==>
              r == ChoiceHotels(bot, chat, [], be)
    ensures chat !in bot.pending ==> chat !in r.bot.pending || r.bot.pending[chat] != AwaitCount
    ensures chat in r.bot.sessions ==> (chat in bot.sessions &&
              r.bot.sessions[chat].(hotels := bot.sessions[chat].hotels) == bot.sessions[chat])
    ensures Elsewhere(bot, r.bot, chat)
  {
    if chat !in bot.sessions then Turn(bot, [])
    else if bot.sessions[chat].sortOrder == Some(DistanceFromLandmark) then QueryMinMaxPrice(bot, chat, [], be)
    else ChoiceHotels(bot, chat, [], be)
  }

  /** `query_min_max_price`: ask for the missing price, or move on to distances once both
      are known. */
  function QueryMinMaxPrice(bot: Bot, chat: int, out: seq<Prompt>, be: Backend): (r: Turn)
    ensures chat !in bot.sessions ==> r == Turn(bot, out)
    ensures chat in bot.sessions && |bot.sessions[chat].minMaxPrice| == 0 ==>
              r == Turn(Await(bot, chat, AwaitPrice), out + [AskMinPrice])
    ensures chat in bot.sessions && |bot.sessions[chat].minMaxPrice| == 1 ==>
              r == Turn(Await(bot, chat, AwaitPrice), out + [AskMaxPrice])
    ensures chat in bot.sessions && |bot.sessions[chat].minMaxPrice| >= 2 ==>
              r == QueryDistance(bot, chat, out, be)
    ensures chat in r.bot.sessions ==> (chat in bot.sessions &&
              r.bot.sessions[chat].(hotels := bot.sessions[chat].hotels) == bot.sessions[chat])
    ensures chat !in bot.pending && chat in r.bot.pending ==>
              r.bot.pending[chat] != AwaitCount && r.bot.pending[chat] != AwaitCity
    ensures Elsewhere(bot, r.bot, chat)
  {
    if chat !in bot.sessions then Turn(bot, out)
    else if |bot.sessions[chat].minMaxPrice| == 0 then Turn(Await(bot, chat, AwaitPrice), out + [AskMinPrice])
    else if |bot.sessions[chat].minMaxPrice| == 1 then Turn(Await(bot, chat, AwaitPrice), out + [AskMaxPrice])
    else QueryDistance(bot, chat, out, be)
  }

  /** `check_errors_in_min_max_price`: a digit string is appended, anything else is
      refused; either way the price step decides what to ask next. */
  function CheckMinMaxPrice(bot: Bot, chat: int, text: string, be: Backend): (r: Turn)
    ensures !PyStr.IsDigits(text) ==> r == QueryMinMaxPrice(bot, chat, [DigitsOnly], be)
    ensures PyStr.IsDigits(text) && chat in bot.sessions ==>
              var c := bot.sessions[chat];
              r == QueryMinMaxPrice(Record(bot, chat, c.(minMaxPrice := c.minMaxPrice + [text])), chat, [], be)
    ensures Elsewhere(bot, r.bot, chat)
  {
    if !PyStr.IsDigits(text) then QueryMinMaxPrice(bot, chat, [DigitsOnly], be)
    else if chat !in bot.sessions then Turn(bot, [])
    else
      var c := bot.sessions[chat];
      QueryMinMaxPrice(Record(bot, chat, c.(minMaxPrice := c.minMaxPrice + [text])), chat, [], be)
  }

  /** `query_distance`: ask for the missing distance, or search once both are known. */
  function QueryDistance(bot: Bot, chat: int, out: seq<Prompt>, be: Backend): (r: Turn)
    ensures chat !in bot.sessions ==> r == Turn(bot, out)
    ensures chat in bot.sessions && |bot.sessions[chat].minMaxDistance| == 0 ==>
              r == Turn(Await(bot, chat, AwaitDistance), out + [AskMinDistance])
    ensures chat in bot.sessions && |bot.sessions[chat].minMaxDistance| == 1 ==>
              r == Turn(Await(bot, chat, AwaitDistance), out + [AskMaxDistance])
    ensures chat in bot.sessions && |bot.sessions[chat].minMaxDistance| >= 2 ==>
              r == ChoiceHotels(bot, chat, out, be)
    ensures chat in r.bot.sessions ==> (chat in bot.sessions &&
              r.bot.sessions[chat].(hotels := bot.sessions[chat].hotels) == bot.sessions[chat])
    ensures chat !in bot.pending && chat in r.bot.pending ==> r.bot.pending[chat] == AwaitDistance
    ensures Elsewhere(bot, r.bot, chat)
  {
    if chat !in bot.sessions then Turn(bot, out)
    else if |bot.sessions[chat].minMaxDistance| == 0 then Turn(Await(bot, chat, AwaitDistance), out + [AskMinDistance])
    else if |bot.sessions[chat].minMaxDistance| == 1 then Turn(Await(bot, chat, AwaitDistance), out + [AskMaxDistance])
    else ChoiceHotels(bot, chat, out, be)
  }

  /** `check_errors_in_min_max_distance`: as for prices. */
  function CheckMinMaxDistance(bot: Bot, chat: int, text: string, be: Backend): (r: Turn)
    ensures !PyStr.IsDigits(text) ==> r == QueryDistance(bot, chat, [DigitsOnly], be)
    ensures PyStr.IsDigits(text) && chat in bot.sessions ==>
              var c := bot.sessions[chat];
              r == QueryDistance(Record(bot, chat, c.(minMaxDistance := c.minMaxDistance + [text])), chat, [], be)
    ensures Elsewhere(bot, r.bot, chat)
  {
    if !PyStr.IsDigits(text) then QueryDistance(bot, chat, [DigitsOnly], be)
    else if chat !in bot.sessions then Turn(bot, [])
    else
      var c := bot.sessions[chat];
      QueryDistance(Record(bot, chat, c.(minMaxDistance := c.minMaxDistance + [text])), chat, [], be)
  }

  // ---------------------------------------------------------------------------
  // Search.

  /** The hotels built from the records before the first one that raises, and that
      exception if there was one. */
  datatype Batch = Batch(hotels: seq<Hotel>, failure: Option<Exception>)

  /** `for i_hotel in hotels: record.hotels.append(Hotel(all_info=i_hotel))`. */
  function NormaliseAll(records: seq<Json>): (b: Batch)
    ensures |b.hotels| <= |records|
    ensures b.failure.None? ==> |b.hotels| == |records|
    ensures b.failure.Some? ==> |b.hotels| < |records|
    decreases |records|
  {
    if |records| == 0 then Batch([], None)
    else
      match Normalise(records[0])
      case Failure(e) => Batch([], Some(e))
      case Success(h) =>
        var rest := NormaliseAll(records[1..]);
        Batch([h] + rest.hotels, rest.failure)
  }

  /** The hotels built are the normalised records in listing order, up to the first record
      that raises, and the exception reported is the one that record raises. */
  lemma {:induction false} NormaliseAllInOrder(records: seq<Json>)
    ensures forall i :: 0 <= i < |NormaliseAll(records).hotels| ==>
              Normalise(records[i]) == Success(NormaliseAll(records).hotels[i])
    ensures NormaliseAll(records).failure.Some? ==>
              Normalise(records[|NormaliseAll(records).hotels|]) == Failure(NormaliseAll(records).failure.value)
    decreases |records|
  {
    if |records| == 0 {
      assert NormaliseAll(records) == Batch([], None);
    } else if Normalise(records[0]).Failure? {
      assert NormaliseAll(records) == Batch([], Some(Normalise(records[0]).error));
    } else {
      var tail := records[1..];
      NormaliseAllInOrder(tail);
      var rest := NormaliseAll(tail);
      assert NormaliseAll(records) == Batch([Normalise(records[0]).value] + rest.hotels, rest.failure);
      ConsInOrder(Normalise, records, Normalise(records[0]).value, rest.hotels);
      if rest.failure.Some? {
        assert records[1 + |rest.hotels|] == tail[|rest.hotels|];
      }
    }
  }

  /** Shifting a pointwise fact about the tail of a list onto the whole list. */
  lemma ConsInOrder<A, B, E>(f: A -> Result<B, E>, xs: seq<A>, h: B, ys: seq<B>)
    requires |ys| < |xs|
    requires f(xs[0]) == Success(h)
    requires forall i :: 0 <= i < |ys| ==> f(xs[1..][i]) == Success(ys[i])
    ensures forall i :: 0 <= i < |ys| + 1 ==> f(xs[i]) == Success(([h] + ys)[i])
  {
    forall i | 1 <= i < |ys| + 1
      ensures f(xs[i]) == Success(([h] + ys)[i])
    {
      assert xs[i] == xs[1..][i - 1];
    }
  }

  /** One `ShowHotel` prompt per hotel, in order. */
  function Shown(hotels: seq<Hotel>): (out: seq<Prompt>)
    ensures |out| == |hotels|
    ensures forall i :: 0 <= i < |hotels| ==> out[i] == ShowHotel(hotels[i])
  {
    seq(|hotels|, i requires 0 <= i < |hotels| => ShowHotel(hotels[i]))
  }

  /** `choice_hotels` and `get_info`: search, normalise every record, and end the session,
      either with "nothing found" or with every hotel in order.  If a record cannot be
      normalised the turn stops there and the session keeps the hotels built so far. */
  function ChoiceHotels(bot: Bot, chat: int, out: seq<Prompt>, be: Backend): (r: Turn)
    ensures |r.out| > |out| && r.out[..|out| + 1] == out + [Searching]
    ensures chat !in bot.sessions ==> r == Turn(bot, out + [Searching])
    ensures chat in bot.sessions && Iterate(be.search(bot.sessions[chat])).Success? &&
            NormaliseAll(Iterate(be.search(bot.sessions[chat])).value).failure.None? ==>
              chat !in r.bot.sessions
    ensures chat in bot.sessions && Iterate(be.search(bot.sessions[chat])).Failure? ==>
              r == Turn(bot, out + [Searching])
    ensures chat in bot.sessions && Iterate(be.search(bot.sessions[chat])).Success? &&
            NormaliseAll(Iterate(be.search(bot.sessions[chat])).value).failure.Some? ==>
              var c := bot.sessions[chat];
              var batch := NormaliseAll(Iterate(be.search(c)).value);
              r.bot.sessions == bot.sessions[chat := c.(hotels := c.hotels + batch.hotels)]
              && r.out == out + [Searching]
    ensures r.bot.pending == bot.pending
    ensures chat in r.bot.sessions ==> (chat in bot.sessions &&
              r.bot.sessions[chat].(hotels := bot.sessions[chat].hotels) == bot.sessions[chat])
    ensures Elsewhere(bot, r.bot, chat)
  {
    var out := out + [Searching];
    if chat !in bot.sessions then Turn(bot, out)
    else
      var c := bot.sessions[chat];
      match Iterate(be.search(c))
      case Failure(_) => Turn(bot, out)
      case Success(records) =>
        var batch := NormaliseAll(records);
        var c' := c.(hotels := c.hotels + batch.hotels);
        if batch.failure.Some? then Turn(Record(bot, chat, c'), out)
        else if c'.hotels == [] then Turn(bot.(sessions := Remove(bot.sessions, chat)), out + [NothingFound])
        else Turn(bot.(sessions := Remove(bot.sessions, chat)), out + Shown(c'.hotels))
  }

  // ---------------------------------------------------------------------------
  // One turn.

  /** The waiting handler receives the message; it is unregistered before it runs. */
  function Handle(bot: Bot, chat: int, phase: Phase, text: string, be: Backend): (r: Turn)
    requires chat in bot.pending && bot.pending[chat] == phase
    ensures Elsewhere(bot, r.bot, chat)
  {
    var b := bot.(pending := bot.pending - {chat});
    match phase
    case AwaitCity => SearchForCity(b, chat, text, be)
    case AwaitCount => CheckTotalHotels(b, chat, text, be)
    case AwaitPrice => CheckMinMaxPrice(b, chat, text, be)
    case AwaitDistance => CheckMinMaxDistance(b, chat, text, be)
  }

  /** One event for one chat.  A waiting step handler takes the chat's next text message,
      even one that looks like a command; button presses never go to it. */
  function Step(bot: Bot, chat: int, ev: Event, be: Backend): (r: Turn)
    ensures Elsewhere(bot, r.bot, chat)
  {
    match ev
    case Press(data) => CallbackWorker(bot, chat, data)
    case Command(text) =>
      if chat in bot.pending then Handle(bot, chat, bot.pending[chat], text, be)
      else Commands(bot, chat, text)
    case Message(text) =>
      if chat in bot.pending then Handle(bot, chat, bot.pending[chat], text, be)
      else Chat(bot, chat)
  }

  /** A conversation: the events of any chats, processed one after another. */
  function Run(bot: Bot, events: seq<(int, Event)>, be: Backend): (r: Turn)
    decreases |events|
  {
    if |events| == 0 then Turn(bot, [])
    else
      var first := Step(bot, events[0].0, events[0].1, be);
      var rest := Run(first.bot, events[1..], be);
      Turn(rest.bot, first.out + rest.out)
  }

  // ---------------------------------------------------------------------------
  // The invariant is kept by every handler, hence by every turn.

  lemma CommandsKeepInv(bot: Bot, chat: int, text: string)
    requires Inv(bot)
    ensures Inv(Commands(bot, chat, text).bot)
  {
  }

  lemma CallbackWorkerKeepsInv(bot: Bot, chat: int, data: Json)
    requires Inv(bot)
    ensures Inv(CallbackWorker(bot, chat, data).bot)
  {
  }

  /** The handlers below run after the chat's waiting handler was unregistered. */
  lemma CityFoundKeepsInv(bot: Bot, chat: int, lookup: Result<PyDict.Dict<Json, string>, Exception>)
    requires Inv(bot) && chat !in bot.pending && chat in bot.sessions
    ensures Inv(CityFound(bot, chat, lookup).bot)
  {
  }

  lemma SearchForCityKeepsInv(bot: Bot, chat: int, text: string, be: Backend)
    requires Inv(bot) && chat !in bot.pending
    ensures Inv(SearchForCity(bot, chat, text, be).bot)
  {
    if chat in bot.sessions {
      var c := LangAfter(SetName(bot.sessions[chat], Some(text)), text);
      CityFoundKeepsInv(Record(bot, chat, c), chat, SearchAllIdForName(be.locate(text), be.title(text)));
    }
  }

  lemma ChoiceHotelsKeepsInv(bot: Bot, chat: int, out: seq<Prompt>, be: Backend)
    requires Inv(bot) && chat !in bot.pending
    ensures Inv(ChoiceHotels(bot, chat, out, be).bot)
  {
  }

  lemma QueryDistanceKeepsInv(bot: Bot, chat: int, out: seq<Prompt>, be: Backend)
    requires Inv(bot) && chat !in bot.pending
    requires chat in bot.sessions ==> |bot.sessions[chat].minMaxPrice| == 2
    ensures Inv(QueryDistance(bot, chat, out, be).bot)
  {
    if chat in bot.sessions && |bot.sessions[chat].minMaxDistance| >= 2 {
      ChoiceHotelsKeepsInv(bot, chat, out, be);
    }
  }

  lemma QueryMinMaxPriceKeepsInv(bot: Bot, chat: int, out: seq<Prompt>, be: Backend)
    requires Inv(bot) && chat !in bot.pending
    ensures Inv(QueryMinMaxPrice(bot, chat, out, be).bot)
  {
    if chat in bot.sessions && |bot.sessions[chat].minMaxPrice| >= 2 {
      QueryDistanceKeepsInv(bot, chat, out, be);
    }
  }

  lemma CheckMinMaxPriceKeepsInv(bot: Bot, chat: int, text: string, be: Backend)
    requires Inv(bot) && chat !in bot.pending
    requires chat in bot.sessions ==> |bot.sessions[chat].minMaxPrice| < 2
    ensures Inv(CheckMinMaxPrice(bot, chat, text, be).bot)
  {
    if !PyStr.IsDigits(text) {
      QueryMinMaxPriceKeepsInv(bot, chat, [DigitsOnly], be);
    } else if chat in bot.sessions {
      var c := bot.sessions[chat];
      QueryMinMaxPriceKeepsInv(Record(bot, chat, c.(minMaxPrice := c.minMaxPrice + [text])), chat, [], be);
    }
  }

  lemma CheckMinMaxDistanceKeepsInv(bot: Bot, chat: int, text: string, be: Backend)
    requires Inv(bot) && chat !in bot.pending
    requires chat in bot.sessions ==>
               |bot.sessions[chat].minMaxPrice| == 2 && |bot.sessions[chat].minMaxDistance| < 2
    ensures Inv(CheckMinMaxDistance(bot, chat, text, be).bot)
  {
    if !PyStr.IsDigits(text) {
      QueryDistanceKeepsInv(bot, chat, [DigitsOnly], be);
    } else if chat in bot.sessions {
      var c := bot.sessions[chat];
      QueryDistanceKeepsInv(Record(bot, chat, c.(minMaxDistance := c.minMaxDistance + [text])), chat, [], be);
    }
  }

  lemma CountAcceptedKeepsInv(bot: Bot, chat: int, be: Backend)
    requires Inv(bot) && chat !in bot.pending
    ensures Inv(CountAccepted(bot, chat, be).bot)
  {
    if chat in bot.sessions {
      if bot.sessions[chat].sortOrder == Some(DistanceFromLandmark) {
        QueryMinMaxPriceKeepsInv(bot, chat, [], be);
      } else {
        ChoiceHotelsKeepsInv(bot, chat, [], be);
      }
    }
  }

  lemma CheckTotalHotelsKeepsInv(bot: Bot, chat: int, text: string, be: Backend)
    requires Inv(bot) && chat !in bot.pending && chat in bot.sessions
    ensures Inv(CheckTotalHotels(bot, chat, text, be).bot)
  {
    if ValidCount(text) {
      CountAcceptedKeepsInv(Record(bot, chat, SetTotalHotels(bot.sessions[chat], Some(text))), chat, be);
    }
  }

  lemma HandleKeepsInv(bot: Bot, chat: int, phase: Phase, text: string, be: Backend)
    requires Inv(bot) && chat in bot.pending && bot.pending[chat] == phase
    ensures Inv(Handle(bot, chat, phase, text, be).bot)
  {
    var b := bot.(pending := bot.pending - {chat});
    match phase
    case AwaitCity => SearchForCityKeepsInv(b, chat, text, be);
    case AwaitCount => CheckTotalHotelsKeepsInv(b, chat, text, be);
    case AwaitPrice => CheckMinMaxPriceKeepsInv(b, chat, text, be);
    case AwaitDistance => CheckMinMaxDistanceKeepsInv(b, chat, text, be);
  }

  /** Every turn keeps the invariant. */
  lemma StepKeepsInv(bot: Bot, chat: int, ev: Event, be: Backend)
    requires Inv(bot)
    ensures Inv(Step(bot, chat, ev, be).bot)
  {
    match ev
    case Press(data) => CallbackWorkerKeepsInv(bot, chat, data);
    case Command(text) =>
      if chat in bot.pending { HandleKeepsInv(bot, chat, bot.pending[chat], text, be); }
      else { CommandsKeepInv(bot, chat, text); }
    case Message(text) =>
      if chat in bot.pending { HandleKeepsInv(bot, chat, bot.pending[chat], text, be); }
  }

  /** The invariant holds throughout any conversation. */
  lemma {:induction false} RunKeepsInv(bot: Bot, events: seq<(int, Event)>, be: Backend)
    requires Inv(bot)
    ensures Inv(Run(bot, events, be).bot)
    decreases |events|
  {
    if |events| > 0 {
      StepKeepsInv(bot, events[0].0, events[0].1, be);
      RunKeepsInv(Step(bot, events[0].0, events[0].1, be).bot, events[1..], be);
    }
  }

  /** The bot starts with no sessions and no waiting handlers, which satisfies the invariant. */
  lemma InitialInv()
    ensures Inv(Bot(map[], map[]))
  {
  }

  // ---------------------------------------------------------------------------
  // Properties of whole turns.

  /** Which exception the city lookup raises decides the reply: a response without
      `suggestions` raises `KeyError`, which the city step catches, so "not found" is sent
      and the city asked for again; an empty group list raises `IndexError` and a response
      that is not a dict `TypeError`, which end the turn silently with no step waiting. */
  lemma LookupShapeOutcome(bot: Bot, chat: int, text: string, be: Backend)
    requires chat in bot.sessions && chat !in bot.pending
    ensures var data := be.locate(text);
            var r := SearchForCity(bot, chat, text, be);
            && (data.JObj? && Lookup(data.fields, "suggestions").None? ==>
                  r.out == [NoSuchCity, AskCity] && chat in r.bot.pending && r.bot.pending[chat] == AwaitCity)
            && (data.JObj? && Lookup(data.fields, "suggestions") == Some(JArr([])) ==>
                  r.out == [] && chat !in r.bot.pending)
            && (!data.JObj? ==> r.out == [] && chat !in r.bot.pending)
  {
    var data := be.locate(text);
    var c := LangAfter(SetName(bot.sessions[chat], Some(text)), text);
    var lookup := SearchAllIdForName(data, be.title(text));
    assert SearchForCity(bot, chat, text, be) == CityFound(Record(bot, chat, c), chat, lookup);
    if data.JObj? && Lookup(data.fields, "suggestions").None? {
      assert lookup == Failure(KeyError);
    } else if data.JObj? && Lookup(data.fields, "suggestions") == Some(JArr([])) {
      assert lookup == Failure(IndexError);
    } else if !data.JObj? {
      assert lookup == Failure(TypeError);
    }
  }

  /** While a handler waits, a message that looks like a command is just its input. */
  lemma PendingTakesCommands(bot: Bot, chat: int, text: string, be: Backend)
    requires chat in bot.pending
    ensures Step(bot, chat, Command(text), be) == Step(bot, chat, Message(text), be)
  {
  }

  /** A price typed while the price step waits that is not a digit string changes nothing,
      and the same bound is asked for again. */
  lemma PriceRefused(bot: Bot, chat: int, text: string, be: Backend)
    requires Inv(bot) && chat in bot.pending && bot.pending[chat] == AwaitPrice
    requires !PyStr.IsDigits(text)
    ensures var r := Step(bot, chat, Message(text), be);
            && r.bot == bot
            && r.out == [DigitsOnly, if |bot.sessions[chat].minMaxPrice| == 0 then AskMinPrice else AskMaxPrice]
  {
    var b := bot.(pending := bot.pending - {chat});
    WaitingTurn(bot, chat, text, be);
    assert CheckMinMaxPrice(b, chat, text, be) == QueryMinMaxPrice(b, chat, [DigitsOnly], be);
  }

  /** A digit string typed while the price step waits is appended after the prices already
      given, in entry order; the dialog asks for the maximum, or moves on to the distances
      once two prices are known. */
  lemma PriceAccepted(bot: Bot, chat: int, text: string, be: Backend)
    requires Inv(bot) && chat in bot.pending && bot.pending[chat] == AwaitPrice
    requires PyStr.IsDigits(text)
    ensures var r := Step(bot, chat, Message(text), be);
            var p := bot.sessions[chat].minMaxPrice;
            && (chat in r.bot.sessions ==> r.bot.sessions[chat].minMaxPrice == p + [text])
            && (|p| == 0 ==>
                  chat in r.bot.pending && r.bot.pending[chat] == AwaitPrice && r.out == [AskMaxPrice])
            && (|p| == 1 && |bot.sessions[chat].minMaxDistance| == 0 ==>
                  chat in r.bot.pending && r.bot.pending[chat] == AwaitDistance && r.out == [AskMinDistance])
            && (|p| == 1 && |bot.sessions[chat].minMaxDistance| == 2 ==> r.out[0] == Searching)
  {
    var b := bot.(pending := bot.pending - {chat});
    WaitingTurn(bot, chat, text, be);
    var c := bot.sessions[chat];
    var c' := c.(minMaxPrice := c.minMaxPrice + [text]);
    assert CheckMinMaxPrice(b, chat, text, be) == QueryMinMaxPrice(Record(b, chat, c'), chat, [], be);
  }

  /** A valid count typed while the count step waits is stored as typed.  Under the best-deal
      order with no prices yet the dialog asks for the minimum price; under any other order
      the search runs on the record holding that count. */
  lemma CountEntered(bot: Bot, chat: int, text: string, be: Backend)
    requires chat in bot.sessions && chat in bot.pending && bot.pending[chat] == AwaitCount
    requires ValidCount(text)
    ensures var r := Step(bot, chat, Message(text), be);
            var c := SetTotalHotels(bot.sessions[chat], Some(text));
            && (c.sortOrder == Some(DistanceFromLandmark) && c.minMaxPrice == [] ==>
                  r.bot.sessions == bot.sessions[chat := c] && r.bot.pending == bot.pending[chat := AwaitPrice]
                  && r.out == [AskMinPrice])
            && (c.sortOrder != Some(DistanceFromLandmark) ==>
                  r == ChoiceHotels(Record(bot.(pending := bot.pending - {chat}), chat, c), chat, [], be))
  {
    var b := bot.(pending := bot.pending - {chat});
    WaitingTurn(bot, chat, text, be);
    var c := SetTotalHotels(bot.sessions[chat], Some(text));
    assert CheckTotalHotels(b, chat, text, be) == CountAccepted(Record(b, chat, c), chat, be);
    assert Await(Record(b, chat, c), chat, AwaitPrice).pending == bot.pending[chat := AwaitPrice];
  }

  /** A text message goes to the chat's waiting handler, which is unregistered first: the
      city, count, price and distance steps each receive the text with no handler waiting. */
  lemma WaitingTurn(bot: Bot, chat: int, text: string, be: Backend)
    requires chat in bot.pending
    ensures var b := bot.(pending := bot.pending - {chat});
            && chat !in b.pending && b.sessions == bot.sessions
            && (forall c :: c in b.pending <==> c in bot.pending && c != chat)
            && (bot.pending[chat] == AwaitCity ==>
                  Step(bot, chat, Message(text), be) == SearchForCity(b, chat, text, be))
            && (bot.pending[chat] == AwaitCount ==>
                  Step(bot, chat, Message(text), be) == CheckTotalHotels(b, chat, text, be))
            && (bot.pending[chat] == AwaitPrice ==>
                  Step(bot, chat, Message(text), be) == CheckMinMaxPrice(b, chat, text, be))
            && (bot.pending[chat] == AwaitDistance ==>
                  Step(bot, chat, Message(text), be) == CheckMinMaxDistance(b, chat, text, be))
  {
  }

  /** A distance typed while the distance step waits that is not a digit string changes
      nothing, and the same bound is asked for again. */
  lemma DistanceRefused(bot: Bot, chat: int, text: string, be: Backend)
    requires Inv(bot) && chat in bot.pending && bot.pending[chat] == AwaitDistance
    requires !PyStr.IsDigits(text)
    ensures var r := Step(bot, chat, Message(text), be);
            && r.bot == bot
            && r.out == [DigitsOnly, if |bot.sessions[chat].minMaxDistance| == 0 then AskMinDistance else AskMaxDistance]
  {
    var b := bot.(pending := bot.pending - {chat});
    WaitingTurn(bot, chat, text, be);
    assert CheckMinMaxDistance(b, chat, text, be) == QueryDistance(b, chat, [DigitsOnly], be);
  }

  /** A digit string typed while the distance step waits is appended in entry order and the
      prices are untouched; the second distance starts the search. */
  lemma DistanceAccepted(bot: Bot, chat: int, text: string, be: Backend)
    requires Inv(bot) && chat in bot.pending && bot.pending[chat] == AwaitDistance
    requires PyStr.IsDigits(text)
    ensures var r := Step(bot, chat, Message(text), be);
            var d := bot.sessions[chat].minMaxDistance;
            && (chat in r.bot.sessions ==>
                  r.bot.sessions[chat].minMaxDistance == d + [text]
                  && r.bot.sessions[chat].minMaxPrice == bot.sessions[chat].minMaxPrice)
            && (|d| == 0 ==>
                  chat in r.bot.pending && r.bot.pending[chat] == AwaitDistance && r.out == [AskMaxDistance])
            && (|d| == 1 ==> chat !in r.bot.pending && r.out[0] == Searching)
  {
    var b := bot.(pending := bot.pending - {chat});
    WaitingTurn(bot, chat, text, be);
    var c := bot.sessions[chat];
    var c' := c.(minMaxDistance := c.minMaxDistance + [text]);
    assert CheckMinMaxDistance(b, chat, text, be) == QueryDistance(Record(b, chat, c'), chat, [], be);
  }

  /** The prompts `o` of a completed search that began with `out`: "nothing found" when
      neither stale hotels nor records exist, otherwise the stale hotels and then one hotel
      per record, each the normalisation of that record, in listing order. */
  ghost predicate ShowsListing(o: seq<Prompt>, out: seq<Prompt>, stale: seq<Hotel>, records: seq<Json>) {
    && (|stale| + |records| == 0 ==> o == out + [Searching, NothingFound])
    && (|stale| + |records| > 0 ==>
          |o| == |out| + 1 + |stale| + |records|
          && (forall i :: 0 <= i < |stale| ==> o[|out| + 1 + i] == ShowHotel(stale[i]))
          && forall i :: 0 <= i < |records| ==>
               Normalise(records[i]).Success? &&
               o[|out| + 1 + |stale| + i] == ShowHotel(Normalise(records[i]).value))
  }

  /** A search that completes ends the session.  The hotels shown are those the record
      already held, left over from an earlier search that stopped at a record that raised,
      followed by the newly normalised records in listing order; "nothing found" is sent
      only when both are empty. */
  lemma SearchEndsSession(bot: Bot, chat: int, out: seq<Prompt>, be: Backend)
    requires chat in bot.sessions
    requires Iterate(be.search(bot.sessions[chat])).Success?
    requires NormaliseAll(Iterate(be.search(bot.sessions[chat])).value).failure.None?
    ensures var r := ChoiceHotels(bot, chat, out, be);
            && chat !in r.bot.sessions
            && ShowsListing(r.out, out, bot.sessions[chat].hotels, Iterate(be.search(bot.sessions[chat])).value)
  {
    var records := Iterate(be.search(bot.sessions[chat])).value;
    var hotels := NormaliseAll(records).hotels;
    var r := ChoiceHotels(bot, chat, out, be);
    CompleteSearch(bot, chat, out, be);
    NormaliseAllInOrder(records);
    SearchListing(r.out, out, bot.sessions[chat].hotels, records, hotels);
  }

  /** The prompts of a completed search, in terms of the records each hotel was built from. */
  lemma SearchListing(o: seq<Prompt>, out: seq<Prompt>, stale: seq<Hotel>, records: seq<Json>, hotels: seq<Hotel>)
    requires |hotels| == |records|
    requires forall i :: 0 <= i < |hotels| ==> Normalise(records[i]) == Success(hotels[i])
    requires o == out + [Searching] + (if stale + hotels == [] then [NothingFound] else Shown(stale + hotels))
    ensures ShowsListing(o, out, stale, records)
  {
    Listing(o, out, stale, hotels);
  }

  /** The prompts after "searching" for stale hotels followed by new ones. */
  lemma Listing(o: seq<Prompt>, out: seq<Prompt>, stale: seq<Hotel>, hotels: seq<Hotel>)
    requires o == out + [Searching] + (if stale + hotels == [] then [NothingFound] else Shown(stale + hotels))
    ensures |stale| + |hotels| == 0 ==> o == out + [Searching, NothingFound]
    ensures |stale| + |hotels| > 0 ==>
              |o| == |out| + 1 + |stale| + |hotels|
              && (forall i :: 0 <= i < |stale| ==> o[|out| + 1 + i] == ShowHotel(stale[i]))
              && forall i :: 0 <= i < |hotels| ==> o[|out| + 1 + |stale| + i] == ShowHotel(hotels[i])
  {
    if |stale| + |hotels| > 0 {
      assert stale + hotels != [] by { assert |stale + hotels| > 0; }
      ShownAfter(out, stale, hotels);
    } else {
      assert stale + hotels == [];
    }
  }

  /** The turn of a search whose records all normalise. */
  lemma CompleteSearch(bot: Bot, chat: int, out: seq<Prompt>, be: Backend)
    requires chat in bot.sessions
    requires Iterate(be.search(bot.sessions[chat])).Success?
    requires NormaliseAll(Iterate(be.search(bot.sessions[chat])).value).failure.None?
    ensures var r := ChoiceHotels(bot, chat, out, be);
            var all := bot.sessions[chat].hotels + NormaliseAll(Iterate(be.search(bot.sessions[chat])).value).hotels;
            && chat !in r.bot.sessions
            && r.out == out + [Searching] + (if all == [] then [NothingFound] else Shown(all))
  {
  }

  /** Where each hotel's prompt lands after the earlier prompts. */
  lemma ShownAfter(out: seq<Prompt>, stale: seq<Hotel>, hotels: seq<Hotel>)
    ensures var o := out + [Searching] + Shown(stale + hotels);
            && |o| == |out| + 1 + |stale| + |hotels|
            && (forall i :: 0 <= i < |stale| ==> o[|out| + 1 + i] == ShowHotel(stale[i]))
            && (forall i :: 0 <= i < |hotels| ==> o[|out| + 1 + |stale| + i] == ShowHotel(hotels[i]))
  {
    var all := stale + hotels;
    var head := out + [Searching];
    var shown := Shown(all);
    var o := head + shown;
    assert |head| == |out| + 1;
    forall i | 0 <= i < |stale|
      ensures o[|out| + 1 + i] == ShowHotel(stale[i])
    {
      assert o[|head| + i] == shown[i];
      assert all[i] == stale[i];
    }
    forall i | 0 <= i < |hotels|
      ensures o[|out| + 1 + |stale| + i] == ShowHotel(hotels[i])
    {
      assert o[|head| + (|stale| + i)] == shown[|stale| + i];
      assert all[|stale| + i] == hotels[i];
    }
  }
}
