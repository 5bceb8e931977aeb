# Too Easy Travel hotel-search bot, modelled in Dafny

The bot is a Telegram bot. It asks a user for a city, then for how many hotels to show.
For the best-deal order it also asks for a price range and a distance range. It then
lists the hotels that the Hotels API returns. This project models the core of that bot
as pure functions:

- **Dialog** (`dialog.dfy`) covers the handlers of `Bot/main.py`.
  - One `Step` function turns the bot state and one event of one chat into a new state and the prompts sent back.
  - The state is the session store plus, per chat, the next-step handler waiting for that chat's next text message.
  - A Python exception inside a handler is swallowed by its logging wrapper. The turn then ends with whatever was already sent, and no step handler is waiting.
- **Sessions** (`sessions.dfy`) covers `user_requests` and `new_user`: a map from chat id to search record.
- **Cities** (`cities.dfy`) covers the `City` record of `Bot/botrequests/city_class.py` and its property setters. It also covers the candidate filter of `search_all_id_for_name`:
  - only the first suggestion group is read;
  - an entity is kept when its type is `CITY` and its name equals the title-cased query;
  - kept entities go into an insertion-ordered dict from destination id to label;
  - the label is the title-cased query, then `", "`, then the caption's last `</span>, ` segment.
- **Hotels** (`hotels.dfy`) covers `Hotel.__init__` of `Bot/botrequests/hotel_class.py`. It normalises one raw record into the displayed fields, with the source's defaults and the exceptions its expressions raise.
- Supporting modules state the Python semantics these rely on:
  - **Json**: decoded JSON values; `get`, `[]`, `[0]`, iteration and `int()`, each with the exception it raises.
  - **PyDict**: an insertion-ordered dict.
  - **PyStr**: `isdigit`, `int` of digits, `lower`, `split`, `join`, and the Cyrillic test of the city regular expression.
  - **Wrappers**: `Option` and `Result`.
- **Scenarios** (`scenarios.dfy`) works through one concrete conversation turn by turn: two Londons offered, one chosen, two counts refused, an empty listing.

The outside world is a `Backend` parameter:
- `title` is Python's `str.title`, which is left abstract.
- `locate` is the decoded response of the locations search for a query.
- `search` is the decoded response of the hotel listing for a search record.

Python integers are unbounded, so Dafny's `int` needs no wrap-around. `int()` of a JSON number truncates toward zero, and this is written out with an explicit truncating division.

## Model

| member | source | states |
|---|---|---|
| Sessions.NewUser | Bot/main.py:29-37 | get-or-create: a known chat keeps its record, an unknown one gets a fresh `City()`, and no other chat's record changes |
| Sessions.Remove | Bot/main.py:309-315 | popping a chat's record removes exactly that key and keeps every other record |
| Sessions.NewUserIdempotent | Bot/main.py:35-36 | a second `new_user` for the same chat changes nothing |
| Sessions.RemoveUndoesNewUser | Bot/main.py:35-36 | removing a record just created restores the store |
| Dialog.SortOrderFor | Bot/main.py:99-104 | the lower-cased command selects PRICE, PRICE_HIGHEST_FIRST or DISTANCE_FROM_LANDMARK, each if and only if the text is that command, and nothing otherwise |
| Dialog.Commands | Bot/main.py:89-115 | the chat gets a record; a recognised command sets only its sort order; the city prompt is sent; the city handler is left waiting; other chats are untouched |
| Dialog.Chat | Bot/main.py:40-86 | the greeting commands only ensure the chat has a record and reply |
| Dialog.LangAfter | Bot/main.py:132-133 | the language becomes `en_US` exactly when the city text does not start with а..я or А..Я; otherwise, and for every other field, the record is unchanged |
| Dialog.SearchForCity | Bot/main.py:118-151 | the typed name is stored and the language follows the Cyrillic test; a lookup that raises KeyError or finds no candidate says so and waits for the city again; one candidate is taken and the count step waits; several are offered as buttons with nothing waiting; any other exception ends the turn silently; with no record the handler raises and nothing is sent; other chats are untouched |
| Dialog.CityFound | Bot/main.py:134-151 | KeyError or no candidate gives "not found" and asks again; exactly one candidate becomes the city id and the count is asked; several are offered as choices unchanged; any other exception ends the turn silently; only the city id ever changes |
| Dialog.CallbackWorker | Bot/main.py:154-177 | a press stores its callback data as the city id and asks for the count; without a record nothing happens |
| Dialog.CheckTotalHotels | Bot/main.py:180-206 | a count is accepted if and only if it is all digits with value 1..25; a refused count changes no record and asks again, with the digits-only or range message; an accepted count is stored as typed and the dialog continues from the record holding it; with no record the turn ends silently |
| Dialog.CountEntered | Bot/main.py:182-211 | a valid count typed while the count step waits is stored; under the best-deal order with no prices yet the dialog asks for the minimum price and waits for it; under any other order the search runs on the record holding that count |
| Dialog.CountAccepted | Bot/main.py:207-211 | after an accepted count the best-deal order asks for prices and any other order searches at once |
| Dialog.QueryMinMaxPrice | Bot/main.py:214-229 | with 0 or 1 prices known it asks for the minimum or maximum and waits; with 2 it moves on to distances |
| Dialog.CheckMinMaxPrice | Bot/main.py:232-250 | a digit string is appended to the prices and anything else is refused; either way the price step decides the next prompt |
| Dialog.QueryDistance | Bot/main.py:253-268 | with 0 or 1 distances known it asks and waits; with 2 it searches |
| Dialog.CheckMinMaxDistance | Bot/main.py:271-289 | a digit string is appended to the distances and anything else is refused, then the distance step decides |
| Dialog.NormaliseAll | Bot/main.py:305-307 | no more hotels are built than there are records; all of them when nothing raises, fewer when a record raises |
| Dialog.NormaliseAllInOrder | Bot/main.py:305-307 | the hotels built are the normalised records in listing order, up to the first record that raises, and the exception reported is the one that record raises |
| Dialog.Shown | Bot/main.py:328-329 | one hotel prompt per hotel, in list order |
| Dialog.ChoiceHotels | Bot/main.py:292-330 | "searching" is sent first; a search whose records all normalise removes the session; a listing that cannot be iterated changes nothing more; at a record that raises the session keeps its old hotels followed by those built before the raise, and nothing more is sent; the waiting handlers are untouched |
| Dialog.Handle | Bot/main.py:114-115 | whichever step handler the message goes to, no other chat's record or waiting handler changes |
| Dialog.WaitingTurn | Bot/main.py:115-265 | a text message for a chat with a waiting handler unregisters that handler and goes to its step: the city step, the count check, the price check or the distance check, with every other waiting handler kept |
| Dialog.HandleKeepsInv | Bot/main.py:114-115 | whichever step handler receives the message, the invariant is kept |
| Dialog.Step | Bot/main.py:89-115 | a turn of one chat leaves every other chat's record and waiting handler as they were |
| Dialog.StepKeepsInv | Bot/main.py:214-289 | every turn keeps the invariant: every waiting handler has a record, the price and distance lists never exceed two entries, and the handler waits for a price only below two prices and for a distance only once both prices are known |
| Dialog.RunKeepsInv | Bot/main.py:351-352 | the invariant holds after any sequence of events from any chats |
| Dialog.CommandsKeepInv | Bot/main.py:89-115 | a search command keeps the invariant |
| Dialog.CallbackWorkerKeepsInv | Bot/main.py:154-177 | a button press keeps the invariant |
| Dialog.SearchForCityKeepsInv | Bot/main.py:118-151 | the city handler keeps the invariant |
| Dialog.CheckTotalHotelsKeepsInv | Bot/main.py:180-211 | the count handler keeps the invariant |
| Dialog.CheckMinMaxPriceKeepsInv | Bot/main.py:214-250 | the price handler, run while fewer than two prices are known, keeps the invariant |
| Dialog.CheckMinMaxDistanceKeepsInv | Bot/main.py:253-289 | the distance handler, run once both prices and fewer than two distances are known, keeps the invariant |
| Dialog.ChoiceHotelsKeepsInv | Bot/main.py:292-330 | the search keeps the invariant |
| Dialog.InitialInv | Bot/main.py:26 | the empty store satisfies the invariant |
| Dialog.PendingTakesCommands | Bot/main.py:114-115 | while a handler waits, a command text is treated as that handler's input |
| Dialog.PriceAccepted | Bot/main.py:220-250 | a typed digit string is appended after the earlier prices in entry order; the maximum is then asked, or distances once two prices are known |
| Dialog.PriceRefused | Bot/main.py:232-250 | a price that is not a digit string leaves the whole bot state unchanged, and the same bound is asked for again after the digits-only message |
| Dialog.DistanceAccepted | Bot/main.py:259-289 | a typed digit string is appended after the earlier distances and the prices are untouched; the second distance unregisters the handler and starts the search |
| Dialog.DistanceRefused | Bot/main.py:271-289 | a distance that is not a digit string leaves the whole bot state unchanged, and the same bound is asked for again |
| Dialog.SearchEndsSession | Bot/main.py:304-330 | a completed search removes the session; the hotels shown are those the record already held, then one per new record, each the normalisation of that record in listing order; "nothing found" is sent only when both are empty |
| Dialog.LookupShapeOutcome | Bot/main.py:131-151 | a location response without `suggestions` makes the city step say "not found" and ask again; an empty group list, or a response that is not a dict, ends the turn silently with no step waiting |
| Cities.MakeCity | Bot/botrequests/city_class.py:31-38 | the constructor stores its arguments, and a missing `info_hotels` becomes an empty list |
| Cities.NewCity | Bot/botrequests/city_class.py:31-38 | `City()` has every attribute unset and an empty hotel list |
| Cities.SetName | Bot/botrequests/city_class.py:60-62 | the setter changes the name and nothing else |
| Cities.SetCityId | Bot/botrequests/city_class.py:64-66 | the setter changes the city id and nothing else |
| Cities.SetSortOrder | Bot/botrequests/city_class.py:68-70 | the setter changes the sort order and nothing else |
| Cities.SetTotalHotels | Bot/botrequests/city_class.py:72-74 | the setter changes the hotel count and nothing else |
| Cities.SetInfoHotels | Bot/botrequests/city_class.py:76-78 | the setter changes the hotel info and nothing else |
| Cities.SettersCommute | Bot/botrequests/city_class.py:60-78 | setters of different fields commute, and a later write to a field wins |
| Cities.Verdict | Bot/botrequests/city_class.py:101-105 | an entity is skipped if and only if it is a dict that is not a matching city; it is added if and only if it matches and has a string caption and a hashable id, and then with its id and label |
| Cities.Entities | Bot/botrequests/city_class.py:101 | reading `data["suggestions"][0]["entities"]` raises TypeError on a non-dict response or a non-dict first group, KeyError when `suggestions` or `entities` is missing or `suggestions` is a dict, and IndexError on an empty group list; otherwise it iterates the entities |
| Cities.SearchAllIdForName | Bot/botrequests/city_class.py:93-106 | the lookup raises what reading the entities raises; otherwise it succeeds if and only if every entity passes the loop body, and the result has distinct keys |
| Cities.Candidates | Bot/botrequests/city_class.py:101-106 | the result is a dict with distinct keys |
| Cities.Extend | Bot/botrequests/city_class.py:105 | a kept entity adds or overwrites its id with its label, and a skipped one leaves the dict as it was |
| Cities.CandidatesSucceedIff | Bot/botrequests/city_class.py:101-105 | the lookup loop raises if and only if some entity is not a dict, or is a matching city whose caption is not a string or whose id is unhashable |
| Cities.CandidatesKeys | Bot/botrequests/city_class.py:101-105 | the keys are exactly the destination ids of the matching cities |
| Cities.KeyHasEntity | Bot/botrequests/city_class.py:101-105 | every key comes from a matching city |
| Cities.KeptEntityHasKey | Bot/botrequests/city_class.py:101-105 | every matching city contributes its id as a key |
| Cities.CandidatesLastWins | Bot/botrequests/city_class.py:105 | a key carries the label of the last matching city with that id |
| Cities.CandidatesEmptyIff | Bot/botrequests/city_class.py:95-106 | the result is empty if and only if no entity is a matching city |
| Cities.FirstGroupOnly | Bot/botrequests/city_class.py:101 | only the first suggestion group is read; later groups, and other top-level keys before or after `suggestions`, never matter |
| PyStr.JoinSplit | Bot/botrequests/city_class.py:104 | joining the pieces of a split with the separator restores the caption |
| PyStr.SplitPiecesAreFree | Bot/botrequests/city_class.py:104 | no piece of a split contains the separator |
| PyStr.LastSegmentIsSuffix | Bot/botrequests/city_class.py:104 | the label's region is a suffix of the caption, and the whole caption when it has no separator |
| PyStr.LastSegmentFollowsSeparator | Bot/botrequests/city_class.py:104 | when the caption has the separator, the region starts right after an occurrence of it |
| PyStr.SeparatorBeforeLast | Bot/botrequests/city_class.py:104 | when the first separator is also the last, the region starts right after it |
| PyStr.SeparatorBeforeLater | Bot/botrequests/city_class.py:104 | a separator that precedes the region of the rest of the caption precedes the region of the whole caption |
| PyStr.LastSegmentIsFree | Bot/botrequests/city_class.py:104 | the region never contains the separator |
| PyStr.DigitsValueShowNat | Bot/main.py:192-194 | `int()` of the decimal digits of a natural number gives that number back |
| PyStr.DigitsValue | Bot/main.py:194 | the value of n digits is below 10^n |
| PyStr.ParseInt | Bot/botrequests/hotel_class.py:30 | `int()` of a string succeeds if and only if it is digits with an optional sign, and its value is the digit value, negated after a `-` |
| PyDict.Put | Bot/botrequests/city_class.py:105 | assignment keeps keys distinct, adds exactly the key, maps it to the new value, keeps an existing key in place and appends a new one |
| Json.Get | Bot/botrequests/hotel_class.py:29 | `get` raises AttributeError on a non-dict and yields the stored value or the default |
| Json.Subscript | Bot/botrequests/city_class.py:101 | `[key]` succeeds if and only if the value is a dict holding the key; otherwise KeyError or TypeError |
| Json.First | Bot/botrequests/hotel_class.py:35 | `[0]` yields the first item of a non-empty list; an empty list raises IndexError and a dict KeyError |
| Json.Iterate | Bot/main.py:306 | iterating a list yields its items and a dict its keys; only scalars raise |
| Json.TruncDiv | Bot/botrequests/hotel_class.py:30 | division truncates toward zero, bracketing the exact quotient from the zero side |
| Json.ToInt | Bot/botrequests/hotel_class.py:30 | `int()` of None, a list or a dict raises TypeError; a number is truncated toward zero, bracketed by consecutive multiples of its scale; a boolean is 0 or 1; a digit string is its value |
| Json.ToIntWhole | Bot/botrequests/hotel_class.py:30 | a whole number written at any decimal scale reads back as that integer |
| Hotels.Strings | Bot/botrequests/hotel_class.py:33-34 | `join` succeeds if and only if every part is a string, and keeps them in order |
| Hotels.Normalise | Bot/botrequests/hotel_class.py:27-36 | the raw record is kept unchanged; a non-dict raises AttributeError and a missing star rating TypeError; stars is `int()` of the rating; missing keys give the defaults `''` and empty address |
| Hotels.NormaliseSucceedsIff | Bot/botrequests/hotel_class.py:27-36 | normalisation succeeds if and only if the record has the shape every expression needs |
| Hotels.AddressSucceedsIff | Bot/botrequests/hotel_class.py:33-34 | for a dict record, the address step succeeds if and only if the address is absent, or a dict whose whitelisted values are strings |
| Hotels.DistanceSucceedsIff | Bot/botrequests/hotel_class.py:35 | the distance step succeeds if and only if landmarks are absent, or a non-empty list whose first item is a dict |
| Hotels.PriceSucceedsIff | Bot/botrequests/hotel_class.py:36 | the price step succeeds if and only if the rate plan is absent, or a dict whose price is absent or a dict |
| Hotels.NormaliseNested | Bot/botrequests/hotel_class.py:31-36 | rating and label come from `guestReviews`, distance from the first landmark, price from `ratePlan.price.current`, each `''` when missing; the address is the join of the record's `address` dict |
| Hotels.AddressPartsAppend | Bot/botrequests/hotel_class.py:33-34 | selecting whitelisted values distributes over concatenated fields |
| Hotels.AddressIgnoresOtherKeys | Bot/botrequests/hotel_class.py:33-34 | a field under a non-whitelisted key, anywhere in the address, never changes the address |
| Hotels.AddressOfWhitelisted | Bot/botrequests/hotel_class.py:33-34 | an address of whitelisted string values is exactly those values joined by ", " in their order |
| Hotels.AllWhitelisted | Bot/botrequests/hotel_class.py:33-34 | when every key is whitelisted, every value is selected in order |
| Hotels.AddressPartsSelect | Bot/botrequests/hotel_class.py:33-34 | the address parts are exactly the values under whitelisted keys: each whitelisted field contributes once, nothing else contributes, and the order is the record's key order |
| Scenarios.LondonCandidates | Bot/botrequests/city_class.py:101-106 | two cities named London are offered in response order with their region labels, and a hotel of that name is skipped |
| Scenarios.AskForCity | Bot/main.py:89-115 | `/lowprice` from a new chat creates its record with the price order and asks for the city |
| Scenarios.OfferCities | Bot/main.py:131-144 | a Latin city name switches the language to `en_US` and offers both candidates |
| Scenarios.PressSecond | Bot/main.py:154-177 | pressing a candidate chooses it and asks for the count |
| Scenarios.RefuseCounts | Bot/main.py:191-206 | letters and an out-of-range number are refused with their own messages, and nothing changes |
| Scenarios.HalfStarRating | Bot/botrequests/hotel_class.py:30 | a 4.5 star rating gives 4 stars, and -4.5 gives -4 |
| Scenarios.NothingFoundEnds | Bot/main.py:292-315 | a valid count under the price order searches at once; the empty listing says so and ends the session |

## Left out

- The Telegram transport is not modelled: message texts, inline keyboards, message editing and deletion, and polling. Prompts are abstract values, and a keyboard is its list of (id, label) pairs.
- The HTTP requests, `json.loads`, and the check-in and check-out dates of `search_all_id_for_name` and `search_hotels` are not modelled. Their decoded responses are the `Backend` parameters.
- `search_hotels` returns whatever JSON the API sends. Iterating a dict yields its keys, and that is what the model does. No best-deal ranking or price or distance filtering is modelled, because the bot has none.
- Logging (`Bot/log.py` and the `logger` calls) is not modelled. The one effect of `logger.catch` that matters, ending the turn silently on an exception, is modelled.
- Four fields are missing from the `City` class: `lang`, `min_max_price`, `min_max_distance` and `hotels`. The model gives them as record fields that start empty, so it shows the intended flow. As written, reading `min_max_price` (Bot/main.py:220), `min_max_distance` (259) or `hotels` (307, 309) raises AttributeError, which `logger.catch` swallows. Under `/bestdeal` the program therefore stops right after the count. Under `/lowprice` and `/highprice` it sends "searching" and queries the API (Bot/main.py:304-305), then raises, so it never lists hotels, never reports "nothing found" and never removes the session. Assigning `lang` works, but the tag is never read, since the lookup always asks for `ru_RU`.
- `Hotel.__str__` and the greeting regular expressions of `say_hello` are presentation only. `say_hello` is modelled as a plain reply.
- Python's `isdigit`, `lower` and `title` are Unicode-wide. The model states `isdigit` and `lower` for ASCII and leaves `title` abstract. A Unicode digit such as "²" passes `isdigit` but makes `int()` fail; that case is not modelled.
- The case-insensitive `[а-я]` of the city regular expression (Bot/main.py:132) also matches the old Cyrillic variants U+1C80 to U+1C86, whose lower-case forms fall in а..я. `StartsWithCyrillic` accepts only а..я and А..Я and so rejects them.
- `int()` of a string that has surrounding whitespace or underscores is not modelled; such a string raises ValueError here.
- JSON numbers are exact decimals, not floats.
- Python's equal-hash dict keys (`1`, `1.0` and `True` are one key) are not merged.
- Nothing keeps the keys of a `JObj` distinct. `Lookup` resolves a duplicated key to its first entry, while `json.loads` keeps the last one. On such a value the model can disagree with the program.
- telebot stacks step handlers, so a button press while a handler waits leaves that handler registered alongside the new one. The model keeps only the newest handler. Dialog.Inv bounds the price and distance lists at two entries only under this single-handler simplification. Stacking can break the bound: during price entry a press on an old city button registers the count step beside the price step, a digit then runs both and so registers two price steps, and the next digit appends a second and a third price (Bot/main.py:157-177, 216-250).
- `TeleBot(TOKEN)` (Bot/main.py:17) runs handlers on a worker pool, so handlers for one chat can interleave. `Dialog.Run` processes whole turns one after another.
- A waiting step handler also receives messages without text, such as a photo or a sticker. For those `message.text` is None: `isdigit` raises (Bot/main.py:192, 242, 281), and the city step stores `name = None` before `re.match` raises TypeError (131-132). Either way the handler is consumed and the turn ends silently. `Event` has no such message, so this is not modelled.
- Dialog.SearchEndsSession: the hotels a record still holds from an earlier search that stopped at a record that raised are shown again before the new ones, because `choice_hotels` appends to the old list (Bot/main.py:306-307, 328-329). So a stale list suppresses "nothing found". The model states this as the program does it and gives no corrected variant.
