# Calendaring: a Dafny model of the holiday lookup service

The service answers `GET /get?fromDate&toDate&language&country` with the
holidays of a language and country between two dates. The holidays come from
the calendar provider's public holiday calendar
`<language>.<country>#holiday@group.v.calendar.google.com`. Each call goes
through a read-through cache (Redis) first. Each provider item becomes a
`CalendaringEvent`: its date, its name and, when the item has a non-empty
description, the list of locations parsed from the description.

The model has five modules:

- `JsStrings` (`js_strings.dfy`): the JavaScript built-ins the service uses.
  These are `split` and `join` with a one-character separator,
  `splice(start)`, `trim`, `toLowerCase`, and the truthiness of a
  `string | null`. `IndexOf` is a helper: it is the separator search inside
  `split` and defines "the text after the first colon". The lemmas cover the
  split/join round trips, the piece count and what trimming removes.
- `Events` (`events.dfy`): `CalendaringEvent`, its constructor, the
  location parser of `src/index.ts:59`, and the transform of the provider's
  item list.
- `EventCodec` (`event_codec.dfy`): the JSON text the cache and the response
  hold. `Serialize` stands for `JSON.stringify`, `Deserialize` for
  `JSON.parse`, and `DeserializeSerialize` proves that one inverts the other.
- `Resolver` (`resolver.dfy`): the cache key, the calendar id and
  `ResolveStep`. `ResolveStep` states what one `getEventsForDate` call
  returns, what the cache holds afterwards and which provider request it
  makes. The module also holds the HTTP mapping `Respond` and the class
  `CalendaringService`. That class keeps the cache as a `map` field, which
  its methods update in place, and a ghost log of provider requests.
- `Examples` (`examples.dfy`): the lemmas on concrete inputs.

The Redis store is a `map<string, string>`. The provider call is a function
`Upstream` from the request `{calendarId, timeMax, timeMin}` to the item list,
or None when the call rejects. Each service call is given its own `Upstream`,
the provider's answers at that time. The two dates enter as their ISO strings.

`cache.set` at `src/index.ts:61` passes no expiry, so an entry stays until
it is removed from outside the service. The `map` at `src/index.ts:55-60`
keeps every item, with or without locations. A non-empty description with
no colon gives the location list `[""]`; `ParseLocationsCount` states that.

The cache key `language-country-from-to` (`src/index.ts:43`) does not
identify the query when the language or the country holds a `-`. Language
`a-b` with country `c` and language `a` with country `b-c` share one key but
ask for two different calendars (`src/index.ts:51`), so the second query is
served the first one's cached list. `KeyCollisionAcrossCalendars` shows
this, and `CacheKeyInjective` states when the key does identify the query.

## Model

| member | source | states |
|---|---|---|
| Events.NewCalendaringEvent | src/index.ts:27-36 | name and date are set from the arguments; `holiday_locations` is present exactly when a list (even an empty one) is passed, and is that list |
| Events.ParseLocationsPresence | src/index.ts:59 | a location list exists exactly for a truthy description; an absent or empty description gives none |
| Events.ParseLocationsAfterFirstColon | src/index.ts:59 | for a truthy description the locations are the text after the first `:` (later colons kept), split on `,`, each piece trimmed |
| Events.ParseLocationsCount | src/index.ts:59 | the list is never empty, has one entry more than there are commas after the first colon, and is exactly `[""]` when the description has no colon |
| Events.ParseLocationsClean | src/index.ts:59 | no location contains a comma or starts or ends with white space |
| Examples.ParseLocationsExample | src/index.ts:59 | "Observed in: Paris, Lyon" has the locations "Paris" and "Lyon" |
| JsStrings.IndexOf | src/index.ts:59 | the result is the first position of the character, or None exactly when it does not occur |
| JsStrings.SplitPiecesLackSeparator | src/index.ts:59 | no piece of `split(sep)` contains `sep` |
| JsStrings.SplitCount | src/index.ts:59 | `split(sep)` yields one piece more than the number of `sep` in the string |
| JsStrings.JoinSplit | src/index.ts:59 | joining the pieces of a split with the same separator restores the string |
| JsStrings.SplitJoin | src/index.ts:59 | splitting the join of separator-free pieces restores the pieces |
| JsStrings.SpliceRemoved | src/index.ts:59 | `splice(start)` splits the array in two: the part before `start` (clamped to the length) stays, and the rest, in order, is what it returns |
| JsStrings.RejoinAfterFirstPiece | src/index.ts:59 | `split(c).splice(1).join(c)` is the text after the first `c`, or `""` when `c` does not occur |
| JsStrings.Trim | src/index.ts:59 | `trim()` gives a slice of the string that neither starts nor ends with white space |
| JsStrings.TrimRemovesWhiteSpace | src/index.ts:59 | everything `trim()` cuts off, on both sides of that slice, is white space |
| JsStrings.ToLowerCaseIdempotent | src/index.ts:51 | a lowered string has no upper-case letter, and lowering it again changes nothing |
| Events.FromUpstream | src/index.ts:55-60 | an event takes its name from `summary` and its date from `start.date`, and has the parsed locations exactly for a truthy description |
| Events.Transform | src/index.ts:55-60 | exactly one event per provider item, in the same order, with nothing filtered out; each event has its item's summary, start date and parsed locations |
| Events.TransformAppend | src/index.ts:55-60 | the transform works item by item: transforming a concatenation concatenates the transforms |
| Events.TransformLocationsClean | src/index.ts:55-60 | every location list in the result is non-empty and made of clean locations |
| EventCodec.Serialize | src/index.ts:61 | the stored text starts with `[`, so it is never the falsy empty string |
| EventCodec.DecodeArrayOnto | src/index.ts:48 | an array literal reads back as its list and the text after it, for any element reader that consumes at least one character when it succeeds, reads back what its element writer writes, and pairs with a writer whose text never starts with `]` |
| EventCodec.DeserializeSerialize | src/index.ts:48 | parsing the text stored at line 61 gives back the stored list |
| EventCodec.SerializeInjective | src/index.ts:61 | different lists are stored as different texts |
| Resolver.CacheKeyInjective | src/index.ts:43 | when language and country hold no `-` and the start instants have one length, the key `language-country-from-to` determines all four parts |
| Resolver.CalendarIdIgnoresCase | src/index.ts:51 | the calendar id lowers language and country: it has no upper-case letter, and inputs that differ only in case give one id |
| Examples.KeyCollisionAcrossCalendars | src/index.ts:43-51 | "a-b"/"c" and "a"/"b-c" share one cache key but ask for different calendars, and after the first resolves the second is served its list without a provider request |
| Examples.KeyCaseSensitiveCalendarIdNot | src/index.ts:43-51 | "EN"/"US" and "en"/"us" ask for the same calendar but are cached under two keys, because the key is not lowered |
| Resolver.HitSkipsUpstream | src/index.ts:44-48 | on a truthy cached text, no provider request is made, the cache is unchanged, and the result is the parsed text (a rejection if the text cannot be parsed) |
| Resolver.MissFetchesAndStores | src/index.ts:49-62 | on a missing key or an empty text, exactly one request is made, for the lowered calendar id and the range as given. On success, the only cache change is that the key maps to the text of the returned list. On failure, the cache is unchanged |
| Resolver.RepeatedCallHits | src/index.ts:43-62 | after a call that resolved, the same call again makes no provider request, whatever the provider would answer. It leaves the cache unchanged and returns the same list |
| Resolver.FailureIsNotCached | src/index.ts:50-54 | a rejected provider call leaves the cache unchanged, so the same call again, whatever the provider answers now, makes the same request and fares as if the first call had not happened |
| Resolver.Respond | src/index.ts:75-82 | a rejection gives status 400 with body `{"error":"unknown"}`; a resolved list gives the default status 200 with a body that parses back to that list |
| Resolver.CalendaringService.constructor | src/index.ts:9-25 | the service starts with the given cache store and no provider request made |
| Resolver.CalendaringService.GetEventsForDate | src/index.ts:38-64 | given the provider's answers during this call, the result and the new cache are those of `ResolveStep`, and the request log grows by the one provider request made on a miss |
| Resolver.CalendaringService.HandleGet | src/index.ts:66-83 | the response is `Respond` of the resolution; the cache and the request log change as in `GetEventsForDate` |

## Left out

- The Redis client, the OAuth2 setup of the provider client, the express app and `app.listen`, and the read of `config.json` (`src/index.ts:1-25`, `85-87`) are foreign libraries and I/O. The store is a map and the provider call a function parameter.
- `src/logger.ts` and every `logger` call only log; they are not part of this model.
- Date parsing with dayjs and `toISOString` (`src/index.ts:39-40`, `69-70`) are a date library. The model takes the two ISO strings as inputs. An invalid date, on which `toISOString` throws (a 400 response), is not modelled.
- Concurrency is not modelled: `async`/`await`, two concurrent misses for one key that both fetch (last write wins), and the fire-and-forget `cache.set`. The write is modelled as complete before the call returns.
- Failures of the store itself are not modelled: a rejected `cache.get` or a lost `cache.set`.
- Expiry of cache entries is not modelled, because the code sets none.
- Query parameters that are not strings (missing, or repeated into arrays) are not modelled. With a missing `language`, the key holds "undefined" and `toLowerCase` throws on a miss.
- `summary` and `start.date` are cast to `string` in the source and are strings here. An item without them is not modelled.
- Within one call the provider is a function of the request. Each call of `CalendaringService.GetEventsForDate` and `HandleGet` takes the provider's answers at the time of that call as a parameter, so a request rejected on one call may succeed on the next. `RepeatedCallHits`, `FailureIsNotCached` and `KeyCollisionAcrossCalendars` likewise let the second call use any provider.
- `CalendaringEvent` is a datatype and not a class: the service never changes an event after constructing it, and it only serialises events.
- JavaScript strings are UTF-16 code units, while Dafny characters are Unicode scalar values. Lengths differ for characters outside the Basic Multilingual Plane. Only the length hypothesis of `CacheKeyInjective` looks at lengths.
- JsStrings.ToLowerCase: lowers only the letters A to Z. JavaScript's `toLowerCase` applies the full Unicode case mapping, so `CalendarIdIgnoresCase` is stated for ASCII case only.
- EventCodec.Serialize: writes every character other than `"` and `\` as itself. `JSON.stringify` writes U+0008, U+0009, U+000A, U+000C and U+000D as `\b`, `\t`, `\n`, `\f` and `\r`, and every other character below U+0020 as a `\uXXXX` escape, so the text differs from JSON for strings that hold such characters.
- EventCodec.EncodeEventOnto: writes the properties in the order the constructor assigns them (`holiday_name`, `date`, `holiday_locations`, `src/index.ts:32-34`). `JSON.stringify` follows that order when the compiled class has no field definitions. With ES2022 class fields, the declared order `date`, `holiday_name`, `holiday_locations` (`src/index.ts:28-30`) applies instead. The build settings are not part of this model, and no proof depends on the order.
- Deserialize: reads exactly the texts `Serialize` writes. For any other text it gives None, which the model reports as a rejection. `JSON.parse` also reads texts with white space, other escapes or another property order, and it returns a valid JSON value of another shape without checking (`as CalendaringEvent[]` is only a type cast).
