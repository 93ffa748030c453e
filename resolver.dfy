/**
  The read-through cache in front of the calendar provider (`getEventsForDate`)
  and the `/get` handler that maps its outcome to an HTTP response.

  The cache store (Redis) is a map from keys to texts; the provider's
  `events.list` call is a function from a request to the item list it answers
  with, or None when the call rejects. ResolveStep states, as a function of
  the cache before the call, what one call returns, what the cache holds
  afterwards and which provider request it makes; CalendaringService is the
  service itself, whose cache field its methods update in place.
 */
module Resolver {
  import opened Wrappers
  import opened JsStrings
  import opened Events
  import opened EventCodec

  const CALENDAR_ID_SUFFIX := "#holiday@group.v.calendar.google.com"

  /** The body of a failed `/get`: `{error: 'unknown'}` as JSON. */
  const ERROR_BODY := "{\"error\":\"unknown\"}"

  /** The cache key `${language}-${country}-${from}-${to}`, language and country as given (not lowered). */
  function CacheKey(language: string, country: string, fromIso: string, toIso: string): string
  {
    language + "-" + country + "-" + fromIso + "-" + toIso
  }

  /** The provider calendar of the holidays of a language and country: both lowered, then the fixed suffix. */
  function CalendarId(language: string, country: string): string
  {
    ToLowerCase(language) + "." + ToLowerCase(country) + CALENDAR_ID_SUFFIX
  }

  /** The arguments of one `calendarClient.events.list` call. */
  datatype EventsListRequest = EventsListRequest(calendarId: string, timeMax: string, timeMin: string)

  /**
    The provider's `events.list`: the items it answers with, or None when the
    call rejects (or answers without an item list, on which `.map` throws).
   */
  type Upstream = EventsListRequest -> Option<seq<UpstreamEvent>>

  /** Why a resolution rejects. */
  datatype ResolveError =
    | UpstreamFailure          // the provider call rejected
    | UnreadableCachedPayload  // `JSON.parse` of the cached text threw

  type Resolved = Result<seq<CalendaringEvent>, ResolveError>

  /** `await cache.get(key)`: the stored text, or None (`null`) for a key the store does not hold. */
  function Lookup(cache: map<string, string>, key: string): Option<string>
  {
    if key in cache then Some(cache[key]) else None
  }

  /** The outcome of one resolution: its result, the cache afterwards and the provider request made, if any. */
  datatype Resolution = Resolution(result: Resolved, cache: map<string, string>, request: Option<EventsListRequest>)

  /**
    One call of `getEventsForDate` on the ISO strings of its two dates.
    A truthy cached text is parsed and returned and the provider is not
    called; otherwise the provider is asked for the calendar of the
    lowered language and country between the two instants, its items are
    transformed, and their text is stored under the key before they are
    returned. A rejected provider call leaves the cache as it was.
   */
  function ResolveStep(cache: map<string, string>, upstream: Upstream,
                       fromIso: string, toIso: string, language: string, country: string): Resolution
  {
    var key := CacheKey(language, country, fromIso, toIso);
    var cached := Lookup(cache, key);
    if Truthy(cached) then
      match Deserialize(cached.value)
      case Some(events) => Resolution(Ok(events), cache, None)
      case None => Resolution(Err(UnreadableCachedPayload), cache, None)
    else
      var request := EventsListRequest(CalendarId(language, country), toIso, fromIso);
      match upstream(request)
      case None => Resolution(Err(UpstreamFailure), cache, Some(request))
      case Some(items) =>
        var returnData := Transform(items);
        Resolution(Ok(returnData), cache[key := Serialize(returnData)], Some(request))
  }

  /** The HTTP response of `/get`. */
  datatype Response = Response(status: int, body: string)

  /**
    The `.then`/`.catch` of the `/get` handler: a resolved list is sent as
    JSON with the default status 200, any rejection as status 400 with the
    body `{"error":"unknown"}`.
   */
  function Respond(resolved: Resolved): (response: Response)
    ensures response.status == 400 <==> resolved.Err?
    ensures response.status == 200 <==> resolved.Ok?
    ensures resolved.Err? ==> response.body == ERROR_BODY
    ensures resolved.Ok? ==> Deserialize(response.body) == Some(resolved.value)
  {
    match resolved
    case Ok(events) =>
      DeserializeSerialize(events);
      Response(200, Serialize(events))
    case Err(_) => Response(400, ERROR_BODY)
  }

  /**
    A truthy cached text is a hit: the provider is not called, the cache
    does not change, and the result is the parsed text.
   */
  lemma HitSkipsUpstream(cache: map<string, string>, upstream: Upstream,
                         fromIso: string, toIso: string, language: string, country: string)
    requires Truthy(Lookup(cache, CacheKey(language, country, fromIso, toIso)))
    ensures var r := ResolveStep(cache, upstream, fromIso, toIso, language, country);
      var text := cache[CacheKey(language, country, fromIso, toIso)];
      && r.request == None
      && r.cache == cache
      && (Deserialize(text).Some? ==> r.result == Ok(Deserialize(text).value))
      && (Deserialize(text).None? ==> r.result == Err(UnreadableCachedPayload))
  {
  }

  /**
    A missing key or an empty cached text is a miss: exactly one provider
    request is made, for the lowered calendar id with the range as given;
    on success the only change to the cache is that the key now maps to the
    text of the returned list; on failure the cache does not change.
   */
  lemma MissFetchesAndStores(cache: map<string, string>, upstream: Upstream,
                             fromIso: string, toIso: string, language: string, country: string)
    requires !Truthy(Lookup(cache, CacheKey(language, country, fromIso, toIso)))
    ensures var r := ResolveStep(cache, upstream, fromIso, toIso, language, country);
      var key := CacheKey(language, country, fromIso, toIso);
      var request := EventsListRequest(CalendarId(language, country), toIso, fromIso);
      && r.request == Some(request)
      && (upstream(request).None? ==> r.result == Err(UpstreamFailure) && r.cache == cache)
      && (upstream(request).Some? ==>
            && r.result == Ok(Transform(upstream(request).value))
            && r.cache.Keys == cache.Keys + {key}
            && r.cache[key] == Serialize(r.result.value)
            && forall k :: k in cache && k != key ==> r.cache[k] == cache[k])
  {
  }

  /**
    After a call that resolved, the same call again is a hit: whatever the
    provider would answer, it is not asked, the cache stays as it is, and
    the same list is returned.
   */
  lemma RepeatedCallHits(cache: map<string, string>, upstream: Upstream, upstream': Upstream,
                         fromIso: string, toIso: string, language: string, country: string)
    requires ResolveStep(cache, upstream, fromIso, toIso, language, country).result.Ok?
    ensures var first := ResolveStep(cache, upstream, fromIso, toIso, language, country);
      var second := ResolveStep(first.cache, upstream', fromIso, toIso, language, country);
      && second.request == None
      && second.cache == first.cache
      && second.result == first.result
  {
    var key := CacheKey(language, country, fromIso, toIso);
    var first := ResolveStep(cache, upstream, fromIso, toIso, language, country);
    if !Truthy(Lookup(cache, key)) {
      var events := first.result.value;
      assert first.cache == cache[key := Serialize(events)];
      DeserializeSerialize(events);
    }
  }

  /**
    A failed provider call is not cached: the cache stays as it was, so the
    same call again, whatever the provider answers this time, asks it again
    with the same request and fares as if the first call had not happened.
   */
  lemma FailureIsNotCached(cache: map<string, string>, upstream: Upstream, upstream': Upstream,
                           fromIso: string, toIso: string, language: string, country: string)
    requires ResolveStep(cache, upstream, fromIso, toIso, language, country).result == Err(UpstreamFailure)
    ensures var first := ResolveStep(cache, upstream, fromIso, toIso, language, country);
      var second := ResolveStep(first.cache, upstream', fromIso, toIso, language, country);
      && first.cache == cache
      && second.request.Some?
      && second.request == first.request
      && second == ResolveStep(cache, upstream', fromIso, toIso, language, country)
  {
  }

  /**
    The provider is asked only for calendar ids of the form
    `<language>.<country>#holiday@group.v.calendar.google.com` in lower case:
    two calls whose language and country differ only in the case of their
    letters ask for the same calendar.
   */
  lemma CalendarIdIgnoresCase(language: string, country: string, language': string, country': string)
    requires ToLowerCase(language) == ToLowerCase(language') && ToLowerCase(country) == ToLowerCase(country')
    ensures CalendarId(language, country) == CalendarId(language', country')
    ensures CalendarId(language, country) == CalendarId(ToLowerCase(language), ToLowerCase(country))
    ensures forall k :: 0 <= k < |CalendarId(language, country)| ==> !('A' <= CalendarId(language, country)[k] <= 'Z')
  {
    ToLowerCaseIdempotent(language);
    ToLowerCaseIdempotent(country);
    var id := CalendarId(language, country);
    var prefix := ToLowerCase(language) + "." + ToLowerCase(country);
    assert id == prefix + CALENDAR_ID_SUFFIX;
    forall k | 0 <= k < |id|
      ensures !('A' <= id[k] <= 'Z')
    {
      if k >= |prefix| {
        assert id[k] == CALENDAR_ID_SUFFIX[k - |prefix|];
      } else if k > |ToLowerCase(language)| {
        assert id[k] == ToLowerCase(country)[k - |ToLowerCase(language)| - 1];
      } else if k < |ToLowerCase(language)| {
        assert id[k] == ToLowerCase(language)[k];
      }
    }
  }

  /** Splitting at a separator that the first part lacks recovers both parts. */
  lemma SplitAtFirst(a: string, b: string, a': string, b': string, sep: char)
    requires sep !in a && sep !in a'
    requires a + [sep] + b == a' + [sep] + b'
    ensures a == a' && b == b'
  {
    var s := a + [sep] + b;
    IndexOfAt(s, sep, |a|);
    IndexOfAt(a' + [sep] + b', sep, |a'|);
    assert s[..|a|] == a && s[|a| + 1..] == b;
    assert s[..|a'|] == a' && s[|a'| + 1..] == b';
  }

  /**
    Different queries have different keys as long as the language and the
    country hold no `-` and the start instants have one length (as
    `toISOString` renders them): the key then determines all four parts.
   */
  lemma CacheKeyInjective(language: string, country: string, fromIso: string, toIso: string,
                          language': string, country': string, fromIso': string, toIso': string)
    requires '-' !in language && '-' !in country && '-' !in language' && '-' !in country'
    requires |fromIso| == |fromIso'|
    requires CacheKey(language, country, fromIso, toIso) == CacheKey(language', country', fromIso', toIso')
    ensures language == language' && country == country' && fromIso == fromIso' && toIso == toIso'
  {
    var tail := country + "-" + fromIso + "-" + toIso;
    var tail' := country' + "-" + fromIso' + "-" + toIso';
    assert CacheKey(language, country, fromIso, toIso) == language + ['-'] + tail;
    assert CacheKey(language', country', fromIso', toIso') == language' + ['-'] + tail';
    SplitAtFirst(language, tail, language', tail', '-');
    var range := fromIso + "-" + toIso;
    var range' := fromIso' + "-" + toIso';
    assert tail == country + ['-'] + range;
    assert tail' == country' + ['-'] + range';
    SplitAtFirst(country, range, country', range', '-');
    assert range[..|fromIso|] == fromIso && range'[..|fromIso'|] == fromIso';
    assert range[|fromIso| + 1..] == toIso && range'[|fromIso'| + 1..] == toIso';
  }

  /**
    The service: the cache store it shares across requests (updated in
    place by the fire-and-forget `cache.set`) and, for the proofs only, the
    log of the provider requests made so far. The provider is not a field:
    each call is given the provider's answers at the time of that call, so
    a request the provider rejected once may succeed on a later call.
   */
  class CalendaringService {
    var cache: map<string, string>
    ghost var requests: seq<EventsListRequest>

    constructor (cache: map<string, string>)
      ensures this.cache == cache && requests == []
    {
      this.cache := cache;
      requests := [];
    }

    /**
      `getEventsForDate`, on the ISO strings of its two dates, with
      `upstream` the provider's answers during this call: the result
      and the new cache are those of ResolveStep, and the request log grows
      by the provider request it makes, if any.
     */
    method GetEventsForDate(upstream: Upstream, fromIso: string, toIso: string, language: string, country: string)
      returns (result: Resolved)
      modifies this
      ensures var r := ResolveStep(old(cache), upstream, fromIso, toIso, language, country);
        && result == r.result
        && cache == r.cache
        && requests == old(requests) + (if r.request.Some? then [r.request.value] else [])
    {
      var cacheKey := CacheKey(language, country, fromIso, toIso);
      var cached := Lookup(cache, cacheKey);
      if Truthy(cached) {
        var parsed := Deserialize(cached.value);
        if parsed.Some? {
          result := Ok(parsed.value);
        } else {
          result := Err(UnreadableCachedPayload);
        }
      } else {
        var request := EventsListRequest(CalendarId(language, country), toIso, fromIso);
        requests := requests + [request];
        var data := upstream(request);
        if data.None? {
          result := Err(UpstreamFailure);
        } else {
          var returnData := Transform(data.value);
          cache := cache[cacheKey := Serialize(returnData)];
          result := Ok(returnData);
        }
      }
    }

    /** The `/get` handler: resolve, then map the outcome to the response. */
    method HandleGet(upstream: Upstream, fromIso: string, toIso: string, language: string, country: string)
      returns (response: Response)
      modifies this
      ensures var r := ResolveStep(old(cache), upstream, fromIso, toIso, language, country);
        && response == Respond(r.result)
        && cache == r.cache
        && requests == old(requests) + (if r.request.Some? then [r.request.value] else [])
    {
      var events := GetEventsForDate(upstream, fromIso, toIso, language, country);
      response := Respond(events);
    }
  }
}
