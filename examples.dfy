/** Worked examples of the model on concrete inputs. */
module Examples {
  import opened Wrappers
  import opened JsStrings
  import opened Events
  import opened Resolver

  /** A description of the form `<prefix>: <place>, <place>`: "Observed in: Paris, Lyon" has the locations Paris and Lyon. */
  lemma ParseLocationsExample(d: string)
    requires d == "Observed in: Paris, Lyon"
    ensures ParseLocations(Some(d)) == Some(["Paris", "Lyon"])
  {
    ExampleShape(d);
    ExampleParisTrimmed();
    ExampleLyonTrimmed();
    ParseTwoLocations(d, "Observed in", " Paris", " Lyon", "Paris", "Lyon");
  }

  lemma ExampleShape(d: string)
    requires d == "Observed in: Paris, Lyon"
    ensures d == "Observed in" + ":" + (" Paris" + "," + " Lyon")
    ensures ':' !in "Observed in" && ',' !in " Paris" && ',' !in " Lyon"
  {
  }

  lemma ExampleParisTrimmed()
    ensures Trim(" Paris") == "Paris"
  {
    TrimSpacedWord(" Paris", "Paris");
  }

  lemma ExampleLyonTrimmed()
    ensures Trim(" Lyon") == "Lyon"
  {
    TrimSpacedWord(" Lyon", "Lyon");
  }

  /** A description `head:a,b` whose head has no colon and whose parts have no comma has the locations a and b, trimmed (ta and tb). */
  lemma ParseTwoLocations(d: string, head: string, a: string, b: string, ta: string, tb: string)
    requires d == head + ":" + (a + "," + b)
    requires ':' !in head && ',' !in a && ',' !in b
    requires Trim(a) == ta && Trim(b) == tb
    ensures ParseLocations(Some(d)) == Some([ta, tb])
  {
    ParseLocationsAfterFirstColon(d);
    AfterColonHead(d, head, a + "," + b);
    SplitAtOneComma(a, b);
    TrimEachOfTwo(a, b);
  }

  lemma AfterColonHead(d: string, head: string, rest: string)
    requires d == head + ":" + rest
    requires ':' !in head
    ensures AfterFirst(d, ':') == rest
  {
    IndexOfAt(d, ':', |head|);
    assert d[|head| + 1..] == rest;
  }

  lemma SplitAtOneComma(a: string, b: string)
    requires ',' !in a && ',' !in b
    ensures Split(a + "," + b, ',') == [a, b]
  {
    var rest := a + "," + b;
    assert rest[..|a|] == a;
    assert rest[|a| + 1..] == b;
    IndexOfAt(rest, ',', |a|);
    assert ',' !in rest[|a| + 1..];
  }

  lemma TrimEachOfTwo(a: string, b: string)
    ensures TrimEach([a, b]) == [Trim(a), Trim(b)]
  {
  }

  /** Trimming a word that carries one leading space. */
  lemma TrimSpacedWord(s: string, w: string)
    requires s == [' '] + w && w != [] && !IsWhiteSpace(w[0]) && !IsWhiteSpace(w[|w| - 1])
    ensures Trim(s) == w
  {
    assert s[1..] == w;
    assert TrimStart(w) == w;
    assert TrimEnd(w) == w;
  }

  /**
    Language and country in upper and in lower case ask the provider for the
    same calendar but are cached under two different keys.
   */
  lemma KeyCaseSensitiveCalendarIdNot(language: string, country: string, language': string, country': string,
                                      fromIso: string, toIso: string)
    requires language == "EN" && country == "US" && language' == "en" && country' == "us"
    ensures CalendarId(language, country) == CalendarId(language', country')
    ensures CacheKey(language, country, fromIso, toIso) != CacheKey(language', country', fromIso, toIso)
  {
    assert ToLowerCase(language) == language' by {
      assert ToLowerCase(language)[0] == LowerChar('E') == 'e';
      assert ToLowerCase(language)[1] == LowerChar('N') == 'n';
    }
    assert ToLowerCase(country) == country' by {
      assert ToLowerCase(country)[0] == LowerChar('U') == 'u';
      assert ToLowerCase(country)[1] == LowerChar('S') == 's';
    }
    ToLowerCaseIdempotent(language');
    ToLowerCaseIdempotent(country');
    CalendarIdIgnoresCase(language, country, language', country');
    assert CacheKey(language, country, fromIso, toIso)[0] == 'E';
    assert CacheKey(language', country', fromIso, toIso)[0] == 'e';
  }

  /**
    A `-` inside the language or the country makes two different queries
    share one cache key: language "a-b" with country "c" and language "a"
    with country "b-c" both have the key `a-b-c-<from>-<to>` but ask for the
    calendars `a-b.c#…` and `a.b-c#…`. Once the first has resolved, the
    second is a hit on the first one's entry: the provider is not asked and
    the first query's list is returned.
   */
  lemma KeyCollisionAcrossCalendars(language: string, country: string, language': string, country': string,
                                    fromIso: string, toIso: string, cache: map<string, string>,
                                    upstream: Upstream, upstream': Upstream)
    requires language == "a-b" && country == "c" && language' == "a" && country' == "b-c"
    ensures CacheKey(language, country, fromIso, toIso) == CacheKey(language', country', fromIso, toIso)
    ensures CalendarId(language, country) != CalendarId(language', country')
    ensures var first := ResolveStep(cache, upstream, fromIso, toIso, language, country);
      var second := ResolveStep(first.cache, upstream', fromIso, toIso, language', country');
      first.result.Ok? ==> second.request == None && second.result == first.result
  {
    assert language + "-" + country == language' + "-" + country';
    assert CalendarId(language, country)[1] == LowerChar('-') == '-';
    assert CalendarId(language', country')[1] == '.';
    var first := ResolveStep(cache, upstream, fromIso, toIso, language, country);
    if first.result.Ok? {
      RepeatedCallHits(cache, upstream, upstream', fromIso, toIso, language, country);
    }
  }
}
