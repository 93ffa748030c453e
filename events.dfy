/**
  The holiday events the service returns and the transform from the calendar
  provider's items: `CalendaringEvent`, the location parser applied to each
  item's description, and the `map` over the provider's item list.
 */
module Events {
  import opened Wrappers
  import opened JsStrings

  /** `start` of a provider item; holidays are all-day events, so only `start.date` is read. */
  datatype EventDateTime = EventDateTime(date: string)

  /** One item of the provider's `events.list` answer, with the three fields the service reads. */
  datatype UpstreamEvent = UpstreamEvent(start: EventDateTime, summary: string, description: Option<string>)

  /**
    A `CalendaringEvent`: the holiday's date, its name and, only when the
    constructor was given a list, its locations (None is an object without
    the `holiday_locations` property).
   */
  datatype CalendaringEvent = CalendaringEvent(date: string, holidayName: string, holidayLocations: Option<seq<string>>)

  /**
    The `CalendaringEvent` constructor. `if (holidayLocations)` is false only
    for `null`: every array, the empty one included, is truthy, so the
    property is set exactly when a list is passed, and set to that list.
   */
  function NewCalendaringEvent(name: string, date: string, holidayLocations: Option<seq<string>>): (e: CalendaringEvent)
    ensures e.holidayName == name && e.date == date
    ensures e.holidayLocations.Some? <==> holidayLocations.Some?
    ensures holidayLocations.Some? ==> e.holidayLocations.value == holidayLocations.value
  {
    if holidayLocations.Some? then CalendaringEvent(date, name, holidayLocations)
    else CalendaringEvent(date, name, None)
  }

  /** `xs.map(e => e.trim())`. */
  function TrimEach(xs: seq<string>): (r: seq<string>)
    ensures |r| == |xs|
    ensures forall k :: 0 <= k < |xs| ==> r[k] == Trim(xs[k])
  {
    seq(|xs|, k requires 0 <= k < |xs| => Trim(xs[k]))
  }

  /**
    The location expression of the transform: for a truthy description,
    `description.split(':').splice(1).join(':').split(',').map(e => e.trim())`,
    and `null` otherwise.
   */
  function ParseLocations(description: Option<string>): Option<seq<string>>
  {
    if Truthy(description) then
      Some(TrimEach(Split(Join(SpliceRemoved(Split(description.value, ':'), 1), ':'), ',')))
    else None
  }

  /** A location list exists exactly for the truthy descriptions: absent and empty ones give none. */
  lemma ParseLocationsPresence(description: Option<string>)
    ensures ParseLocations(description).Some? <==> Truthy(description)
    ensures description.None? || description == Some("") ==> ParseLocations(description) == None
  {
  }

  /**
    For a truthy description the locations are the text after its first
    colon (later colons kept), split on commas, each piece trimmed.
   */
  lemma ParseLocationsAfterFirstColon(d: string)
    requires d != ""
    ensures ParseLocations(Some(d)) == Some(TrimEach(Split(AfterFirst(d, ':'), ',')))
  {
    RejoinAfterFirstPiece(d, ':');
  }

  /**
    For a truthy description the list has one location more than there are
    commas after the first colon, so it is never empty; without a colon it is
    exactly `[""]`.
   */
  lemma ParseLocationsCount(d: string)
    requires d != ""
    ensures ParseLocations(Some(d)).Some?
    ensures |ParseLocations(Some(d)).value| == multiset(AfterFirst(d, ':'))[','] + 1
    ensures ':' !in d ==> ParseLocations(Some(d)) == Some([""])
  {
    ParseLocationsAfterFirstColon(d);
    SplitCount(AfterFirst(d, ':'), ',');
    if ':' !in d {
      assert AfterFirst(d, ':') == "";
      assert Split("", ',') == [""];
      assert TrimEach([""]) == [""];
    }
  }

  /** What makes a location clean: no comma in it, no white space at either end. */
  predicate CleanLocation(loc: string) {
    ',' !in loc && (loc != [] ==> !IsWhiteSpace(loc[0]) && !IsWhiteSpace(loc[|loc| - 1]))
  }

  /** Every parsed location is clean. */
  lemma ParseLocationsClean(description: Option<string>)
    requires ParseLocations(description).Some?
    ensures forall k :: 0 <= k < |ParseLocations(description).value| ==> CleanLocation(ParseLocations(description).value[k])
  {
    var pieces := Split(Join(SpliceRemoved(Split(description.value, ':'), 1), ':'), ',');
    SplitPiecesLackSeparator(Join(SpliceRemoved(Split(description.value, ':'), 1), ':'), ',');
    forall k | 0 <= k < |pieces|
      ensures CleanLocation(Trim(pieces[k]))
    {
    }
  }

  /** The callback of the `map` over the provider's items: one provider item to one event. */
  function FromUpstream(item: UpstreamEvent): (e: CalendaringEvent)
    ensures e.holidayName == item.summary && e.date == item.start.date
    ensures e.holidayLocations.Some? <==> Truthy(item.description)
    ensures e.holidayLocations == ParseLocations(item.description)
  {
    NewCalendaringEvent(item.summary, item.start.date, ParseLocations(item.description))
  }

  /**
    The transform of the provider's item list: exactly one event per item, in
    the items' order, nothing filtered out; the name is the item's summary,
    the date its start date, and locations are there exactly for the items
    with a truthy description.
   */
  function Transform(items: seq<UpstreamEvent>): (r: seq<CalendaringEvent>)
    ensures |r| == |items|
    ensures forall k :: 0 <= k < |items| ==>
      && r[k].holidayName == items[k].summary
      && r[k].date == items[k].start.date
      && (r[k].holidayLocations.Some? <==> Truthy(items[k].description))
      && r[k].holidayLocations == ParseLocations(items[k].description)
  {
    seq(|items|, k requires 0 <= k < |items| => FromUpstream(items[k]))
  }

  /** The transform works item by item: transforming a concatenation concatenates the transforms. */
  lemma TransformAppend(a: seq<UpstreamEvent>, b: seq<UpstreamEvent>)
    ensures Transform(a + b) == Transform(a) + Transform(b)
  {
    assert forall k :: 0 <= k < |a| + |b| ==> (a + b)[k] == if k < |a| then a[k] else b[k - |a|];
  }

  /**
    Every location list the transform produces is non-empty and made of clean
    locations (the invariant the returned events keep).
   */
  lemma TransformLocationsClean(items: seq<UpstreamEvent>)
    ensures forall k :: 0 <= k < |items| && Transform(items)[k].holidayLocations.Some? ==>
      && |Transform(items)[k].holidayLocations.value| >= 1
      && forall j :: 0 <= j < |Transform(items)[k].holidayLocations.value| ==>
           CleanLocation(Transform(items)[k].holidayLocations.value[j])
  {
    forall k | 0 <= k < |items| && Transform(items)[k].holidayLocations.Some?
      ensures |Transform(items)[k].holidayLocations.value| >= 1
      ensures forall j :: 0 <= j < |Transform(items)[k].holidayLocations.value| ==>
           CleanLocation(Transform(items)[k].holidayLocations.value[j])
    {
      var d := items[k].description;
      assert Transform(items)[k] == FromUpstream(items[k]);
      ParseLocationsCount(d.value);
      ParseLocationsClean(d);
    }
  }
}
