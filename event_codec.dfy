/**
  The text form of an event list, as `JSON.stringify` writes it into the cache
  and into the HTTP response and as `JSON.parse` reads it back from the cache:
  `[{"holiday_name":"…","date":"…","holiday_locations":["…",…]},…]`, the
  locations property only where the event has it. Inside a string, `"` and
  `\` are escaped with a backslash; every other character stands for itself.

  Each encoder `…Onto(x, rest)` writes the text of `x` in front of `rest`,
  and each decoder reads one value off the front of a text and gives back
  what follows it; the lemmas `Decode…Onto` state that decoding reads back
  exactly the value and the rest. Deserialize is proved to invert Serialize.
 */
module EventCodec {
  import opened Wrappers
  import opened Events

  /** `s[|lit|..]` when `s` starts with `lit`. */
  function Expect(s: string, lit: string): (r: Option<string>)
    ensures r.Some? ==> |r.value| == |s| - |lit| && s == lit + r.value
    ensures r.None? <==> !(lit <= s)
  {
    if lit <= s then Some(s[|lit|..]) else None
  }

  lemma ExpectPrefix(lit: string, rest: string)
    ensures Expect(lit + rest, lit) == Some(rest)
  {
    assert lit <= lit + rest;
    assert (lit + rest)[|lit|..] == rest;
  }

  // ---------------------------------------------------------------- strings

  /** The characters of a string literal in front of `rest`: `"` and `\` preceded by a backslash. */
  function EscapeOnto(s: string, rest: string): string
  {
    if s == [] then rest
    else if s[0] == '"' || s[0] == '\\' then ['\\', s[0]] + EscapeOnto(s[1..], rest)
    else [s[0]] + EscapeOnto(s[1..], rest)
  }

  /** The string literal of `s`, in quotes, in front of `rest`. */
  function EncodeStringOnto(s: string, rest: string): string
  {
    "\"" + EscapeOnto(s, "\"" + rest)
  }

  /** Reads the characters of a string literal up to its closing quote; gives the string and what follows the quote. */
  function DecodeStringBody(s: string): (r: Option<(string, string)>)
    ensures r.Some? ==> |r.value.1| < |s|
  {
    if s == [] then None
    else if s[0] == '"' then Some(([], s[1..]))
    else if s[0] == '\\' then
      if |s| >= 2 && (s[1] == '"' || s[1] == '\\') then
        match DecodeStringBody(s[2..])
        case None => None
        case Some((body, rest)) => Some(([s[1]] + body, rest))
      else None
    else
      match DecodeStringBody(s[1..])
      case None => None
      case Some((body, rest)) => Some(([s[0]] + body, rest))
  }

  /** Reads one string literal. */
  function DecodeString(s: string): (r: Option<(string, string)>)
    ensures r.Some? ==> |r.value.1| < |s|
  {
    match Expect(s, "\"")
    case None => None
    case Some(s1) => DecodeStringBody(s1)
  }

  lemma {:induction false} DecodeEscapeOnto(x: string, rest: string)
    ensures DecodeStringBody(EscapeOnto(x, "\"" + rest)) == Some((x, rest))
    decreases |x|
  {
    if x != [] {
      DecodeEscapeOnto(x[1..], rest);
      assert x == [x[0]] + x[1..];
    }
  }

  lemma DecodeStringOnto(x: string, rest: string)
    ensures DecodeString(EncodeStringOnto(x, rest)) == Some((x, rest))
  {
    ExpectPrefix("\"", EscapeOnto(x, "\"" + rest));
    DecodeEscapeOnto(x, rest);
  }

  // ---------------------------------------------------------- array literals

  /** A reader that, when it succeeds, consumes at least one character. */
  ghost predicate Consumes<T>(decode: string -> Option<(T, string)>) {
    forall s :: decode(s).Some? ==> |decode(s).value.1| < |s|
  }

  /** A reader that reads back every value its writer puts in front of any text. */
  ghost predicate Inverts<T(!new)>(encode: (T, string) -> string, decode: string -> Option<(T, string)>) {
    forall x, rest :: decode(encode(x, rest)) == Some((x, rest))
  }

  /** The elements of a non-empty array literal, separated by commas, and the closing bracket, in front of `rest`. */
  function EncodeItemsOnto<T>(encode: (T, string) -> string, xs: seq<T>, rest: string): string
    requires |xs| >= 1
  {
    if |xs| == 1 then encode(xs[0], "]" + rest)
    else encode(xs[0], "," + EncodeItemsOnto(encode, xs[1..], rest))
  }

  /** The array literal of a list in front of `rest`: `[]`, or `[` and the elements. */
  function EncodeArrayOnto<T>(encode: (T, string) -> string, xs: seq<T>, rest: string): string
  {
    if |xs| == 0 then "[" + ("]" + rest) else "[" + EncodeItemsOnto(encode, xs, rest)
  }

  /** Reads one or more elements separated by commas, up to the closing bracket. */
  function DecodeItems<T>(decode: string -> Option<(T, string)>, s: string): (r: Option<(seq<T>, string)>)
    requires Consumes(decode)
    ensures r.Some? ==> |r.value.1| < |s|
    decreases |s|
  {
    match decode(s)
    case None => None
    case Some((x, s1)) =>
      if s1 != [] && s1[0] == ',' then
        match DecodeItems(decode, s1[1..])
        case None => None
        case Some((xs, s2)) => Some(([x] + xs, s2))
      else if s1 != [] && s1[0] == ']' then Some(([x], s1[1..]))
      else None
  }

  /** Reads an array literal: `[]` is the empty list, anything else is `[` and its elements. */
  function DecodeArray<T>(decode: string -> Option<(T, string)>, s: string): (r: Option<(seq<T>, string)>)
    requires Consumes(decode)
    ensures r.Some? ==> |r.value.1| < |s|
  {
    match Expect(s, "[")
    case None => None
    case Some(s1) =>
      if s1 != [] && s1[0] == ']' then Some(([], s1[1..]))
      else DecodeItems(decode, s1)
  }

  lemma {:induction false} DecodeItemsOnto<T(!new)>(encode: (T, string) -> string, decode: string -> Option<(T, string)>, xs: seq<T>, rest: string)
    requires Consumes(decode) && Inverts(encode, decode)
    requires |xs| >= 1
    ensures DecodeItems(decode, EncodeItemsOnto(encode, xs, rest)) == Some((xs, rest))
    decreases |xs|
  {
    if |xs| == 1 {
      assert decode(encode(xs[0], "]" + rest)) == Some((xs[0], "]" + rest));
      assert ("]" + rest)[1..] == rest;
      assert xs == [xs[0]];
    } else {
      var tail := EncodeItemsOnto(encode, xs[1..], rest);
      assert decode(encode(xs[0], "," + tail)) == Some((xs[0], "," + tail));
      assert ("," + tail)[1..] == tail;
      DecodeItemsOnto(encode, decode, xs[1..], rest);
      assert xs == [xs[0]] + xs[1..];
    }
  }

  /** An array literal reads back as its list, when no element's text starts with `]`. */
  lemma DecodeArrayOnto<T(!new)>(encode: (T, string) -> string, decode: string -> Option<(T, string)>, xs: seq<T>, rest: string)
    requires Consumes(decode) && Inverts(encode, decode)
    requires forall x, r :: encode(x, r) != [] && encode(x, r)[0] != ']'
    ensures DecodeArray(decode, EncodeArrayOnto(encode, xs, rest)) == Some((xs, rest))
  {
    if |xs| == 0 {
      ExpectPrefix("[", "]" + rest);
      assert ("]" + rest)[1..] == rest;
    } else {
      var items := EncodeItemsOnto(encode, xs, rest);
      ExpectPrefix("[", items);
      DecodeItemsOnto(encode, decode, xs, rest);
    }
  }

  // ------------------------------------------------------------ string lists

  /** DecodeString reads back what EncodeStringOnto writes. */
  lemma StringCodec()
    ensures Consumes(DecodeString) && Inverts(EncodeStringOnto, DecodeString)
    ensures forall x, r :: EncodeStringOnto(x, r) != [] && EncodeStringOnto(x, r)[0] != ']'
  {
    forall x, rest ensures DecodeString(EncodeStringOnto(x, rest)) == Some((x, rest)) {
      DecodeStringOnto(x, rest);
    }
  }

  /** The array literal of a list of strings in front of `rest`. */
  function EncodeStringsOnto(xs: seq<string>, rest: string): string
  {
    EncodeArrayOnto(EncodeStringOnto, xs, rest)
  }

  /** Reads the array literal of a list of strings. */
  function DecodeStrings(s: string): (r: Option<(seq<string>, string)>)
    ensures r.Some? ==> |r.value.1| < |s|
  {
    StringCodec();
    DecodeArray(DecodeString, s)
  }

  lemma DecodeStringsOnto(xs: seq<string>, rest: string)
    ensures DecodeStrings(EncodeStringsOnto(xs, rest)) == Some((xs, rest))
  {
    StringCodec();
    DecodeArrayOnto(EncodeStringOnto, DecodeString, xs, rest);
  }

  // ------------------------------------------------------------------ events

  const NAME_KEY := "{\"holiday_name\":"
  const DATE_KEY := ",\"date\":"
  const LOCATIONS_KEY := ",\"holiday_locations\":"

  /** The `holiday_locations` property, when the event has one, and the closing brace, in front of `rest`. */
  function EncodeLocationsOnto(locations: Option<seq<string>>, rest: string): string
  {
    match locations
    case None => "}" + rest
    case Some(locs) => LOCATIONS_KEY + EncodeStringsOnto(locs, "}" + rest)
  }

  /** The object literal of an event in front of `rest`, its properties in the order the constructor assigns them. */
  function EncodeEventOnto(e: CalendaringEvent, rest: string): string
  {
    NAME_KEY + EncodeStringOnto(e.holidayName, DATE_KEY + EncodeStringOnto(e.date, EncodeLocationsOnto(e.holidayLocations, rest)))
  }

  /** Reads what follows the date: the closing brace, or the locations property and then the closing brace. */
  function DecodeLocations(s: string): (r: Option<(Option<seq<string>>, string)>)
    ensures r.Some? ==> |r.value.1| < |s|
  {
    if s != [] && s[0] == '}' then Some((None, s[1..]))
    else
      match Expect(s, LOCATIONS_KEY)
      case None => None
      case Some(s1) =>
        match DecodeStrings(s1)
        case None => None
        case Some((locs, s2)) =>
          match Expect(s2, "}")
          case None => None
          case Some(s3) => Some((Some(locs), s3))
  }

  /** Reads the object literal of one event. */
  function DecodeEvent(s: string): (r: Option<(CalendaringEvent, string)>)
    ensures r.Some? ==> |r.value.1| < |s|
  {
    match Expect(s, NAME_KEY)
    case None => None
    case Some(s1) =>
      match DecodeString(s1)
      case None => None
      case Some((name, s2)) =>
        match Expect(s2, DATE_KEY)
        case None => None
        case Some(s3) =>
          match DecodeString(s3)
          case None => None
          case Some((date, s4)) =>
            match DecodeLocations(s4)
            case None => None
            case Some((locations, s5)) => Some((CalendaringEvent(date, name, locations), s5))
  }

  lemma DecodeLocationsOnto(locations: Option<seq<string>>, rest: string)
    ensures DecodeLocations(EncodeLocationsOnto(locations, rest)) == Some((locations, rest))
  {
    match locations
    case None =>
      assert ("}" + rest)[1..] == rest;
    case Some(locs) =>
      var s1 := EncodeStringsOnto(locs, "}" + rest);
      assert (LOCATIONS_KEY + s1)[0] == ',';
      ExpectPrefix(LOCATIONS_KEY, s1);
      DecodeStringsOnto(locs, "}" + rest);
      ExpectPrefix("}", rest);
  }

  lemma DecodeEventOnto(e: CalendaringEvent, rest: string)
    ensures DecodeEvent(EncodeEventOnto(e, rest)) == Some((e, rest))
  {
    var s4 := EncodeLocationsOnto(e.holidayLocations, rest);
    var s3 := EncodeStringOnto(e.date, s4);
    var s1 := EncodeStringOnto(e.holidayName, DATE_KEY + s3);
    ExpectPrefix(NAME_KEY, s1);
    DecodeStringOnto(e.holidayName, DATE_KEY + s3);
    ExpectPrefix(DATE_KEY, s3);
    DecodeStringOnto(e.date, s4);
    DecodeLocationsOnto(e.holidayLocations, rest);
  }

  // ------------------------------------------------------------- event lists

  /** DecodeEvent reads back what EncodeEventOnto writes. */
  lemma EventCodec()
    ensures Consumes(DecodeEvent) && Inverts(EncodeEventOnto, DecodeEvent)
    ensures forall e, r :: EncodeEventOnto(e, r) != [] && EncodeEventOnto(e, r)[0] != ']'
  {
    forall e, rest ensures DecodeEvent(EncodeEventOnto(e, rest)) == Some((e, rest)) {
      DecodeEventOnto(e, rest);
    }
  }

  /** `JSON.stringify(events)`: an array literal, never the empty string. */
  function Serialize(events: seq<CalendaringEvent>): (text: string)
    ensures text != [] && text[0] == '['
  {
    EncodeArrayOnto(EncodeEventOnto, events, "")
  }

  /**
    `JSON.parse(text) as CalendaringEvent[]` for the texts Serialize writes;
    None for every other text, and for a text with anything after the array.
   */
  function Deserialize(text: string): Option<seq<CalendaringEvent>>
  {
    EventCodec();
    match DecodeArray(DecodeEvent, text)
    case Some((events, rest)) => if rest == [] then Some(events) else None
    case None => None
  }

  /** What the cache holds reads back as the list that was written. */
  lemma DeserializeSerialize(events: seq<CalendaringEvent>)
    ensures Deserialize(Serialize(events)) == Some(events)
  {
    EventCodec();
    DecodeArrayOnto(EncodeEventOnto, DecodeEvent, events, "");
  }

  /** Two event lists with the same text are the same list. */
  lemma SerializeInjective(a: seq<CalendaringEvent>, b: seq<CalendaringEvent>)
    requires Serialize(a) == Serialize(b)
    ensures a == b
  {
    DeserializeSerialize(a);
    DeserializeSerialize(b);
  }
}
