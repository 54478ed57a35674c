// timezone.service.ts: the time zone offsets the web front end offers, the zones
// the back end does not support, the 'YYYY-MM-DD HH:mm' local date-time text
// and the request that has the server resolve such a text in a zone.

module TimezoneService {
  import opened Common
  import opened JavaStrings

  /** The date time format used in date time resolution. */
  const LOCAL_DATE_TIME_FORMAT: string := "YYYY-MM-DD HH:mm"

  /** The short zone names the back end does not support: the keys of badZones. */
  const BAD_ZONES: set<string> := {"EST", "GMT+0", "GMT-0", "HST", "MST", "ROC"}

  /** The properties every object literal inherits from Object.prototype: looking one of them
      up on badZones yields a function, or the prototype itself, rather than undefined. */
  const OBJECT_PROTOTYPE_PROPERTIES: set<string> :=
    {"constructor", "hasOwnProperty", "isPrototypeOf", "propertyIsEnumerable", "toLocaleString",
     "toString", "valueOf", "__proto__", "__defineGetter__", "__defineSetter__",
     "__lookupGetter__", "__lookupSetter__"}

  /** isBadZone: the truthiness of badZones[tz]. */
  predicate IsBadZone(tz: string)
  {
    tz in BAD_ZONES || tz in OBJECT_PROTOTYPE_PROPERTIES
  }

  /** Among names that are not Object.prototype properties, exactly the six listed zones are bad. */
  lemma BadZonesExactly(tz: string)
    requires tz !in OBJECT_PROTOTYPE_PROPERTIES
    ensures IsBadZone(tz) <==> tz == "EST" || tz == "GMT+0" || tz == "GMT-0" || tz == "HST" || tz == "MST" || tz == "ROC"
  {
  }

  /** The service, built from the loaded zone data: moment.tz.names(), moment.tz.dataVersion and
      each zone's utcOffset at the moment of construction, in minutes west of UTC. The fields are
      set once, by the constructor. */
  class TimezoneService {
    const tzVersion: string
    const tzOffsets: map<string, int>
    ghost const zoneNames: seq<string>
    ghost const utcOffset: string -> int

    /** Every name of the zone data that is not bad has an entry, the negated offset, and no
        other name has one. */
    ghost predicate Valid()
    {
      && tzOffsets.Keys == (set tz | tz in zoneNames && !IsBadZone(tz))
      && forall tz | tz in tzOffsets :: tzOffsets[tz] == -utcOffset(tz)
    }

    constructor (names: seq<string>, dataVersion: string, offsetAtConstruction: string -> int)
      ensures Valid() && zoneNames == names && utcOffset == offsetAtConstruction
      ensures tzVersion == dataVersion
    {
      var offsets: map<string, int> := map[];
      for i := 0 to |names|
        invariant offsets.Keys == (set tz | tz in names[..i] && !IsBadZone(tz))
        invariant forall tz | tz in offsets :: offsets[tz] == -offsetAtConstruction(tz)
      {
        assert names[..i + 1] == names[..i] + [names[i]];
        var tz := names[i];
        if !IsBadZone(tz) {
          offsets := offsets[tz := offsetAtConstruction(tz) * -1];
        }
      }
      assert names[..|names|] == names;
      tzVersion := dataVersion;
      tzOffsets := offsets;
      zoneNames := names;
      utcOffset := offsetAtConstruction;
    }

    /** getTzVersion: the zone data's version, as loaded. */
    function GetTzVersion(): string
    {
      tzVersion
    }

    /** getTzOffsets: an entry for each good zone name, its offset east of UTC. */
    function GetTzOffsets(): (r: map<string, int>)
      requires Valid()
      ensures forall tz :: tz in r <==> tz in zoneNames && !IsBadZone(tz)
      ensures forall tz | tz in r :: r[tz] == -utcOffset(tz)
    {
      tzOffsets
    }
  }

  /** No bad zone is ever offered. */
  lemma NoBadZoneOffered(s: TimezoneService, tz: string)
    requires s.Valid() && IsBadZone(tz)
    ensures tz !in s.GetTzOffsets()
  {
  }

  // ---------------------------------------------------------------------
  // The local date-time text and its resolution

  /** The fields of a moment that the local date-time format prints; the month counts from 0. */
  datatype LocalDateTime = LocalDateTime(year: int, month: int, date: int, hour: int, minute: int)

  /** moment's zero-filling of a non-negative number: its decimal digits, with leading zeros up
      to `width` characters; a longer number is printed whole. */
  function ZeroFillNat(n: nat, width: nat): (r: string)
    ensures AllDigits(r) && |r| >= 1 && |r| >= width
    decreases n + width
  {
    if n < 10 && width <= 1 then [DigitChar(n)]
    else ZeroFillNat(n / 10, if width == 0 then 0 else width - 1) + [DigitChar(n % 10)]
  }

  /** moment's zeroFill(n, width): a negative number gets a leading '-'. */
  function ZeroFill(n: int, width: nat): string
  {
    if n < 0 then "-" + ZeroFillNat(-n, width) else ZeroFillNat(n, width)
  }

  /** format('YYYY-MM-DD HH:mm'). */
  function FormatLocalDateTime(t: LocalDateTime): (r: string)
  {
    ZeroFill(t.year, 4) + "-" + ZeroFill(t.month + 1, 2) + "-" + ZeroFill(t.date, 2) + " "
    + ZeroFill(t.hour, 2) + ":" + ZeroFill(t.minute, 2)
  }

  function Pow10(k: nat): nat
  {
    if k == 0 then 1 else 10 * Pow10(k - 1)
  }

  /** The reading of a 'YYYY-MM-DD HH:mm' text: four, two, two, two and two digits with the
      separators between them; anything else is not such a text. */
  function ParseLocalDateTime(s: string): (r: Option<LocalDateTime>)
    ensures r.Some? ==> |s| == 16
  {
    if |s| == 16 && s[4] == '-' && s[7] == '-' && s[10] == ' ' && s[13] == ':'
       && AllDigits(s[0..4]) && AllDigits(s[5..7]) && AllDigits(s[8..10])
       && AllDigits(s[11..13]) && AllDigits(s[14..16])
    then Some(LocalDateTime(DigitsValue(s[0..4]), DigitsValue(s[5..7]) - 1, DigitsValue(s[8..10]),
                            DigitsValue(s[11..13]), DigitsValue(s[14..16])))
    else None
  }

  lemma {:induction false} ZeroFillValue(n: nat, width: nat)
    ensures DigitsValue(ZeroFillNat(n, width)) == n
    decreases n + width
  {
    if !(n < 10 && width <= 1) {
      var w := if width == 0 then 0 else width - 1;
      ZeroFillValue(n / 10, w);
      var s := ZeroFillNat(n, width);
      assert s[..|s| - 1] == ZeroFillNat(n / 10, w);
    }
  }

  lemma {:induction false} ZeroFillLength(n: nat, width: nat)
    requires width >= 1 && n < Pow10(width)
    ensures |ZeroFillNat(n, width)| == width
    decreases width
  {
    if !(n < 10 && width <= 1) {
      ZeroFillLength(n / 10, width - 1);
    }
  }

  /** Zero-filling a digit string's value to its own length gives the string back. */
  lemma {:induction false} ZeroFillOfDigits(d: string)
    requires |d| >= 1 && AllDigits(d)
    ensures ZeroFillNat(DigitsValue(d), |d|) == d
    decreases |d|
  {
    var n := DigitsValue(d);
    var last := d[|d| - 1] as int - '0' as int;
    assert n == DigitsValue(d[..|d| - 1]) * 10 + last;
    if |d| == 1 {
      assert DigitsValue(d[..0]) == 0;
    } else {
      ZeroFillOfDigits(d[..|d| - 1]);
      assert n / 10 == DigitsValue(d[..|d| - 1]) && n % 10 == last;
      assert d == d[..|d| - 1] + [d[|d| - 1]];
    }
  }

  predicate InRange(t: LocalDateTime)
  {
    0 <= t.year < 10000 && 0 <= t.month < 12 && 1 <= t.date <= 31 && 0 <= t.hour < 24 && 0 <= t.minute < 60
  }

  /** A zero-filled field of a number below 10^width: exactly `width` digits, worth the number. */
  lemma ZeroFillField(n: nat, width: nat)
    requires width >= 1 && n < Pow10(width)
    ensures |ZeroFillNat(n, width)| == width && DigitsValue(ZeroFillNat(n, width)) == n
  {
    ZeroFillLength(n, width);
    ZeroFillValue(n, width);
  }

  /** Where the five fields and the separators sit in the text. */
  lemma Layout(a: string, b: string, c: string, d: string, e: string)
    requires |a| == 4 && |b| == 2 && |c| == 2 && |d| == 2 && |e| == 2
    ensures var s := a + "-" + b + "-" + c + " " + d + ":" + e;
            |s| == 16 && s[4] == '-' && s[7] == '-' && s[10] == ' ' && s[13] == ':'
            && s[0..4] == a && s[5..7] == b && s[8..10] == c && s[11..13] == d && s[14..16] == e
  {
    var front := a + "-" + b + "-";
    var back := c + " " + d + ":" + e;
    assert front[0..4] == a && front[5..7] == b;
    assert back[0..2] == c && back[3..5] == d && back[6..8] == e;
    var s := a + "-" + b + "-" + c + " " + d + ":" + e;
    assert s == front + back;
    assert s[0..4] == front[0..4] && s[5..7] == front[5..7];
    assert s[8..10] == back[0..2] && s[11..13] == back[3..5] && s[14..16] == back[6..8];
  }

  /** The text carries its fields: reading a formatted date-time gives it back. */
  lemma ParseFormat(t: LocalDateTime)
    requires InRange(t)
    ensures ParseLocalDateTime(FormatLocalDateTime(t)) == Some(t)
  {
    FormattedFields(t);
    ParseOfFields(FormatLocalDateTime(t), t.year, t.month + 1, t.date, t.hour, t.minute);
  }

  /** Where the formatted fields sit and what their digits are worth. */
  lemma FormattedFields(t: LocalDateTime)
    requires InRange(t)
    ensures var s := FormatLocalDateTime(t);
            |s| == 16 && s[4] == '-' && s[7] == '-' && s[10] == ' ' && s[13] == ':'
            && AllDigits(s[0..4]) && AllDigits(s[5..7]) && AllDigits(s[8..10])
            && AllDigits(s[11..13]) && AllDigits(s[14..16])
            && DigitsValue(s[0..4]) == t.year && DigitsValue(s[5..7]) == t.month + 1
            && DigitsValue(s[8..10]) == t.date && DigitsValue(s[11..13]) == t.hour
            && DigitsValue(s[14..16]) == t.minute
  {
    assert Pow10(2) == 100 && Pow10(4) == 10000;
    var a, b, c := ZeroFillNat(t.year, 4), ZeroFillNat(t.month + 1, 2), ZeroFillNat(t.date, 2);
    var d, e := ZeroFillNat(t.hour, 2), ZeroFillNat(t.minute, 2);
    ZeroFillField(t.year, 4);
    ZeroFillField(t.month + 1, 2);
    ZeroFillField(t.date, 2);
    ZeroFillField(t.hour, 2);
    ZeroFillField(t.minute, 2);
    FormattedPieces(t);
    DigitsLayout(a, b, c, d, e);
  }

  /** A date-time with no negative field formats as its zero-filled fields and separators. */
  lemma FormattedPieces(t: LocalDateTime)
    requires t.year >= 0 && t.month + 1 >= 0 && t.date >= 0 && t.hour >= 0 && t.minute >= 0
    ensures FormatLocalDateTime(t)
            == ZeroFillNat(t.year, 4) + "-" + ZeroFillNat(t.month + 1, 2) + "-" + ZeroFillNat(t.date, 2) + " "
               + ZeroFillNat(t.hour, 2) + ":" + ZeroFillNat(t.minute, 2)
  {
  }

  /** The layout of five digit strings joined by the format's separators. */
  lemma DigitsLayout(a: string, b: string, c: string, d: string, e: string)
    requires |a| == 4 && |b| == 2 && |c| == 2 && |d| == 2 && |e| == 2
    requires AllDigits(a) && AllDigits(b) && AllDigits(c) && AllDigits(d) && AllDigits(e)
    ensures var s := a + "-" + b + "-" + c + " " + d + ":" + e;
            |s| == 16 && s[4] == '-' && s[7] == '-' && s[10] == ' ' && s[13] == ':'
            && AllDigits(s[0..4]) && AllDigits(s[5..7]) && AllDigits(s[8..10])
            && AllDigits(s[11..13]) && AllDigits(s[14..16])
            && DigitsValue(s[0..4]) == DigitsValue(a) && DigitsValue(s[5..7]) == DigitsValue(b)
            && DigitsValue(s[8..10]) == DigitsValue(c) && DigitsValue(s[11..13]) == DigitsValue(d)
            && DigitsValue(s[14..16]) == DigitsValue(e)
  {
    var s := a + "-" + b + "-" + c + " " + d + ":" + e;
    Layout(a, b, c, d, e);
    SameDigits(s[0..4], a);
    SameDigits(s[5..7], b);
    SameDigits(s[8..10], c);
    SameDigits(s[11..13], d);
    SameDigits(s[14..16], e);
  }

  lemma SameDigits(x: string, a: string)
    requires x == a && AllDigits(a)
    ensures AllDigits(x) && DigitsValue(x) == DigitsValue(a)
  {
  }

  /** Reading a text in the format whose fields are worth the given numbers. */
  lemma ParseOfFields(s: string, year: int, month: int, date: int, hour: int, minute: int)
    requires |s| == 16 && s[4] == '-' && s[7] == '-' && s[10] == ' ' && s[13] == ':'
    requires AllDigits(s[0..4]) && AllDigits(s[5..7]) && AllDigits(s[8..10])
             && AllDigits(s[11..13]) && AllDigits(s[14..16])
    requires DigitsValue(s[0..4]) == year && DigitsValue(s[5..7]) == month && DigitsValue(s[8..10]) == date
             && DigitsValue(s[11..13]) == hour && DigitsValue(s[14..16]) == minute
    ensures ParseLocalDateTime(s) == Some(LocalDateTime(year, month - 1, date, hour, minute))
  {
  }

  /** Every text in the format is the formatting of what it reads as. */
  lemma FormatParse(s: string)
    requires ParseLocalDateTime(s).Some?
    ensures FormatLocalDateTime(ParseLocalDateTime(s).value) == s
  {
    ZeroFillOfDigits(s[0..4]);
    ZeroFillOfDigits(s[5..7]);
    ZeroFillOfDigits(s[8..10]);
    ZeroFillOfDigits(s[11..13]);
    ZeroFillOfDigits(s[14..16]);
    assert s == s[0..4] + "-" + s[5..7] + "-" + s[8..10] + " " + s[11..13] + ":" + s[14..16];
  }

  /** LocalDateTimeAmbiguityStatus. */
  datatype AmbiguityStatus = UNAMBIGUOUS | GAP | OVERLAP
  {
    /** The enum's string value, as sent by the server. */
    function Value(): (r: string)
    {
      match this
      case UNAMBIGUOUS => "UNAMBIGUOUS"
      case GAP => "GAP"
      case OVERLAP => "OVERLAP"
    }
  }

  /** The status a string value denotes; any other string denotes none. */
  function StatusOf(value: string): (r: Option<AmbiguityStatus>)
    ensures r.Some? ==> r.value.Value() == value
  {
    if value == "UNAMBIGUOUS" then Some(UNAMBIGUOUS)
    else if value == "GAP" then Some(GAP)
    else if value == "OVERLAP" then Some(OVERLAP)
    else None
  }

  /** The three statuses have distinct values and are exactly the strings StatusOf accepts. */
  lemma StatusValues(st: AmbiguityStatus, value: string)
    ensures StatusOf(st.Value()) == Some(st)
    ensures StatusOf(value).Some? <==> value in {"UNAMBIGUOUS", "GAP", "OVERLAP"}
  {
  }

  /** LocalDateTimeInfo: the server's resolution of a local date-time in a zone. */
  datatype LocalDateTimeInfo = LocalDateTimeInfo(
    resolvedTimestamp: int,
    resolvedStatus: AmbiguityStatus,
    earlierInterpretationTimestamp: Option<int>,
    laterInterpretationTimestamp: Option<int>)

  /** An HTTP GET to an endpoint with query parameters. */
  datatype GetRequest = GetRequest(endpoint: string, params: map<string, string>)

  /** getResolveLocalDateTime: the date-time text and the zone, passed on unchanged. */
  function GetResolveLocalDateTime(localDateTime: string, timeZone: string): (r: GetRequest)
    ensures r.endpoint == "/localdatetime"
    ensures r.params.Keys == {"localdatetime", "timezone"}
    ensures r.params["localdatetime"] == localDateTime && r.params["timezone"] == timeZone
  {
    GetRequest("/localdatetime", map["localdatetime" := localDateTime, "timezone" := timeZone])
  }
}
