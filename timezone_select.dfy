/** The time-zone dropdown: its whole-hour UTC offsets, the cities listed
    for each, and the label shown for an offset. */
module TimezoneSelect {
  import opened Wrappers
  import opened Strings

  /** The city lines of the offsets -12 to 14, in order. */
  const CityTable: seq<seq<string>> := [
    ["Baker Island, US Minor Outlying Islands"],
    ["Pago Pago, American Samoa"],
    ["Honolulu, Hawaii"],
    ["Anchorage, Alaska"],
    ["Los Angeles, Vancouver"],
    ["Phoenix, Denver"],
    ["Chicago, Mexico City"],
    ["Bogotá, New York"],
    ["Santiago, Santo Domingo"],
    ["São Paulo, Buenos Aires"],
    ["Fernando de Noronha, Brazil"],
    ["Azores, Cape Verde"],
    ["London, Dublin"],
    ["Berlin, Paris"],
    ["Cairo, Jerusalem"],
    ["Moscow, Istanbul"],
    ["Dubai, Baku"],
    ["Karachi, Tashkent"],
    ["Dhaka, Almaty"],
    ["Bangkok, Jakarta"],
    ["Singapore, Beijing"],
    ["Tokyo, Seoul"],
    ["Sydney, Melbourne"],
    ["Noumea, Solomon Islands"],
    ["Auckland, Fiji"],
    ["Samoa, Tonga"],
    ["Kiritimati, Line Islands"]
  ]

  /** `timezoneMap`: the major cities of each whole-hour offset. */
  const TimezoneMap: map<int, seq<string>> := map o | -12 <= o <= 14 :: CityTable[o + 12]

  /** `utcOffsets`: the offsets offered, `i - 12` for `i` below 27. */
  function UtcOffsets(): (r: seq<int>)
    ensures |r| == 27
  {
    seq(27, i => i - 12)
  }

  /** The offsets run from -12 to 14, each one above the one before, and
      are exactly the whole hours of that range. */
  lemma OffsetsAscending()
    ensures UtcOffsets()[0] == -12 && UtcOffsets()[26] == 14
    ensures forall i :: 0 < i < 27 ==> UtcOffsets()[i] == UtcOffsets()[i - 1] + 1
    ensures forall o :: o in UtcOffsets() <==> -12 <= o <= 14
  {
    var r := UtcOffsets();
    forall o | -12 <= o <= 14 ensures o in r {
      assert r[o + 12] == o;
    }
  }

  /** The sign printed before an offset: `+` for zero and above, nothing
      below zero, where the number brings its own `-`. */
  function Sign(offset: int): (r: string)
    ensures r == "+" <==> offset >= 0
    ensures r == "" <==> offset < 0
  {
    if offset >= 0 then "+" else ""
  }

  const UnknownRegion: string := "Unknown Region"

  /** The cities of an offset joined with `, `, or `Unknown Region`. */
  function Cities(offset: int): (r: string)
    ensures offset !in TimezoneMap ==> r == UnknownRegion
    ensures offset in TimezoneMap ==> r == Join(TimezoneMap[offset], ", ")
  {
    if offset in TimezoneMap then Join(TimezoneMap[offset], ", ") else UnknownRegion
  }

  /** The label's template: `(UTC{sign}{offset}:00) {cities}`. */
  function Template(offset: int, cities: string): string {
    "(UTC" + Sign(offset) + IntToString(offset) + ":00) " + cities
  }

  /** `formatTimezoneLabel`: the offset can be read back from the label. */
  function FormatTimezoneLabel(offset: int): (r: string)
    ensures ReadOffset(r) == Some(offset)
  {
    OffsetReadable(offset, Cities(offset));
    Template(offset, Cities(offset))
  }

  /** The characters before the first `c`, or all of them. */
  function TakeUntil(s: string, c: char): string {
    if s == [] || s[0] == c then [] else [s[0]] + TakeUntil(s[1..], c)
  }

  lemma {:induction false} TakeUntilPrefix(x: string, c: char, y: string)
    requires c !in x
    ensures TakeUntil(x + [c] + y, c) == x
  {
    if x != [] {
      assert (x + [c] + y)[1..] == x[1..] + [c] + y;
      TakeUntilPrefix(x[1..], c, y);
    }
  }

  /** Reads the offset back from a label: after `(UTC` and an optional
      `+`, the integer that runs up to the first `:`. */
  function ReadOffset(text: string): Option<int> {
    if |text| < 5 || text[..4] != "(UTC" then None
    else
      var rest := if text[4] == '+' then text[5..] else text[4..];
      ParseInt(TakeUntil(rest, ':'))
  }

  lemma OffsetReadable(offset: int, cities: string)
    ensures ReadOffset(Template(offset, cities)) == Some(offset)
  {
    var digits := IntToString(offset);
    var tail := "00) " + cities;
    var r := Template(offset, cities);
    assert r == "(UTC" + Sign(offset) + (digits + [':'] + tail);
    assert r[..4] == "(UTC";
    if offset >= 0 {
      assert r[4] == '+' && r[5..] == digits + [':'] + tail;
    } else {
      assert r[4..] == digits + [':'] + tail;
      assert r[4] == '-';
    }
    TakeUntilPrefix(digits, ':', tail);
    IntToStringRoundTrip(offset);
  }

  /** The character after `(UTC` is `+` for offsets of zero and above and
      `-` below zero, and a digit follows it, so zero reads `UTC+0`. */
  lemma LabelSign(offset: int, cities: string)
    ensures var r := Template(offset, cities);
      |r| > 5 && (r[4] == '+' <==> offset >= 0) && (r[4] == '-' <==> offset < 0) && '0' <= r[5] <= '9'
  {
    var digits := NatToString(if offset < 0 then -offset else offset);
    var rest := digits + ":00) " + cities;
    TemplateParts(offset, cities);
    MarkThenDigit("(UTC", if offset >= 0 then '+' else '-', rest);
  }

  /** The template is `(UTC`, one sign character, then the digits. */
  lemma TemplateParts(offset: int, cities: string)
    ensures var digits := NatToString(if offset < 0 then -offset else offset);
      Template(offset, cities) == "(UTC" + [if offset >= 0 then '+' else '-'] + (digits + ":00) " + cities)
  {
  }

  lemma MarkThenDigit(head: string, mark: char, rest: string)
    requires |head| == 4 && |rest| > 0
    ensures var r := head + [mark] + rest; |r| > 5 && r[4] == mark && r[5] == rest[0]
  {
  }

  /** The label ends with the offset's cities, `Unknown Region` when the map
      has no entry. */
  lemma LabelCities(offset: int)
    ensures var r := FormatTimezoneLabel(offset); var c := Cities(offset);
      |c| <= |r| && r[|r| - |c|..] == c
    ensures offset !in TimezoneMap ==> Cities(offset) == UnknownRegion
  {
    var c := Cities(offset);
    var head := "(UTC" + Sign(offset) + IntToString(offset) + ":00) ";
    assert Template(offset, c) == head + c;
    assert (head + c)[|head|..] == c;
  }

  /** Every offset in the dropdown has an entry in the map, so none of its
      labels reads `Unknown Region`. */
  lemma EveryOffsetCovered()
    ensures forall o :: o in UtcOffsets() ==> o in TimezoneMap && Cities(o) != UnknownRegion
  {
    OffsetsAscending();
    forall o | -12 <= o <= 14 ensures o in TimezoneMap && Cities(o) != UnknownRegion {
      EntryKnown(o);
    }
  }

  /** Each entry of the map is a single city line other than
      `Unknown Region`. */
  lemma EntryKnown(o: int)
    requires -12 <= o <= 14
    ensures o in TimezoneMap && |TimezoneMap[o]| == 1 && TimezoneMap[o][0] != UnknownRegion
    ensures Cities(o) == TimezoneMap[o][0]
  {
    assert TimezoneMap[o] == CityTable[o + 12];
  }
}
