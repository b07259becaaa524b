/** The location-resolution part of the lookup form handler (`index` in
    app.py): the location and carrier strings, the detailed geocoding query,
    and the coordinate/zoom fallback chain that always ends with coordinates.
    The phone-number library, the country database and the geocoder are
    foreign calls; their answers are parameters. */
module Resolution {
  import opened Wrappers
  import opened Text
  import PrefixTable
  import PhoneInput

  /** A coordinate pair; the values are only carried, never computed with. */
  datatype Coord = Coord(lat: real, lng: real)

  /** The fixed last-resort coordinates (Dhaka centre). */
  const Dhaka: Coord := Coord(23.8103, 90.4125)
  /** Map zoom for a hit on the detailed query, and for a country-level view. */
  const DetailedZoom: nat := 9
  const CountryZoom: nat := 5
  const IndiaCode: nat := 91
  const UnknownCarrier: string := "Unknown Carrier"

  /** The two fields of a parsed phone number the handler uses. */
  datatype ParsedNumber = ParsedNumber(countryCode: nat, nationalNumber: nat)

  /** What the result page shows about the number's place. */
  datatype ResolvedLocation = ResolvedLocation(
    location: string, carrier: string, coords: Coord, zoom: nat, circle: Option<string>)

  /** Coordinates together with the zoom they are shown at. */
  datatype Fix = Fix(coords: Coord, zoom: nat)

  /** The foreign collaborators the handler calls, as functions of their inputs.
      `parse` yields `None` when the parser raises; `describe` and
      `carrierName` yield `None` when the lookup raises. */
  datatype Collaborators = Collaborators(
    parse: (string, Option<string>) -> Option<ParsedNumber>,
    isValid: ParsedNumber -> bool,
    describe: ParsedNumber -> Option<string>,
    carrierName: ParsedNumber -> Option<string>,
    countryOf: nat -> Lookup<string>,
    geocode: string -> Lookup<Coord>)

  datatype Rejection = EmptyInput | InvalidNumber | ProcessingError

  datatype Outcome = Shown(result: ResolvedLocation) | Rejected(reason: Rejection)

  function CountryCodeLabel(cc: nat): string
  {
    "Country Code: +" + Decimal(cc)
  }

  /** The location line: the library's description when it gave a non-empty
      one, otherwise a label naming the country calling code. */
  function LocationText(cc: nat, description: Option<string>): (r: string)
    ensures r != []
    ensures description.Some? && description.value != [] ==> r == description.value
    ensures description.None? || description.value == [] ==> r == CountryCodeLabel(cc)
  {
    match description
    case Some(d) => if d != [] then d else CountryCodeLabel(cc)
    case None => CountryCodeLabel(cc)
  }

  /** The carrier line: the library's carrier name when non-empty, otherwise
      "Unknown Carrier". */
  function CarrierText(name: Option<string>): (r: string)
    ensures r != []
    ensures name.Some? && name.value != [] ==> r == name.value
    ensures name.None? || name.value == [] ==> r == UnknownCarrier
  {
    match name
    case Some(n) => if n != [] then n else UnknownCarrier
    case None => UnknownCarrier
  }

  /** The country name used in queries: the country database's name, or
      "+<code>" when it has none; `None` when the lookup raised, which skips
      the whole geocoding block. A country missing from the database still
      has a non-empty name, so the country tier of the fallback chain is
      still tried for it. */
  function CountryName(cc: nat, country: Lookup<string>): (r: Option<string>)
    ensures r.None? <==> country.Raised?
    ensures country.NotFound? ==> r.Some? && r.value != [] && r.value[0] == '+'
  {
    match country
    case Found(name) => Some(name)
    case NotFound => Some("+" + Decimal(cc))
    case Raised => None
  }

  /** The India circle of a number: looked up only for country code 91 and a
      non-zero national number, on the decimal digits of that number. */
  function DerivedCircle(number: ParsedNumber, table: map<string, string>): (r: Option<string>)
    ensures r.Some? ==> number.countryCode == IndiaCode && number.nationalNumber >= 100
  {
    if number.countryCode == IndiaCode && number.nationalNumber != 0 then
      CircleNeedsThreeDigits(table, number.nationalNumber);
      PrefixTable.GetIndiaCircle(table, Decimal(number.nationalNumber))
    else None
  }

  /** A national number below 100 has fewer than three digits and so never
      yields a circle. */
  lemma CircleNeedsThreeDigits(table: map<string, string>, n: nat)
    ensures PrefixTable.GetIndiaCircle(table, Decimal(n)).Some? ==> n >= 100
  {
    DecimalLengthAtLeastThree(n);
    if n < 100 {
      PrefixTable.ShortInputHasNoCircle(table, Decimal(n));
    }
  }

  /** The location line carries information: not blank and not "unknown" in
      any letter case once trimmed. */
  predicate Informative(location: string)
  {
    Strip(location) != [] && Lower(Strip(location)) != "unknown"
  }

  /** The detailed geocoding query. A found circle takes precedence over the
      location line; with neither there is no detailed query. */
  function DetailedQuery(number: ParsedNumber, location: string, countryName: string, table: map<string, string>): (q: Option<string>)
    ensures q.Some? ==> q.value != []
    ensures var c := DerivedCircle(number, table);
      c.Some? && c.value != [] ==> q == Some(c.value + ", India")
    ensures var c := DerivedCircle(number, table);
      !(c.Some? && c.value != []) && Informative(location) ==> q == Some(location + ", " + countryName)
    ensures var c := DerivedCircle(number, table);
      q.None? <==> !(c.Some? && c.value != []) && !Informative(location)
  {
    var c := DerivedCircle(number, table);
    if c.Some? && c.value != [] then Some(c.value + ", India")
    else if Informative(location) then Some(location + ", " + countryName)
    else None
  }

  /** The detailed query exists (the country lookup did not raise) and the
      geocoder found it. */
  predicate DetailedHit(number: ParsedNumber, location: string, country: Lookup<string>,
                        table: map<string, string>, geocode: string -> Lookup<Coord>)
  {
    && !country.Raised?
    && var q := DetailedQuery(number, location, CountryName(number.countryCode, country).value, table);
    && q.Some? && geocode(q.value).Found?
  }

  /** The geocoding block gets as far as the country name: the country
      lookup did not raise, the detailed query (if any) found nothing without
      raising, and the country name is non-empty. */
  predicate CountryTierReached(number: ParsedNumber, location: string, country: Lookup<string>,
                               table: map<string, string>, geocode: string -> Lookup<Coord>)
  {
    && !country.Raised?
    && var name := CountryName(number.countryCode, country).value;
    && var q := DetailedQuery(number, location, name, table);
    && (q.Some? ==> geocode(q.value).NotFound?)
    && name != []
  }

  /** The country tier is reached and the geocoder finds the country name. */
  predicate CountryHit(number: ParsedNumber, location: string, country: Lookup<string>,
                       table: map<string, string>, geocode: string -> Lookup<Coord>)
  {
    && CountryTierReached(number, location, country, table, geocode)
    && geocode(CountryName(number.countryCode, country).value).Found?
  }

  /** Reference definition of the fallback chain, tier by tier: the detailed
      query, then the country name, then Dhaka. A raise anywhere in the
      geocoding block abandons the remaining tiers. */
  function ExpectedFix(number: ParsedNumber, location: string, country: Lookup<string>,
                       table: map<string, string>, geocode: string -> Lookup<Coord>): (f: Fix)
    ensures f.zoom == DetailedZoom || f.zoom == CountryZoom
    ensures f.zoom == DetailedZoom <==> DetailedHit(number, location, country, table, geocode)
    ensures f.zoom == DetailedZoom ==>
      f.coords == geocode(DetailedQuery(number, location, CountryName(number.countryCode, country).value, table).value).value
    ensures f.zoom == CountryZoom ==>
      f.coords == Dhaka || (!country.Raised? && geocode(CountryName(number.countryCode, country).value) == Found(f.coords))
    ensures CountryHit(number, location, country, table, geocode) ==>
      f == Fix(geocode(CountryName(number.countryCode, country).value).value, CountryZoom)
    ensures !DetailedHit(number, location, country, table, geocode) && !CountryHit(number, location, country, table, geocode) ==>
      f == Fix(Dhaka, CountryZoom)
  {
    match CountryName(number.countryCode, country)
    case None => Fix(Dhaka, CountryZoom)
    case Some(name) =>
      var q := DetailedQuery(number, location, name, table);
      var detailed := if q.Some? then geocode(q.value) else NotFound;
      if detailed.Found? then Fix(detailed.value, DetailedZoom)
      else if detailed.Raised? || name == [] then Fix(Dhaka, CountryZoom)
      else
        match geocode(name)
        case Found(c) => Fix(c, CountryZoom)
        case _ => Fix(Dhaka, CountryZoom)
  }

  /** When the description lookup fails, the "Country Code: +<code>" label
      is itself informative, so outside India it still becomes the detailed
      query, with the country name appended. */
  lemma CountryCodeLabelIsQueried(number: ParsedNumber, countryName: string, table: map<string, string>)
    requires number.countryCode != IndiaCode
    ensures DetailedQuery(number, LocationText(number.countryCode, None), countryName, table)
         == Some(CountryCodeLabel(number.countryCode) + ", " + countryName)
  {
    var tag := CountryCodeLabel(number.countryCode);
    var digits := Decimal(number.countryCode);
    assert tag[0] == 'C';
    assert tag[|tag| - 1] == digits[|digits| - 1];
    StripNoEdgeSpace(tag);
    assert |Lower(tag)| != |"unknown"|;
  }

  /** For any number, when the detailed query finds nothing (without
      raising) and the non-empty country name is found, the country's
      coordinates are shown at country zoom: the country name is tried
      before the Dhaka fallback. */
  lemma CountryCentroidFallback(number: ParsedNumber, location: string, country: Lookup<string>,
                                table: map<string, string>, geocode: string -> Lookup<Coord>, c: Coord)
    requires !country.Raised?
    requires var name := CountryName(number.countryCode, country).value;
      var q := DetailedQuery(number, location, name, table);
      (q.Some? ==> geocode(q.value).NotFound?) && name != [] && geocode(name) == Found(c)
    ensures ExpectedFix(number, location, country, table, geocode) == Fix(c, CountryZoom)
  {
    assert CountryTierReached(number, location, country, table, geocode);
  }

  /** A country missing from the database is geocoded under "+<code>": when
      the detailed query finds nothing and "+<code>" is found, those
      coordinates are shown at country zoom. */
  lemma CodeNameReachesCountryTier(number: ParsedNumber, location: string,
                                   table: map<string, string>, geocode: string -> Lookup<Coord>, c: Coord)
    requires var q := DetailedQuery(number, location, "+" + Decimal(number.countryCode), table);
      q.Some? ==> geocode(q.value).NotFound?
    requires geocode("+" + Decimal(number.countryCode)) == Found(c)
    ensures ExpectedFix(number, location, NotFound, table, geocode) == Fix(c, CountryZoom)
  {
    CountryCentroidFallback(number, location, NotFound, table, geocode, c);
  }

  /** A detailed query whose geocoding RAISES ends the geocoding block: the
      country name is never tried and the Dhaka fallback is shown, even when
      the country name would have been found. */
  lemma RaisingDetailedQuerySkipsCountry(number: ParsedNumber, location: string, country: Lookup<string>,
                                         table: map<string, string>, geocode: string -> Lookup<Coord>)
    requires !country.Raised?
    requires var q := DetailedQuery(number, location, CountryName(number.countryCode, country).value, table);
      q.Some? && geocode(q.value).Raised?
    ensures ExpectedFix(number, location, country, table, geocode) == Fix(Dhaka, CountryZoom)
  {
  }

  /** Lines 69-127 of the handler for a valid number: the location and
      carrier lines, then the geocoding block, whose variables are reassigned
      step by step; the labelled block plays the role of the `try` whose
      `except` skips the rest of it. */
  method Resolve(number: ParsedNumber, description: Option<string>, carrierName: Option<string>,
                 country: Lookup<string>, table: map<string, string>, geocode: string -> Lookup<Coord>)
    returns (res: ResolvedLocation)
    ensures res.location == LocationText(number.countryCode, description)
    ensures res.carrier == CarrierText(carrierName)
    ensures res.circle == if country.Raised? then None else DerivedCircle(number, table)
    ensures Fix(res.coords, res.zoom) == ExpectedFix(number, res.location, country, table, geocode)
  {
    var cc, nn := number.countryCode, number.nationalNumber;
    var location := LocationText(cc, description);
    var carrier := CarrierText(carrierName);
    var zoom := CountryZoom;
    var coordinates: Option<Coord> := None;
    var derivedCircle: Option<string> := None;
    label attempt: {
      if country.Raised? {
        break attempt;
      }
      var countryName := if country.Found? then country.value else "+" + Decimal(cc);
      var query: Option<string> := None;
      if cc == IndiaCode && nn != 0 {
        derivedCircle := PrefixTable.GetIndiaCircle(table, Decimal(nn));
        if derivedCircle.Some? && derivedCircle.value != [] {
          query := Some(derivedCircle.value + ", India");
        }
      }
      if query.None? && Informative(location) {
        query := Some(location + ", " + countryName);
      }
      assert query == DetailedQuery(number, location, countryName, table);
      if query.Some? {
        var loc := geocode(query.value);
        if loc.Raised? {
          break attempt;
        }
        if loc.Found? {
          coordinates := Some(loc.value);
          zoom := DetailedZoom;
        }
      }
      if coordinates.None? && countryName != [] {
        var loc := geocode(countryName);
        if loc.Raised? {
          break attempt;
        }
        if loc.Found? {
          coordinates := Some(loc.value);
          zoom := CountryZoom;
        }
      }
    }
    if coordinates.None? {
      coordinates := Some(Dhaka);
      zoom := CountryZoom;
    }
    res := ResolvedLocation(location, carrier, coordinates.value, zoom, derivedCircle);
  }

  /** The whole lookup request: a blank input is rejected, a parser failure is
      a processing error, an invalid number is rejected, and a valid number is
      always resolved to coordinates. */
  method HandleLookup(raw: string, lib: Collaborators, table: map<string, string>) returns (out: Outcome)
    ensures out == Rejected(EmptyInput) <==> AllSpace(raw)
    ensures !AllSpace(raw) ==>
      var normalized := PhoneInput.Normalize(raw);
      var parsed := lib.parse(normalized, PhoneInput.ParseRegion(normalized));
      && (parsed.None? ==> out == Rejected(ProcessingError))
      && (parsed.Some? && !lib.isValid(parsed.value) ==> out == Rejected(InvalidNumber))
      && (parsed.Some? && lib.isValid(parsed.value) ==>
            && out.Shown?
            && out.result.location == LocationText(parsed.value.countryCode, lib.describe(parsed.value))
            && Fix(out.result.coords, out.result.zoom) ==
               ExpectedFix(parsed.value, out.result.location, lib.countryOf(parsed.value.countryCode), table, lib.geocode))
  {
    var prepared := PhoneInput.PrepareInput(raw);
    if prepared.Err? {
      return Rejected(EmptyInput);
    }
    var parsed := lib.parse(prepared.value.number, prepared.value.region);
    if parsed.None? {
      return Rejected(ProcessingError);
    }
    var number := parsed.value;
    if !lib.isValid(number) {
      return Rejected(InvalidNumber);
    }
    var resolved := Resolve(number, lib.describe(number), lib.carrierName(number),
                            lib.countryOf(number.countryCode), table, lib.geocode);
    return Shown(resolved);
  }
}
