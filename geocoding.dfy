/** Reverse geocoding: how a place name is chosen from a Google Geocoding
    reply (`loadLocationNameGoogle`, `loadLocationNameGoogleDetailed`), from
    a Nominatim reply (`loadLocationNameFree`), and which provider
    `loadLocationNameHybrid` asks. The replies are parameters; what the
    functions compute is the text shown in the location card. */
module Geocoding {
  import opened Wrappers
  import opened Strings
  import opened Location

  datatype AddressComponent = AddressComponent(longName: string, shortName: string, types: seq<string>)

  datatype GeocodeResult = GeocodeResult(components: seq<AddressComponent>, formattedAddress: string)

  /** A Google reply: `Unreachable` when the fetch fails, the status is not
      2xx or the body is not JSON; otherwise its status and results. */
  datatype GoogleReply = GoogleUnreachable | GoogleReply(status: string, results: seq<GeocodeResult>)

  datatype NominatimAddress = NominatimAddress(
    city: Option<string>, town: Option<string>, village: Option<string>,
    county: Option<string>, state: Option<string>, country: Option<string>)

  /** A Nominatim reply: `Unreachable` when the fetch fails or the status is
      not 2xx; otherwise its `address` and `display_name`, either missing. */
  datatype NominatimReply = NominatimUnreachable | NominatimReply(address: Option<NominatimAddress>, displayName: Option<string>)

  // ---------------------------------------------------------------------
  // Component extraction
  // ---------------------------------------------------------------------

  /** The one slot a component fills: its types are tested for locality,
      then first-level administrative area, then country. */
  datatype Role = Locality | Admin1 | Country | Other

  function RoleOf(c: AddressComponent): Role {
    if "locality" in c.types then Locality
    else if "administrative_area_level_1" in c.types then Admin1
    else if "country" in c.types then Country
    else Other
  }

  datatype Parts = Parts(city: string, state: string, country: string)

  const NoParts := Parts("", "", "")

  /** The text a component puts in its slot; the detailed variant takes the
      state's short name. */
  function Value(c: AddressComponent, r: Role, stateShort: bool): string {
    if r == Admin1 && stateShort then c.shortName else c.longName
  }

  function Field(p: Parts, r: Role): string {
    match r
    case Locality => p.city
    case Admin1 => p.state
    case Country => p.country
    case Other => ""
  }

  function Assign(p: Parts, c: AddressComponent, stateShort: bool): Parts {
    match RoleOf(c)
    case Locality => p.(city := c.longName)
    case Admin1 => p.(state := Value(c, Admin1, stateShort))
    case Country => p.(country := c.longName)
    case Other => p
  }

  /** The slots after visiting the components in order. */
  function Extracted(cs: seq<AddressComponent>, stateShort: bool): Parts
    decreases |cs|
  {
    if cs == [] then NoParts else Assign(Extracted(cs[..|cs| - 1], stateShort), cs[|cs| - 1], stateShort)
  }

  /** The `address_components.forEach` loop of both Google functions. */
  method ExtractComponents(cs: seq<AddressComponent>, stateShort: bool) returns (city: string, state: string, country: string)
    ensures Parts(city, state, country) == Extracted(cs, stateShort)
  {
    city, state, country := "", "", "";
    for i := 0 to |cs|
      invariant Parts(city, state, country) == Extracted(cs[..i], stateShort)
    {
      assert cs[..i + 1][..i] == cs[..i];
      var component := cs[i];
      if "locality" in component.types {
        city := component.longName;
      } else if "administrative_area_level_1" in component.types {
        state := if stateShort then component.shortName else component.longName;
      } else if "country" in component.types {
        country := component.longName;
      }
    }
    assert cs[..|cs|] == cs;
  }

  /** Each slot holds the value of the LAST component whose role it is. */
  lemma {:induction false} LastMatchWins(cs: seq<AddressComponent>, stateShort: bool, r: Role, i: nat)
    requires r != Other && i < |cs| && RoleOf(cs[i]) == r
    requires forall j :: i < j < |cs| ==> RoleOf(cs[j]) != r
    ensures Field(Extracted(cs, stateShort), r) == Value(cs[i], r, stateShort)
    decreases |cs|
  {
    if i < |cs| - 1 {
      LastMatchWins(cs[..|cs| - 1], stateShort, r, i);
    }
  }

  /** A slot no component fills stays empty. */
  lemma {:induction false} UnmatchedSlotEmpty(cs: seq<AddressComponent>, stateShort: bool, r: Role)
    requires forall j :: 0 <= j < |cs| ==> RoleOf(cs[j]) != r
    ensures Field(Extracted(cs, stateShort), r) == ""
    decreases |cs|
  {
    if cs != [] {
      UnmatchedSlotEmpty(cs[..|cs| - 1], stateShort, r);
    }
  }

  /** A component tagged both as a locality and as a country fills only the
      city: the slots are exclusive per component. */
  lemma LocalityShadowsOtherTypes(c: AddressComponent, stateShort: bool)
    requires "locality" in c.types
    ensures Extracted([c], stateShort) == Parts(c.longName, "", "")
  {
    assert [c][..0] == [];
  }

  // ---------------------------------------------------------------------
  // Name priority
  // ---------------------------------------------------------------------

  /** `formatted_address.split(',').slice(0, 2).join(',').trim()`. */
  function AddressHead(fa: string): string {
    var pieces := Split(fa, ',');
    Trim(Join(if |pieces| <= 2 then pieces else pieces[..2], ','))
  }

  /** The name chain of `loadLocationNameGoogle`. */
  function GoogleName(p: Parts, fa: string): string {
    if p.city != "" && p.country != "" then p.city + ", " + p.country
    else if p.state != "" && p.country != "" then p.state + ", " + p.country
    else if p.country != "" then p.country
    else AddressHead(fa)
  }

  /** The name chain of `loadLocationNameGoogleDetailed`. */
  function DetailedName(p: Parts, fa: string): string {
    if p.city != "" && p.state != "" && p.country != "" then p.city + ", " + p.state + ", " + p.country
    else if p.city != "" && p.country != "" then p.city + ", " + p.country
    else if p.state != "" && p.country != "" then p.state + ", " + p.country
    else if p.country != "" then p.country
    else Split(fa, ',')[0]
  }

  predicate EndsWith(s: string, suffix: string) {
    |suffix| <= |s| && s[|s| - |suffix|..] == suffix
  }

  /** With a country the name is the country or ends in ", country"; without
      one the city and state are never shown and the address head is. */
  lemma GoogleNameCountry(p: Parts, fa: string)
    ensures p.country != "" ==> GoogleName(p, fa) == p.country || EndsWith(GoogleName(p, fa), ", " + p.country)
    ensures p.country != "" && p.city != "" ==> GoogleName(p, fa)[..|p.city|] == p.city
    ensures p.country == "" ==> GoogleName(p, fa) == AddressHead(fa)
  {
  }

  /** The address head keeps at most one comma, and an address with at
      most one comma is shown whole, only trimmed. */
  lemma AddressHeadCommas(fa: string)
    ensures Count(AddressHead(fa), ',') == if Count(fa, ',') == 0 then 0 else 1
    ensures Count(fa, ',') <= 1 ==> AddressHead(fa) == Trim(fa)
  {
    var pieces := Split(fa, ',');
    var kept := if |pieces| <= 2 then pieces else pieces[..2];
    SplitCount(fa, ',');
    assert forall q :: q in kept ==> q in pieces;
    CountJoin(kept, ',');
    CountTrim(Join(kept, ','), ',');
    if Count(fa, ',') <= 1 {
      JoinSplit(fa, ',');
    }
  }

  /** The detailed fallback is the address up to its first comma. */
  lemma DetailedFallback(p: Parts, fa: string)
    requires p.country == ""
    ensures ',' !in DetailedName(p, fa)
    ensures |DetailedName(p, fa)| <= |fa|
    ensures fa[..|DetailedName(p, fa)|] == DetailedName(p, fa)
    ensures |DetailedName(p, fa)| == |fa| || fa[|DetailedName(p, fa)|] == ','
  {
    SplitHead(fa, ',');
    assert Split(fa, ',')[0] in Split(fa, ',');
  }

  /** The detailed chain only puts "city, state, country" ahead of the
      plain chain: whenever that case does not apply and a country is
      known, both give the same name. */
  lemma DetailedExtendsGoogle(p: Parts, fa: string)
    ensures p.country != "" && (p.city == "" || p.state == "") ==> DetailedName(p, fa) == GoogleName(p, fa)
    ensures p.city != "" && p.state != "" && p.country != "" ==> DetailedName(p, fa) == p.city + ", " + p.state + ", " + p.country
  {
  }

  // ---------------------------------------------------------------------
  // Best-result scoring
  // ---------------------------------------------------------------------

  predicate HasType(r: GeocodeResult, t: string) {
    exists c :: c in r.components && t in c.types
  }

  /** locality 3, first-level area 2, country 1. */
  function Score(r: GeocodeResult): nat {
    (if HasType(r, "locality") then 3 else 0)
    + (if HasType(r, "administrative_area_level_1") then 2 else 0)
    + (if HasType(r, "country") then 1 else 0)
  }

  datatype Choice = Choice(index: Option<nat>, score: nat)

  /** `bestResult` and `bestScore` after visiting the results in order. */
  function Best(rs: seq<GeocodeResult>): Choice
    decreases |rs|
  {
    if rs == [] then Choice(None, 0)
    else
      var before := Best(rs[..|rs| - 1]);
      if Score(rs[|rs| - 1]) > before.score then Choice(Some(|rs| - 1), Score(rs[|rs| - 1])) else before
  }

  /** The scoring loop of `loadLocationNameGoogleDetailed`. */
  method SelectBestResult(rs: seq<GeocodeResult>) returns (best: Option<nat>)
    ensures best == Best(rs).index
  {
    best := None;
    var bestScore := 0;
    for i := 0 to |rs|
      invariant Choice(best, bestScore) == Best(rs[..i])
    {
      assert rs[..i + 1][..i] == rs[..i];
      var score := 0;
      if HasType(rs[i], "locality") { score := score + 3; }
      if HasType(rs[i], "administrative_area_level_1") { score := score + 2; }
      if HasType(rs[i], "country") { score := score + 1; }
      if score > bestScore {
        bestScore := score;
        best := Some(i);
      }
    }
    assert rs[..|rs|] == rs;
  }

  /** The chosen result is the first one with the highest score, and a
      result scoring 0 is never chosen: nothing is chosen exactly when no
      result has a locality, first-level area or country. */
  lemma {:induction false} BestIsFirstHighest(rs: seq<GeocodeResult>)
    ensures Best(rs).index.None? <==> forall j :: 0 <= j < |rs| ==> Score(rs[j]) == 0
    ensures Best(rs).index.Some? ==> Best(rs).index.value < |rs| && Best(rs).score == Score(rs[Best(rs).index.value]) > 0
    ensures Best(rs).index.Some? ==> forall j :: 0 <= j < |rs| ==> Score(rs[j]) <= Score(rs[Best(rs).index.value])
    ensures Best(rs).index.Some? ==> forall j :: 0 <= j < Best(rs).index.value ==> Score(rs[j]) < Score(rs[Best(rs).index.value])
    ensures Best(rs).index.None? ==> Best(rs).score == 0
    decreases |rs|
  {
    if rs != [] {
      var init := rs[..|rs| - 1];
      BestIsFirstHighest(init);
      assert forall j :: 0 <= j < |init| ==> init[j] == rs[j];
    }
  }

  // ---------------------------------------------------------------------
  // The three providers and the gate
  // ---------------------------------------------------------------------

  /** `${city}` of an absent Nominatim field is "undefined". */
  function TemplateText(o: Option<string>): string {
    match o
    case None => "undefined"
    case Some(s) => s
  }

  predicate Truthy(o: Option<string>) {
    o.Some? && o.value != ""
  }

  /** `a || b || ...`: the first truthy value. */
  function FirstTruthy(os: seq<Option<string>>): Option<string> {
    if os == [] then None else if Truthy(os[0]) then os[0] else FirstTruthy(os[1..])
  }

  /** The Nominatim `city`: city, town, village, county, state. */
  function NominatimCity(a: NominatimAddress): Option<string> {
    FirstTruthy([a.city, a.town, a.village, a.county, a.state])
  }

  /** The text `loadLocationNameFree` leaves in the card. A missing
      `display_name` throws inside the try and ends in the coordinates. */
  function FreeName(lat: int, lon: int, reply: NominatimReply): string {
    match reply
    case NominatimUnreachable => CoordinatesText(lat, lon)
    case NominatimReply(address, displayName) =>
      match address
      case None => CoordinatesText(lat, lon)
      case Some(a) =>
        if Truthy(NominatimCity(a)) then NominatimCity(a).value + ", " + TemplateText(a.country)
        else if Truthy(a.country) then a.country.value
        else if displayName.Some? then Split(displayName.value, ',')[0]
        else CoordinatesText(lat, lon)
  }

  /** Whether a Google reply carries results to name the place from. */
  predicate Usable(reply: GoogleReply) {
    reply.GoogleReply? && reply.status == "OK" && |reply.results| > 0
  }

  /** The text `loadLocationNameGoogle` leaves in the card. Every failure
      goes to the free provider, which never throws, so the inner
      coordinates fallback is never reached. */
  function GoogleOutcome(lat: int, lon: int, reply: GoogleReply, free: NominatimReply): string {
    if Usable(reply) then GoogleName(Extracted(reply.results[0].components, false), reply.results[0].formattedAddress)
    else FreeName(lat, lon, free)
  }

  /** The text `loadLocationNameGoogleDetailed` writes, or `None` when no
      result scores above 0 and the card keeps what it showed. */
  function DetailedOutcome(lat: int, lon: int, reply: GoogleReply, free: NominatimReply): Option<string> {
    if Usable(reply) then
      match Best(reply.results).index
      case None => None
      case Some(i) =>
        if i < |reply.results| then Some(DetailedName(Extracted(reply.results[i].components, true), reply.results[i].formattedAddress))
        else None
    else Some(FreeName(lat, lon, free))
  }

  method LoadLocationNameGoogle(lat: int, lon: int, reply: GoogleReply, free: NominatimReply) returns (name: string)
    ensures name == GoogleOutcome(lat, lon, reply, free)
  {
    if reply.GoogleReply? && reply.status == "OK" && |reply.results| > 0 {
      var result := reply.results[0];
      var city, state, country := ExtractComponents(result.components, false);
      name := GoogleName(Parts(city, state, country), result.formattedAddress);
    } else {
      name := FreeName(lat, lon, free);
    }
  }

  method LoadLocationNameGoogleDetailed(lat: int, lon: int, reply: GoogleReply, free: NominatimReply) returns (name: Option<string>)
    ensures name == DetailedOutcome(lat, lon, reply, free)
  {
    if reply.GoogleReply? && reply.status == "OK" && |reply.results| > 0 {
      var best := SelectBestResult(reply.results);
      BestIsFirstHighest(reply.results);
      name := None;
      if best.Some? {
        var result := reply.results[best.value];
        var city, state, country := ExtractComponents(result.components, true);
        name := Some(DetailedName(Parts(city, state, country), result.formattedAddress));
      }
    } else {
      name := Some(FreeName(lat, lon, free));
    }
  }

  /** The key gate of `loadLocationNameHybrid`. */
  predicate KeyUsable(apiKey: string) {
    apiKey != "" && apiKey != "YOUR_GOOGLE_API_KEY"
  }

  function HybridOutcome(apiKey: string, lat: int, lon: int, reply: GoogleReply, free: NominatimReply): string {
    if KeyUsable(apiKey) then GoogleOutcome(lat, lon, reply, free) else FreeName(lat, lon, free)
  }

  // ---------------------------------------------------------------------
  // Properties
  // ---------------------------------------------------------------------

  /** `FirstTruthy` picks the earliest truthy value, and nothing only when
      every value is falsy. */
  lemma {:induction false} FirstTruthyIsFirst(os: seq<Option<string>>)
    ensures FirstTruthy(os).None? <==> forall j :: 0 <= j < |os| ==> !Truthy(os[j])
    ensures FirstTruthy(os).Some? ==> exists i :: 0 <= i < |os| && os[i] == FirstTruthy(os) && Truthy(os[i]) && forall j :: 0 <= j < i ==> !Truthy(os[j])
  {
    if os != [] {
      FirstTruthyIsFirst(os[1..]);
      if !Truthy(os[0]) && FirstTruthy(os).Some? {
        var i :| 0 <= i < |os[1..]| && os[1..][i] == FirstTruthy(os[1..]) && Truthy(os[1..][i]) && forall j :: 0 <= j < i ==> !Truthy(os[1..][j]);
        assert os[i + 1] == FirstTruthy(os);
        assert forall j :: 0 < j < i + 1 ==> os[j] == os[1..][j - 1];
      }
    }
  }

  /** The free provider's cases: no reply or no address shows the
      coordinates; a found city is followed by the country; without a city
      the country alone; without either the first piece of the display name. */
  lemma FreeNameCases(lat: int, lon: int, reply: NominatimReply)
    ensures reply.NominatimUnreachable? || reply.address.None? ==> FreeName(lat, lon, reply) == CoordinatesText(lat, lon)
    ensures reply.NominatimReply? && reply.address.Some? && Truthy(NominatimCity(reply.address.value)) ==>
      FreeName(lat, lon, reply) == NominatimCity(reply.address.value).value + ", " + TemplateText(reply.address.value.country)
    ensures reply.NominatimReply? && reply.address.Some? && !Truthy(NominatimCity(reply.address.value)) && Truthy(reply.address.value.country) ==>
      FreeName(lat, lon, reply) == reply.address.value.country.value
    ensures reply.NominatimReply? && reply.address.Some? && !Truthy(NominatimCity(reply.address.value)) && !Truthy(reply.address.value.country) && reply.displayName.Some? ==>
      ',' !in FreeName(lat, lon, reply)
  {
    if reply.NominatimReply? && reply.displayName.Some? {
      assert Split(reply.displayName.value, ',')[0] in Split(reply.displayName.value, ',');
    }
  }

  /** A town is used only when there is no truthy city; a county only when
      there is no city, town or village. */
  lemma NominatimCityOrder(a: NominatimAddress)
    ensures Truthy(a.city) ==> NominatimCity(a) == a.city
    ensures !Truthy(a.city) && Truthy(a.town) ==> NominatimCity(a) == a.town
    ensures !Truthy(a.city) && !Truthy(a.town) && !Truthy(a.village) && !Truthy(a.county) && !Truthy(a.state) ==> NominatimCity(a).None?
  {
    FirstTruthyIsFirst([a.city, a.town, a.village, a.county, a.state]);
  }

  /** `i` is the last component of `cs` in role `r`. */
  predicate LastOfRole(cs: seq<AddressComponent>, r: Role, i: nat) {
    i < |cs| && RoleOf(cs[i]) == r && forall j :: i < j < |cs| ==> RoleOf(cs[j]) != r
  }

  /** What `loadLocationNameHybrid` shows. With an empty or placeholder key,
      or when Google gives no usable reply, it is the free provider's name,
      and with such a key the Google reply makes no difference. With a
      usable key and reply the name ends in the long name of the first
      result's last country component, and without any country component
      it is the head of the formatted address. */
  lemma HybridName(apiKey: string, lat: int, lon: int, reply: GoogleReply, other: GoogleReply, free: NominatimReply, i: nat)
    ensures !KeyUsable(apiKey) || !Usable(reply) ==> HybridOutcome(apiKey, lat, lon, reply, free) == FreeName(lat, lon, free)
    ensures !KeyUsable(apiKey) ==> HybridOutcome(apiKey, lat, lon, reply, free) == HybridOutcome(apiKey, lat, lon, other, free)
    ensures KeyUsable(apiKey) && Usable(reply) && LastOfRole(reply.results[0].components, Country, i)
            && reply.results[0].components[i].longName != "" ==>
      var name := HybridOutcome(apiKey, lat, lon, reply, free);
      var country := reply.results[0].components[i].longName;
      name == country || EndsWith(name, ", " + country)
    ensures KeyUsable(apiKey) && Usable(reply) && (forall j :: 0 <= j < |reply.results[0].components| ==> RoleOf(reply.results[0].components[j]) != Country) ==>
      HybridOutcome(apiKey, lat, lon, reply, free) == AddressHead(reply.results[0].formattedAddress)
  {
    if KeyUsable(apiKey) && Usable(reply) {
      var first := reply.results[0];
      var p := Extracted(first.components, false);
      if LastOfRole(first.components, Country, i) {
        LastMatchWins(first.components, false, Country, i);
      }
      if forall j :: 0 <= j < |first.components| ==> RoleOf(first.components[j]) != Country {
        UnmatchedSlotEmpty(first.components, false, Country);
      }
      GoogleNameCountry(p, first.formattedAddress);
    }
  }

  /** The detailed function writes nothing only when the reply is usable and
      no result has a locality, first-level area or country. */
  lemma DetailedKeepsCardOnlyWithoutScore(lat: int, lon: int, reply: GoogleReply, free: NominatimReply)
    ensures DetailedOutcome(lat, lon, reply, free).None? <==>
      Usable(reply) && forall j :: 0 <= j < |reply.results| ==> Score(reply.results[j]) == 0
  {
    if Usable(reply) {
      BestIsFirstHighest(reply.results);
    }
  }
}
