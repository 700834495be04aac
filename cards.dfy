/** `displayPollenData`: the significant-pollen list behind the forecast
    cards. Plants with an index above 1 come first, in order; pollen types
    with an index above 1 follow when no card so far has their code. */
module Cards {
  import opened Wrappers
  import opened Payload

  /** The picture an appended pollen-type card gets: a stock image in
      vercel/script.js, a placeholder URL naming the type in script.js and
      pollen_tracker_js.js. */
  datatype PictureStyle = StockImage | PlaceholderUrl

  function PictureFor(style: PictureStyle, e: PollenEntry): string {
    match style
    case StockImage => "2022_06_allergies.jpg"
    case PlaceholderUrl => "https://via.placeholder.com/400x200/667eea/ffffff?text=" + e.displayName
  }

  /** A card's entry, and the picture set on it when it was appended. */
  datatype Card = Card(entry: PollenEntry, picture: Option<string>)

  const NoPollenData := "No pollen data"

  /** `x.indexInfo && x.indexInfo.value > 1`; a missing value compares false. */
  predicate Significant(e: PollenEntry) {
    e.indexInfo.Some? && e.indexInfo.value.value.Some? && e.indexInfo.value.value.value > 1
  }

  function SignificantPlants(ps: seq<PollenEntry>): seq<Card> {
    if ps == [] then []
    else (if Significant(ps[0]) then [Card(ps[0], None)] else []) + SignificantPlants(ps[1..])
  }

  predicate HasCode(cards: seq<Card>, code: string) {
    exists c :: c in cards && c.entry.code == code
  }

  /** One `pollenTypeInfo.forEach` step. */
  function AddType(style: PictureStyle, cards: seq<Card>, t: PollenEntry): seq<Card> {
    if Significant(t) && !HasCode(cards, t.code) then cards + [Card(t, Some(PictureFor(style, t)))] else cards
  }

  function AddTypes(style: PictureStyle, cards: seq<Card>, ts: seq<PollenEntry>): seq<Card>
    decreases |ts|
  {
    if ts == [] then cards else AddTypes(style, AddType(style, cards, ts[0]), ts[1..])
  }

  /** The cards shown, or the "No pollen data" error. */
  function Display(style: PictureStyle, data: PollenData): Result<seq<Card>, string> {
    match FirstDay(data)
    case None => Failure(NoPollenData)
    case Some(day) =>
      match day.plantInfo
      case None => Failure(NoPollenData)
      case Some(plants) =>
        var cards := AddTypes(style, SignificantPlants(plants), OrEmpty(day.pollenTypeInfo));
        if cards == [] then Failure(NoPollenData) else Success(cards)
  }

  method DisplayPollenData(style: PictureStyle, data: PollenData) returns (r: Result<seq<Card>, string>)
    ensures r == Display(style, data)
  {
    var first := FirstDay(data);
    if first.None? || first.value.plantInfo.None? {
      return Failure(NoPollenData);
    }
    var pollenTypeInfo := OrEmpty(first.value.pollenTypeInfo);
    var significantPollens := SignificantPlants(first.value.plantInfo.value);
    ghost var start := significantPollens;
    for i := 0 to |pollenTypeInfo|
      invariant AddTypes(style, significantPollens, pollenTypeInfo[i..]) == AddTypes(style, start, pollenTypeInfo)
    {
      var pollenType := pollenTypeInfo[i];
      assert pollenTypeInfo[i..][1..] == pollenTypeInfo[i + 1..];
      if Significant(pollenType) {
        var known := HasCode(significantPollens, pollenType.code);
        if !known {
          significantPollens := significantPollens + [Card(pollenType, Some(PictureFor(style, pollenType)))];
        }
      }
    }
    if |significantPollens| == 0 {
      return Failure(NoPollenData);
    }
    return Success(significantPollens);
  }

  // ---------------------------------------------------------------------
  // Properties
  // ---------------------------------------------------------------------

  /** The kept plants are exactly the significant ones, in their order,
      without a picture of their own. */
  lemma {:induction false} SignificantPlantsFacts(ps: seq<PollenEntry>)
    ensures forall c :: c in SignificantPlants(ps) ==> c.entry in ps && Significant(c.entry) && c.picture.None?
    ensures forall p :: p in ps && Significant(p) ==> Card(p, None) in SignificantPlants(ps)
    ensures |SignificantPlants(ps)| <= |ps|
  {
    if ps != [] {
      SignificantPlantsFacts(ps[1..]);
      assert ps == [ps[0]] + ps[1..];
    }
  }

  /** No plant is kept exactly when none is significant. */
  lemma {:induction false} SignificantPlantsEmpty(ps: seq<PollenEntry>)
    ensures SignificantPlants(ps) == [] <==> forall p :: p in ps ==> !Significant(p)
  {
    if ps != [] {
      SignificantPlantsEmpty(ps[1..]);
      assert ps == [ps[0]] + ps[1..];
    }
  }

  /** The pass leaves nothing exactly when it starts from nothing and no
      entry is significant. */
  lemma {:induction false} AddTypesEmpty(style: PictureStyle, cards: seq<Card>, ts: seq<PollenEntry>)
    ensures AddTypes(style, cards, ts) == [] <==> cards == [] && forall t :: t in ts ==> !Significant(t)
    decreases |ts|
  {
    if ts != [] {
      AddTypesEmpty(style, AddType(style, cards, ts[0]), ts[1..]);
      assert ts == [ts[0]] + ts[1..];
    }
  }

  /** The pollen-type pass keeps the list it starts from as a prefix. */
  lemma {:induction false} AddTypesPrefix(style: PictureStyle, cards: seq<Card>, ts: seq<PollenEntry>)
    ensures |cards| <= |AddTypes(style, cards, ts)|
    ensures AddTypes(style, cards, ts)[..|cards|] == cards
    decreases |ts|
  {
    if ts != [] {
      var next := AddType(style, cards, ts[0]);
      AddTypesPrefix(style, next, ts[1..]);
      assert AddTypes(style, cards, ts)[..|cards|] == next[..|cards|];
    }
  }

  /** It appends only significant entries of `ts`, with the style's picture. */
  lemma {:induction false} AddTypesAppends(style: PictureStyle, cards: seq<Card>, ts: seq<PollenEntry>)
    ensures forall i :: |cards| <= i < |AddTypes(style, cards, ts)| ==>
      var c := AddTypes(style, cards, ts)[i];
      c.entry in ts && Significant(c.entry) && c.picture == Some(PictureFor(style, c.entry))
    decreases |ts|
  {
    if ts != [] {
      var next := AddType(style, cards, ts[0]);
      AddTypesAppends(style, next, ts[1..]);
      AddTypesPrefix(style, next, ts[1..]);
      var r := AddTypes(style, cards, ts);
      forall i | |cards| <= i < |r|
        ensures r[i].entry in ts && Significant(r[i].entry) && r[i].picture == Some(PictureFor(style, r[i].entry))
      {
        if i < |next| {
          assert r[i] == next[i];
        } else {
          assert r[i].entry in ts[1..];
        }
      }
    }
  }

  /** Each appended card's code is on no earlier card. */
  lemma {:induction false} AddTypesNewCodes(style: PictureStyle, cards: seq<Card>, ts: seq<PollenEntry>)
    ensures forall i :: |cards| <= i < |AddTypes(style, cards, ts)| ==>
      !HasCode(AddTypes(style, cards, ts)[..i], AddTypes(style, cards, ts)[i].entry.code)
    decreases |ts|
  {
    if ts != [] {
      var next := AddType(style, cards, ts[0]);
      AddTypesNewCodes(style, next, ts[1..]);
      AddTypesPrefix(style, next, ts[1..]);
      var r := AddTypes(style, cards, ts);
      forall i | |cards| <= i < |next| ensures !HasCode(r[..i], r[i].entry.code) {
        assert r[..i] == cards && r[i] == next[i];
      }
    }
  }

  /** Every significant entry of `ts` ends up with its code on some card. */
  lemma {:induction false} AddTypesComplete(style: PictureStyle, cards: seq<Card>, ts: seq<PollenEntry>)
    ensures forall t :: t in ts && Significant(t) ==> HasCode(AddTypes(style, cards, ts), t.code)
    decreases |ts|
  {
    if ts != [] {
      var next := AddType(style, cards, ts[0]);
      AddTypesComplete(style, next, ts[1..]);
      AddTypesPrefix(style, next, ts[1..]);
      var r := AddTypes(style, cards, ts);
      if Significant(ts[0]) {
        var c :| c in next && c.entry.code == ts[0].code;
        var k :| 0 <= k < |next| && next[k] == c;
        assert r[k] == c;
      }
    }
  }

  /** No pollen-type card repeats a code already on a card, so a list
      without repeated codes stays so. */
  lemma AddTypesKeepsCodesUnique(style: PictureStyle, cards: seq<Card>, ts: seq<PollenEntry>)
    requires forall i, j :: 0 <= i < j < |cards| ==> cards[i].entry.code != cards[j].entry.code
    ensures var r := AddTypes(style, cards, ts);
      forall i, j :: 0 <= i < j < |r| ==> r[i].entry.code != r[j].entry.code
  {
    var r := AddTypes(style, cards, ts);
    AddTypesPrefix(style, cards, ts);
    AddTypesNewCodes(style, cards, ts);
    forall i, j | 0 <= i < j < |r| ensures r[i].entry.code != r[j].entry.code {
      if j >= |cards| {
        assert r[i] in r[..j];
      } else {
        assert r[i] == cards[i] && r[j] == cards[j];
      }
    }
  }

  /** The cards shown, when there are any: the significant plants first and
      in order, then pollen types whose code is new. "No pollen data" comes
      exactly when the first day or its plantInfo is missing, or when no
      plant and no pollen type has an index above 1. */
  lemma DisplayShape(style: PictureStyle, data: PollenData)
    ensures Display(style, data).Failure? <==>
      || FirstDay(data).None?
      || FirstDay(data).value.plantInfo.None?
      || ((forall p :: p in FirstDay(data).value.plantInfo.value ==> !Significant(p))
          && (forall t :: t in OrEmpty(FirstDay(data).value.pollenTypeInfo) ==> !Significant(t)))
    ensures Display(style, data).Failure? ==> Display(style, data).error == NoPollenData
    ensures Display(style, data).Success? ==>
      var plants := SignificantPlants(FirstDay(data).value.plantInfo.value);
      |plants| <= |Display(style, data).value| && Display(style, data).value[..|plants|] == plants
  {
    var first := FirstDay(data);
    if first.Some? && first.value.plantInfo.Some? {
      var plants := first.value.plantInfo.value;
      var ts := OrEmpty(first.value.pollenTypeInfo);
      var kept := SignificantPlants(plants);
      SignificantPlantsEmpty(plants);
      AddTypesPrefix(style, kept, ts);
      AddTypesEmpty(style, kept, ts);
    }
  }

  /** The duplicate check looks only at cards already kept: a plant with
      index 1 is dropped, and a pollen type with the same code and index 3
      is then appended in its place. */
  lemma DroppedPlantCodeReappears()
    ensures var grassPlant := PollenEntry("GRASS", "Grass", Some(IndexInfo(Some(1), "Very Low")));
      var grassType := PollenEntry("GRASS", "Grass", Some(IndexInfo(Some(3), "Moderate")));
      var data := PollenData(Some([DayInfo(Some([grassPlant]), Some([grassType]))]));
      Display(StockImage, data) == Success([Card(grassType, Some("2022_06_allergies.jpg"))])
  {
    var grassType := PollenEntry("GRASS", "Grass", Some(IndexInfo(Some(3), "Moderate")));
    assert !HasCode([], "GRASS");
    assert AddType(StockImage, [], grassType) == [Card(grassType, Some("2022_06_allergies.jpg"))];
  }
}
