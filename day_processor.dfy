/** `processDetailedPollenData`: folds one day's `plantInfo` and then its
    `pollenTypeInfo` into the `types` table, keeping a running maximum.
    `types` is a JavaScript object, so its values come out in insertion order;
    it is modelled as a sequence of readings with pairwise distinct codes,
    where overwriting a code keeps its position. */
module DayProcessor {
  import opened Wrappers
  import opened Strings
  import opened Payload
  import opened PollenTypes
  import Location

  /** One entry of `types`. */
  datatype TypeReading = TypeReading(
    code: string, name: string, shortName: Localized, value: int,
    category: string, color: string, typeCategory: TypeCategory)

  /** The running maximum: `maxLevel` and `maxCategory`. */
  datatype Peak = Peak(level: int, category: string)

  /** `processed`. */
  datatype Processed = Processed(types: seq<TypeReading>, maxLevel: int, maxCategory: string, totalTypes: nat, summary: string)

  const VeryLow := "Very Low"
  const InitialPeak := Peak(0, VeryLow)

  /** The result returned when there is no `dailyInfo[0]`. */
  const EmptyProcessed := Processed([], 0, VeryLow, 0, "")

  // ---------------------------------------------------------------------
  // Admission of one entry
  // ---------------------------------------------------------------------

  /** `category || 'Very Low'`. */
  function OrVeryLow(category: string): string {
    if category == "" then VeryLow else category
  }

  /** Whether an entry is taken, and with which value and category.
      Storage-backed: `indexInfo` present and `value >= 0 || value === undefined`,
      a missing value read as 0 and a missing category as 'Very Low'.
      In-memory: `indexInfo` present and `value > 0`, fields taken as they are. */
  function Admit(v: Variant, e: PollenEntry): Option<(int, string)> {
    match e.indexInfo
    case None => None
    case Some(info) =>
      match v
      case Forecast =>
        (match info.value
         case None => Some((0, OrVeryLow(info.category)))
         case Some(n) => if n >= 0 then Some((n, OrVeryLow(info.category))) else None)
      case InMemory =>
        (match info.value
         case None => None
         case Some(n) => if n > 0 then Some((n, info.category)) else None)
  }

  /** The `types` entry an admitted entry produces. */
  function AsReading(v: Variant, e: PollenEntry): Option<TypeReading> {
    match Admit(v, e)
    case None => None
    case Some((n, category)) =>
      var config := GetPollenTypeConfig(v, e.code, e.displayName);
      Some(TypeReading(e.code, e.displayName, config.shortName, n, category, config.color, config.category))
  }

  /** The readings of the admitted entries of a list, in order. */
  function Readings(v: Variant, es: seq<PollenEntry>): seq<TypeReading> {
    if es == [] then []
    else match AsReading(v, es[0])
      case Some(r) => [r] + Readings(v, es[1..])
      case None => Readings(v, es[1..])
  }

  // ---------------------------------------------------------------------
  // The `types` table
  // ---------------------------------------------------------------------

  function Codes(ts: seq<TypeReading>): set<string> {
    if ts == [] then {} else {ts[0].code} + Codes(ts[1..])
  }

  predicate UniqueCodes(ts: seq<TypeReading>) {
    ts == [] || (ts[0].code !in Codes(ts[1..]) && UniqueCodes(ts[1..]))
  }

  /** `types[code]`: the first reading with that code. */
  function Find(ts: seq<TypeReading>, code: string): Option<TypeReading> {
    if ts == [] then None
    else if ts[0].code == code then Some(ts[0])
    else Find(ts[1..], code)
  }

  /** `types[r.code] = r`: overwrite in place, or append a new key. */
  function Upsert(ts: seq<TypeReading>, r: TypeReading): seq<TypeReading> {
    if ts == [] then [r]
    else if ts[0].code == r.code then [r] + ts[1..]
    else [ts[0]] + Upsert(ts[1..], r)
  }

  /** The last reading with a given code: the one a later assignment leaves. */
  function LastFor(rs: seq<TypeReading>, code: string): Option<TypeReading> {
    if rs == [] then None
    else
      var later := LastFor(rs[1..], code);
      if later.Some? then later
      else if rs[0].code == code then Some(rs[0])
      else None
  }

  /** The readings whose code is neither in `known` nor taken by an earlier
      reading: what `if (!result.types[code])` lets through. */
  function Fresh(rs: seq<TypeReading>, known: set<string>): seq<TypeReading> {
    if rs == [] then []
    else if rs[0].code in known then Fresh(rs[1..], known)
    else [rs[0]] + Fresh(rs[1..], known + {rs[0].code})
  }

  // ---------------------------------------------------------------------
  // The two passes
  // ---------------------------------------------------------------------

  /** `if (value > result.maxLevel) { maxLevel = value; maxCategory = category }`. */
  function Raise(p: Peak, r: TypeReading): Peak {
    if r.value > p.level then Peak(r.value, r.category) else p
  }

  function RunningPeak(p: Peak, rs: seq<TypeReading>): Peak
    decreases |rs|
  {
    if rs == [] then p else RunningPeak(Raise(p, rs[0]), rs[1..])
  }

  datatype Acc = Acc(types: seq<TypeReading>, peak: Peak)

  const Start := Acc([], InitialPeak)

  /** One `plantInfo` entry: admitted entries always overwrite. */
  function PlantStep(v: Variant, a: Acc, e: PollenEntry): Acc {
    match AsReading(v, e)
    case None => a
    case Some(r) => Acc(Upsert(a.types, r), Raise(a.peak, r))
  }

  /** One `pollenTypeInfo` entry: admitted entries only fill gaps. */
  function PollenTypeStep(v: Variant, a: Acc, e: PollenEntry): Acc {
    match AsReading(v, e)
    case None => a
    case Some(r) => if r.code in Codes(a.types) then a else Acc(a.types + [r], Raise(a.peak, r))
  }

  function FoldPlants(v: Variant, a: Acc, es: seq<PollenEntry>): Acc
    decreases |es|
  {
    if es == [] then a else FoldPlants(v, PlantStep(v, a, es[0]), es[1..])
  }

  function FoldPollenTypes(v: Variant, a: Acc, es: seq<PollenEntry>): Acc
    decreases |es|
  {
    if es == [] then a else FoldPollenTypes(v, PollenTypeStep(v, a, es[0]), es[1..])
  }

  /** `${n} ${n === 1 ? 'type' : 'types'}`. */
  function Summary(n: nat): string {
    Location.Digits(n) + " " + (if n == 1 then "type" else "types")
  }

  function Finish(a: Acc): Processed {
    Processed(a.types, a.peak.level, a.peak.category, |a.types|, Summary(|a.types|))
  }

  /** What `processDetailedPollenData` computes, as a function of its input. */
  function ProcessDay(v: Variant, data: PollenData): Processed {
    match FirstDay(data)
    case None => EmptyProcessed
    case Some(day) =>
      Finish(FoldPollenTypes(v, FoldPlants(v, Start, OrEmpty(day.plantInfo)), OrEmpty(day.pollenTypeInfo)))
  }

  /** `processDetailedPollenData(pollenData)`, with its two `forEach` loops. */
  method ProcessDetailedPollenData(v: Variant, data: PollenData) returns (r: Processed)
    ensures r == ProcessDay(v, data)
  {
    var first := FirstDay(data);
    if first.None? {
      return EmptyProcessed;
    }
    var day := first.value;
    var types: seq<TypeReading> := [];
    var maxLevel, maxCategory := 0, VeryLow;
    var plants := OrEmpty(day.plantInfo);
    for i := 0 to |plants|
      invariant FoldPlants(v, Acc(types, Peak(maxLevel, maxCategory)), plants[i..]) == FoldPlants(v, Start, plants)
    {
      ghost var before := Acc(types, Peak(maxLevel, maxCategory));
      assert FoldPlants(v, before, plants[i..]) == FoldPlants(v, PlantStep(v, before, plants[i]), plants[i + 1..]) by {
        assert plants[i..][1..] == plants[i + 1..];
      }
      var reading := AsReading(v, plants[i]);
      if reading.Some? {
        var t := reading.value;
        types := Upsert(types, t);
        if t.value > maxLevel {
          maxLevel, maxCategory := t.value, t.category;
        }
      }
      assert Acc(types, Peak(maxLevel, maxCategory)) == PlantStep(v, before, plants[i]);
    }
    ghost var afterPlants := Acc(types, Peak(maxLevel, maxCategory));
    var pollenTypes := OrEmpty(day.pollenTypeInfo);
    for i := 0 to |pollenTypes|
      invariant FoldPollenTypes(v, Acc(types, Peak(maxLevel, maxCategory)), pollenTypes[i..])
             == FoldPollenTypes(v, afterPlants, pollenTypes)
    {
      ghost var before := Acc(types, Peak(maxLevel, maxCategory));
      assert FoldPollenTypes(v, before, pollenTypes[i..])
          == FoldPollenTypes(v, PollenTypeStep(v, before, pollenTypes[i]), pollenTypes[i + 1..]) by {
        assert pollenTypes[i..][1..] == pollenTypes[i + 1..];
      }
      var reading := AsReading(v, pollenTypes[i]);
      if reading.Some? && reading.value.code !in Codes(types) {
        var t := reading.value;
        types := types + [t];
        if t.value > maxLevel {
          maxLevel, maxCategory := t.value, t.category;
        }
      }
      assert Acc(types, Peak(maxLevel, maxCategory)) == PollenTypeStep(v, before, pollenTypes[i]);
    }
    var total := |types|;
    r := Processed(types, maxLevel, maxCategory, total, Summary(total));
  }

  // ---------------------------------------------------------------------
  // Facts about the table operations
  // ---------------------------------------------------------------------

  lemma {:induction false} CodesMembership(ts: seq<TypeReading>, c: string)
    ensures c in Codes(ts) <==> Find(ts, c).Some?
    ensures Find(ts, c).Some? ==> Find(ts, c).value.code == c && Find(ts, c).value in ts
  {
    if ts != [] { CodesMembership(ts[1..], c); }
  }

  lemma {:induction false} CodesConcat(a: seq<TypeReading>, b: seq<TypeReading>)
    ensures Codes(a + b) == Codes(a) + Codes(b)
  {
    if a == [] {
      assert a + b == b;
    } else {
      assert (a + b)[1..] == a[1..] + b;
      CodesConcat(a[1..], b);
    }
  }

  lemma {:induction false} FindConcat(a: seq<TypeReading>, b: seq<TypeReading>, c: string)
    ensures Find(a + b, c) == if Find(a, c).Some? then Find(a, c) else Find(b, c)
  {
    if a == [] {
      assert a + b == b;
    } else {
      assert (a + b)[1..] == a[1..] + b;
      FindConcat(a[1..], b, c);
    }
  }

  lemma {:induction false} UniqueConcat(a: seq<TypeReading>, b: seq<TypeReading>)
    requires UniqueCodes(a) && UniqueCodes(b) && Codes(a) !! Codes(b)
    ensures UniqueCodes(a + b)
  {
    if a == [] {
      assert a + b == b;
    } else {
      assert (a + b)[1..] == a[1..] + b;
      CodesConcat(a[1..], b);
      UniqueConcat(a[1..], b);
    }
  }

  lemma {:induction false} UniqueCodesCount(ts: seq<TypeReading>)
    requires UniqueCodes(ts)
    ensures |Codes(ts)| == |ts|
  {
    if ts != [] { UniqueCodesCount(ts[1..]); }
  }

  lemma {:induction false} UpsertFacts(ts: seq<TypeReading>, r: TypeReading)
    ensures Codes(Upsert(ts, r)) == Codes(ts) + {r.code}
    ensures forall c :: Find(Upsert(ts, r), c) == if c == r.code then Some(r) else Find(ts, c)
    ensures UniqueCodes(ts) ==> UniqueCodes(Upsert(ts, r))
    ensures r.code !in Codes(ts) ==> Upsert(ts, r) == ts + [r]
    ensures forall t :: t in Upsert(ts, r) ==> t in ts || t == r
  {
    if ts != [] {
      UpsertFacts(ts[1..], r);
      if ts[0].code == r.code {
        assert ([r] + ts[1..])[1..] == ts[1..];
      } else {
        assert ([ts[0]] + Upsert(ts[1..], r))[1..] == Upsert(ts[1..], r);
        assert [ts[0]] + (ts[1..] + [r]) == ts + [r];
      }
    }
  }

  /** A reading with a new code is appended. */
  lemma UpsertNew(ts: seq<TypeReading>, r: TypeReading)
    requires r.code !in Codes(ts)
    ensures Upsert(ts, r) == ts + [r]
  {
    UpsertFacts(ts, r);
  }

  lemma {:induction false} FreshFacts(rs: seq<TypeReading>, known: set<string>)
    ensures Codes(Fresh(rs, known)) == Codes(rs) - known
    ensures UniqueCodes(Fresh(rs, known))
    ensures forall c :: c !in known ==> Find(Fresh(rs, known), c) == Find(rs, c)
    ensures forall t :: t in Fresh(rs, known) ==> t in rs
  {
    if rs != [] {
      if rs[0].code in known {
        FreshFacts(rs[1..], known);
      } else {
        var rest := Fresh(rs[1..], known + {rs[0].code});
        FreshFacts(rs[1..], known + {rs[0].code});
        assert ([rs[0]] + rest)[1..] == rest;
      }
    }
  }

  lemma {:induction false} LastForFacts(rs: seq<TypeReading>, c: string)
    ensures LastFor(rs, c).Some? <==> c in Codes(rs)
    ensures LastFor(rs, c).Some? ==> LastFor(rs, c).value in rs
  {
    if rs != [] { LastForFacts(rs[1..], c); }
  }

  lemma {:induction false} RunningPeakConcat(p: Peak, a: seq<TypeReading>, b: seq<TypeReading>)
    ensures RunningPeak(p, a + b) == RunningPeak(RunningPeak(p, a), b)
    decreases |a|
  {
    if a == [] {
      assert a + b == b;
    } else {
      assert (a + b)[1..] == a[1..] + b;
      RunningPeakConcat(Raise(p, a[0]), a[1..], b);
    }
  }

  // ---------------------------------------------------------------------
  // The passes, one at a time
  // ---------------------------------------------------------------------

  lemma {:induction false} PlantPass(v: Variant, a: Acc, es: seq<PollenEntry>)
    ensures var b := FoldPlants(v, a, es);
      && Codes(b.types) == Codes(a.types) + Codes(Readings(v, es))
      && (forall c :: Find(b.types, c) == if LastFor(Readings(v, es), c).Some? then LastFor(Readings(v, es), c) else Find(a.types, c))
      && (UniqueCodes(a.types) ==> UniqueCodes(b.types))
      && (forall t :: t in b.types ==> t in a.types || t in Readings(v, es))
      && b.peak == RunningPeak(a.peak, Readings(v, es))
    decreases |es|
  {
    if es != [] {
      var a' := PlantStep(v, a, es[0]);
      PlantPass(v, a', es[1..]);
      match AsReading(v, es[0])
      case None =>
      case Some(r) =>
        UpsertFacts(a.types, r);
        assert Readings(v, es) == [r] + Readings(v, es[1..]);
        assert ([r] + Readings(v, es[1..]))[1..] == Readings(v, es[1..]);
    }
  }

  /** The plant pass seen on the admitted readings only. */
  function UpsertAll(a: Acc, rs: seq<TypeReading>): Acc
    decreases |rs|
  {
    if rs == [] then a else UpsertAll(Acc(Upsert(a.types, rs[0]), Raise(a.peak, rs[0])), rs[1..])
  }

  lemma {:induction false} FoldPlantsReadings(v: Variant, a: Acc, es: seq<PollenEntry>)
    ensures FoldPlants(v, a, es) == UpsertAll(a, Readings(v, es))
    decreases |es|
  {
    if es != [] {
      var head := AsReading(v, es[0]);
      var rest := Readings(v, es[1..]);
      FoldPlantsReadings(v, PlantStep(v, a, es[0]), es[1..]);
      if head.Some? {
        var r := head.value;
        assert Readings(v, es) == [r] + rest;
        assert ([r] + rest)[1..] == rest;
      }
    }
  }

  lemma {:induction false} UpsertAllDistinct(a: Acc, rs: seq<TypeReading>)
    requires UniqueCodes(rs) && Codes(a.types) !! Codes(rs)
    ensures UpsertAll(a, rs).types == a.types + rs
    decreases |rs|
  {
    if rs == [] {
      assert a.types + [] == a.types;
    } else {
      var r := rs[0];
      UpsertNew(a.types, r);
      CodesConcat(a.types, [r]);
      UpsertAllDistinct(Acc(a.types + [r], Raise(a.peak, r)), rs[1..]);
      assert a.types + [r] + rs[1..] == a.types + rs;
    }
  }

  lemma PlantPassDistinct(v: Variant, a: Acc, es: seq<PollenEntry>)
    requires UniqueCodes(Readings(v, es)) && Codes(a.types) !! Codes(Readings(v, es))
    ensures FoldPlants(v, a, es).types == a.types + Readings(v, es)
  {
    FoldPlantsReadings(v, a, es);
    UpsertAllDistinct(a, Readings(v, es));
  }

  /** The pollen-type pass seen on the admitted readings only. */
  function FillAll(a: Acc, rs: seq<TypeReading>): Acc
    decreases |rs|
  {
    if rs == [] then a
    else if rs[0].code in Codes(a.types) then FillAll(a, rs[1..])
    else FillAll(Acc(a.types + [rs[0]], Raise(a.peak, rs[0])), rs[1..])
  }

  lemma {:induction false} FoldPollenTypesReadings(v: Variant, a: Acc, es: seq<PollenEntry>)
    ensures FoldPollenTypes(v, a, es) == FillAll(a, Readings(v, es))
    decreases |es|
  {
    if es != [] {
      var head := AsReading(v, es[0]);
      var rest := Readings(v, es[1..]);
      FoldPollenTypesReadings(v, PollenTypeStep(v, a, es[0]), es[1..]);
      if head.Some? {
        var r := head.value;
        assert Readings(v, es) == [r] + rest;
        assert ([r] + rest)[1..] == rest;
      }
    }
  }

  lemma {:induction false} FillAllFresh(a: Acc, rs: seq<TypeReading>)
    ensures FillAll(a, rs) == Acc(a.types + Fresh(rs, Codes(a.types)), RunningPeak(a.peak, Fresh(rs, Codes(a.types))))
    decreases |rs|
  {
    if rs == [] {
      assert a.types + [] == a.types;
    } else {
      var r := rs[0];
      if r.code in Codes(a.types) {
        FillAllFresh(a, rs[1..]);
      } else {
        var a' := Acc(a.types + [r], Raise(a.peak, r));
        CodesConcat(a.types, [r]);
        assert Codes([r]) == {r.code};
        FillAllFresh(a', rs[1..]);
        var f := Fresh(rs[1..], Codes(a.types) + {r.code});
        assert a.types + [r] + f == a.types + ([r] + f);
        assert ([r] + f)[1..] == f;
      }
    }
  }

  lemma PollenTypePass(v: Variant, a: Acc, es: seq<PollenEntry>)
    ensures FoldPollenTypes(v, a, es)
         == Acc(a.types + Fresh(Readings(v, es), Codes(a.types)),
                RunningPeak(a.peak, Fresh(Readings(v, es), Codes(a.types))))
  {
    FoldPollenTypesReadings(v, a, es);
    FillAllFresh(a, Readings(v, es));
  }

  // ---------------------------------------------------------------------
  // What a processed day holds
  // ---------------------------------------------------------------------

  /** The admitted readings of the day's two lists. */
  function PlantReadings(v: Variant, day: DayInfo): seq<TypeReading> {
    Readings(v, OrEmpty(day.plantInfo))
  }

  function PollenTypeReadings(v: Variant, day: DayInfo): seq<TypeReading> {
    Readings(v, OrEmpty(day.pollenTypeInfo))
  }

  /** Every reading the running maximum looks at, in order: all admitted
      plants (including ones a later plant with the same code overwrites),
      then the pollen types that filled a gap. */
  function Contributions(v: Variant, day: DayInfo): seq<TypeReading> {
    var plants := PlantReadings(v, day);
    plants + Fresh(PollenTypeReadings(v, day), Codes(plants))
  }

  lemma {:induction false} ProcessDayShape(v: Variant, day: DayInfo, data: PollenData)
    requires FirstDay(data) == Some(day)
    ensures var a := FoldPlants(v, Start, OrEmpty(day.plantInfo));
      && Codes(a.types) == Codes(PlantReadings(v, day))
      && UniqueCodes(a.types)
      && ProcessDay(v, data).types == a.types + Fresh(PollenTypeReadings(v, day), Codes(a.types))
      && ProcessDay(v, data).maxLevel == RunningPeak(InitialPeak, Contributions(v, day)).level
      && ProcessDay(v, data).maxCategory == RunningPeak(InitialPeak, Contributions(v, day)).category
  {
    var a := FoldPlants(v, Start, OrEmpty(day.plantInfo));
    PlantPass(v, Start, OrEmpty(day.plantInfo));
    PollenTypePass(v, a, OrEmpty(day.pollenTypeInfo));
    RunningPeakConcat(InitialPeak, PlantReadings(v, day), Fresh(PollenTypeReadings(v, day), Codes(a.types)));
  }

  /** Precedence: a code that some admitted `plantInfo` entry carries holds
      the last such plant's reading, whatever `pollenTypeInfo` says; any other
      code holds the first admitted `pollenTypeInfo` reading for it. */
  lemma PlantInfoTakesPrecedence(v: Variant, data: PollenData, day: DayInfo, code: string)
    requires FirstDay(data) == Some(day)
    ensures Find(ProcessDay(v, data).types, code)
         == if LastFor(PlantReadings(v, day), code).Some? then LastFor(PlantReadings(v, day), code)
            else Find(PollenTypeReadings(v, day), code)
  {
    var a := FoldPlants(v, Start, OrEmpty(day.plantInfo));
    var f := Fresh(PollenTypeReadings(v, day), Codes(a.types));
    ProcessDayShape(v, day, data);
    PlantPass(v, Start, OrEmpty(day.plantInfo));
    FindConcat(a.types, f, code);
    CodesMembership(a.types, code);
    LastForFacts(PlantReadings(v, day), code);
    FreshFacts(PollenTypeReadings(v, day), Codes(a.types));
  }

  /** `types` has one entry per code; `totalTypes` is its number of keys, and
      the keys are exactly the codes of the admitted entries. */
  lemma TotalTypesCountsKeys(v: Variant, data: PollenData)
    ensures UniqueCodes(ProcessDay(v, data).types)
    ensures ProcessDay(v, data).totalTypes == |Codes(ProcessDay(v, data).types)|
    ensures ProcessDay(v, data).summary == if FirstDay(data).None? then "" else Summary(ProcessDay(v, data).totalTypes)
    ensures FirstDay(data).Some? ==>
      Codes(ProcessDay(v, data).types) == Codes(PlantReadings(v, FirstDay(data).value)) + Codes(PollenTypeReadings(v, FirstDay(data).value))
  {
    if FirstDay(data).Some? {
      ProcessedCodes(v, data, FirstDay(data).value);
    }
    UniqueCodesCount(ProcessDay(v, data).types);
  }

  lemma ProcessedCodes(v: Variant, data: PollenData, day: DayInfo)
    requires FirstDay(data) == Some(day)
    ensures UniqueCodes(ProcessDay(v, data).types)
    ensures Codes(ProcessDay(v, data).types) == Codes(PlantReadings(v, day)) + Codes(PollenTypeReadings(v, day))
  {
    var a := FoldPlants(v, Start, OrEmpty(day.plantInfo));
    var f := Fresh(PollenTypeReadings(v, day), Codes(a.types));
    ProcessDayShape(v, day, data);
    FreshFacts(PollenTypeReadings(v, day), Codes(a.types));
    UniqueConcat(a.types, f);
    CodesConcat(a.types, f);
  }

  /** The running maximum starting from `p`: it bounds every reading, and
      unless it stayed at `p` it is the level and category of the first
      reading that reaches it (later equal values do not replace it). */
  lemma {:induction false} RunningPeakIsFirstMaximum(p: Peak, rs: seq<TypeReading>)
    ensures var q := RunningPeak(p, rs);
      && q.level >= p.level
      && (forall i :: 0 <= i < |rs| ==> rs[i].value <= q.level)
      && (q.level == p.level ==> q == p)
      && (q.level > p.level ==> exists i :: 0 <= i < |rs| && rs[i].value == q.level && rs[i].category == q.category
                                           && forall j :: 0 <= j < i ==> rs[j].value < q.level)
    decreases |rs|
  {
    if rs != [] {
      var p' := Raise(p, rs[0]);
      var q := RunningPeak(p, rs);
      RunningPeakIsFirstMaximum(p', rs[1..]);
      assert forall i :: 1 <= i < |rs| ==> rs[i] == rs[1..][i - 1];
      if q.level > p'.level {
        var k :| 0 <= k < |rs[1..]| && rs[1..][k].value == q.level && rs[1..][k].category == q.category
                 && forall j :: 0 <= j < k ==> rs[1..][j].value < q.level;
        assert rs[k + 1] == rs[1..][k];
        assert forall j :: 0 <= j < k + 1 ==> rs[j].value < q.level by {
          forall j | 0 <= j < k + 1 ensures rs[j].value < q.level {
            if j > 0 { assert rs[j] == rs[1..][j - 1]; }
          }
        }
      } else if q.level > p.level {
        assert rs[0].value == q.level && rs[0].category == q.category;
      }
    }
  }

  /** `maxLevel` and `maxCategory` start at 0 and 'Very Low' and move only on
      a strictly greater value: `maxLevel` bounds every contributing reading,
      an all-zero (or empty) day keeps 'Very Low', and otherwise the category
      is that of the first contributing reading that reaches the maximum. */
  lemma MaxLevelIsFirstMaximum(v: Variant, data: PollenData, day: DayInfo)
    requires FirstDay(data) == Some(day)
    ensures var r := ProcessDay(v, data);
      var cs := Contributions(v, day);
      && r.maxLevel >= 0
      && (forall i :: 0 <= i < |cs| ==> cs[i].value <= r.maxLevel)
      && (r.maxLevel == 0 ==> r.maxCategory == VeryLow)
      && (r.maxLevel > 0 ==> exists i :: 0 <= i < |cs| && cs[i].value == r.maxLevel && cs[i].category == r.maxCategory
                                       && forall j :: 0 <= j < i ==> cs[j].value < r.maxLevel)
  {
    ProcessDayShape(v, day, data);
    RunningPeakIsFirstMaximum(InitialPeak, Contributions(v, day));
  }

  /** When the admitted plants carry distinct codes, `types` holds exactly the
      contributing readings, so `maxLevel` is the largest stored value. */
  lemma TypesAreContributionsForDistinctPlants(v: Variant, data: PollenData, day: DayInfo)
    requires FirstDay(data) == Some(day)
    requires UniqueCodes(PlantReadings(v, day))
    ensures ProcessDay(v, data).types == Contributions(v, day)
    ensures var r := ProcessDay(v, data);
      && (forall t :: t in r.types ==> t.value <= r.maxLevel)
      && (r.maxLevel > 0 ==> exists t :: t in r.types && t.value == r.maxLevel && t.category == r.maxCategory)
  {
    ProcessDayShape(v, day, data);
    PlantPassDistinct(v, Start, OrEmpty(day.plantInfo));
    assert Start.types + PlantReadings(v, day) == PlantReadings(v, day);
    MaxLevelIsFirstMaximum(v, data, day);
  }

  /** With a repeated plant code the later reading replaces the earlier one in
      `types`, but the running maximum has already seen the earlier value. */
  lemma RepeatedPlantCodeKeepsOverwrittenMaximum()
    ensures var e1 := PollenEntry("GRASS", "Grass", Some(IndexInfo(Some(4), "High")));
      var e2 := PollenEntry("GRASS", "Grass", Some(IndexInfo(Some(1), "Low")));
      var data := PollenData(Some([DayInfo(Some([e1, e2]), None)]));
      var r := ProcessDay(Forecast, data);
      && r.maxLevel == 4 && r.maxCategory == "High"
      && |r.types| == 1 && r.types[0].value == 1
  {
    var e1 := PollenEntry("GRASS", "Grass", Some(IndexInfo(Some(4), "High")));
    var e2 := PollenEntry("GRASS", "Grass", Some(IndexInfo(Some(1), "Low")));
    var es := [e1, e2];
    assert es[1..] == [e2] && [e2][1..] == [];
    var r1 := AsReading(Forecast, e1).value;
    var r2 := AsReading(Forecast, e2).value;
    assert r1.value == 4 && r2.value == 1 && r1.code == r2.code;
    var a1 := PlantStep(Forecast, Start, e1);
    assert a1 == Acc([r1], Peak(4, "High"));
    var a2 := PlantStep(Forecast, a1, e2);
    assert a2 == Acc([r2], Peak(4, "High"));
    assert FoldPlants(Forecast, a1, [e2]) == FoldPlants(Forecast, a2, []) == a2;
    assert FoldPlants(Forecast, Start, es) == a2;
    assert FoldPollenTypes(Forecast, a2, []) == a2;
  }

  lemma {:induction false} ReadingsComeFromEntries(v: Variant, es: seq<PollenEntry>)
    ensures forall t :: t in Readings(v, es) ==> exists i :: 0 <= i < |es| && AsReading(v, es[i]) == Some(t)
  {
    if es != [] {
      ReadingsComeFromEntries(v, es[1..]);
      forall t | t in Readings(v, es) ensures exists i :: 0 <= i < |es| && AsReading(v, es[i]) == Some(t) {
        if AsReading(v, es[0]) != Some(t) {
          var i :| 0 <= i < |es[1..]| && AsReading(v, es[1..][i]) == Some(t);
          assert es[i + 1] == es[1..][i];
        }
      }
    }
  }

  lemma StoredReadingsAreReadings(v: Variant, data: PollenData, day: DayInfo)
    requires FirstDay(data) == Some(day)
    ensures forall t :: t in ProcessDay(v, data).types ==> t in PlantReadings(v, day) || t in PollenTypeReadings(v, day)
  {
    var a := FoldPlants(v, Start, OrEmpty(day.plantInfo));
    ProcessDayShape(v, day, data);
    PlantPass(v, Start, OrEmpty(day.plantInfo));
    FreshFacts(PollenTypeReadings(v, day), Codes(a.types));
  }

  /** The admission test of each variant, stated on the entry: storage-backed
      `indexInfo && (value >= 0 || value === undefined)`, in-memory
      `indexInfo && value > 0`. */
  predicate Admissible(v: Variant, e: PollenEntry) {
    && e.indexInfo.Some?
    && match v
       case Forecast => e.indexInfo.value.value.None? || e.indexInfo.value.value.value >= 0
       case InMemory => e.indexInfo.value.value.Some? && e.indexInfo.value.value.value > 0
  }

  /** `t` is the `types` entry written for `e`: its code and name, its value
      (a missing one as 0) and its category (`|| 'Very Low'` when
      storage-backed), with the descriptor of its code. */
  predicate TakenFrom(v: Variant, e: PollenEntry, t: TypeReading) {
    && e.indexInfo.Some?
    && t.code == e.code && t.name == e.displayName
    && t.value == e.indexInfo.value.value.GetOr(0)
    && t.category == (if v == Forecast then OrVeryLow(e.indexInfo.value.category) else e.indexInfo.value.category)
    && t.shortName == GetPollenTypeConfig(v, e.code, e.displayName).shortName
    && t.typeCategory == GetPollenTypeConfig(v, e.code, e.displayName).category
  }

  /** The entries of a day: its plants, then its pollen types. */
  function DayEntries(day: DayInfo): seq<PollenEntry> {
    OrEmpty(day.plantInfo) + OrEmpty(day.pollenTypeInfo)
  }

  /** Whether the first day has an entry the variant admits. */
  ghost predicate HasAdmissible(v: Variant, data: PollenData) {
    match FirstDay(data)
    case None => false
    case Some(day) => exists e :: (e in OrEmpty(day.plantInfo) || e in OrEmpty(day.pollenTypeInfo)) && Admissible(v, e)
  }

  lemma AdmitMatches(v: Variant, e: PollenEntry)
    ensures AsReading(v, e).Some? <==> Admissible(v, e)
    ensures AsReading(v, e).Some? ==> TakenFrom(v, e, AsReading(v, e).value)
    ensures AsReading(v, e).Some? && v == Forecast ==> AsReading(v, e).value.value >= 0 && AsReading(v, e).value.category != ""
    ensures AsReading(v, e).Some? && v == InMemory ==> AsReading(v, e).value.value > 0
  {
  }

  lemma {:induction false} AdmittedCodeRead(v: Variant, es: seq<PollenEntry>, e: PollenEntry)
    requires e in es && AsReading(v, e).Some?
    ensures e.code in Codes(Readings(v, es))
    decreases |es|
  {
    if es[0] != e {
      AdmittedCodeRead(v, es[1..], e);
      if AsReading(v, es[0]).Some? {
        var r := AsReading(v, es[0]).value;
        assert ([r] + Readings(v, es[1..]))[1..] == Readings(v, es[1..]);
      }
    }
  }

  /** Every stored reading was written for an admissible entry of the day,
      with that entry's code, name, value and category; and every admissible
      entry's code is a key of `types`. The storage-backed manager stores
      values `>= 0` (a missing value as 0) with a non-empty category; the
      in-memory one only values `> 0`, so zero and missing values never
      reach its table. */
  lemma StoredReadingsAreAdmitted(v: Variant, data: PollenData, day: DayInfo)
    requires FirstDay(data) == Some(day)
    ensures forall t :: t in ProcessDay(v, data).types ==>
      exists e :: (e in OrEmpty(day.plantInfo) || e in OrEmpty(day.pollenTypeInfo)) && Admissible(v, e) && TakenFrom(v, e, t)
    ensures forall e :: (e in OrEmpty(day.plantInfo) || e in OrEmpty(day.pollenTypeInfo)) && Admissible(v, e) ==>
      e.code in Codes(ProcessDay(v, data).types)
    ensures forall t :: t in ProcessDay(v, data).types ==>
      && (v == Forecast ==> t.value >= 0 && t.category != "")
      && (v == InMemory ==> t.value > 0)
  {
    StoredReadingsAreReadings(v, data, day);
    ReadingsComeFromEntries(v, OrEmpty(day.plantInfo));
    ReadingsComeFromEntries(v, OrEmpty(day.pollenTypeInfo));
    forall t | t in ProcessDay(v, data).types
      ensures && (exists e :: (e in OrEmpty(day.plantInfo) || e in OrEmpty(day.pollenTypeInfo)) && Admissible(v, e) && TakenFrom(v, e, t))
              && (v == Forecast ==> t.value >= 0 && t.category != "")
              && (v == InMemory ==> t.value > 0)
    {
      var e;
      if t in PlantReadings(v, day) {
        var i :| 0 <= i < |OrEmpty(day.plantInfo)| && AsReading(v, OrEmpty(day.plantInfo)[i]) == Some(t);
        e := OrEmpty(day.plantInfo)[i];
      } else {
        var i :| 0 <= i < |OrEmpty(day.pollenTypeInfo)| && AsReading(v, OrEmpty(day.pollenTypeInfo)[i]) == Some(t);
        e := OrEmpty(day.pollenTypeInfo)[i];
      }
      AdmitMatches(v, e);
    }
    AdmissibleCodesStored(v, data, day);
  }

  lemma AdmissibleCodesStored(v: Variant, data: PollenData, day: DayInfo)
    requires FirstDay(data) == Some(day)
    ensures forall e :: (e in OrEmpty(day.plantInfo) || e in OrEmpty(day.pollenTypeInfo)) && Admissible(v, e) ==>
      e.code in Codes(ProcessDay(v, data).types)
  {
    ProcessedCodes(v, data, day);
    forall e | (e in OrEmpty(day.plantInfo) || e in OrEmpty(day.pollenTypeInfo)) && Admissible(v, e)
      ensures e.code in Codes(ProcessDay(v, data).types)
    {
      AdmitMatches(v, e);
      if e in OrEmpty(day.plantInfo) {
        AdmittedCodeRead(v, OrEmpty(day.plantInfo), e);
      } else {
        AdmittedCodeRead(v, OrEmpty(day.pollenTypeInfo), e);
      }
    }
  }

  /** `types` stays empty exactly when the first day is missing or none of
      its entries is admitted; the maximum is then still 0, 'Very Low'. */
  lemma TypesEmptyIffNothingAdmissible(v: Variant, data: PollenData)
    ensures ProcessDay(v, data).types == [] <==> !HasAdmissible(v, data)
    ensures ProcessDay(v, data).types == [] ==>
      ProcessDay(v, data).maxLevel == 0 && ProcessDay(v, data).maxCategory == VeryLow && ProcessDay(v, data).totalTypes == 0
  {
    if FirstDay(data).Some? {
      var day := FirstDay(data).value;
      var types := ProcessDay(v, data).types;
      StoredReadingsAreAdmitted(v, data, day);
      if types != [] {
        assert types[0] in types;
      }
      if types == [] {
        ProcessedCodes(v, data, day);
        ProcessDayShape(v, day, data);
        assert PlantReadings(v, day) == [];
        assert PollenTypeReadings(v, day) == [];
        assert Contributions(v, day) == [];
      }
    }
  }
}
