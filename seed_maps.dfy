/**
 * The almanac of `src/solutions/five.rs`: seven named stages, each a list of
 * ranges that remap a number (seed, soil, fertilizer, …, location), and the
 * line-driven parser that collects those ranges under their stage headers.
 */
module SeedMaps {
  import opened Wrappers
  import opened RustText

  const SEED_TO_SOIL: string := "seed-to-soil"
  const SOIL_TO_FERT: string := "soil-to-fertilizer"
  const FERT_TO_WATER: string := "fertilizer-to-water"
  const WATER_TO_LIGHT: string := "water-to-light"
  const LIGHT_TO_TEMP: string := "light-to-temperature"
  const TEMP_TO_HUMID: string := "temperature-to-humidity"
  const HUMID_TO_LOC: string := "humidity-to-location"

  /** The stages in the order a seed goes through them. */
  const MAP_ARR: seq<string> :=
    [SEED_TO_SOIL, SOIL_TO_FERT, FERT_TO_WATER, WATER_TO_LIGHT, LIGHT_TO_TEMP, TEMP_TO_HUMID, HUMID_TO_LOC]

  /** One line of a stage: `dest src range`. */
  datatype SeedRange = SeedRange(dest: U32, src: U32, range: U32)

  type Maps = map<string, seq<SeedRange>>

  /** The range test of `dest` as written: it measures the span with `dest`, not with `range`. */
  predicate Covers(r: SeedRange, v: int) {
    r.src <= v < r.src + r.dest
  }

  /**
   * Neither `u32` addition of the test and the remap can overflow, whatever
   * value reaches the range: `src + dest` fits, and so does the largest
   * remapped value `dest + (dest - 1)`.
   */
  predicate RangeFits(r: SeedRange) {
    r.src + r.dest <= U32_MAX && r.dest + r.dest <= U32_MAX + 1
  }

  predicate StageFits(ranges: seq<SeedRange>) {
    forall i :: 0 <= i < |ranges| ==> RangeFits(ranges[i])
  }

  /** The first covering range, in list order, remaps the value; later ranges are not consulted. */
  predicate FirstCover(ranges: seq<SeedRange>, v: int, k: int) {
    0 <= k < |ranges| && Covers(ranges[k], v) && forall j :: 0 <= j < k ==> !Covers(ranges[j], v)
  }

  /** The value after one stage. */
  function StageValue(ranges: seq<SeedRange>, v: U32): (w: U32)
    requires StageFits(ranges)
    ensures forall k :: FirstCover(ranges, v, k) ==> w == ranges[k].dest + (v - ranges[k].src)
    ensures (forall k :: 0 <= k < |ranges| ==> !Covers(ranges[k], v)) ==> w == v
  {
    if ranges == [] then v
    else if Covers(ranges[0], v) then ranges[0].dest + (v - ranges[0].src)
    else
      assert forall k :: 0 < k < |ranges| && FirstCover(ranges, v, k) ==> FirstCover(ranges[1..], v, k - 1);
      assert forall k :: 0 < k < |ranges| ==> ranges[1..][k - 1] == ranges[k];
      StageValue(ranges[1..], v)
  }

  /** One stage of `dest`: the `for` loop over the ranges that stops at the first match. */
  method ApplyStage(ranges: seq<SeedRange>, src: U32) returns (destVal: U32)
    requires StageFits(ranges)
    ensures destVal == StageValue(ranges, src)
  {
    destVal := src;
    var i := 0;
    while i < |ranges|
      invariant 0 <= i <= |ranges|
      invariant forall k :: 0 <= k < i ==> !Covers(ranges[k], src)
      invariant destVal == src
    {
      var range := ranges[i];
      if src >= range.src && src < range.src + range.dest {
        destVal := range.dest + (src - range.src);
        assert FirstCover(ranges, src, i);
        break;
      }
      i := i + 1;
    }
  }

  /** Every stage from `mapIdx` on is present; a missing one is a panic of `unwrap`. */
  predicate HasStages(maps: Maps, mapIdx: nat) {
    forall k :: mapIdx <= k < |MAP_ARR| ==> MAP_ARR[k] in maps
  }

  predicate MapsFit(maps: Maps) {
    forall key :: key in maps ==> StageFits(maps[key])
  }

  /** What `dest(v, mapIdx, maps)` returns. */
  function DestValue(v: U32, mapIdx: nat, maps: Maps): U32
    requires HasStages(maps, mapIdx) && MapsFit(maps)
    decreases |MAP_ARR| - mapIdx
  {
    if mapIdx >= |MAP_ARR| then v
    else DestValue(StageValue(maps[MAP_ARR[mapIdx]], v), mapIdx + 1, maps)
  }

  /** `dest`: apply the stage at `mapIdx`, then recurse on the next one. */
  method Dest(src: U32, mapIdx: nat, maps: Maps) returns (r: U32)
    requires HasStages(maps, mapIdx) && MapsFit(maps)
    ensures r == DestValue(src, mapIdx, maps)
    decreases |MAP_ARR| - mapIdx
  {
    if mapIdx >= |MAP_ARR| {
      return src;
    }
    var mapKey := MAP_ARR[mapIdx];
    var mapRange := maps[mapKey];
    var destVal := ApplyStage(mapRange, src);
    r := Dest(destVal, mapIdx + 1, maps);
  }

  /** The value after the stages named by `keys`, in that order. */
  function Chain(v: U32, keys: seq<string>, maps: Maps): U32
    requires forall k :: 0 <= k < |keys| ==> keys[k] in maps
    requires MapsFit(maps)
    decreases |keys|
  {
    if keys == [] then v else Chain(StageValue(maps[keys[0]], v), keys[1..], maps)
  }

  /** `dest` from `mapIdx` runs exactly the last `7 - mapIdx` stages, in almanac order. */
  lemma {:induction false} DestIsChain(v: U32, mapIdx: nat, maps: Maps)
    requires mapIdx <= |MAP_ARR| && HasStages(maps, mapIdx) && MapsFit(maps)
    ensures |MAP_ARR[mapIdx..]| == 7 - mapIdx
    ensures DestValue(v, mapIdx, maps) == Chain(v, MAP_ARR[mapIdx..], maps)
    decreases |MAP_ARR| - mapIdx
  {
    if mapIdx < |MAP_ARR| {
      DestIsChain(StageValue(maps[MAP_ARR[mapIdx]], v), mapIdx + 1, maps);
      assert MAP_ARR[mapIdx..][1..] == MAP_ARR[mapIdx + 1..];
    }
  }

  /** Past the last stage the value comes back unchanged. */
  lemma DestPastLastStage(v: U32, mapIdx: nat, maps: Maps)
    requires mapIdx >= |MAP_ARR| && MapsFit(maps)
    ensures DestValue(v, mapIdx, maps) == v
  {
  }

  /** With every stage empty, every seed is its own location. */
  lemma {:induction false} EmptyStagesAreIdentity(v: U32, mapIdx: nat, maps: Maps)
    requires HasStages(maps, mapIdx) && MapsFit(maps)
    requires forall k :: mapIdx <= k < |MAP_ARR| ==> maps[MAP_ARR[k]] == []
    ensures DestValue(v, mapIdx, maps) == v
    decreases |MAP_ARR| - mapIdx
  {
    if mapIdx < |MAP_ARR| {
      EmptyStagesAreIdentity(v, mapIdx + 1, maps);
    }
  }

  // ----- The range test as evidently intended -----

  /** The range the `range` field describes: `range` numbers starting at `src`. */
  predicate InSpan(r: SeedRange, v: int) {
    r.src <= v < r.src + r.range
  }

  predicate IntendedFits(r: SeedRange) {
    r.src + r.range <= U32_MAX && r.dest + r.range <= U32_MAX + 1
  }

  /** One stage measured with `range`: the first range whose span holds the value remaps it. */
  function IntendedStageValue(ranges: seq<SeedRange>, v: U32): (w: U32)
    requires forall i :: 0 <= i < |ranges| ==> IntendedFits(ranges[i])
    ensures forall k :: 0 <= k < |ranges| && InSpan(ranges[k], v) &&
                        (forall j :: 0 <= j < k ==> !InSpan(ranges[j], v)) ==>
                w == ranges[k].dest + (v - ranges[k].src)
    ensures (forall k :: 0 <= k < |ranges| ==> !InSpan(ranges[k], v)) ==> w == v
  {
    if ranges == [] then v
    else if InSpan(ranges[0], v) then
      assert IntendedFits(ranges[0]);
      ranges[0].dest + (v - ranges[0].src)
    else
      assert forall k :: 0 < k < |ranges| ==> ranges[1..][k - 1] == ranges[k];
      IntendedStageValue(ranges[1..], v)
  }

  /**
   * The line `50 98 2` describes the two seeds 98 and 99. As written, seed 100
   * is remapped to 52 because the span is taken from `dest` (50); measured with
   * `range` it passes through as 100.
   */
  lemma SpanTakenFromDest()
    ensures StageValue([SeedRange(50, 98, 2)], 100) == 52
    ensures IntendedStageValue([SeedRange(50, 98, 2)], 100) == 100
  {
  }

  predicate StageFitsIntended(ranges: seq<SeedRange>) {
    forall i :: 0 <= i < |ranges| ==> IntendedFits(ranges[i])
  }

  predicate MapsFitIntended(maps: Maps) {
    forall key :: key in maps ==> StageFitsIntended(maps[key])
  }

  /** No range of the stage covers `v`. */
  predicate Uncovered(ranges: seq<SeedRange>, v: int) {
    forall k :: 0 <= k < |ranges| ==> !InSpan(ranges[k], v)
  }

  /** No range of any stage from `mapIdx` on covers `v`. */
  predicate UncoveredFrom(maps: Maps, mapIdx: nat, v: int) {
    forall i :: mapIdx <= i < |MAP_ARR| && MAP_ARR[i] in maps ==> Uncovered(maps[MAP_ARR[i]], v)
  }

  /** What `dest` returns once its range test measures the span with `range`. */
  function IntendedDestValue(v: U32, mapIdx: nat, maps: Maps): (w: U32)
    requires HasStages(maps, mapIdx) && MapsFitIntended(maps)
    ensures UncoveredFrom(maps, mapIdx, v) ==> w == v
    decreases |MAP_ARR| - mapIdx
  {
    if mapIdx >= |MAP_ARR| then v
    else IntendedDestValue(IntendedStageValue(maps[MAP_ARR[mapIdx]], v), mapIdx + 1, maps)
  }

  /** Every range of the stage is as long as its destination start. */
  predicate LengthIsDest(ranges: seq<SeedRange>) {
    forall i :: 0 <= i < |ranges| ==> ranges[i].dest == ranges[i].range
  }

  /** Where every range's length equals its destination start, the two tests agree. */
  lemma {:induction false} StageAgreesWhenDestIsRange(ranges: seq<SeedRange>, v: U32)
    requires StageFitsIntended(ranges) && LengthIsDest(ranges)
    ensures StageFits(ranges)
    ensures StageValue(ranges, v) == IntendedStageValue(ranges, v)
  {
    if ranges != [] {
      assert forall k :: 0 < k < |ranges| ==> ranges[1..][k - 1] == ranges[k];
      StageAgreesWhenDestIsRange(ranges[1..], v);
    }
  }

  /** An almanac whose ranges fit the corrected test and are as long as their destination start also fits the test as written. */
  lemma MapsFitWhenDestIsRange(maps: Maps)
    requires MapsFitIntended(maps)
    requires forall key :: key in maps ==> LengthIsDest(maps[key])
    ensures MapsFit(maps)
  {
    forall key | key in maps
      ensures StageFits(maps[key])
    {
      assert StageFitsIntended(maps[key]) && LengthIsDest(maps[key]);
      StageAgreesWhenDestIsRange(maps[key], 0);
    }
  }

  /** On such an almanac the corrected `dest` and the one as written give the same location. */
  lemma {:induction false} DestAgreesWhenDestIsRange(v: U32, mapIdx: nat, maps: Maps)
    requires HasStages(maps, mapIdx) && MapsFitIntended(maps)
    requires forall key :: key in maps ==> LengthIsDest(maps[key])
    ensures MapsFit(maps)
    ensures DestValue(v, mapIdx, maps) == IntendedDestValue(v, mapIdx, maps)
    decreases |MAP_ARR| - mapIdx
  {
    MapsFitWhenDestIsRange(maps);
    if mapIdx < |MAP_ARR| {
      var w := StageValue(maps[MAP_ARR[mapIdx]], v);
      StepAgreesWhenDestIsRange(v, mapIdx, maps);
      DestAgreesWhenDestIsRange(w, mapIdx + 1, maps);
    }
  }

  /** One stage of both `dest` definitions on such an almanac: the same value goes on to the next stage. */
  lemma StepAgreesWhenDestIsRange(v: U32, mapIdx: nat, maps: Maps)
    requires mapIdx < |MAP_ARR| && HasStages(maps, mapIdx) && MapsFitIntended(maps) && MapsFit(maps)
    requires forall key :: key in maps ==> LengthIsDest(maps[key])
    ensures HasStages(maps, mapIdx + 1)
    ensures var w := StageValue(maps[MAP_ARR[mapIdx]], v);
      DestValue(v, mapIdx, maps) == DestValue(w, mapIdx + 1, maps)
      && IntendedDestValue(v, mapIdx, maps) == IntendedDestValue(w, mapIdx + 1, maps)
  {
    var ranges := maps[MAP_ARR[mapIdx]];
    assert StageFitsIntended(ranges) && LengthIsDest(ranges);
    StageAgreesWhenDestIsRange(ranges, v);
  }

  // ----- build_maps -----

  /** Why `build_maps` panics on a line. */
  datatype Panic =
    | NotANumber     // a field that `str::parse::<u32>` rejects, the empty first field of a blank line included
    | MissingField   // fewer than three fields, so `split_line[1]` or `split_line[2]` is out of bounds
    | NoHeader       // a data line before any header, so `map_key.unwrap()` fails

  /** The loop state of `build_maps`: the maps so far and the latest header. */
  datatype Builder = Builder(maps: Maps, key: Option<string>)

  /** The ranges recorded under `key`, none when the key was never seen. */
  function Lookup(maps: Maps, key: string): seq<SeedRange> {
    if key in maps then maps[key] else []
  }

  /** `entry(key).or_default().push(r)`. */
  function Push(maps: Maps, key: string, r: SeedRange): (m: Maps)
    ensures m.Keys == maps.Keys + {key}
    ensures Lookup(m, key) == Lookup(maps, key) + [r]
    ensures forall k :: k != key ==> Lookup(m, k) == Lookup(maps, k)
  {
    maps[key := Lookup(maps, key) + [r]]
  }

  /** Field `k` of a data line, parsed as `u32`. */
  function Field(words: seq<string>, k: nat): Result<U32, Panic> {
    if k >= |words| then Err(MissingField)
    else match ParseU32(words[k])
      case Some(v) => Ok(v)
      case None => Err(NotANumber)
  }

  /** The three fields of a data line, parsed left to right; extra fields are ignored. */
  function ParseRange(words: seq<string>): Result<SeedRange, Panic> {
    match Field(words, 0)
    case Err(e) => Err(e)
    case Ok(dest) =>
      match Field(words, 1)
      case Err(e) => Err(e)
      case Ok(src) =>
        match Field(words, 2)
        case Err(e) => Err(e)
        case Ok(range) => Ok(SeedRange(dest, src, range))
  }

  predicate IsHeader(line: string) {
    Split(line, ' ')[0] in MAP_ARR
  }

  /** One pass of the loop of `build_maps` over `line`. */
  function Step(b: Builder, line: string): Result<Builder, Panic> {
    var words := Split(line, ' ');
    if words[0] in MAP_ARR then Ok(Builder(b.maps, Some(words[0])))
    else
      match ParseRange(words)
      case Err(e) => Err(e)
      case Ok(r) =>
        if b.key.None? then Err(NoHeader) else Ok(Builder(Push(b.maps, b.key.value, r), b.key))
  }

  /** The maps after the remaining `lines`, or the first panic. */
  function BuildFrom(b: Builder, lines: seq<string>): Result<Maps, Panic>
    decreases |lines|
  {
    if lines == [] then Ok(b.maps)
    else
      match Step(b, lines[0])
      case Err(e) => Err(e)
      case Ok(b') => BuildFrom(b', lines[1..])
  }

  /** `build_maps` over the lines of the almanac. */
  method BuildMaps(lines: seq<string>) returns (r: Result<Maps, Panic>)
    ensures r == BuildFrom(Builder(map[], None), lines)
  {
    var maps: Maps := map[];
    var mapKey: Option<string> := None;
    for i := 0 to |lines|
      invariant BuildFrom(Builder(maps, mapKey), lines[i..]) == BuildFrom(Builder(map[], None), lines)
    {
      assert lines[i..][1..] == lines[i + 1..];
      var splitLine := Split(lines[i], ' ');
      if splitLine[0] in MAP_ARR {
        mapKey := Some(splitLine[0]);
        continue;
      }
      var dest := Field(splitLine, 0);
      if dest.Err? {
        return Err(dest.error);
      }
      var src := Field(splitLine, 1);
      if src.Err? {
        return Err(src.error);
      }
      var range := Field(splitLine, 2);
      if range.Err? {
        return Err(range.error);
      }
      var seedRange := SeedRange(dest.value, src.value, range.value);
      if mapKey.None? {
        return Err(NoHeader);
      }
      maps := Push(maps, mapKey.value, seedRange);
    }
    assert lines[|lines|..] == [];
    r := Ok(maps);
  }

  /**
   * The ranges that the data lines among `lines` contribute under the header
   * `k`, in input order, when the latest header before them is `key`.
   */
  function Under(key: Option<string>, lines: seq<string>, k: string): seq<SeedRange>
    decreases |lines|
  {
    if lines == [] then []
    else
      var words := Split(lines[0], ' ');
      if words[0] in MAP_ARR then Under(Some(words[0]), lines[1..], k)
      else
        match ParseRange(words)
        case Err(_) => []
        case Ok(r) => (if key == Some(k) then [r] else []) + Under(key, lines[1..], k)
  }

  /**
   * A successful parse appends every data line's range to the end of the list
   * of the latest header before it, in input order, and files nothing else.
   */
  lemma {:induction false} BuildFromCollects(b: Builder, lines: seq<string>, k: string)
    requires BuildFrom(b, lines).Ok?
    ensures Lookup(BuildFrom(b, lines).value, k) == Lookup(b.maps, k) + Under(b.key, lines, k)
    decreases |lines|
  {
    if lines != [] {
      BuildFromStep(b, lines);
      BuildFromCollects(Step(b, lines[0]).value, lines[1..], k);
      CollectsStep(b, lines, k);
    }
  }

  /** One line moves its contribution from the pending lines into the maps. */
  lemma CollectsStep(b: Builder, lines: seq<string>, k: string)
    requires lines != [] && Step(b, lines[0]).Ok?
    ensures var b' := Step(b, lines[0]).value;
      Lookup(b'.maps, k) + Under(b'.key, lines[1..], k) == Lookup(b.maps, k) + Under(b.key, lines, k)
  {
    if IsHeader(lines[0]) {
      CollectsHeader(b, lines, k);
    } else {
      CollectsData(b, lines, k);
    }
  }

  /** A header line moves nothing: the maps stay and its header takes over the pending lines. */
  lemma CollectsHeader(b: Builder, lines: seq<string>, k: string)
    requires lines != [] && IsHeader(lines[0])
    ensures var b' := Step(b, lines[0]).value;
      Lookup(b'.maps, k) + Under(b'.key, lines[1..], k) == Lookup(b.maps, k) + Under(b.key, lines, k)
  {
    StepHeader(b, lines[0]);
    UnderHeader(b.key, lines, k);
  }

  /** A data line moves its range, if filed under `k`, from the pending lines into the maps. */
  lemma CollectsData(b: Builder, lines: seq<string>, k: string)
    requires lines != [] && !IsHeader(lines[0]) && Step(b, lines[0]).Ok?
    ensures var b' := Step(b, lines[0]).value;
      Lookup(b'.maps, k) + Under(b'.key, lines[1..], k) == Lookup(b.maps, k) + Under(b.key, lines, k)
  {
    StepData(b, lines[0]);
    UnderData(b.key, lines, k);
    var r := ParseRange(Split(lines[0], ' ')).value;
    PushLookup(b.maps, b.key.value, r, k);
    MovedAcross(Lookup(b.maps, k), if b.key == Some(k) then [r] else [], Under(b.key, lines[1..], k));
  }

  /** After a push under `key`, the list of `k` has the range appended exactly when `k` is `key`. */
  lemma PushLookup(maps: Maps, key: string, r: SeedRange, k: string)
    ensures Lookup(Push(maps, key, r), k) == Lookup(maps, k) + (if key == k then [r] else [])
  {
  }

  /** Moving a stretch from the front of the pending list to the end of the collected one. */
  lemma MovedAcross(collected: seq<SeedRange>, moved: seq<SeedRange>, pending: seq<SeedRange>)
    ensures (collected + moved) + pending == collected + (moved + pending)
  {
  }

  /** A header line only changes the current header. */
  lemma StepHeader(b: Builder, line: string)
    requires IsHeader(line)
    ensures Step(b, line) == Ok(Builder(b.maps, Some(Split(line, ' ')[0])))
  {
  }

  /** A successful parse is a successful first step followed by a successful parse of the rest. */
  lemma BuildFromStep(b: Builder, lines: seq<string>)
    requires lines != [] && BuildFrom(b, lines).Ok?
    ensures Step(b, lines[0]).Ok? && BuildFrom(b, lines) == BuildFrom(Step(b, lines[0]).value, lines[1..])
  {
  }

  /** A data line that parses appends its range under the current header. */
  lemma StepData(b: Builder, line: string)
    requires !IsHeader(line) && Step(b, line).Ok?
    ensures ParseRange(Split(line, ' ')).Ok? && b.key.Some?
    ensures Step(b, line).value == Builder(Push(b.maps, b.key.value, ParseRange(Split(line, ' ')).value), b.key)
  {
  }

  lemma UnderHeader(key: Option<string>, lines: seq<string>, k: string)
    requires lines != [] && IsHeader(lines[0])
    ensures Under(key, lines, k) == Under(Some(Split(lines[0], ' ')[0]), lines[1..], k)
  {
  }

  lemma UnderData(key: Option<string>, lines: seq<string>, k: string)
    requires lines != [] && !IsHeader(lines[0]) && ParseRange(Split(lines[0], ' ')).Ok?
    ensures Under(key, lines, k) ==
              (if key == Some(k) then [ParseRange(Split(lines[0], ' ')).value] else []) + Under(key, lines[1..], k)
  {
  }

  /** The keys a successful parse files ranges under are stage names. */
  lemma {:induction false} BuildFromKeys(b: Builder, lines: seq<string>)
    requires BuildFrom(b, lines).Ok?
    requires b.key.Some? ==> b.key.value in MAP_ARR
    ensures BuildFrom(b, lines).value.Keys <= b.maps.Keys + set k | k in MAP_ARR
    decreases |lines|
  {
    if lines != [] {
      var b' := Step(b, lines[0]).value;
      BuildFromKeys(b', lines[1..]);
    }
  }

  /** From the empty start: the list of every stage is exactly its data lines, in order. */
  lemma BuildMapsPreservesOrder(lines: seq<string>, k: string)
    requires BuildFrom(Builder(map[], None), lines).Ok?
    ensures Lookup(BuildFrom(Builder(map[], None), lines).value, k) == Under(None, lines, k)
    ensures BuildFrom(Builder(map[], None), lines).value.Keys <= set k | k in MAP_ARR
  {
    BuildFromCollects(Builder(map[], None), lines, k);
    BuildFromKeys(Builder(map[], None), lines);
  }

  /** A header line only switches the current key; nothing is pushed. */
  lemma HeaderSetsKey(b: Builder, line: string, rest: seq<string>)
    requires IsHeader(line)
    ensures BuildFrom(b, [line] + rest) == BuildFrom(Builder(b.maps, Some(Split(line, ' ')[0])), rest)
  {
    assert ([line] + rest)[1..] == rest;
  }

  /**
   * A blank line panics: `split` gives one empty piece (so the emptiness
   * guard never fires) and parsing it fails.
   */
  lemma BlankLinePanics(b: Builder, rest: seq<string>)
    ensures Split("", ' ') == [""]
    ensures BuildFrom(b, [""] + rest) == Err(NotANumber)
  {
    assert "" !in MAP_ARR;
  }

  /** A well-formed data line before any header panics on the missing key. */
  lemma DataBeforeHeaderPanics(maps: Maps, line: string, rest: seq<string>)
    requires !IsHeader(line) && ParseRange(Split(line, ' ')).Ok?
    ensures BuildFrom(Builder(maps, None), [line] + rest) == Err(NoHeader)
  {
  }
}
