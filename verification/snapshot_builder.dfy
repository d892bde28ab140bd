/** The snapshot job's transforms (the body of `handler` in api/update.js): raw items,
    quests and hideout stations become the published database document. Fetching the
    three folders, the bearer-token check and the upload are not part of this model;
    the raw records arrive as parameters. */
module SnapshotBuilder {
  import opened JsText
  import opened Roi

  // ---------------------------------------------------------------------------
  // Requirements

  /** A `{ itemId, quantity }` entry of a quest or hideout level. */
  datatype RawRequirement = RawRequirement(itemId: Option<string>, quantity: Option<int>)

  /** The published `{ id, name, amount }` form of a requirement. */
  datatype Requirement = Requirement(id: Option<string>, name: string, amount: int)

  /** The published form of one requirement: the same id, the label derived from it
      ('' without an id), and the quantity with a missing or zero quantity read as 1. */
  function ToRequirement(r: RawRequirement): (q: Requirement)
    ensures q.id == r.itemId
    ensures q.amount != 0
    ensures r.quantity.Some? && r.quantity.value != 0 ==> q.amount == r.quantity.value
    ensures r.quantity == None || r.quantity == Some(0) ==> q.amount == 1
    ensures r.itemId == None ==> q.name == ""
    ensures r.itemId.Some? ==> q.name == Label(r.itemId.value)
  {
    var name := match r.itemId case Some(id) => Label(id) case None => "";
    var amount := match r.quantity case Some(n) => (if n != 0 then n else 1) case None => 1;
    Requirement(r.itemId, name, amount)
  }

  /** `(list || []).map(toRequirement)`. */
  function Requirements(raw: Option<seq<RawRequirement>>): (rs: seq<Requirement>)
    ensures raw == None ==> rs == []
    ensures raw.Some? ==> |rs| == |raw.value|
    ensures raw.Some? ==> forall i :: 0 <= i < |rs| ==> rs[i] == ToRequirement(raw.value[i])
  {
    match raw
    case None => []
    case Some(list) => seq(|list|, i requires 0 <= i < |list| => ToRequirement(list[i]))
  }

  /** `list.length > 0 ? list : undefined`. */
  function NonEmptyOrUndefined(rs: seq<Requirement>): (r: Option<seq<Requirement>>)
    ensures r == None <==> rs == []
    ensures r.Some? ==> r.value == rs
  {
    if |rs| > 0 then Some(rs) else None
  }

  // ---------------------------------------------------------------------------
  // Items

  /** One entry of the published `items` array. */
  datatype ProcessedItem = ProcessedItem(
    id: Option<string>,
    name: Option<string>,
    category: string,
    sellPrice: Option<int>,
    recycleValue: int,
    roiPct: int,
    yieldText: string,
    recommendation: string,
    image: Option<string>,
    rarity: Option<string>,
    weight: Option<real>,
    description: string)

  /** The item transform: English name falling back to the id, type falling back to
      "Unknown", English description falling back to "", the sell price copied as is,
      and the fields `calculateRoi` computes. */
  function ProcessItem(raw: RawItem): (p: ProcessedItem)
    ensures p.id == raw.id && p.sellPrice == raw.value && p.rarity == raw.rarity
    ensures English(raw.name).Some? ==> p.name == English(raw.name)
    ensures English(raw.name) == None ==> p.name == raw.id
    ensures raw.itemType.Some? && raw.itemType.value != "" ==> p.category == raw.itemType.value
    ensures raw.itemType == None || raw.itemType == Some("") ==> p.category == "Unknown"
    ensures English(raw.description).Some? ==> p.description == English(raw.description).value
    ensures English(raw.description) == None ==> p.description == ""
    ensures var roi := RoiOf(raw);
      p.recycleValue == roi.recycleValue && p.roiPct == roi.roiPct &&
      p.yieldText == roi.yieldText && p.recommendation == roi.recommendation
  {
    var roi := RoiOf(raw);
    ProcessedItem(
      raw.id,
      if English(raw.name).Some? then English(raw.name) else raw.id,
      if raw.itemType.Some? && raw.itemType.value != "" then raw.itemType.value else "Unknown",
      raw.value,
      roi.recycleValue, roi.roiPct, roi.yieldText, roi.recommendation,
      raw.imageFilename, raw.rarity, raw.weightKg,
      if English(raw.description).Some? then English(raw.description).value else "")
  }

  // ---------------------------------------------------------------------------
  // Quests

  datatype RawQuest = RawQuest(
    id: Option<string>,
    name: Option<Text>,
    objectives: Option<seq<Text>>,
    rewardItemIds: Option<seq<RawRequirement>>,
    requirementItemIds: Option<seq<RawRequirement>>,
    trader: Option<string>,
    description: Option<Text>)

  datatype ProcessedQuest = ProcessedQuest(
    questName: string,
    steps: seq<string>,
    requirements: Option<seq<Requirement>>,
    rewards: Option<seq<Requirement>>,
    trader: Option<string>,
    description: string)

  /** An objective's text: a bare string as is, an object's English text or ''. */
  function StepText(obj: Text): string {
    match obj
    case Plain(s) => s
    case ByLang(es) => (match Lookup(es, "en") case Some(v) => v case None => "")
  }

  /** `.filter(s => s)`: the non-empty texts, in order. */
  function NonEmptyTexts(texts: seq<string>): (r: seq<string>)
    ensures forall s :: s in r ==> s != "" && s in texts
    ensures forall s :: s in texts && s != "" ==> s in r
    ensures |r| <= |texts|
  {
    if texts == [] then []
    else
      var rest := NonEmptyTexts(texts[1..]);
      assert forall s :: s in texts[1..] ==> s in texts;
      assert forall s :: s in texts ==> s == texts[0] || s in texts[1..];
      if texts[0] != "" then [texts[0]] + rest else rest
  }

  /** The step list: the objectives' texts with the empty ones dropped. */
  function Steps(objectives: Option<seq<Text>>): (steps: seq<string>)
    ensures forall s :: s in steps ==> s != ""
    ensures objectives.Some? ==> forall i :: 0 <= i < |objectives.value| && StepText(objectives.value[i]) != "" ==>
              StepText(objectives.value[i]) in steps
  {
    match objectives
    case None => []
    case Some(objs) =>
      var texts := seq(|objs|, i requires 0 <= i < |objs| => StepText(objs[i]));
      var steps := NonEmptyTexts(texts);
      assert forall i :: 0 <= i < |objs| && StepText(objs[i]) != "" ==> StepText(objs[i]) in steps by {
        forall i | 0 <= i < |objs| && StepText(objs[i]) != "" ensures StepText(objs[i]) in steps {
          assert texts[i] in texts;
        }
      }
      steps
  }

  /** The filter distributes over concatenation, and keeps a single text exactly when
      it is non-empty: the non-empty texts stay in order, each as often as it occurs. */
  lemma {:induction false} NonEmptyTextsAppend(a: seq<string>, b: seq<string>)
    ensures NonEmptyTexts(a + b) == NonEmptyTexts(a) + NonEmptyTexts(b)
    ensures NonEmptyTexts([]) == [] && forall t :: NonEmptyTexts([t]) == if t != "" then [t] else []
    decreases |a|
  {
    assert forall t: string :: [t][1..] == [];
    if a != [] {
      assert (a + b)[0] == a[0];
      assert (a + b)[1..] == a[1..] + b;
      NonEmptyTextsAppend(a[1..], b);
    } else {
      assert a + b == b;
    }
  }

  /** The step list of two runs of objectives is the first run's steps followed by
      the second's; one objective gives its text when that is non-empty, else nothing. */
  lemma StepsAppend(a: seq<Text>, b: seq<Text>)
    ensures Steps(Some(a + b)) == Steps(Some(a)) + Steps(Some(b))
    ensures forall o :: Steps(Some([o])) == if StepText(o) != "" then [StepText(o)] else []
  {
    var ta := seq(|a|, i requires 0 <= i < |a| => StepText(a[i]));
    var tb := seq(|b|, i requires 0 <= i < |b| => StepText(b[i]));
    var ab := a + b;
    assert seq(|ab|, i requires 0 <= i < |ab| => StepText(ab[i])) == ta + tb;
    NonEmptyTextsAppend(ta, tb);
    forall o
      ensures Steps(Some([o])) == if StepText(o) != "" then [StepText(o)] else []
    {
      assert seq(1, i requires 0 <= i < 1 => StepText([o][i])) == [StepText(o)];
    }
  }

  /** `rawQuest.name?.en || rawQuest.id || 'Unknown Quest'`. */
  function QuestName(raw: RawQuest): (r: string)
    ensures r != ""
    ensures English(raw.name).Some? ==> r == English(raw.name).value
    ensures English(raw.name) == None && raw.id.Some? && raw.id.value != "" ==> r == raw.id.value
    ensures English(raw.name) == None && (raw.id == None || raw.id == Some("")) ==> r == "Unknown Quest"
  {
    if English(raw.name).Some? then English(raw.name).value
    else if raw.id.Some? && raw.id.value != "" then raw.id.value
    else "Unknown Quest"
  }

  /** The quest transform. */
  function ProcessQuest(raw: RawQuest): (q: ProcessedQuest)
    ensures q.questName == QuestName(raw) && q.steps == Steps(raw.objectives) && q.trader == raw.trader
    ensures q.requirements == NonEmptyOrUndefined(Requirements(raw.requirementItemIds))
    ensures q.rewards == NonEmptyOrUndefined(Requirements(raw.rewardItemIds))
    ensures English(raw.description).Some? ==> q.description == English(raw.description).value
    ensures English(raw.description) == None ==> q.description == ""
  {
    ProcessedQuest(
      QuestName(raw),
      Steps(raw.objectives),
      NonEmptyOrUndefined(Requirements(raw.requirementItemIds)),
      NonEmptyOrUndefined(Requirements(raw.rewardItemIds)),
      raw.trader,
      if English(raw.description).Some? then English(raw.description).value else "")
  }

  /** A published quest's requirement list is absent exactly when the raw quest lists
      none, and every amount it carries is non-zero. */
  lemma QuestRequirementsShape(raw: RawQuest)
    ensures var q := ProcessQuest(raw);
      && (q.requirements == None <==> raw.requirementItemIds == None || raw.requirementItemIds == Some([]))
      && (q.requirements.Some? ==> forall r :: r in q.requirements.value ==> r.amount != 0)
      && (q.rewards == None <==> raw.rewardItemIds == None || raw.rewardItemIds == Some([]))
      && (q.rewards.Some? ==> forall r :: r in q.rewards.value ==> r.amount != 0)
  {
  }

  // ---------------------------------------------------------------------------
  // Hideout stations

  datatype RawLevel = RawLevel(level: int, requirementItemIds: Option<seq<RawRequirement>>)

  /** A hideout station record; `levels` is None when the field is not an array. */
  datatype RawStation = RawStation(id: Option<string>, levels: Option<seq<RawLevel>>)

  /** A `levelsObj`: "level_<N>" to that level's requirements. */
  type LevelsObject = map<string, seq<Requirement>>

  datatype Upgrades = Upgrades(stationUpgrades: map<string, LevelsObject>, expeditionRequirements: LevelsObject)

  /** The database document the job publishes. */
  datatype Database = Database(items: seq<ProcessedItem>, quests: seq<ProcessedQuest>, upgrades: Upgrades, lastUpdated: string)

  const LEVEL_PREFIX := "level_"

  /** `level_${levelData.level}`. */
  function LevelKey(level: int): (k: string)
    ensures StartsWith(k, LEVEL_PREFIX)
  {
    LEVEL_PREFIX + IntToString(level)
  }

  /** The levels object after the `forEach` over `levels`: each level's requirements
      stored under its key, a later level with the same key replacing an earlier one. */
  function LevelsOf(levels: seq<RawLevel>): LevelsObject {
    if levels == [] then map[]
    else
      var last := levels[|levels| - 1];
      LevelsOf(levels[..|levels| - 1])[LevelKey(last.level) := Requirements(last.requirementItemIds)]
  }

  /** A station's levels object; empty when `levels` is not an array. */
  function LevelsObjectOf(station: RawStation): LevelsObject {
    match station.levels
    case Some(levels) => LevelsOf(levels)
    case None => map[]
  }

  /** `station.id || 'unknown'`. */
  function StationId(station: RawStation): string {
    match station.id
    case Some(id) => if id != "" then id else "unknown"
    case None => "unknown"
  }

  predicate IsExpedition(station: RawStation) {
    Includes(StationId(station), "expedition")
  }

  /** The upgrades object after the `forEach` over the stations. */
  function UpgradesOf(stations: seq<RawStation>): Upgrades {
    if stations == [] then Upgrades(map[], map[])
    else
      var prior := UpgradesOf(stations[..|stations| - 1]);
      var s := stations[|stations| - 1];
      if IsExpedition(s) then prior.(expeditionRequirements := LevelsObjectOf(s))
      else prior.(stationUpgrades := prior.stationUpgrades[StationId(s) := LevelsObjectOf(s)])
  }

  /** The inner `forEach`: fills a levels object one level at a time. */
  method BuildLevels(levels: seq<RawLevel>) returns (levelsObj: LevelsObject)
    ensures levelsObj == LevelsOf(levels)
  {
    levelsObj := map[];
    var i := 0;
    while i < |levels|
      invariant 0 <= i <= |levels|
      invariant levelsObj == LevelsOf(levels[..i])
    {
      assert levels[..i + 1][..i] == levels[..i];
      var levelData := levels[i];
      levelsObj := levelsObj[LevelKey(levelData.level) := Requirements(levelData.requirementItemIds)];
      i := i + 1;
    }
    assert levels[..i] == levels;
  }

  /** The outer `forEach`: routes each station's levels object either to the
      expedition slot or to its own entry of the station map. */
  method BuildUpgrades(stations: seq<RawStation>) returns (upgrades: Upgrades)
    ensures upgrades == UpgradesOf(stations)
  {
    upgrades := Upgrades(map[], map[]);
    var i := 0;
    while i < |stations|
      invariant 0 <= i <= |stations|
      invariant upgrades == UpgradesOf(stations[..i])
    {
      assert stations[..i + 1][..i] == stations[..i];
      var station := stations[i];
      var stationId := StationId(station);
      var levelsObj: LevelsObject := map[];
      if station.levels.Some? {
        levelsObj := BuildLevels(station.levels.value);
      }
      if IsExpedition(station) {
        upgrades := upgrades.(expeditionRequirements := levelsObj);
      } else {
        upgrades := upgrades.(stationUpgrades := upgrades.stationUpgrades[stationId := levelsObj]);
      }
      i := i + 1;
    }
    assert stations[..i] == stations;
  }

  /** The handler's steps B to E: the document built from the raw records. */
  method BuildDatabase(rawItems: seq<RawItem>, rawQuests: seq<RawQuest>, rawHideout: seq<RawStation>, timestamp: string)
    returns (db: Database)
    ensures |db.items| == |rawItems| && forall i :: 0 <= i < |rawItems| ==> db.items[i] == ProcessItem(rawItems[i])
    ensures |db.quests| == |rawQuests| && forall i :: 0 <= i < |rawQuests| ==> db.quests[i] == ProcessQuest(rawQuests[i])
    ensures db.upgrades == UpgradesOf(rawHideout)
    ensures db.lastUpdated == timestamp
  {
    var items := seq(|rawItems|, i requires 0 <= i < |rawItems| => ProcessItem(rawItems[i]));
    var quests := seq(|rawQuests|, i requires 0 <= i < |rawQuests| => ProcessQuest(rawQuests[i]));
    var upgrades := BuildUpgrades(rawHideout);
    db := Database(items, quests, upgrades, timestamp);
  }

  // ---------------------------------------------------------------------------
  // Properties of the hideout transform


  /** Every level is stored under its own key. */
  lemma {:induction false} LevelKeyPresent(levels: seq<RawLevel>, i: int)
    requires 0 <= i < |levels|
    ensures LevelKey(levels[i].level) in LevelsOf(levels)
  {
    if i < |levels| - 1 {
      var init := levels[..|levels| - 1];
      assert init[i] == levels[i];
      LevelKeyPresent(init, i);
    }
  }

  /** Every key of a levels object is the key of one of the levels, and so starts
      with "level_". */
  lemma {:induction false} LevelKeyOrigin(levels: seq<RawLevel>, k: string) returns (i: int)
    requires k in LevelsOf(levels)
    ensures 0 <= i < |levels| && LevelKey(levels[i].level) == k
    ensures StartsWith(k, LEVEL_PREFIX)
  {
    var last := levels[|levels| - 1];
    if k == LevelKey(last.level) {
      i := |levels| - 1;
    } else {
      var init := levels[..|levels| - 1];
      i := LevelKeyOrigin(init, k);
      assert init[i] == levels[i];
    }
  }

  /** The requirements stored under a level's key are that level's own when no later
      level has the same key: the last level with a given key wins. */
  lemma {:induction false} LevelsLastWins(levels: seq<RawLevel>, i: int)
    requires 0 <= i < |levels|
    requires forall j :: i < j < |levels| ==> LevelKey(levels[j].level) != LevelKey(levels[i].level)
    ensures LevelKey(levels[i].level) in LevelsOf(levels)
    ensures LevelsOf(levels)[LevelKey(levels[i].level)] == Requirements(levels[i].requirementItemIds)
  {
    if i < |levels| - 1 {
      var init := levels[..|levels| - 1];
      assert init[i] == levels[i];
      LevelsLastWins(init, i);
    }
  }

  /** With no station whose id contains "expedition", the expedition requirements
      stay empty. */
  lemma {:induction false} NoExpeditionNoRequirements(stations: seq<RawStation>)
    requires forall j :: 0 <= j < |stations| ==> !IsExpedition(stations[j])
    ensures UpgradesOf(stations).expeditionRequirements == map[]
  {
    if stations != [] {
      var init := stations[..|stations| - 1];
      assert forall j :: 0 <= j < |init| ==> init[j] == stations[j];
      NoExpeditionNoRequirements(init);
    }
  }

  /** The expedition requirements are the levels of the last station whose id
      contains "expedition": each such station replaces the one before. */
  lemma {:induction false} LastExpeditionWins(stations: seq<RawStation>, i: int)
    requires 0 <= i < |stations| && IsExpedition(stations[i])
    requires forall j :: i < j < |stations| ==> !IsExpedition(stations[j])
    ensures UpgradesOf(stations).expeditionRequirements == LevelsObjectOf(stations[i])
  {
    if i < |stations| - 1 {
      var init := stations[..|stations| - 1];
      assert init[i] == stations[i];
      assert forall j :: i < j < |init| ==> init[j] == stations[j];
      LastExpeditionWins(init, i);
    }
  }

  /** Every non-expedition station has an entry under its id (a missing id read as
      "unknown"). */
  lemma {:induction false} StationKeyPresent(stations: seq<RawStation>, i: int)
    requires 0 <= i < |stations| && !IsExpedition(stations[i])
    ensures StationId(stations[i]) in UpgradesOf(stations).stationUpgrades
  {
    if i < |stations| - 1 {
      var init := stations[..|stations| - 1];
      assert init[i] == stations[i];
      StationKeyPresent(init, i);
    }
  }

  /** Every entry of the station map belongs to a non-expedition station: expedition
      stations never get an entry of their own. */
  lemma {:induction false} StationKeyOrigin(stations: seq<RawStation>, k: string) returns (i: int)
    requires k in UpgradesOf(stations).stationUpgrades
    ensures 0 <= i < |stations| && !IsExpedition(stations[i]) && StationId(stations[i]) == k
  {
    var s := stations[|stations| - 1];
    if !IsExpedition(s) && k == StationId(s) {
      i := |stations| - 1;
    } else {
      var init := stations[..|stations| - 1];
      i := StationKeyOrigin(init, k);
      assert init[i] == stations[i];
    }
  }

  /** A non-expedition station's levels object is what the map holds for its id when
      no later non-expedition station has the same id. */
  lemma {:induction false} LastStationWins(stations: seq<RawStation>, i: int)
    requires 0 <= i < |stations| && !IsExpedition(stations[i])
    requires forall j :: i < j < |stations| && !IsExpedition(stations[j]) ==> StationId(stations[j]) != StationId(stations[i])
    ensures StationId(stations[i]) in UpgradesOf(stations).stationUpgrades
    ensures UpgradesOf(stations).stationUpgrades[StationId(stations[i])] == LevelsObjectOf(stations[i])
  {
    if i < |stations| - 1 {
      var init := stations[..|stations| - 1];
      assert init[i] == stations[i];
      assert forall j :: i < j < |init| ==> init[j] == stations[j];
      LastStationWins(init, i);
    }
  }
}
