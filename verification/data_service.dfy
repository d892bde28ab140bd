/** The client's queries over the bundled item database (src/services/dataService.js):
    name search, the list of distinct upgrade levels, and the recommendation resolver
    that decides what the player should do with an item. */
module DataService {
  import opened JsText
  import UserProgress

  // ---------------------------------------------------------------------------
  // Database records

  /** `usage.quest`: whether a quest needs the item, which one, and how many. */
  datatype QuestUsage = QuestUsage(needed: bool, details: string, amount: int)

  /** One entry of `usage.upgrade`: a station level that consumes `amount` of the item. */
  datatype UpgradeUsage = UpgradeUsage(station: string, level: int, amount: int)

  datatype Usage = Usage(quest: Option<QuestUsage>, upgrade: Option<seq<UpgradeUsage>>)

  /** The fields of a database item that search and the resolver read. */
  datatype DbItem = DbItem(
    name: string,
    isCore: bool,
    usage: Option<Usage>,
    recommendation: Option<string>,
    recycleValue: Option<int>,
    sellPrice: Option<int>,
    roiPct: Option<int>,
    yieldText: Option<string>,
    notes: Option<string>)

  /** The six recommendation types. */
  datatype RecType = Critical | Important | Strategic | Profit | Liquidate | Neutral

  datatype Recommendation = Recommendation(
    kind: RecType,
    labelText: string,
    icon: string,
    color: string,
    bgColor: string,
    reason: string,
    subtext: string)

  // ---------------------------------------------------------------------------
  // findItem

  /** The item's lower-cased name contains `needle`. */
  predicate NameMatches(item: DbItem, needle: string) {
    Includes(LowerCase(item.name), needle)
  }

  /** `db.filter(item => item.name.toLowerCase().includes(needle))`. */
  function MatchingItems(items: seq<DbItem>, needle: string): (r: seq<DbItem>)
    ensures forall x :: x in r <==> x in items && NameMatches(x, needle)
    ensures |r| <= |items|
  {
    if items == [] then []
    else
      var init := items[..|items| - 1];
      var last := items[|items| - 1];
      assert forall x :: x in items <==> x in init || x == last;
      MatchingItems(init, needle) + (if NameMatches(last, needle) then [last] else [])
  }

  /** `findItem(query)`: nothing for a missing, empty or blank query; otherwise the
      items whose lower-cased name contains the lower-cased, trimmed query. */
  function FindItem(db: seq<DbItem>, query: Option<string>): (r: seq<DbItem>)
    ensures query == None || Trim(query.value) == "" ==> r == []
    ensures forall x :: x in r <==>
              x in db && query.Some? && Trim(query.value) != "" &&
              Includes(LowerCase(x.name), Trim(LowerCase(query.value)))
  {
    if query == None || query.value == "" || Trim(query.value) == "" then []
    else MatchingItems(db, Trim(LowerCase(query.value)))
  }

  /** The filter keeps database order: filtering two runs of items gives the
      filtered runs one after the other. */
  lemma {:induction false} MatchingItemsAppend(a: seq<DbItem>, b: seq<DbItem>, needle: string)
    ensures MatchingItems(a + b, needle) == MatchingItems(a, needle) + MatchingItems(b, needle)
    decreases |b|
  {
    if b == [] {
      assert a + b == a;
    } else {
      var init, last := b[..|b| - 1], b[|b| - 1];
      var tail := if NameMatches(last, needle) then [last] else [];
      assert (a + b)[..|a + b| - 1] == a + init;
      assert (a + b)[|a + b| - 1] == last;
      assert MatchingItems(a + b, needle) == MatchingItems(a + init, needle) + tail;
      assert MatchingItems(b, needle) == MatchingItems(init, needle) + tail;
      MatchingItemsAppend(a, init, needle);
    }
  }

  /** Hence a search over two runs of the database returns the first run's matches,
      in order, before the second's. */
  lemma FindItemKeepsOrder(a: seq<DbItem>, b: seq<DbItem>, query: Option<string>)
    ensures FindItem(a + b, query) == FindItem(a, query) + FindItem(b, query)
  {
    if query.Some? && query.value != "" && Trim(query.value) != "" {
      MatchingItemsAppend(a, b, Trim(LowerCase(query.value)));
    }
  }

  // ---------------------------------------------------------------------------
  // getAllUpgrades

  /** A `{ station, level }` pair. */
  datatype UpgradeRef = UpgradeRef(station: string, level: int)

  /** Every upgrade pair the items use, item by item, in their order. */
  function UsedRefs(db: seq<DbItem>): seq<UpgradeRef> {
    if db == [] then []
    else UsedRefs(db[..|db| - 1]) + RefsOf(UpgradeList(db[|db| - 1]))
  }

  /** `item.usage?.upgrade`, or nothing. */
  function UpgradeList(item: DbItem): seq<UpgradeUsage> {
    if item.usage.Some? && item.usage.value.upgrade.Some? then item.usage.value.upgrade.value else []
  }

  function RefsOf(us: seq<UpgradeUsage>): (r: seq<UpgradeRef>)
    ensures |r| == |us|
    ensures forall i :: 0 <= i < |us| ==> r[i] == UpgradeRef(us[i].station, us[i].level)
  {
    seq(|us|, i requires 0 <= i < |us| => UpgradeRef(us[i].station, us[i].level))
  }

  /** The sort comparator: by station in string order, then by level. */
  predicate RefLess(a: UpgradeRef, b: UpgradeRef) {
    StrLess(a.station, b.station) || (a.station == b.station && a.level < b.level)
  }

  predicate StrictlySorted(s: seq<UpgradeRef>) {
    forall i, j :: 0 <= i < j < |s| ==> RefLess(s[i], s[j])
  }

  predicate DistinctRefs(s: seq<UpgradeRef>) {
    forall i, j :: 0 <= i < j < |s| ==> s[i] != s[j]
  }

  lemma RefLessTransitive(a: UpgradeRef, b: UpgradeRef, c: UpgradeRef)
    requires RefLess(a, b) && RefLess(b, c)
    ensures RefLess(a, c)
  {
    if StrLess(a.station, b.station) && StrLess(b.station, c.station) {
      StrLessTransitive(a.station, b.station, c.station);
    }
  }

  lemma RefLessTotal(a: UpgradeRef, b: UpgradeRef)
    requires a != b
    ensures RefLess(a, b) || RefLess(b, a)
  {
    if a.station != b.station {
      StrLessTotal(a.station, b.station);
    }
  }

  lemma RefLessIrreflexive(a: UpgradeRef)
    ensures !RefLess(a, a)
  {
    StrLessIrreflexive(a.station);
  }

  /** Inserts `x` before the first element it precedes. */
  function Insert(x: UpgradeRef, s: seq<UpgradeRef>): (r: seq<UpgradeRef>)
    ensures multiset(r) == multiset(s) + multiset{x}
  {
    if s == [] then [x]
    else if RefLess(x, s[0]) then [x] + s
    else
      assert s == [s[0]] + s[1..];
      [s[0]] + Insert(x, s[1..])
  }

  /** Inserting an element that is not yet present keeps a list strictly sorted. */
  lemma {:induction false} InsertSorted(x: UpgradeRef, s: seq<UpgradeRef>)
    requires StrictlySorted(s) && x !in s
    ensures StrictlySorted(Insert(x, s))
  {
    if s != [] {
      if RefLess(x, s[0]) {
        forall j | 0 < j < |s| ensures RefLess(x, s[j]) {
          RefLessTransitive(x, s[0], s[j]);
        }
      } else {
        RefLessTotal(x, s[0]);
        var rest := s[1..];
        InsertSorted(x, rest);
        var r := Insert(x, rest);
        forall y | y in r ensures RefLess(s[0], y) {
          assert y in multiset(r);
        }
      }
    }
  }

  /** `.sort(comparator)` on a list of distinct pairs, as insertion sort. */
  function SortRefs(s: seq<UpgradeRef>): (r: seq<UpgradeRef>)
    ensures multiset(r) == multiset(s)
  {
    if s == [] then []
    else
      assert s == s[..|s| - 1] + [s[|s| - 1]];
      Insert(s[|s| - 1], SortRefs(s[..|s| - 1]))
  }

  /** Sorting distinct pairs gives them in strictly increasing order. */
  lemma {:induction false} SortRefsSorted(s: seq<UpgradeRef>)
    requires DistinctRefs(s)
    ensures StrictlySorted(SortRefs(s))
  {
    if s != [] {
      var init := s[..|s| - 1];
      var last := s[|s| - 1];
      SortRefsSorted(init);
      assert last !in multiset(init);
      InsertSorted(last, SortRefs(init));
    }
  }

  /** `getAllUpgrades`: each distinct `{ station, level }` pair of every item's
      upgrade usage, sorted by station then level. */
  method GetAllUpgrades(db: seq<DbItem>) returns (upgrades: seq<UpgradeRef>)
    ensures forall u :: u in upgrades <==> u in UsedRefs(db)
    ensures StrictlySorted(upgrades)
  {
    var seen: seq<UpgradeRef> := [];
    var i := 0;
    while i < |db|
      invariant 0 <= i <= |db|
      invariant DistinctRefs(seen)
      invariant forall u :: u in seen <==> u in UsedRefs(db[..i])
    {
      assert db[..i + 1][..i] == db[..i];
      var us := UpgradeList(db[i]);
      var j := 0;
      while j < |us|
        invariant 0 <= j <= |us|
        invariant DistinctRefs(seen)
        invariant forall u :: u in seen <==> u in UsedRefs(db[..i]) + RefsOf(us)[..j]
      {
        var u := UpgradeRef(us[j].station, us[j].level);
        assert RefsOf(us)[..j + 1] == RefsOf(us)[..j] + [u];
        if u !in seen {
          seen := seen + [u];
        }
        j := j + 1;
      }
      assert RefsOf(us)[..j] == RefsOf(us);
      i := i + 1;
    }
    assert db[..i] == db;
    upgrades := SortRefs(seen);
    SortRefsSorted(seen);
    forall u ensures u in upgrades <==> u in seen {
      assert u in upgrades <==> u in multiset(upgrades);
    }
  }

  // ---------------------------------------------------------------------------
  // getRecommendation

  const RED := "#dc2626"
  const RED_BG := "rgba(220, 38, 38, 0.15)"
  const ORANGE := "#f97316"
  const ORANGE_BG := "rgba(249, 115, 22, 0.15)"
  const PURPLE := "#a855f7"
  const PURPLE_BG := "rgba(168, 85, 247, 0.15)"
  const GREEN := "#22c55e"
  const GREEN_BG := "rgba(34, 197, 94, 0.15)"
  const BLUE := "#3b82f6"
  const BLUE_BG := "rgba(59, 130, 246, 0.15)"
  const GRAY := "#6b7280"
  const GRAY_BG := "rgba(107, 114, 128, 0.15)"

  const GEM_ICON := "\U{1F48E}"
  const STOP_ICON := "\U{26D4}"
  const TOOLS_ICON := "\U{1F6E0}\U{FE0F}"
  const RECYCLE_ICON := "\U{267B}\U{FE0F}"
  const MONEY_ICON := "\U{1F4B0}"
  const SCALES_ICON := "\U{2696}\U{FE0F}"

  /** `item.usage?.quest?.needed`. */
  predicate QuestNeeded(item: DbItem) {
    item.usage.Some? && item.usage.value.quest.Some? && item.usage.value.quest.value.needed
  }

  /** The upgrade use is still to do: its "station-level" key is not completed. */
  predicate IsActive(u: UpgradeUsage, completed: seq<string>) {
    UserProgress.UpgradeKey(u.station, u.level) !in completed
  }

  /** The upgrade levels the item is used in whose "station-level" key is not among
      the completed ones, in their order. */
  function ActiveUpgrades(upgrades: seq<UpgradeUsage>, completed: seq<string>): (r: seq<UpgradeUsage>)
    ensures |r| <= |upgrades|
  {
    if upgrades == [] then []
    else
      var init := upgrades[..|upgrades| - 1];
      var last := upgrades[|upgrades| - 1];
      ActiveUpgrades(init, completed)
        + (if IsActive(last, completed) then [last] else [])
  }

  /** A use is in the active list exactly when the item has it and its key is not
      completed. */
  lemma {:induction false} ActiveUpgradesMembers(upgrades: seq<UpgradeUsage>, completed: seq<string>)
    ensures forall u :: u in ActiveUpgrades(upgrades, completed) <==> u in upgrades && IsActive(u, completed)
  {
    if upgrades != [] {
      var init := upgrades[..|upgrades| - 1];
      var last := upgrades[|upgrades| - 1];
      ActiveUpgradesMembers(init, completed);
      assert upgrades == init + [last];
      assert forall x :: x in upgrades <==> x in init || x == last;
    }
  }

  /** Filtering distributes over concatenation: the active list keeps the input's
      order and repeats. */
  lemma {:induction false} ActiveUpgradesAppend(a: seq<UpgradeUsage>, b: seq<UpgradeUsage>, completed: seq<string>)
    ensures ActiveUpgrades(a + b, completed) == ActiveUpgrades(a, completed) + ActiveUpgrades(b, completed)
    decreases |b|
  {
    if b == [] {
      assert a + b == a;
    } else {
      var init := b[..|b| - 1];
      var last := b[|b| - 1];
      var tail := if IsActive(last, completed) then [last] else [];
      assert (a + b)[..|a + b| - 1] == a + init;
      assert (a + b)[|a + b| - 1] == last;
      ActiveUpgradesAppend(a, init, completed);
      var fa, fi := ActiveUpgrades(a, completed), ActiveUpgrades(init, completed);
      assert ActiveUpgrades(a + b, completed) == ActiveUpgrades(a + init, completed) + tail;
      assert ActiveUpgrades(b, completed) == fi + tail;
      assert (fa + fi) + tail == fa + (fi + tail);
    }
  }

  /** A single usage stays active exactly when its key is not completed. */
  lemma ActiveUpgradesSingle(u: UpgradeUsage, completed: seq<string>)
    ensures ActiveUpgrades([u], completed) == if IsActive(u, completed) then [u] else []
  {
    assert [u][..0] == [];
  }

  /** `reduce((sum, u) => sum + u.amount, 0)`. */
  function TotalAmount(us: seq<UpgradeUsage>): int {
    if us == [] then 0 else TotalAmount(us[..|us| - 1]) + us[|us| - 1].amount
  }

  /** The total of a concatenation is the sum of the totals. */
  lemma {:induction false} TotalAmountAppend(a: seq<UpgradeUsage>, b: seq<UpgradeUsage>)
    ensures TotalAmount(a + b) == TotalAmount(a) + TotalAmount(b)
    decreases |b|
  {
    if b == [] {
      assert a + b == a;
    } else {
      var init := b[..|b| - 1];
      assert (a + b)[..|a + b| - 1] == a + init;
      TotalAmountAppend(a, init);
    }
  }

  /** `${u.station} Lvl ${u.level}` for each upgrade. */
  function StationLabels(us: seq<UpgradeUsage>): (r: seq<string>)
    ensures |r| == |us|
  {
    seq(|us|, i requires 0 <= i < |us| => us[i].station + " Lvl " + IntToString(us[i].level))
  }

  /** `s || fallback` for an optional string. */
  function OrElse(s: Option<string>, fallback: string): string {
    if s.Some? && s.value != "" then s.value else fallback
  }

  /** `${s}` for an optional string: a missing one prints as "undefined". */
  function Interpolated(s: Option<string>): string {
    if s.Some? then s.value else "undefined"
  }

  /** `n ?? 0`. */
  function OrZero(n: Option<int>): int {
    if n.Some? then n.value else 0
  }

  function Abs(n: int): (r: nat)
    ensures r == n || r == -n
  {
    if n < 0 then -n else n
  }

  predicate IsDonor(item: DbItem) {
    item.recommendation == Some("RECYCLE PRIORITY") || item.recommendation == Some("PRIORITY DONOR")
  }

  /** The recycle value minus the sell price, each missing value read as 0. */
  function Diff(item: DbItem): int {
    OrZero(item.recycleValue) - OrZero(item.sellPrice)
  }

  function ProfitSubtext(absDiff: int, roiPct: int): string {
    "Profit: +" + IntToString(absDiff) + " (+" + IntToString(roiPct) + "%)"
  }

  function LossSubtext(absDiff: int, roiPct: int): string {
    "Recycling loses " + IntToString(absDiff) + " (" + IntToString(roiPct) + "%)"
  }

  /** Tier 0: a core crafting component. */
  const CORE_COMPONENT := Recommendation(Critical, "CORE COMPONENT", GEM_ICON, RED, RED_BG,
    "Essential Crafting Material", "Never sell - required for numerous recipes")

  /** Tier 1: an item a quest needs. */
  function QuestRecommendation(quest: QuestUsage): Recommendation {
    Recommendation(Critical, "DO NOT SELL", STOP_ICON, RED, RED_BG,
      "Required for Quest: " + quest.details, "Keep at least " + IntToString(quest.amount))
  }

  /** Tier 2: the upgrade levels still to be built that consume the item. */
  function UpgradeRecommendation(active: seq<UpgradeUsage>): Recommendation {
    Recommendation(Important, "KEEP FOR UPGRADE", TOOLS_ICON, ORANGE, ORANGE_BG,
      "Workshop Material: " + Join(StationLabels(active), ", "),
      "Total needed: " + IntToString(TotalAmount(active)))
  }

  /** Tier 3: a donor item, recycled for the rare materials it yields. */
  function DonorRecommendation(item: DbItem): Recommendation {
    Recommendation(Strategic, "RECYCLE ONLY", RECYCLE_ICON, PURPLE, PURPLE_BG,
      "Critical Source for " + Interpolated(item.yieldText),
      OrElse(item.notes, "Do not sell - recycle for rare materials"))
  }

  /** Tiers 4 and 5: the database's explicit verdict, then the sign of the
      difference between recycle value and sell price. */
  function ValueRecommendation(item: DbItem): Recommendation {
    var recycleValue := OrZero(item.recycleValue);
    var sellPrice := OrZero(item.sellPrice);
    var roiPct := OrZero(item.roiPct);
    var diff := recycleValue - sellPrice;
    var absDiff := Abs(diff);
    var hasFinancials := item.recycleValue.Some?;
    if item.recommendation == Some("RECYCLE") then
      Recommendation(Profit, "RECYCLE", RECYCLE_ICON, GREEN, GREEN_BG,
        "Yields " + OrElse(item.yieldText, "Materials"),
        if hasFinancials then
          (if diff >= 0 then ProfitSubtext(absDiff, roiPct)
           else "Strategic Choice (Financially -" + IntToString(absDiff) + ")")
        else "Recommended donor for materials")
    else if item.recommendation == Some("SELL") then
      Recommendation(Liquidate, "SELL", MONEY_ICON, BLUE, BLUE_BG,
        "Sell for " + IntToString(sellPrice),
        if hasFinancials then
          (if diff < 0 then LossSubtext(absDiff, roiPct)
           else "Database Recommended (Profit lost: " + IntToString(absDiff) + ")")
        else "Recommended for selling")
    else if item.recommendation == Some("EITHER") then
      Recommendation(Neutral, "NEUTRAL", SCALES_ICON, GRAY, GRAY_BG,
        "Database: Either option is valid",
        "Sell: " + IntToString(sellPrice) + " | Recycle: " + IntToString(recycleValue))
    else if diff > 0 then
      Recommendation(Profit, "RECYCLE", RECYCLE_ICON, GREEN, GREEN_BG,
        "Yields " + OrElse(item.yieldText, "Materials"), ProfitSubtext(absDiff, roiPct))
    else if diff < 0 then
      Recommendation(Liquidate, "SELL", MONEY_ICON, BLUE, BLUE_BG,
        "Sell for " + IntToString(sellPrice), LossSubtext(absDiff, roiPct))
    else
      Recommendation(Neutral, "NEUTRAL", SCALES_ICON, GRAY, GRAY_BG,
        "Equal value either way", "Both options yield " + IntToString(sellPrice))
  }

  /** `getRecommendation(item, completedUpgrades)`: the first tier that applies, in
      the order core component, needed by a quest, needed by an uncompleted
      upgrade, donor, the database's explicit verdict, and the sign of the
      difference between recycle value and sell price. */
  function GetRecommendation(item: DbItem, completedUpgrades: seq<string>): Recommendation {
    if item.isCore then CORE_COMPONENT
    else if QuestNeeded(item) then QuestRecommendation(item.usage.value.quest.value)
    else
      var active := ActiveUpgrades(UpgradeList(item), completedUpgrades);
      if |active| > 0 then UpgradeRecommendation(active)
      else if IsDonor(item) then DonorRecommendation(item)
      else ValueRecommendation(item)
  }

  // ---------------------------------------------------------------------------
  // Properties of the resolver

  /** A core component is always CRITICAL "CORE COMPONENT", whatever its other fields
      and whatever has been completed. */
  lemma CoreAlwaysCritical(item: DbItem, completed: seq<string>)
    requires item.isCore
    ensures GetRecommendation(item, completed).kind == Critical
    ensures GetRecommendation(item, completed).labelText == "CORE COMPONENT"
    ensures GetRecommendation(item, completed) == GetRecommendation(item.(usage := None, recommendation := None), [])
  {
  }

  /** Otherwise an item a quest needs is CRITICAL "DO NOT SELL", keeping the quest's
      amount, whatever upgrades have been completed. */
  lemma QuestTier(item: DbItem, completed: seq<string>, other: seq<string>)
    requires !item.isCore && QuestNeeded(item)
    ensures var r := GetRecommendation(item, completed);
      r.kind == Critical && r.labelText == "DO NOT SELL" &&
      r.reason == "Required for Quest: " + item.usage.value.quest.value.details &&
      r.subtext == "Keep at least " + IntToString(item.usage.value.quest.value.amount)
    ensures GetRecommendation(item, completed) == GetRecommendation(item, other)
  {
  }

  /** Below the first two tiers the item is IMPORTANT exactly when one of its upgrade
      levels is not completed, and the amount it asks to keep is the total over the
      uncompleted levels only. */
  lemma UpgradeTier(item: DbItem, completed: seq<string>)
    requires !item.isCore && !QuestNeeded(item)
    ensures var r := GetRecommendation(item, completed);
      (r.kind == Important <==>
         exists u :: u in UpgradeList(item) && UserProgress.UpgradeKey(u.station, u.level) !in completed)
    ensures var r := GetRecommendation(item, completed);
      r.kind == Important ==>
        r.subtext == "Total needed: " + IntToString(TotalAmount(ActiveUpgrades(UpgradeList(item), completed)))
  {
    var active := ActiveUpgrades(UpgradeList(item), completed);
    ActiveUpgradesMembers(UpgradeList(item), completed);
    if exists u :: u in UpgradeList(item) && UserProgress.UpgradeKey(u.station, u.level) !in completed {
      var u :| u in UpgradeList(item) && UserProgress.UpgradeKey(u.station, u.level) !in completed;
      assert u in active;
    }
    ValueKinds(item);
  }

  /** With nothing completed every upgrade level is active, so the total is the
      item's whole upgrade demand. */
  lemma {:induction false} NothingCompletedAllActive(us: seq<UpgradeUsage>)
    ensures ActiveUpgrades(us, []) == us
  {
    if us != [] {
      var init, last := us[..|us| - 1], us[|us| - 1];
      NothingCompletedAllActive(init);
      assert us == init + [last];
      ActiveUpgradesAppend(init, [last], []);
      ActiveUpgradesSingle(last, []);
    }
  }

  /** With every level's key completed, no upgrade level is active. */
  lemma {:induction false} NoneActiveWhenAllCompleted(us: seq<UpgradeUsage>, completed: seq<string>)
    requires forall u :: u in us ==> UserProgress.UpgradeKey(u.station, u.level) in completed
    ensures ActiveUpgrades(us, completed) == []
  {
    if us != [] {
      var init := us[..|us| - 1];
      assert forall u :: u in init ==> u in us;
      NoneActiveWhenAllCompleted(init, completed);
    }
  }

  /** Once every upgrade level of the item is completed the upgrade tier no longer
      fires: the item falls through to the donor tier or to its value
      recommendation. */
  lemma AllCompletedFallsThrough(item: DbItem, completed: seq<string>)
    requires !item.isCore && !QuestNeeded(item)
    requires forall u :: u in UpgradeList(item) ==> UserProgress.UpgradeKey(u.station, u.level) in completed
    ensures GetRecommendation(item, completed)
              == if IsDonor(item) then DonorRecommendation(item) else ValueRecommendation(item)
    ensures GetRecommendation(item, completed).kind != Important
  {
    NoneActiveWhenAllCompleted(UpgradeList(item), completed);
    ValueKinds(item);
  }

  /** The explicit verdicts RECYCLE, SELL and EITHER give PROFIT, LIQUIDATE and
      NEUTRAL; without one the sign of recycle value minus sell price (missing values
      read as 0) decides; and no other type comes out. */
  lemma ValueKinds(item: DbItem)
    ensures var r := ValueRecommendation(item);
      && r.kind in {Profit, Liquidate, Neutral}
      && (item.recommendation == Some("RECYCLE") ==> r.kind == Profit)
      && (item.recommendation == Some("SELL") ==> r.kind == Liquidate)
      && (item.recommendation == Some("EITHER") ==> r.kind == Neutral)
      && (item.recommendation !in {Some("RECYCLE"), Some("SELL"), Some("EITHER")} ==>
            && (r.kind == Profit <==> Diff(item) > 0)
            && (r.kind == Liquidate <==> Diff(item) < 0)
            && (r.kind == Neutral <==> Diff(item) == 0))
  {
  }

  /** Below the upgrade tier a donor is STRATEGIC "RECYCLE ONLY" and every other item
      gets its value recommendation. */
  lemma LaterTiers(item: DbItem, completed: seq<string>)
    requires !item.isCore && !QuestNeeded(item)
    requires ActiveUpgrades(UpgradeList(item), completed) == []
    ensures var r := GetRecommendation(item, completed);
      && (r.kind == Strategic <==> IsDonor(item))
      && (IsDonor(item) ==> r.labelText == "RECYCLE ONLY")
      && (!IsDonor(item) ==> r == ValueRecommendation(item))
  {
    ValueKinds(item);
  }

  /** The label always matches the type: CRITICAL is a core component or a quest
      item, IMPORTANT keeps for an upgrade, STRATEGIC recycles only, PROFIT says
      RECYCLE, LIQUIDATE says SELL and NEUTRAL says NEUTRAL. */
  lemma LabelMatchesType(item: DbItem, completed: seq<string>)
    ensures var r := GetRecommendation(item, completed);
      && (r.kind == Critical <==> item.isCore || QuestNeeded(item))
      && (r.kind == Critical ==> r.labelText == "CORE COMPONENT" || r.labelText == "DO NOT SELL")
      && (r.kind == Important ==> r.labelText == "KEEP FOR UPGRADE")
      && (r.kind == Strategic ==> r.labelText == "RECYCLE ONLY")
      && (r.kind == Profit ==> r.labelText == "RECYCLE")
      && (r.kind == Liquidate ==> r.labelText == "SELL")
      && (r.kind == Neutral ==> r.labelText == "NEUTRAL")
  {
    if !item.isCore && !QuestNeeded(item) {
      var active := ActiveUpgrades(UpgradeList(item), completed);
      if |active| == 0 && !IsDonor(item) {
        ValueLabels(item);
      }
    }
  }

  lemma ValueLabels(item: DbItem)
    ensures var r := ValueRecommendation(item);
      && (r.kind == Profit ==> r.labelText == "RECYCLE")
      && (r.kind == Liquidate ==> r.labelText == "SELL")
      && (r.kind == Neutral ==> r.labelText == "NEUTRAL")
      && r.kind != Critical
  {
  }
}
