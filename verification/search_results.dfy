/** The search result list (src/components/SearchResults.jsx): each result paired
    with its recommendation, and the keyboard selection over the list. */
module SearchResults {
  import opened JsText
  import DataService

  type DbItem = DataService.DbItem

  /** A processed result, `{...item, recommendation}`: a copy of the item's fields in
      which the spread's last key overwrites the item's own `recommendation` verdict
      string with the recommendation object. `getRecommendation` only compares that
      field with verdict strings, and an object equals none of them, so in `item` the
      overwritten field is `None`. */
  datatype ProcessedResult = ProcessedResult(item: DbItem, recommendation: DataService.Recommendation)

  /** `processedResults`: every result with `getRecommendation(item, completedUpgrades,
      completedQuests)`, which reads only the completed upgrades, stored over the
      item's own verdict. */
  function ProcessedResults(results: seq<DbItem>, completedUpgrades: seq<string>, completedQuests: seq<string>): (r: seq<ProcessedResult>)
    ensures |r| == |results|
    ensures forall i :: 0 <= i < |r| ==> r[i].recommendation == DataService.GetRecommendation(results[i], completedUpgrades)
    ensures forall i :: 0 <= i < |r| ==> r[i].item == results[i].(recommendation := None)
    ensures forall i :: 0 <= i < |r| && results[i].isCore ==> r[i].recommendation.kind == DataService.Critical
  {
    seq(|results|, i requires 0 <= i < |results| =>
      ProcessedResult(results[i].(recommendation := None), DataService.GetRecommendation(results[i], completedUpgrades)))
  }

  /** The completed quests make no difference to the list. */
  lemma QuestsIgnored(results: seq<DbItem>, completedUpgrades: seq<string>, q1: seq<string>, q2: seq<string>)
    ensures ProcessedResults(results, completedUpgrades, q1) == ProcessedResults(results, completedUpgrades, q2)
  {
  }

  /** The keys `handleKeyDown` reacts to; every other key is `Other`. */
  datatype Key = ArrowDown | ArrowUp | Enter | Escape | Other

  /** The index update a key makes on a non-empty list of `len` results: down moves
      on but stops at the last result, up moves back but stops at the first (and
      goes from no selection to the first), Escape clears the selection. */
  function NextIndex(key: Key, prev: int, len: int): (next: int)
    ensures len >= 1 && -1 <= prev <= len - 1 ==> -1 <= next <= len - 1
    ensures key == ArrowDown ==> (next == prev + 1 <==> prev < len - 1) && (next == prev <==> prev >= len - 1)
    ensures key == ArrowUp ==> next >= 0 && (prev > 0 ==> next == prev - 1) && (prev <= 0 ==> next == 0)
    ensures key == Escape ==> next == -1
    ensures key == Enter || key == Other ==> next == prev
  {
    match key
    case ArrowDown => if prev < len - 1 then prev + 1 else prev
    case ArrowUp => if prev > 0 then prev - 1 else 0
    case Escape => -1
    case _ => prev
  }

  /** What Enter hands to `onSelect`: the selected result, or the only result when
      there is exactly one, or nothing. */
  function EnterChoice(results: seq<DbItem>, selectedIndex: int): (r: Option<DbItem>)
    ensures r.Some? <==> 0 <= selectedIndex < |results| || |results| == 1
    ensures 0 <= selectedIndex < |results| ==> r == Some(results[selectedIndex])
    ensures r.Some? ==> r.value in results
  {
    if 0 <= selectedIndex < |results| then Some(results[selectedIndex])
    else if |results| == 1 then Some(results[0])
    else None
  }

  /** The list's selection state: the raw results and the selected index, -1 for
      none. */
  class SearchSelection {
    var results: seq<DbItem>
    var selectedIndex: int

    /** The index is -1 or the position of a result. */
    predicate Valid()
      reads this
    {
      -1 <= selectedIndex <= |results| - 1
    }

    constructor(results0: seq<DbItem>)
      ensures results == results0 && selectedIndex == -1
      ensures Valid()
    {
      results := results0;
      selectedIndex := -1;
    }

    /** The effect on `results`: a new list clears the selection. */
    method SetResults(newResults: seq<DbItem>)
      modifies this
      ensures results == newResults && selectedIndex == -1
      ensures Valid()
    {
      results := newResults;
      selectedIndex := -1;
    }

    /** A click on row `index`, handing `onSelect` the result itself, as Enter does,
        so the item card recomputes exactly the recommendation the row shows. */
    method Click(index: int, completedUpgrades: seq<string>, completedQuests: seq<string>) returns (selected: DbItem)
      requires 0 <= index < |results|
      ensures selected == results[index]
      ensures DataService.GetRecommendation(selected, completedUpgrades)
              == ProcessedResults(results, completedUpgrades, completedQuests)[index].recommendation
      ensures EnterChoice(results, index) == Some(selected)
    {
      selected := results[index];
    }

    /** `handleKeyDown`: nothing happens on an empty list; otherwise the key updates
        the index, and Enter also hands a result to `onSelect` (returned here). */
    method HandleKeyDown(key: Key) returns (selected: Option<DbItem>)
      requires Valid()
      modifies this
      ensures Valid()
      ensures results == old(results)
      ensures old(results) == [] ==> selectedIndex == old(selectedIndex) && selected == None
      ensures old(results) != [] ==> selectedIndex == NextIndex(key, old(selectedIndex), |results|)
      ensures selected == if key == Enter && old(results) != [] then EnterChoice(results, old(selectedIndex)) else None
    {
      selected := None;
      if |results| == 0 {
        return;
      }
      if key == Enter {
        selected := EnterChoice(results, selectedIndex);
      }
      selectedIndex := NextIndex(key, selectedIndex, |results|);
    }
  }

  /** An item without one of the five verdicts the resolver tests for gets the same
      recommendation from its processed copy as from itself. */
  lemma ProcessedCopyWithoutVerdict(item: DbItem, completedUpgrades: seq<string>)
    requires item.recommendation.None? ||
             item.recommendation.value !in ["RECYCLE PRIORITY", "PRIORITY DONOR", "RECYCLE", "SELL", "EITHER"]
    ensures DataService.GetRecommendation(item.(recommendation := None), completedUpgrades)
            == DataService.GetRecommendation(item, completedUpgrades)
  {
    var copy := item.(recommendation := None);
    assert DataService.UpgradeList(copy) == DataService.UpgradeList(item);
    assert !DataService.IsDonor(copy) && !DataService.IsDonor(item);
    assert DataService.ValueRecommendation(copy) == DataService.ValueRecommendation(item);
  }

  /** A donor item: not a core component, used by no quest or upgrade, marked
      "RECYCLE PRIORITY", worth 150 recycled against a sell price of 100. */
  const DONOR_EXAMPLE: DbItem := DataService.DbItem("Rusted Gear", false, None, Some("RECYCLE PRIORITY"),
    Some(150), Some(100), Some(50), Some("2x Metal Parts"), None)

  /** A click hands `onSelect` the processed copy, whose verdict was overwritten: the
      card recomputes a PROFIT recommendation for the donor whose row shows STRATEGIC,
      while Enter, which hands over the raw result, keeps STRATEGIC. */
  lemma ClickedDonorLosesVerdict()
    ensures var row := ProcessedResults([DONOR_EXAMPLE], [], [])[0];
      && row.recommendation.kind == DataService.Strategic
      && DataService.GetRecommendation(row.item, []).kind == DataService.Profit
      && EnterChoice([DONOR_EXAMPLE], -1) == Some(DONOR_EXAMPLE)
      && DataService.GetRecommendation(DONOR_EXAMPLE, []).kind == DataService.Strategic
  {
    var row := ProcessedResults([DONOR_EXAMPLE], [], [])[0];
    assert DataService.UpgradeList(DONOR_EXAMPLE) == [];
    assert DataService.UpgradeList(row.item) == [];
  }

  /** From no selection, down selects the first result and up does too. */
  lemma FirstKeyPressSelectsFirst(len: int)
    requires len >= 1
    ensures NextIndex(ArrowDown, -1, len) == 0
    ensures NextIndex(ArrowUp, -1, len) == 0
  {
  }

  /** Down then up returns to a selected result that is not the last one. */
  lemma DownThenUp(prev: int, len: int)
    requires 0 <= prev < len - 1
    ensures NextIndex(ArrowUp, NextIndex(ArrowDown, prev, len), len) == prev
  {
  }

  /** The index after pressing `key` `n` times. */
  function Presses(key: Key, prev: int, len: int, n: nat): int {
    if n == 0 then prev else NextIndex(key, Presses(key, prev, len, n - 1), len)
  }

  /** Pressing down `n` times from any valid index selects result
      min(prev + n, len - 1). */
  lemma {:induction false} RepeatedDown(prev: int, len: int, n: nat)
    requires len >= 1 && -1 <= prev <= len - 1
    ensures Presses(ArrowDown, prev, len, n) == if prev + n <= len - 1 then prev + n else len - 1
  {
    if n > 0 {
      RepeatedDown(prev, len, n - 1);
    }
  }
}
