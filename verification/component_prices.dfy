/** The static sell price of each raw crafting component (src/data/componentPrices.js),
    and the copy of the same table that the snapshot job carries (api/update.js). */
module ComponentPrices {

  /** `COMPONENT_PRICES` as the client bundles it. */
  const COMPONENT_PRICES: map<string, int> := map[
    // Essentials / base materials
    "metal_parts" := 75,
    "plastic_parts" := 60,
    "fabric" := 50,
    "chemicals" := 50,
    "rubber_parts" := 50,
    // Resources and tech
    "wires" := 200,
    "arc_alloy" := 200,
    "battery" := 250,
    "steel_spring" := 300,
    "oil" := 300,
    "duct_tape" := 300,
    "magnet" := 330,
    // High value components
    "electrical_components" := 640,
    "mechanical_components" := 640,
    "explosive_compound" := 1000,
    "processor" := 500,
    "voltage_converter" := 500,
    // Advanced / rare
    "advanced_electrical_components" := 1750,
    "advanced_mechanical_components" := 1750,
    // Fallbacks
    "scrap" := 1,
    "organic_matter" := 10
  ]

  /** The copy of the table inlined in the snapshot job, written as there, several entries per line. */
  const JOB_COMPONENT_PRICES: map<string, int> := map[
    "metal_parts" := 75, "plastic_parts" := 60, "fabric" := 50, "chemicals" := 50, "rubber_parts" := 50,
    "wires" := 200, "arc_alloy" := 200, "battery" := 250, "steel_spring" := 300, "oil" := 300, "duct_tape" := 300, "magnet" := 330,
    "electrical_components" := 640, "mechanical_components" := 640, "explosive_compound" := 1000, "processor" := 500, "voltage_converter" := 500,
    "advanced_electrical_components" := 1750, "advanced_mechanical_components" := 1750,
    "scrap" := 1, "organic_matter" := 10
  ]

  const MIN_PRICE := 1
  const MAX_PRICE := 1750

  /** `COMPONENT_PRICES[key] || 0` as the snapshot job reads it: an unknown component is worth 0. */
  function PriceOrZero(key: string): (p: int)
    ensures 0 <= p <= MAX_PRICE
  {
    PricesInRange();
    TablesAgree();
    if key in JOB_COMPONENT_PRICES then JOB_COMPONENT_PRICES[key] else 0
  }

  /** A listed component is worth its table price; a component absent from the table
      has no price, and the job counts it as 0, the only price no listed component has. */
  lemma PriceOrZeroSpec(key: string)
    ensures key in COMPONENT_PRICES ==> PriceOrZero(key) == COMPONENT_PRICES[key] >= MIN_PRICE
    ensures key !in COMPONENT_PRICES ==> PriceOrZero(key) == 0
  {
    TablesAgree();
    PricesInRange();
  }

  /** The component names in the order the table lists them. */
  const COMPONENT_NAMES: seq<string> := [
    "metal_parts", "plastic_parts", "fabric", "chemicals", "rubber_parts",
    "wires", "arc_alloy", "battery", "steel_spring", "oil", "duct_tape", "magnet",
    "electrical_components", "mechanical_components", "explosive_compound", "processor", "voltage_converter",
    "advanced_electrical_components", "advanced_mechanical_components",
    "scrap", "organic_matter"]

  /** The table prices exactly the 21 listed components, each listed once. */
  lemma TableSize()
    ensures COMPONENT_PRICES.Keys == set n | n in COMPONENT_NAMES
    ensures |COMPONENT_PRICES| == |COMPONENT_NAMES| == 21
  {
    NamesDistinct();
    DistinctCard(COMPONENT_NAMES);
    assert COMPONENT_PRICES.Keys == set n | n in COMPONENT_NAMES;
    assert |COMPONENT_PRICES| == |COMPONENT_PRICES.Keys|;
  }

  lemma NamesDistinct()
    ensures forall i, j :: 0 <= i < j < |COMPONENT_NAMES| ==> COMPONENT_NAMES[i] != COMPONENT_NAMES[j]
  {
  }

  /** A list without repeats has as many members as entries. */
  lemma {:induction false} DistinctCard(names: seq<string>)
    requires forall i, j :: 0 <= i < j < |names| ==> names[i] != names[j]
    ensures |set n | n in names| == |names|
  {
    if names != [] {
      var rest := names[1..];
      DistinctCard(rest);
      assert names[0] !in rest by {
        forall k | 0 <= k < |rest| ensures rest[k] != names[0] {
          assert rest[k] == names[k + 1];
        }
      }
      assert (set n | n in names) == {names[0]} + (set n | n in rest);
    }
  }

  /** The job's copy has the same components at the same prices as the client's table. */
  lemma TablesAgree()
    ensures JOB_COMPONENT_PRICES == COMPONENT_PRICES
  {
  }

  /** Every price is a positive integer between scrap's 1 and the advanced components' 1750,
      and both bounds are reached. */
  lemma PricesInRange()
    ensures forall k :: k in COMPONENT_PRICES ==> MIN_PRICE <= COMPONENT_PRICES[k] <= MAX_PRICE
    ensures COMPONENT_PRICES["scrap"] == MIN_PRICE
    ensures COMPONENT_PRICES["advanced_electrical_components"] == MAX_PRICE
    ensures COMPONENT_PRICES["advanced_mechanical_components"] == MAX_PRICE
  {
  }

  /** Scrap is the only component at the minimum price, and the two advanced components
      are the only ones at the maximum. */
  lemma ExtremesAreUnique()
    ensures forall k :: k in COMPONENT_PRICES && COMPONENT_PRICES[k] == MIN_PRICE ==> k == "scrap"
    ensures forall k :: k in COMPONENT_PRICES && COMPONENT_PRICES[k] == MAX_PRICE ==>
              k == "advanced_electrical_components" || k == "advanced_mechanical_components"
  {
  }
}
