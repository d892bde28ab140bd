/** The return-on-investment calculation that the snapshot job runs for every raw
    item (`calculateRoi` in api/update.js), and the identifier-to-label transform it
    shares with the quest and hideout transforms. */
module Roi {
  import opened JsText
  import ComponentPrices

  /** A raw item record as the content repository delivers it. `recyclesInto` is the
      recycling yield object, its entries in insertion order. */
  datatype RawItem = RawItem(
    id: Option<string>,
    name: Option<Text>,
    itemType: Option<string>,
    value: Option<int>,
    rarity: Option<string>,
    recyclesInto: Option<seq<(string, int)>>,
    imageFilename: Option<string>,
    weightKg: Option<real>,
    description: Option<Text>)

  /** What `calculateRoi` returns. */
  datatype RoiData = RoiData(recycleValue: int, roiPct: int, yieldText: string, recommendation: string)

  const RECYCLE := "RECYCLE"
  const SELL := "SELL"
  const NEUTRAL := "NEUTRAL"
  const RECYCLE_PRIORITY := "RECYCLE PRIORITY"

  /** `item.value || 0`: a missing (or zero) value sells for 0. */
  function SellPrice(item: RawItem): int {
    match item.value
    case Some(v) => v
    case None => 0
  }

  /** `Object.entries(item.recyclesInto || {})`. */
  function RecycleEntries(item: RawItem): seq<(string, int)> {
    match item.recyclesInto
    case Some(es) => es
    case None => []
  }

  // ---------------------------------------------------------------------------
  // Recycle value

  /** The sum of unit price times quantity over the recycling entries, an unknown
      component priced 0. */
  function RecycleValue(entries: seq<(string, int)>): int {
    if entries == [] then 0
    else
      var last := entries[|entries| - 1];
      RecycleValue(entries[..|entries| - 1]) + ComponentPrices.PriceOrZero(last.0) * last.1
  }

  /** The recycle value of two runs of entries is the sum of their values: the
      order in which the loop visits the entries does not matter for the total. */
  lemma {:induction false} RecycleValueAppend(a: seq<(string, int)>, b: seq<(string, int)>)
    ensures RecycleValue(a + b) == RecycleValue(a) + RecycleValue(b)
    decreases |b|
  {
    if b != [] {
      var b' := b[..|b| - 1];
      var last := b[|b| - 1];
      assert (a + b)[..|a + b| - 1] == a + b';
      assert (a + b)[|a + b| - 1] == last;
      RecycleValueAppend(a, b');
      assert RecycleValue(a + b) == RecycleValue(a + b') + ComponentPrices.PriceOrZero(last.0) * last.1;
      assert RecycleValue(b) == RecycleValue(b') + ComponentPrices.PriceOrZero(last.0) * last.1;
    } else {
      assert a + b == a;
    }
  }

  /** The entries whose component the price table knows. */
  function KnownEntries(entries: seq<(string, int)>): (r: seq<(string, int)>)
    ensures forall e :: e in r ==> e in entries && e.0 in ComponentPrices.JOB_COMPONENT_PRICES
    ensures forall e :: e in entries && e.0 in ComponentPrices.JOB_COMPONENT_PRICES ==> e in r
  {
    if entries == [] then []
    else
      var last := entries[|entries| - 1];
      assert forall e :: e in entries ==> e in entries[..|entries| - 1] || e == last;
      KnownEntries(entries[..|entries| - 1])
        + (if last.0 in ComponentPrices.JOB_COMPONENT_PRICES then [last] else [])
  }

  /** Components missing from the price table contribute nothing: dropping them
      leaves the recycle value unchanged. */
  lemma {:induction false} UnknownComponentsAddNothing(entries: seq<(string, int)>)
    ensures RecycleValue(KnownEntries(entries)) == RecycleValue(entries)
  {
    if entries != [] {
      var init := entries[..|entries| - 1];
      var last := entries[|entries| - 1];
      UnknownComponentsAddNothing(init);
      var tail := if last.0 in ComponentPrices.JOB_COMPONENT_PRICES then [last] else [];
      RecycleValueAppend(KnownEntries(init), tail);
    }
  }

  /** The total quantity of components an item recycles into. */
  function TotalQuantity(entries: seq<(string, int)>): int {
    if entries == [] then 0 else TotalQuantity(entries[..|entries| - 1]) + entries[|entries| - 1].1
  }

  /** With non-negative quantities the recycle value is between 0 and the most
      expensive component's price times the number of components. */
  lemma {:induction false} RecycleValueBounds(entries: seq<(string, int)>)
    requires forall i :: 0 <= i < |entries| ==> entries[i].1 >= 0
    ensures 0 <= RecycleValue(entries) <= ComponentPrices.MAX_PRICE * TotalQuantity(entries)
  {
    if entries != [] {
      var init := entries[..|entries| - 1];
      var last := entries[|entries| - 1];
      RecycleValueBounds(init);
      var p := ComponentPrices.PriceOrZero(last.0);
      assert 0 <= p * last.1 <= ComponentPrices.MAX_PRICE * last.1 by {
        assert 0 <= p <= ComponentPrices.MAX_PRICE && last.1 >= 0;
      }
    }
  }

  /** Wires priced 200 twice, plus an unknown part: 400. */
  lemma UnknownPartExample()
    ensures RecycleValue([("wires", 2), ("unknown_part", 5)]) == 400
  {
    var es := [("wires", 2), ("unknown_part", 5)];
    assert es[..1] == [("wires", 2)];
    assert [("wires", 2)][..0] == [];
  }

  // ---------------------------------------------------------------------------
  // ROI percentage and verdict

  /** `Math.round((rv - sp) / sp * 100)` in exact arithmetic, or 0 when the sell price
      is not positive. `Math.round` rounds half up, that is toward +infinity, which
      over the integers is the floor of `(200 * (rv - sp) + sp) / (2 * sp)`. */
  function RoiPct(rv: int, sp: int): (r: int)
    ensures sp <= 0 ==> r == 0
  {
    if sp > 0 then (200 * (rv - sp) + sp) / (2 * sp) else 0
  }

  /** For a positive sell price the percentage is the whole number nearest to
      100 * (rv - sp) / sp, halves rounded up: r - 1/2 <= 100 * (rv - sp) / sp < r + 1/2. */
  lemma RoiPctRoundsHalfUp(rv: int, sp: int)
    requires sp > 0
    ensures 2 * sp * RoiPct(rv, sp) - sp <= 200 * (rv - sp) < 2 * sp * RoiPct(rv, sp) + sp
  {
    var n := 200 * (rv - sp) + sp;
    var d := 2 * sp;
    var q := n / d;
    assert n == d * q + n % d && 0 <= n % d < d;
  }

  /** A positive multiple of `a` is at least `a`. */
  lemma MultipleAtLeast(a: int, m: int)
    requires a >= 0 && m >= 1
    ensures a * m >= a
  {
    assert a * m == a + a * (m - 1);
  }

  /** Only one integer lies within half a unit (halves rounded up) of the exact
      percentage, so `RoiPct` is the round-half-up of it and nothing else is. */
  lemma RoiPctIsTheOnlyRounding(rv: int, sp: int, k: int)
    requires sp > 0
    requires 2 * sp * k - sp <= 200 * (rv - sp) < 2 * sp * k + sp
    ensures k == RoiPct(rv, sp)
  {
    var r := RoiPct(rv, sp);
    RoiPctRoundsHalfUp(rv, sp);
    var d := 2 * sp;
    assert d * k - sp <= 200 * (rv - sp) < d * k + sp;
    assert d * r - sp <= 200 * (rv - sp) < d * r + sp;
    if k < r {
      ScaledGap(d, r, k);
      assert false;
    } else if k > r {
      ScaledGap(d, k, r);
      assert false;
    }
  }

  /** Two distinct multiples of `d` are at least `d` apart. */
  lemma ScaledGap(d: int, hi: int, lo: int)
    requires d >= 0 && hi > lo
    ensures d * hi - d * lo >= d
  {
    assert d * hi - d * lo == d * (hi - lo);
    MultipleAtLeast(d, hi - lo);
  }

  /** A positive percentage means recycling is worth more than selling, a negative
      one that it is worth less. */
  lemma RoiPctSign(rv: int, sp: int)
    ensures RoiPct(rv, sp) > 0 ==> rv > sp
    ensures RoiPct(rv, sp) < 0 ==> rv < sp
  {
    if sp > 0 {
      RoiPctRoundsHalfUp(rv, sp);
      var r := RoiPct(rv, sp);
      var d := 2 * sp;
      assert d * r - sp <= 200 * (rv - sp) < d * r + sp;
      if r > 0 {
        MultipleAtLeast(d, r);
      } else if r < 0 {
        MultipleAtLeast(d, -r);
        assert d * (-r) == -(d * r);
      }
    }
  }

  /** The verdict: RECYCLE, SELL or NEUTRAL by the sign of the percentage, replaced
      by RECYCLE PRIORITY for a Rare item whose recycle value beats its sell price. */
  function Verdict(roiPct: int, rarity: Option<string>, rv: int, sp: int): string {
    var base := if roiPct > 0 then RECYCLE else if roiPct < 0 then SELL else NEUTRAL;
    if rarity == Some("Rare") && rv > sp then RECYCLE_PRIORITY else base
  }

  // ---------------------------------------------------------------------------
  // Identifier to label

  /** `w.charAt(0).toUpperCase() + w.slice(1)`. */
  function Capitalize(w: string): (r: string)
    ensures |r| == |w|
  {
    if w == [] then [] else [ToUpper(w[0])] + w[1..]
  }

  function CapitalizeAll(parts: seq<string>): (r: seq<string>)
    ensures |r| == |parts|
  {
    if parts == [] then [] else [Capitalize(parts[0])] + CapitalizeAll(parts[1..])
  }

  /** `id.split('_').map(capitalize).join(' ')`: "arc_alloy" becomes "Arc Alloy". */
  function Label(id: string): string {
    Join(CapitalizeAll(Split(id, '_')), " ")
  }

  /** The same transform with the first segment left as it is. */
  function TailLabel(id: string): string {
    var parts := Split(id, '_');
    Join([parts[0]] + CapitalizeAll(parts[1..]), " ")
  }

  /** The character a label holds at position `i`: a space for each '_', the first
      letter of each segment upper-cased, every other character kept. */
  function LabelChar(id: string, i: int, capitalizeFirst: bool): char
    requires 0 <= i < |id|
  {
    if id[i] == '_' then ' '
    else if (i == 0 && capitalizeFirst) || (i > 0 && id[i - 1] == '_') then ToUpper(id[i])
    else id[i]
  }

  /** The split/capitalize/join transform is a character-by-character rewrite of
      the identifier: same length, '_' becomes ' ', and each segment's first
      character is upper-cased. */
  lemma {:induction false} LabelIsPointwise(id: string)
    ensures |Label(id)| == |id|
    ensures forall i :: 0 <= i < |id| ==> Label(id)[i] == LabelChar(id, i, true)
    ensures |TailLabel(id)| == |id|
    ensures forall i :: 0 <= i < |id| ==> TailLabel(id)[i] == LabelChar(id, i, false)
    decreases |id|
  {
    if id != [] {
      var c, t := id[0], id[1..];
      LabelIsPointwise(t);
      var parts := Split(t, '_');
      var rest := CapitalizeAll(parts);
      if c == '_' {
        assert Split(id, '_') == [""] + parts;
        assert ([""] + parts)[1..] == parts;
        assert CapitalizeAll([""] + parts) == [""] + rest;
        assert Join([""] + rest, " ") == " " + Label(t);
        assert Label(id) == " " + Label(t);
        assert TailLabel(id) == " " + Label(t);
      } else {
        var first := [c] + parts[0];
        assert Split(id, '_') == [first] + parts[1..];
        assert ([first] + parts[1..])[1..] == parts[1..];
        assert first[1..] == parts[0];
        assert Capitalize(first) == [ToUpper(c)] + parts[0];
        assert CapitalizeAll([first] + parts[1..]) == [Capitalize(first)] + CapitalizeAll(parts[1..]);
        JoinConsFirst([ToUpper(c)], parts[0], CapitalizeAll(parts[1..]), " ");
        JoinConsFirst([c], parts[0], CapitalizeAll(parts[1..]), " ");
        assert Label(id) == [ToUpper(c)] + TailLabel(t);
        assert TailLabel(id) == [c] + TailLabel(t);
      }
      forall i | 0 < i < |id|
        ensures LabelChar(id, i, true) == LabelChar(t, i - 1, c == '_')
        ensures LabelChar(id, i, false) == LabelChar(t, i - 1, c == '_')
      {
        assert id[i] == t[i - 1];
        if i > 1 { assert id[i - 1] == t[i - 2]; }
      }
    }
  }

  // ---------------------------------------------------------------------------
  // The calculation

  /** One "Label (+qty)" entry of the yields text. */
  function YieldPart(entry: (string, int)): (r: string)
    ensures r != ""
  {
    Label(entry.0) + " (+" + IntToString(entry.1) + ")"
  }

  /** The yields list the loop builds: one part per recycling entry, in entry order. */
  function YieldParts(entries: seq<(string, int)>): (r: seq<string>)
    ensures |r| == |entries|
  {
    if entries == [] then []
    else YieldParts(entries[..|entries| - 1]) + [YieldPart(entries[|entries| - 1])]
  }

  /** What `calculateRoi(item)` returns. */
  function RoiOf(item: RawItem): RoiData {
    var entries := RecycleEntries(item);
    var rv := RecycleValue(entries);
    var sp := SellPrice(item);
    var pct := RoiPct(rv, sp);
    RoiData(rv, pct, Join(YieldParts(entries), ", "), Verdict(pct, item.rarity, rv, sp))
  }

  /** Extending the visited prefix by one entry adds that entry's price times quantity
      to the value and its part to the yields list. */
  lemma PrefixStep(entries: seq<(string, int)>, i: int)
    requires 0 <= i < |entries|
    ensures RecycleValue(entries[..i + 1])
              == RecycleValue(entries[..i]) + ComponentPrices.PriceOrZero(entries[i].0) * entries[i].1
    ensures YieldParts(entries[..i + 1]) == YieldParts(entries[..i]) + [YieldPart(entries[i])]
  {
    assert entries[..i + 1][..i] == entries[..i];
  }

  /** `calculateRoi`: one pass over the recycling entries accumulating the value and
      the yields list, then the percentage and the verdict. */
  method CalculateRoi(item: RawItem) returns (r: RoiData)
    ensures r == RoiOf(item)
  {
    var sellPrice := SellPrice(item);
    var entries := RecycleEntries(item);
    var recycleValue := 0;
    var yieldsList: seq<string> := [];
    var i := 0;
    while i < |entries|
      invariant 0 <= i <= |entries|
      invariant recycleValue == RecycleValue(entries[..i])
      invariant yieldsList == YieldParts(entries[..i])
    {
      var (compKey, qty) := entries[i];
      var price := ComponentPrices.PriceOrZero(compKey);
      PrefixStep(entries, i);
      recycleValue := recycleValue + price * qty;
      yieldsList := yieldsList + [YieldPart(entries[i])];
      i := i + 1;
    }
    assert entries[..i] == entries;
    var roiPct := 0;
    if sellPrice > 0 {
      roiPct := (200 * (recycleValue - sellPrice) + sellPrice) / (2 * sellPrice);
    }
    var recommendation := NEUTRAL;
    if roiPct > 0 {
      recommendation := RECYCLE;
    } else if roiPct < 0 {
      recommendation := SELL;
    }
    if item.rarity == Some("Rare") && recycleValue > sellPrice {
      recommendation := RECYCLE_PRIORITY;
    }
    r := RoiData(recycleValue, roiPct, Join(yieldsList, ", "), recommendation);
  }

  // ---------------------------------------------------------------------------
  // Properties of the calculation

  /** The percentage is 0 whenever the item has no positive sell price. */
  lemma NoPriceNoRoi(item: RawItem)
    requires SellPrice(item) <= 0
    ensures RoiOf(item).roiPct == 0
  {
  }

  /** The verdict agrees with the values: RECYCLE PRIORITY exactly for a Rare item
      worth more recycled than sold; otherwise RECYCLE only when recycling is worth
      more, SELL only when it is worth less, NEUTRAL exactly for a zero percentage. */
  lemma VerdictAgreesWithValues(item: RawItem)
    ensures var d := RoiOf(item);
      && (d.recommendation == RECYCLE_PRIORITY <==>
            item.rarity == Some("Rare") && d.recycleValue > SellPrice(item))
      && (d.recommendation == RECYCLE ==> d.roiPct > 0 && d.recycleValue > SellPrice(item))
      && (d.recommendation == SELL ==> d.roiPct < 0 && d.recycleValue < SellPrice(item))
      && (d.recommendation == NEUTRAL ==> d.roiPct == 0)
      && d.recommendation in {RECYCLE, SELL, NEUTRAL, RECYCLE_PRIORITY}
  {
    var d := RoiOf(item);
    RoiPctSign(d.recycleValue, SellPrice(item));
  }

  /** A Rare item selling for 100 that recycles into 150 worth of parts: the
      percentage says RECYCLE (+50%), the rarity rule makes it RECYCLE PRIORITY. */
  lemma RarePriorityExample()
    ensures RoiPct(150, 100) == 50
    ensures Verdict(50, Some("Rare"), 150, 100) == RECYCLE_PRIORITY
    ensures Verdict(50, None, 150, 100) == RECYCLE
  {
  }

  /** The yields text is empty exactly when the item recycles into nothing. */
  lemma YieldsEmptyIffNoEntries(item: RawItem)
    ensures RoiOf(item).yieldText == "" <==> RecycleEntries(item) == []
  {
    var entries := RecycleEntries(item);
    if entries != [] {
      var parts := YieldParts(entries);
      assert parts[|parts| - 1] == YieldPart(entries[|entries| - 1]);
      JoinNonEmpty(parts, ", ");
    }
  }
}
