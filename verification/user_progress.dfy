/** The completed-upgrade store (src/services/userProgressService.js): a set of
    "station-level" keys persisted as one JSON record under a fixed storage key. */
module UserProgress {
  import opened JsText

  const STORAGE_KEY := "arc_raiders_progress_v1"

  /** What the store holds under the progress key, as `JSON.parse` sees it: nothing
      (a missing or empty value), text that does not parse to an object, or a parsed
      object whose `completedUpgrades` field may be missing. */
  datatype StoredProgress = Absent | Malformed | Record(completedUpgrades: Option<seq<string>>)

  /** `${station}-${level}`: the key under which an upgrade level is recorded. */
  function UpgradeKey(station: string, level: int): (k: string)
    ensures StartsWith(k, station) && |k| > |station| && k[|station|] == '-'
  {
    station + "-" + IntToString(level)
  }

  // ---------------------------------------------------------------------------
  // A JavaScript Set of strings, as the duplicate-free list of its members in
  // insertion order (the order `Array.from` writes them back in)

  predicate NoDuplicates(s: seq<string>) {
    forall i, j :: 0 <= i < j < |s| ==> s[i] != s[j]
  }

  /** `new Set(list)`: the first occurrence of each element, in order. */
  function Dedup(list: seq<string>): (r: seq<string>)
    ensures NoDuplicates(r)
    ensures forall x :: x in r <==> x in list
    ensures |r| <= |list|
  {
    if list == [] then []
    else
      var init := list[..|list| - 1];
      var last := list[|list| - 1];
      var d := Dedup(init);
      assert forall x :: x in list <==> x in init || x == last;
      if last in d then d else d + [last]
  }

  /** `set.add(key)`: unchanged when present, otherwise the key goes last. */
  function Added(s: seq<string>, key: string): (r: seq<string>)
    ensures forall x :: x in r <==> x in s || x == key
    ensures NoDuplicates(s) ==> NoDuplicates(r)
  {
    if key in s then s else s + [key]
  }

  /** `set.delete(key)`: the other members, in their order. */
  function Removed(s: seq<string>, key: string): (r: seq<string>)
    ensures forall x :: x in r <==> x in s && x != key
    ensures NoDuplicates(s) ==> NoDuplicates(r)
    ensures |r| <= |s|
  {
    if s == [] then []
    else
      var init := s[..|s| - 1];
      var last := s[|s| - 1];
      assert forall x :: x in s <==> x in init || x == last;
      assert NoDuplicates(s) ==> last !in init;
      if last == key then Removed(init, key) else Removed(init, key) + [last]
  }

  /** The set `getCompletedUpgrades` returns for a stored record. */
  function CompletedOf(stored: StoredProgress): seq<string> {
    match stored
    case Record(Some(list)) => Dedup(list)
    case _ => []
  }

  // ---------------------------------------------------------------------------
  // The service over its store

  class ProgressStore {
    /** The value under `STORAGE_KEY`. */
    var stored: StoredProgress

    constructor(initial: StoredProgress)
      ensures stored == initial
    {
      stored := initial;
    }

    /** `getCompletedUpgrades`: the recorded keys without duplicates; empty when
        nothing is stored, when the record does not parse, or when it has no list. */
    method GetCompletedUpgrades() returns (completed: seq<string>)
      ensures completed == CompletedOf(stored)
      ensures NoDuplicates(completed)
      ensures forall k :: k in completed <==>
                stored.Record? && stored.completedUpgrades.Some? && k in stored.completedUpgrades.value
    {
      match stored
      case Absent =>
        completed := [];
      case Malformed =>
        completed := [];
      case Record(list) =>
        completed := Dedup(if list.Some? then list.value else []);
    }

    /** `toggleUpgrade`: adds or deletes the key in the current set and writes the
        whole set back. A failed write is swallowed: the returned set is updated while
        the store keeps its old record. */
    method ToggleUpgrade(station: string, level: int, isComplete: bool, writeSucceeds: bool)
      returns (current: seq<string>)
      modifies this
      ensures var key := UpgradeKey(station, level);
        current == if isComplete then Added(old(CompletedOf(stored)), key)
                   else Removed(old(CompletedOf(stored)), key)
      ensures NoDuplicates(current)
      ensures forall k :: k in current <==>
                if k == UpgradeKey(station, level) then isComplete else k in old(CompletedOf(stored))
      ensures writeSucceeds ==> stored == Record(Some(current))
      ensures !writeSucceeds ==> stored == old(stored)
    {
      var key := UpgradeKey(station, level);
      current := GetCompletedUpgrades();
      if isComplete {
        current := Added(current, key);
      } else {
        current := Removed(current, key);
      }
      if writeSucceeds {
        stored := Record(Some(current));
      }
    }

    /** `isUpgradeComplete`: whether the stored set holds the upgrade's key. */
    method IsUpgradeComplete(station: string, level: int) returns (complete: bool)
      ensures complete <==> UpgradeKey(station, level) in CompletedOf(stored)
      ensures complete <==> stored.Record? && stored.completedUpgrades.Some? &&
                            UpgradeKey(station, level) in stored.completedUpgrades.value
    {
      var completed := GetCompletedUpgrades();
      complete := UpgradeKey(station, level) in completed;
    }
  }

  // ---------------------------------------------------------------------------
  // Properties

  /** Reading back a duplicate-free list through `new Set(...)` gives the same list,
      so after a successful write the next read returns exactly the set written. */
  lemma {:induction false} DedupOfDistinct(list: seq<string>)
    requires NoDuplicates(list)
    ensures Dedup(list) == list
  {
    if list != [] {
      var init := list[..|list| - 1];
      DedupOfDistinct(init);
      assert list == init + [list[|list| - 1]];
    }
  }

  /** After a successful toggle the store reads back as the returned set. */
  lemma ReadBackAfterWrite(current: seq<string>)
    requires NoDuplicates(current)
    ensures CompletedOf(Record(Some(current))) == current
  {
    DedupOfDistinct(current);
  }

  /** Deleting a key the set does not hold changes nothing. */
  lemma {:induction false} RemovedAbsent(s: seq<string>, key: string)
    requires key !in s
    ensures Removed(s, key) == s
  {
    if s != [] {
      var init := s[..|s| - 1];
      RemovedAbsent(init, key);
      assert s == init + [s[|s| - 1]];
    }
  }

  /** Toggling an absent key on and then off restores the original set, order
      included. */
  lemma ToggleOnThenOffRestores(s: seq<string>, key: string)
    requires key !in s
    ensures Removed(Added(s, key), key) == s
  {
    assert (s + [key])[..|s|] == s;
    RemovedAbsent(s, key);
  }

  /** Toggling on twice is the same as toggling on once. */
  lemma ToggleOnIdempotent(s: seq<string>, key: string)
    ensures Added(Added(s, key), key) == Added(s, key)
  {
  }

  /** Toggling off twice is the same as toggling off once. */
  lemma ToggleOffIdempotent(s: seq<string>, key: string)
    ensures Removed(Removed(s, key), key) == Removed(s, key)
  {
    RemovedAbsent(Removed(s, key), key);
  }

  /** A decimal numeral holds no '-'. */
  lemma NatToStringHasNoDash(n: nat)
    ensures '-' !in NatToString(n)
  {
  }

  /** The text after the last '-' of a key (all of it when there is none). */
  function AfterLastDash(k: string): (r: string)
    ensures '-' !in r
  {
    if k == [] || k[|k| - 1] == '-' then [] else AfterLastDash(k[..|k| - 1]) + [k[|k| - 1]]
  }

  /** A key ends in the digits that follow its last '-'. */
  lemma {:induction false} AfterLastDashOfKey(station: string, digits: string)
    requires '-' !in digits
    ensures AfterLastDash(station + "-" + digits) == digits
  {
    var k := station + "-" + digits;
    if digits != [] {
      var init := digits[..|digits| - 1];
      assert k[..|k| - 1] == station + "-" + init;
      AfterLastDashOfKey(station, init);
      assert digits == init + [digits[|digits| - 1]];
    }
  }

  /** A station, a '-' and a dash-free suffix can be taken apart again. */
  lemma SplitAtLastDash(a1: string, d1: string, a2: string, d2: string)
    requires '-' !in d1 && '-' !in d2
    requires a1 + "-" + d1 == a2 + "-" + d2
    ensures a1 == a2 && d1 == d2
  {
    AfterLastDashOfKey(a1, d1);
    AfterLastDashOfKey(a2, d2);
    var k := a1 + "-" + d1;
    assert a1 == k[..|a1|];
    assert a2 == k[..|a2|];
  }

  /** For non-negative levels the key identifies the upgrade: the text after its last
      '-' is the level, the text before it the station. */
  lemma UpgradeKeyInjective(s1: string, l1: int, s2: string, l2: int)
    requires l1 >= 0 && l2 >= 0
    requires UpgradeKey(s1, l1) == UpgradeKey(s2, l2)
    ensures s1 == s2 && l1 == l2
  {
    NatToStringHasNoDash(l1);
    NatToStringHasNoDash(l2);
    SplitAtLastDash(s1, NatToString(l1), s2, NatToString(l2));
    NatToStringRoundTrip(l1);
    NatToStringRoundTrip(l2);
  }

  /** A negative level breaks that: station "a-" at level 1 and station "a" at level
      -1 share the key "a--1". */
  lemma NegativeLevelKeysCollide()
    ensures UpgradeKey("a-", 1) == UpgradeKey("a", -1)
  {
  }
}
