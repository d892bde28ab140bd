/** The offline cache of the published database (src/services/storageService.js): the
    three cached texts, the bounded retrying download, and the refresh that writes
    the cache only after a download has succeeded. */
module Storage {
  import opened JsText

  const ITEMS_KEY := "arc_raiders_items_v1"
  const QUESTS_KEY := "arc_raiders_quests_v1"
  const UPGRADES_KEY := "arc_raiders_upgrades_v1"

  const MAX_ATTEMPTS := 3
  const BASE_DELAY_MS := 1000

  /** A text `JSON.stringify` writes for a value: never empty, and never the word
      `undefined`, which is not JSON. */
  type JsonText = s: string | s != "" && s != "undefined" witness "null"

  /** The published document as `response.json()` reads it: the JSON text of each of
      its three sections, or nothing when the document lacks that section. */
  datatype Snapshot = Snapshot(items: Option<JsonText>, quests: Option<JsonText>, upgrades: Option<JsonText>)

  /** What `setItem(key, JSON.stringify(section))` stores: the section's text, or, for
      a missing section, the `undefined` that `JSON.stringify` returns, which
      `setItem` stores as the text "undefined". The stored text is never empty, and
      it tells whether the section was there. */
  function Stored(section: Option<JsonText>): (t: string)
    ensures t != ""
    ensures section.Some? <==> t != "undefined"
    ensures section.Some? ==> t == section.value
  {
    if section.Some? then section.value else "undefined"
  }

  /** What one `fetch` does: a response (its `ok` flag, its status, and what reading
      its body as JSON gives), or a thrown network error. */
  datatype FetchOutcome =
    | Received(ok: bool, status: int, body: Result<Snapshot>)
    | Thrown(message: string)

  predicate Succeeded(o: FetchOutcome) {
    o.Received? && o.ok
  }

  /** The message of the error an unsuccessful fetch raises: a non-ok response is
      turned into an error of its own. */
  function ErrorMessage(o: FetchOutcome): string {
    match o
    case Received(_, status, _) => HttpError(status)
    case Thrown(message) => message
  }

  function HttpError(status: int): string {
    "HTTP " + IntToString(status) + ": Failed to load database"
  }

  function Pow2(n: nat): (r: nat)
    ensures r >= 1
  {
    if n == 0 then 1 else 2 * Pow2(n - 1)
  }

  /** `baseDelayMs * Math.pow(2, attempt - 1)`. */
  function Delay(attempt: int): int
    requires attempt >= 1
  {
    BASE_DELAY_MS * Pow2(attempt - 1)
  }

  /** The progress text shown before waiting. */
  function RetryMessage(attempt: int, delayMs: int): string {
    "Retry " + IntToString(attempt) + "/" + IntToString(MAX_ATTEMPTS) + " in " + IntToString(delayMs / 1000) + "s..."
  }

  /** The number of fetches a run starting at `attempt` may make. */
  function AttemptsLeft(attempt: int): nat {
    if attempt >= MAX_ATTEMPTS then 1 else MAX_ATTEMPTS - attempt + 1
  }

  /** What a call of `fetchWithRetry` does: its outcome, how many fetches it made, the
      progress texts it reported and the waits it made, in order. */
  datatype RetryRun = RetryRun(result: Result<FetchOutcome>, fetches: nat, progress: seq<string>, delaysMs: seq<int>)

  /** `fetchWithRetry(url, onProgress, attempt)`, the outcomes of the successive fetches
      given in advance. The first successful response is returned at once; after a
      failure at the last attempt the error names the attempt count and the cause;
      otherwise it reports, waits 1000 * 2^(attempt-1) ms and tries again. */
  function FetchWithRetry(outcomes: seq<FetchOutcome>, attempt: int): (run: RetryRun)
    requires attempt >= 1 && |outcomes| >= AttemptsLeft(attempt)
    ensures 1 <= run.fetches <= AttemptsLeft(attempt)
    ensures |run.delaysMs| == |run.progress| == run.fetches - 1
    ensures run.result.Ok? <==> Succeeded(outcomes[run.fetches - 1])
    ensures run.result.Ok? ==> run.result.value == outcomes[run.fetches - 1]
    ensures run.result.Err? ==> attempt + run.fetches - 1 >= MAX_ATTEMPTS
    decreases MAX_ATTEMPTS - attempt
  {
    var o := outcomes[0];
    if Succeeded(o) then RetryRun(Ok(o), 1, [], [])
    else if attempt >= MAX_ATTEMPTS then
      RetryRun(Err(Exhausted(attempt, o)), 1, [], [])
    else
      var delayMs := Delay(attempt);
      var rest := FetchWithRetry(outcomes[1..], attempt + 1);
      RetryRun(rest.result, rest.fetches + 1, [RetryMessage(attempt, delayMs)] + rest.progress, [delayMs] + rest.delaysMs)
  }

  /** The error a run gives up with. */
  function Exhausted(attempt: int, o: FetchOutcome): string {
    "Failed after " + IntToString(attempt) + " attempts: " + ErrorMessage(o)
  }

  /** A run retries only after failures: every fetch before the last one failed. */
  lemma {:induction false} RetriesFollowFailures(outcomes: seq<FetchOutcome>, attempt: int, k: int)
    requires attempt >= 1 && |outcomes| >= AttemptsLeft(attempt)
    requires 0 <= k < FetchWithRetry(outcomes, attempt).fetches - 1
    ensures !Succeeded(outcomes[k])
    decreases MAX_ATTEMPTS - attempt
  {
    if k > 0 {
      RetriesFollowFailures(outcomes[1..], attempt + 1, k - 1);
    }
  }

  /** The k-th wait of a run is 1000 * 2^(attempt+k-1) ms, and it is announced as
      "Retry <attempt+k>/3 in <seconds>s...". */
  lemma {:induction false} RetrySchedule(outcomes: seq<FetchOutcome>, attempt: int, k: int)
    requires attempt >= 1 && |outcomes| >= AttemptsLeft(attempt)
    requires 0 <= k < |FetchWithRetry(outcomes, attempt).delaysMs|
    ensures FetchWithRetry(outcomes, attempt).delaysMs[k] == Delay(attempt + k)
    ensures FetchWithRetry(outcomes, attempt).progress[k] == RetryMessage(attempt + k, Delay(attempt + k))
    decreases MAX_ATTEMPTS - attempt
  {
    if k > 0 {
      RetrySchedule(outcomes[1..], attempt + 1, k - 1);
    }
  }

  /** A run that fails gives up at its last fetch, naming the number of attempts made
      and that fetch's error. */
  lemma {:induction false} FailureMessage(outcomes: seq<FetchOutcome>, attempt: int)
    requires attempt >= 1 && |outcomes| >= AttemptsLeft(attempt)
    requires FetchWithRetry(outcomes, attempt).result.Err?
    ensures var run := FetchWithRetry(outcomes, attempt);
      run.result.error == Exhausted(attempt + run.fetches - 1, outcomes[run.fetches - 1])
    decreases MAX_ATTEMPTS - attempt
  {
    if !Succeeded(outcomes[0]) && attempt < MAX_ATTEMPTS {
      FailureMessage(outcomes[1..], attempt + 1);
    }
  }

  /** A download makes at most three fetches, and it stops at the first success. */
  lemma AtMostThreeFetches(outcomes: seq<FetchOutcome>)
    requires |outcomes| >= MAX_ATTEMPTS
    ensures FetchWithRetry(outcomes, 1).fetches <= MAX_ATTEMPTS
    ensures Succeeded(outcomes[0]) ==> FetchWithRetry(outcomes, 1) == RetryRun(Ok(outcomes[0]), 1, [], [])
  {
  }

  /** When all three fetches fail the run waits 1 s and then 2 s, reporting each wait,
      and fails naming three attempts and the last cause. */
  lemma ExhaustedSchedule(outcomes: seq<FetchOutcome>)
    requires |outcomes| >= MAX_ATTEMPTS
    requires !Succeeded(outcomes[0]) && !Succeeded(outcomes[1]) && !Succeeded(outcomes[2])
    ensures var run := FetchWithRetry(outcomes, 1);
      && run.fetches == 3
      && run.delaysMs == [1000, 2000]
      && run.progress == [RetryMessage(1, 1000), RetryMessage(2, 2000)]
      && run.result == Err(Exhausted(3, outcomes[2]))
  {
    var third := FetchWithRetry(outcomes[2..], 3);
    assert outcomes[2..][0] == outcomes[2];
    assert third == RetryRun(Err(Exhausted(3, outcomes[2])), 1, [], []);
    assert outcomes[1..][1..] == outcomes[2..];
    assert outcomes[1..][0] == outcomes[1];
    var second := FetchWithRetry(outcomes[1..], 2);
    assert Delay(2) == 2000;
    assert second == RetryRun(third.result, 2, [RetryMessage(2, 2000)], [2000]);
    assert Delay(1) == 1000;
  }

  /** A response that is not ok is handled exactly like a thrown error carrying the
      same message. */
  lemma NotOkIsLikeThrown(o: FetchOutcome, rest: seq<FetchOutcome>, attempt: int)
    requires o.Received? && !o.ok
    requires attempt >= 1 && |rest| + 1 >= AttemptsLeft(attempt)
    ensures FetchWithRetry([o] + rest, attempt) == FetchWithRetry([Thrown(HttpError(o.status))] + rest, attempt)
  {
    assert ([o] + rest)[1..] == rest;
    assert ([Thrown(HttpError(o.status))] + rest)[1..] == rest;
  }

  /** The cache: the three stored texts, each possibly absent. */
  class SnapshotCache {
    var items: Option<string>
    var quests: Option<string>
    var upgrades: Option<string>

    constructor(items0: Option<string>, quests0: Option<string>, upgrades0: Option<string>)
      ensures items == items0 && quests == quests0 && upgrades == upgrades0
    {
      items, quests, upgrades := items0, quests0, upgrades0;
    }

    /** `hasData`: all three texts are present and non-empty. */
    predicate HasData()
      reads this
    {
      Present(items) && Present(quests) && Present(upgrades)
    }

    /** The text `getItems` parses: the stored one, or "[]". */
    function ItemsText(): (t: string)
      reads this
      ensures Present(items) ==> t == items.value
      ensures !Present(items) ==> t == "[]"
    {
      if Present(items) then items.value else "[]"
    }

    /** The text `getQuests` parses: the stored one, or "[]". */
    function QuestsText(): (t: string)
      reads this
      ensures Present(quests) ==> t == quests.value
      ensures !Present(quests) ==> t == "[]"
    {
      if Present(quests) then quests.value else "[]"
    }

    /** The text `getUpgrades` parses: the stored one, or "{}". */
    function UpgradesText(): (t: string)
      reads this
      ensures Present(upgrades) ==> t == upgrades.value
      ensures !Present(upgrades) ==> t == "{}"
    {
      if Present(upgrades) then upgrades.value else "{}"
    }

    /** `updateData(onProgress)`: reports the start, downloads with retries, reads the
        body, and only then writes the three texts and reports "Ready!". Any failure
        is rethrown with nothing written. */
    method UpdateData(outcomes: seq<FetchOutcome>) returns (result: Result<bool>, progress: seq<string>)
      requires |outcomes| >= MAX_ATTEMPTS
      modifies this
      ensures var run := FetchWithRetry(outcomes, 1);
        result.Ok? <==> run.result.Ok? && run.result.value.body.Ok?
      ensures result.Ok? ==> result.value
      ensures result.Ok? ==>
        var snapshot := FetchWithRetry(outcomes, 1).result.value.body.value;
        items == Some(Stored(snapshot.items)) && quests == Some(Stored(snapshot.quests)) && upgrades == Some(Stored(snapshot.upgrades))
      ensures result.Ok? ==> HasData()
      ensures result.Err? ==> items == old(items) && quests == old(quests) && upgrades == old(upgrades)
      ensures FetchWithRetry(outcomes, 1).result.Err? ==> result == Err(FetchWithRetry(outcomes, 1).result.error)
      ensures var run := FetchWithRetry(outcomes, 1);
        run.result.Ok? && run.result.value.body.Err? ==> result == Err(run.result.value.body.error)
      ensures |progress| >= 1 && progress[0] == "Downloading database..."
      ensures progress[1..] == FetchWithRetry(outcomes, 1).progress + (if result.Ok? then ["Ready!"] else [])
    {
      progress := ["Downloading database..."];
      var run := FetchWithRetry(outcomes, 1);
      progress := progress + run.progress;
      if run.result.Err? {
        result := Err(run.result.error);
        return;
      }
      var body := run.result.value.body;
      if body.Err? {
        result := Err(body.error);
        return;
      }
      var db := body.value;
      items := Some(Stored(db.items));
      quests := Some(Stored(db.quests));
      upgrades := Some(Stored(db.upgrades));
      progress := progress + ["Ready!"];
      result := Ok(true);
    }
  }

  /** `!!localStorage.getItem(key)`: present and non-empty. */
  predicate Present(value: Option<string>) {
    value.Some? && value.value != ""
  }
}
