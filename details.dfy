/** The incremental item-details fetcher of src/details.py: it works out which identifiers
    to look up (missing ones, then a random sample of outdated ones), walks them one request
    at a time, records each result in the document `{items, invalid, updated_at}` in place,
    and checkpoints the document every `chunk_size` processed identifiers and at the end.

    The network, the clock, the sleeps between requests and random choice are inputs:
    `Oracles.fetch` is the detail endpoint's reply to the request of step i for an identifier
    (so a repeated identifier may get a different reply), `Oracles.sleep` says
    whether the i-th wait was interrupted, `Oracles.clock` is the time read during step i,
    and random sampling is a nondeterministic draw. */
module Details {
  import opened Wrappers
  import opened Json
  import opened IntText
  import opened Utilities
  import opened Sorting
  import opened ItemStore
  import opened Reconcile

  /** The record fields `clean_item_details` keeps. */
  const DesiredKeys: set<string> := {"id", "name", "description", "members"}

  /** Timestamps are whole seconds. */
  const SecondsPerDay: int := 86400

  /** What `get_item_details_from_id` does for one identifier: return the item's JSON object,
      raise a request or decoding error, be interrupted by the user, or raise anything else
      (for instance a KeyError when the reply has no "item"), which nothing catches. */
  datatype Response = Found(raw: Object) | RequestFailed | RequestInterrupted | OtherError

  datatype Oracles = Oracles(fetch: (nat, int) -> Response, sleep: nat -> Sleep, clock: nat -> int)

  /** `minimum_days_before_update` and `update_chunk_size` from the configuration, and the
      `chunk_size` argument of `fetch_item_details` (20 by default). */
  datatype Settings = Settings(minimumDaysBeforeUpdate: int, updateChunkSize: int, chunkSize: int)

  // ---------------------------------------------------------------------------
  // clean_item_details
  // ---------------------------------------------------------------------------

  /** `clean_item_details(item_details)`: keep the desired fields, coerce `members` and
      stamp the record with `now`. */
  function CleanItemDetails(raw: Object, now: int): Option<Object>
  {
    var kept := map k | k in raw && k in DesiredKeys :: raw[k];
    if "members" !in kept then None
    else
      match MembersFlag(kept["members"])
      case None => None
      case Some(flag) => Some(kept["members" := flag]["updated_at" := Stamp(now, true)])
  }

  /** The cleaned record keeps only the desired fields, with their values, and adds
      `updated_at`. `members` becomes true, false or null. A reply without `members` makes
      the lookup raise KeyError, and an unhashable `members` makes it raise TypeError: both
      are `None`. */
  lemma CleanedFields(raw: Object, now: int)
    ensures CleanItemDetails(raw, now).None? <==> "members" !in raw || raw["members"].Composite?
    ensures CleanItemDetails(raw, now).Some? ==>
      && CleanItemDetails(raw, now).value.Keys == (raw.Keys * DesiredKeys) + {"updated_at"}
      && (forall k :: k in raw && k in {"id", "name", "description"} ==> CleanItemDetails(raw, now).value[k] == raw[k])
      && Some(CleanItemDetails(raw, now).value["members"]) == MembersFlag(raw["members"])
      && CleanItemDetails(raw, now).value["updated_at"] == Stamp(now, true)
  {
  }

  /** Whether a reply ends up stored: it is an item whose `members` can be looked up. */
  predicate Stores(resp: Response)
  {
    resp.Found? && "members" in resp.raw && !resp.raw["members"].Composite?
  }

  /** Whether a reply moves `unsaved_count` and the progress bar: a failed request, or a
      stored record whose success message can read its `name`. */
  predicate Counted(resp: Response)
  {
    resp.RequestFailed? || (Stores(resp) && "name" in resp.raw)
  }

  // ---------------------------------------------------------------------------
  // The work list: existing identifiers and randomly_select_ids
  // ---------------------------------------------------------------------------

  /** `[int(item_id) for item_id in items]`; a key that is not an integer raises ValueError. */
  function ExistingIds(items: Entries<string>): (r: Option<seq<int>>)
    ensures r.Some? <==> forall i :: 0 <= i < |items| ==> Parse(items[i].0).Some?
    ensures r.Some? ==> |r.value| == |items|
    ensures r.Some? ==> forall i :: 0 <= i < |items| ==> Parse(items[i].0) == Some(r.value[i])
    decreases |items|
  {
    if |items| == 0 then Some([])
    else
      match Parse(items[0].0)
      case None => None
      case Some(id) =>
        match ExistingIds(items[1..])
        case None => None
        case Some(rest) => Some([id] + rest)
  }

  /** The time before which a record counts as outdated. */
  function Cutoff(now: int, minimumDays: int): int
  {
    now - minimumDays * SecondsPerDay
  }

  /** The record's `updated_at` is a time stamp with a UTC offset before the cutoff. */
  predicate IsStale(rec: Object, cutoff: int)
  {
    "updated_at" in rec && rec["updated_at"].Stamp? && rec["updated_at"].aware && rec["updated_at"].t < cutoff
  }

  /** Whether the loop of `randomly_select_ids` raises on this entry: its `updated_at` is
      missing (KeyError) or not a time stamp (`fromisoformat` raises), or it is a naive time,
      which cannot be compared with the aware cutoff (TypeError), or the entry is outdated and
      its key is not an integer. */
  predicate SelectionRaises(entry: (string, Object), cutoff: int)
  {
    || "updated_at" !in entry.1
    || !entry.1["updated_at"].Stamp?
    || !entry.1["updated_at"].aware
    || (IsStale(entry.1, cutoff) && Parse(entry.0).None?)
  }

  /** The `outdated_items` list that `randomly_select_ids` builds, in dict order. */
  function Outdated(items: Entries<string>, cutoff: int): Option<seq<int>>
    decreases |items|
  {
    if |items| == 0 then Some([])
    else
      match Outdated(items[..|items| - 1], cutoff)
      case None => None
      case Some(acc) =>
        var entry := items[|items| - 1];
        if SelectionRaises(entry, cutoff) then None
        else if IsStale(entry.1, cutoff) then Some(acc + [Parse(entry.0).value])
        else Some(acc)
  }

  /** The outdated list holds exactly the identifiers of the records updated before the
      cutoff, and it exists exactly when no entry makes the loop raise. */
  lemma {:induction false} OutdatedExactly(items: Entries<string>, cutoff: int)
    ensures Outdated(items, cutoff).Some? <==> forall i :: 0 <= i < |items| ==> !SelectionRaises(items[i], cutoff)
    ensures Outdated(items, cutoff).Some? ==> forall x :: x in Outdated(items, cutoff).value <==>
      exists i :: 0 <= i < |items| && IsStale(items[i].1, cutoff) && Parse(items[i].0) == Some(x)
    decreases |items|
  {
    if |items| > 0 {
      var init := items[..|items| - 1];
      OutdatedExactly(init, cutoff);
      assert forall i :: 0 <= i < |init| ==> init[i] == items[i];
      var r := Outdated(items, cutoff);
      if r.Some? {
        var acc := Outdated(init, cutoff).value;
        forall x | x in r.value
          ensures exists i :: 0 <= i < |items| && IsStale(items[i].1, cutoff) && Parse(items[i].0) == Some(x)
        {
          if x in acc {
            var i :| 0 <= i < |init| && IsStale(init[i].1, cutoff) && Parse(init[i].0) == Some(x);
            assert items[i] == init[i];
          } else {
            assert IsStale(items[|items| - 1].1, cutoff);
          }
        }
      }
    }
  }

  /** The positions of the records updated before the cutoff. */
  function StaleIndices(items: Entries<string>, cutoff: int): set<nat>
  {
    set i: nat | i < |items| && IsStale(items[i].1, cutoff)
  }

  /** The outdated list has one entry per outdated record. */
  lemma {:induction false} OutdatedCount(items: Entries<string>, cutoff: int)
    ensures Outdated(items, cutoff).Some? ==> |Outdated(items, cutoff).value| == |StaleIndices(items, cutoff)|
    decreases |items|
  {
    if |items| > 0 && Outdated(items, cutoff).Some? {
      var n := |items| - 1;
      var init := items[..n];
      OutdatedCount(init, cutoff);
      assert forall i :: 0 <= i < n ==> init[i] == items[i];
      if IsStale(items[n].1, cutoff) {
        assert StaleIndices(items, cutoff) == StaleIndices(init, cutoff) + {n};
      } else {
        assert StaleIndices(items, cutoff) == StaleIndices(init, cutoff);
      }
    }
  }

  /** The stored keys that are integers in text name distinct identifiers. */
  predicate KeysNameDistinctIds(items: Entries<string>)
  {
    forall i, j :: 0 <= i < j < |items| && Parse(items[i].0).Some? ==> Parse(items[i].0) != Parse(items[j].0)
  }

  /** When the keys name distinct identifiers, the outdated list has no duplicates. */
  lemma {:induction false} OutdatedDistinct(items: Entries<string>, cutoff: int)
    requires KeysNameDistinctIds(items)
    ensures Outdated(items, cutoff).Some? ==> Distinct(Outdated(items, cutoff).value)
    decreases |items|
  {
    if |items| > 0 && Outdated(items, cutoff).Some? {
      var n := |items| - 1;
      var init := items[..n];
      assert forall i :: 0 <= i < n ==> init[i] == items[i];
      OutdatedDistinct(init, cutoff);
      OutdatedExactly(init, cutoff);
      if IsStale(items[n].1, cutoff) {
        var acc := Outdated(init, cutoff).value;
        var x := Parse(items[n].0).value;
        forall y | y in acc ensures y != x {
          var i :| 0 <= i < |init| && IsStale(init[i].1, cutoff) && Parse(init[i].0) == Some(y);
          assert items[i] == init[i];
        }
        assert Outdated(items, cutoff).value == acc + [x];
      }
    }
  }

  /** A prefix whose outdated list raises makes the whole list raise. */
  lemma OutdatedPrefixRaises(items: Entries<string>, n: nat, cutoff: int)
    requires n <= |items| && Outdated(items[..n], cutoff).None?
    ensures Outdated(items, cutoff).None?
  {
    OutdatedExactly(items[..n], cutoff);
    OutdatedExactly(items, cutoff);
    var i :| 0 <= i < n && SelectionRaises(items[..n][i], cutoff);
    assert items[..n][i] == items[i];
  }

  /** `randomly_select_ids(items, config)`: `min(update_chunk_size, #outdated)` of the outdated
      identifiers, drawn without replacement in no particular order. It raises (`None`) when
      an entry cannot be read or when `update_chunk_size` is negative. */
  method RandomlySelectIds(items: Entries<string>, now: int, settings: Settings) returns (r: Option<seq<int>>)
    ensures var pop := Outdated(items, Cutoff(now, settings.minimumDaysBeforeUpdate));
      r.None? <==> pop.None? || settings.updateChunkSize < 0
    ensures var pop := Outdated(items, Cutoff(now, settings.minimumDaysBeforeUpdate));
      r.Some? ==> (|r.value| == Min(settings.updateChunkSize, |pop.value|)
                   && multiset(r.value) <= multiset(pop.value))
  {
    var cutoff := Cutoff(now, settings.minimumDaysBeforeUpdate);
    var outdated: seq<int> := [];
    var i := 0;
    while i < |items|
      invariant 0 <= i <= |items|
      invariant Outdated(items[..i], cutoff) == Some(outdated)
    {
      var entry := items[i];
      assert items[..i + 1][..i] == items[..i];
      assert items[..i + 1][i] == entry;
      if SelectionRaises(entry, cutoff) {
        OutdatedPrefixRaises(items, i + 1, cutoff);
        return None;
      }
      if IsStale(entry.1, cutoff) {
        outdated := outdated + [Parse(entry.0).value];
      }
      i := i + 1;
    }
    assert items[..i] == items;
    r := Draw(outdated, Min(settings.updateChunkSize, |outdated|));
  }

  /** Every sampled identifier belongs to a record older than the cutoff, and no identifier is
      sampled twice when the outdated list has no duplicates, which holds when the stored keys
      name distinct identifiers. */
  lemma SampleIsOutdated(items: Entries<string>, cutoff: int, sample: seq<int>)
    requires Outdated(items, cutoff).Some?
    requires multiset(sample) <= multiset(Outdated(items, cutoff).value)
    ensures forall x :: x in sample ==>
      exists i :: 0 <= i < |items| && IsStale(items[i].1, cutoff) && Parse(items[i].0) == Some(x)
    ensures Distinct(Outdated(items, cutoff).value) ==> Distinct(sample)
    ensures KeysNameDistinctIds(items) ==> Distinct(sample)
  {
    OutdatedExactly(items, cutoff);
    forall x | x in sample ensures x in Outdated(items, cutoff).value {
      assert x in multiset(sample);
    }
    if KeysNameDistinctIds(items) {
      OutdatedDistinct(items, cutoff);
    }
    if Distinct(Outdated(items, cutoff).value) {
      SubMultisetOfDistinct(sample, Outdated(items, cutoff).value);
    }
  }

  /** When every listed identifier is stored or invalid and no stored record was updated
      before the cutoff, a run has nothing to fetch: the work list is empty and the run
      returns before any request. */
  lemma NothingToFetchWhenUpToDate(allIds: seq<int>, existing: seq<int>, invalid: seq<int>, missing: seq<int>,
                                   items: Entries<string>, cutoff: int, outdated: seq<int>, k: int)
    requires forall i :: 0 <= i < |allIds| ==> allIds[i] in existing || allIds[i] in invalid
    requires ElemSet(missing) == MissingSet(allIds, existing, invalid)
    requires Outdated(items, cutoff).Some?
    requires forall i :: 0 <= i < |items| ==> !IsStale(items[i].1, cutoff)
    requires k >= 0 && |outdated| == Min(k, |Outdated(items, cutoff).value|)
    ensures missing + outdated == []
  {
    NothingMissingIffCovered(allIds, existing, invalid);
    EmptyElemSet(missing);
    OutdatedExactly(items, cutoff);
    var pop := Outdated(items, cutoff).value;
    if pop != [] {
      assert pop[0] in pop;
    }
  }

  // ---------------------------------------------------------------------------
  // The fetch loop, as a function of its inputs
  // ---------------------------------------------------------------------------

  datatype Status = Active | Stopped | Crashed

  /** Everything the loop of `fetch_item_details` changes: the document's three fields, the
      `unsaved_count` and `interrupted` variables, the number of progress-bar updates (the
      bar itself starts at `TQDM_START`), the documents written so far, how many requests the
      loop has sent, and whether it is still running, stopped by the user, or ended by an
      exception. */
  datatype LoopState = LoopState(
    items: Entries<string>,
    invalid: seq<int>,
    updatedAt: Option<int>,
    unsaved: int,
    progress: nat,
    interrupted: bool,
    status: Status,
    saves: seq<Snapshot<string>>,
    visited: nat)

  /** The try/except/else around one request. */
  function Request(s: LoopState, id: int, now: int, resp: Response): LoopState
  {
    match resp
    case RequestInterrupted => s.(interrupted := true)
    case RequestFailed => s.(unsaved := s.unsaved + 1, progress := s.progress + 1, invalid := s.invalid + [id])
    case OtherError => s.(status := Crashed)
    case Found(raw) =>
      match CleanItemDetails(raw, now)
      case None => s.(status := Crashed)
      case Some(rec) =>
        var stored := s.(items := Upsert(s.items, Show(id), rec));
        // The success message reads item_details['name'], which raises when it is absent.
        if "name" in rec then stored.(unsaved := s.unsaved + 1, progress := s.progress + 1)
        else stored.(status := Crashed)
  }

  /** `save_item_details`: stamp the document, sort it and write it. */
  function Checkpoint(s: LoopState, now: int): LoopState
  {
    var stamped := s.(updatedAt := Some(now), invalid := SortInts(s.invalid));
    match SaveSorted(s.items, s.invalid, now)
    case None => stamped.(status := Crashed)
    case Some(snap) => stamped.(items := snap.items, saves := s.saves + [snap])
  }

  /** `if unsaved_count >= chunk_size`: reset the count and save. */
  function Checkpointed(s: LoopState, chunkSize: int, now: int): LoopState
  {
    if s.unsaved >= chunkSize then Checkpoint(s.(unsaved := 0), now) else s
  }

  /** `if not interrupted and not wait_for_okay(wait)`: stop. */
  function Waited(s: LoopState, sleep: Sleep): LoopState
  {
    if !s.interrupted && !WaitForOkay(sleep) then s.(status := Stopped) else s
  }

  /** The three parts of one iteration, in order: the request, the checkpoint test and the
      wait. */
  datatype Phase = Requesting | Checking | Waiting

  function Rank(ph: Phase): nat
  {
    match ph
    case Requesting => 2
    case Checking => 1
    case Waiting => 0
  }

  /** How many requests have been sent when the loop is at position `i` in phase `ph`. */
  function Sent(i: nat, ph: Phase): nat
  {
    if ph == Requesting then i else i + 1
  }

  /** The loop from position `i` and phase `ph` on, until the list ends, the user stops it or
      it raises. Position `i` uses the `i`-th reading of each oracle. */
  function Iterate(s: LoopState, work: seq<int>, i: nat, ph: Phase, o: Oracles, chunkSize: int): LoopState
    decreases |work| - i, Rank(ph)
  {
    if i >= |work| || s.status != Active then s
    else
      match ph
      case Requesting =>
        Iterate(Request(s.(visited := s.visited + 1), work[i], o.clock(i), o.fetch(i, work[i])), work, i, Checking, o, chunkSize)
      case Checking => Iterate(Checkpointed(s, chunkSize, o.clock(i)), work, i, Waiting, o, chunkSize)
      case Waiting => Iterate(Waited(s, o.sleep(i)), work, i + 1, Requesting, o, chunkSize)
  }

  /** The whole loop: the final save (the `else` of the `for`) runs only when the loop was
      not left by `break` or by an exception. */
  function RunLoop(s: LoopState, work: seq<int>, o: Oracles, chunkSize: int): LoopState
  {
    var t := Iterate(s, work, 0, Requesting, o, chunkSize);
    if t.status == Active then Checkpoint(t, o.clock(|work|)) else t
  }

  /** The state the loop starts from. */
  function Start(items: Entries<string>, invalid: seq<int>, updatedAt: Option<int>): LoopState
  {
    LoopState(items, invalid, updatedAt, 0, 0, false, Active, [], 0)
  }

  /** The phases of the loop, unfolded one at a time. */
  lemma UnfoldRequesting(s: LoopState, work: seq<int>, i: nat, o: Oracles, chunkSize: int)
    requires i < |work| && s.status == Active
    ensures Iterate(s, work, i, Requesting, o, chunkSize)
      == Iterate(Request(s.(visited := s.visited + 1), work[i], o.clock(i), o.fetch(i, work[i])), work, i, Checking, o, chunkSize)
  {
  }

  lemma UnfoldChecking(s: LoopState, work: seq<int>, i: nat, o: Oracles, chunkSize: int)
    requires i < |work| && s.status == Active
    ensures Iterate(s, work, i, Checking, o, chunkSize) == Iterate(Checkpointed(s, chunkSize, o.clock(i)), work, i, Waiting, o, chunkSize)
  {
  }

  lemma UnfoldWaiting(s: LoopState, work: seq<int>, i: nat, o: Oracles, chunkSize: int)
    requires i < |work| && s.status == Active
    ensures Iterate(s, work, i, Waiting, o, chunkSize) == Iterate(Waited(s, o.sleep(i)), work, i + 1, Requesting, o, chunkSize)
  {
  }

  /** One whole iteration, from the state before the request to the state after the wait,
      moves the loop to the next position. */
  lemma StepThrough(s: LoopState, r: LoopState, c: LoopState, w: LoopState, work: seq<int>, i: nat, o: Oracles, chunkSize: int)
    requires i < |work| && s.status == Active
    requires r == Request(s.(visited := s.visited + 1), work[i], o.clock(i), o.fetch(i, work[i]))
    requires c == if r.status == Active then Checkpointed(r, chunkSize, o.clock(i)) else r
    requires w == if c.status == Active then Waited(c, o.sleep(i)) else c
    ensures Iterate(s, work, i, Requesting, o, chunkSize) == Iterate(w, work, i + 1, Requesting, o, chunkSize)
  {
    UnfoldRequesting(s, work, i, o, chunkSize);
    if r.status == Active {
      UnfoldChecking(r, work, i, o, chunkSize);
      if c.status == Active {
        UnfoldWaiting(c, work, i, o, chunkSize);
      }
    }
  }

  // ---------------------------------------------------------------------------
  // Properties of the loop
  // ---------------------------------------------------------------------------

  /** What one request does to the document and the counters: a failed request appends the
      identifier to `invalid` and leaves the records alone, even when the identifier is
      already stored (so the two are not kept disjoint); a stored reply puts the cleaned record
      under `str(id)`; an interrupted request changes neither and sets the flag; anything
      else raises, and so does a stored record without a `name`. Exactly a counted reply
      (a failed request, or a stored record with a `name`) moves both counters, by one. */
  lemma RequestEffect(s: LoopState, id: int, now: int, resp: Response)
    ensures var t := Request(s, id, now, resp);
      && t.visited == s.visited && t.saves == s.saves && t.updatedAt == s.updatedAt
      && t.status == (if Counted(resp) || resp.RequestInterrupted? then s.status else Crashed)
      && t.unsaved == s.unsaved + (if Counted(resp) then 1 else 0)
      && t.progress == s.progress + (if Counted(resp) then 1 else 0)
      && (t.interrupted <==> s.interrupted || resp.RequestInterrupted?)
      && (resp.RequestInterrupted? ==> t == s.(interrupted := true))
      && (resp.RequestFailed? ==> t.invalid == s.invalid + [id] && t.items == s.items)
      && (Stores(resp) ==> t.invalid == s.invalid && KeysOf(t.items) == KeysOf(s.items) + {Show(id)}
                           && Lookup(t.items, Show(id)) == CleanItemDetails(resp.raw, now))
      && (!resp.RequestInterrupted? && !resp.RequestFailed? && !Stores(resp) ==>
            t.invalid == s.invalid && t.items == s.items)
  {
    match resp
    case Found(raw) =>
      CleanedFields(raw, now);
      if CleanItemDetails(raw, now).Some? {
        var rec := CleanItemDetails(raw, now).value;
        assert Request(s, id, now, resp).items == Upsert(s.items, Show(id), rec);
        UpsertKeys(s.items, Show(id), rec);
        UpsertLookup(s.items, Show(id), rec);
      }
    case _ =>
  }

  /** A save reorders the records and the invalid identifiers and changes no counter; it
      either adds one document to the log or raises. */
  lemma CheckpointEffect(s: LoopState, now: int)
    ensures var t := Checkpoint(s, now);
      && t.unsaved == s.unsaved && t.progress == s.progress && t.interrupted == s.interrupted
      && t.visited == s.visited && t.updatedAt == Some(now)
      && multiset(t.invalid) == multiset(s.invalid) && KeysOf(t.items) == KeysOf(s.items)
      && SortedBy(t.invalid, Identity)
      && ((t.status == s.status && |t.saves| == |s.saves| + 1 && SortedBy(t.items, IdKey) &&
           t.saves[|s.saves|] == Snapshot(t.items, t.invalid, now) && t.saves[..|s.saves|] == s.saves)
          || (t.status == Crashed && t.saves == s.saves))
    ensures Checkpoint(s, now).status == Crashed <==>
      s.status == Crashed || exists i :: 0 <= i < |s.items| && !HasIntId(s.items[i].1)
  {
    SaveFailsIffIdMissing(s.items, s.invalid, now);
    SortIntsCorrect(s.invalid);
    if SaveSorted(s.items, s.invalid, now).Some? {
      SaveKeepsContents(s.items, s.invalid, now);
    }
  }

  /** Where the loop can be: a phase after the request only exists for a position in the
      list. */
  predicate InRange(work: seq<int>, i: nat, ph: Phase)
  {
    ph == Requesting || i < |work|
  }

  /** The bound on `unsaved_count`: below `chunk_size` except between a successful request
      and the checkpoint test that follows it. */
  predicate UnsavedBound(s: LoopState, ph: Phase, chunkSize: int)
  {
    0 <= s.unsaved && (if ph == Checking && s.status == Active then s.unsaved <= chunkSize else s.unsaved < chunkSize)
  }

  /** `unsaved_count` is below `chunk_size` whenever the loop ends: reaching it saves and
      resets the count. */
  lemma {:induction false} UnsavedStaysBelowChunkSize(s: LoopState, work: seq<int>, i: nat, ph: Phase, o: Oracles, chunkSize: int)
    requires chunkSize > 0 && InRange(work, i, ph) && UnsavedBound(s, ph, chunkSize)
    ensures 0 <= Iterate(s, work, i, ph, o, chunkSize).unsaved < chunkSize
    decreases |work| - i, Rank(ph), 1
  {
    if i >= |work| || s.status != Active {
    } else if ph == Requesting {
      UnsavedAfterRequest(s, work, i, o, chunkSize);
    } else if ph == Checking {
      var s' := Checkpointed(s, chunkSize, o.clock(i));
      if s.unsaved >= chunkSize {
        CheckpointEffect(s.(unsaved := 0), o.clock(i));
      }
      UnsavedStaysBelowChunkSize(s', work, i, Waiting, o, chunkSize);
    } else {
      UnsavedStaysBelowChunkSize(Waited(s, o.sleep(i)), work, i + 1, Requesting, o, chunkSize);
    }
  }

  lemma {:induction false} UnsavedAfterRequest(s: LoopState, work: seq<int>, i: nat, o: Oracles, chunkSize: int)
    requires chunkSize > 0 && i < |work| && s.status == Active && UnsavedBound(s, Requesting, chunkSize)
    ensures 0 <= Iterate(s, work, i, Requesting, o, chunkSize).unsaved < chunkSize
    decreases |work| - i, 2, 0
  {
    var s' := Request(s.(visited := s.visited + 1), work[i], o.clock(i), o.fetch(i, work[i]));
    RequestEffect(s.(visited := s.visited + 1), work[i], o.clock(i), o.fetch(i, work[i]));
    UnsavedStaysBelowChunkSize(s', work, i, Checking, o, chunkSize);
  }

  /** The checkpoint cadence: every `chunk_size` processed identifiers (failed or stored;
      interrupted ones do not count) produce exactly one save. */
  predicate Cadence(s: LoopState, ph: Phase, chunkSize: int)
  {
    s.progress == |s.saves| * chunkSize + s.unsaved && UnsavedBound(s, ph, chunkSize)
  }

  lemma {:induction false} SavesFollowCadence(s: LoopState, work: seq<int>, i: nat, ph: Phase, o: Oracles, chunkSize: int)
    requires chunkSize > 0 && InRange(work, i, ph) && s.status != Crashed && Cadence(s, ph, chunkSize)
    ensures var t := Iterate(s, work, i, ph, o, chunkSize); t.status != Crashed ==> Cadence(t, Requesting, chunkSize)
    decreases |work| - i, Rank(ph), 1
  {
    if i >= |work| || s.status != Active {
    } else if ph == Requesting {
      CadenceAfterRequest(s, work, i, o, chunkSize);
    } else if ph == Checking {
      var s' := Checkpointed(s, chunkSize, o.clock(i));
      if s.unsaved >= chunkSize {
        CheckpointEffect(s.(unsaved := 0), o.clock(i));
      }
      if s'.status != Crashed {
        SavesFollowCadence(s', work, i, Waiting, o, chunkSize);
      }
    } else {
      SavesFollowCadence(Waited(s, o.sleep(i)), work, i + 1, Requesting, o, chunkSize);
    }
  }

  lemma {:induction false} CadenceAfterRequest(s: LoopState, work: seq<int>, i: nat, o: Oracles, chunkSize: int)
    requires chunkSize > 0 && i < |work| && s.status == Active && Cadence(s, Requesting, chunkSize)
    ensures var t := Iterate(s, work, i, Requesting, o, chunkSize); t.status != Crashed ==> Cadence(t, Requesting, chunkSize)
    decreases |work| - i, 2, 0
  {
    var s' := Request(s.(visited := s.visited + 1), work[i], o.clock(i), o.fetch(i, work[i]));
    RequestEffect(s.(visited := s.visited + 1), work[i], o.clock(i), o.fetch(i, work[i]));
    if s'.status != Crashed {
      SavesFollowCadence(s', work, i, Checking, o, chunkSize);
    }
  }

  /** How a loop that ends without an exception ended: stopped right after an interrupted
      wait, with no request interrupted, or at the end of the list. */
  predicate EndedProperly(t: LoopState, work: seq<int>, o: Oracles)
  {
    && (t.status == Stopped ==> !t.interrupted && 0 < t.visited <= |work| && o.sleep(t.visited - 1) == SleepInterrupted)
    && (t.status == Active ==> t.visited == |work|)
  }

  /** The loop only stops early because a wait was interrupted while no request had been
      interrupted; once a request is interrupted the waits are skipped and the loop runs on.
      A loop that neither stops nor raises has sent a request for every identifier. */
  lemma {:induction false} StopsOnlyOnInterruptedWait(s: LoopState, work: seq<int>, i: nat, ph: Phase, o: Oracles, chunkSize: int)
    requires i <= |work| && InRange(work, i, ph) && s.status == Active && s.visited == Sent(i, ph)
    ensures EndedProperly(Iterate(s, work, i, ph, o, chunkSize), work, o)
    decreases |work| - i, Rank(ph), 1
  {
    if i >= |work| {
    } else if ph == Requesting {
      StopsAfterRequest(s, work, i, o, chunkSize);
    } else if ph == Checking {
      var s' := Checkpointed(s, chunkSize, o.clock(i));
      if s.unsaved >= chunkSize {
        CheckpointEffect(s.(unsaved := 0), o.clock(i));
      }
      if s'.status == Active {
        StopsOnlyOnInterruptedWait(s', work, i, Waiting, o, chunkSize);
      }
    } else {
      var s' := Waited(s, o.sleep(i));
      if s'.status == Active {
        StopsOnlyOnInterruptedWait(s', work, i + 1, Requesting, o, chunkSize);
      }
    }
  }

  lemma {:induction false} StopsAfterRequest(s: LoopState, work: seq<int>, i: nat, o: Oracles, chunkSize: int)
    requires i < |work| && s.status == Active && s.visited == i
    ensures EndedProperly(Iterate(s, work, i, Requesting, o, chunkSize), work, o)
    decreases |work| - i, 2, 0
  {
    var s' := Request(s.(visited := s.visited + 1), work[i], o.clock(i), o.fetch(i, work[i]));
    RequestEffect(s.(visited := s.visited + 1), work[i], o.clock(i), o.fetch(i, work[i]));
    if s'.status == Active {
      StopsOnlyOnInterruptedWait(s', work, i, Checking, o, chunkSize);
    }
  }

  /** The identifiers among `work[from..to]` whose request failed, in order. */
  function FailedBetween(work: seq<int>, from: nat, to: nat, fetch: (nat, int) -> Response): seq<int>
    requires from <= to <= |work|
    decreases |work| - from
  {
    if from == to then []
    else (if fetch(from, work[from]).RequestFailed? then [work[from]] else []) + FailedBetween(work, from + 1, to, fetch)
  }

  /** The keys of the identifiers among `work[from..to]` whose reply was stored. */
  function StoredBetween(work: seq<int>, from: nat, to: nat, fetch: (nat, int) -> Response): set<string>
    requires from <= to <= |work|
    decreases |work| - from
  {
    if from == to then {}
    else (if Stores(fetch(from, work[from])) then {Show(work[from])} else {}) + StoredBetween(work, from + 1, to, fetch)
  }

  /** How many of the replies to `work[from..to]` were counted. */
  function CountedBetween(work: seq<int>, from: nat, to: nat, fetch: (nat, int) -> Response): nat
    requires from <= to <= |work|
    decreases |work| - from
  {
    if from == to then 0
    else (if Counted(fetch(from, work[from])) then 1 else 0) + CountedBetween(work, from + 1, to, fetch)
  }

  /** Between states `s` and `t`, `invalid` gained exactly the identifiers whose request
      failed, the records gained exactly the keys of the identifiers whose reply was stored,
      and the progress count grew by exactly the number of counted replies, among the
      identifiers requested in between. */
  predicate Booked(s: LoopState, t: LoopState, work: seq<int>, fetch: (nat, int) -> Response)
  {
    && s.visited <= t.visited <= |work|
    && multiset(t.invalid) == multiset(s.invalid) + multiset(FailedBetween(work, s.visited, t.visited, fetch))
    && KeysOf(t.items) == KeysOf(s.items) + StoredBetween(work, s.visited, t.visited, fetch)
    && t.progress == s.progress + CountedBetween(work, s.visited, t.visited, fetch)
  }

  /** What one request adds to the two lists `Booked` follows. */
  lemma RequestBooks(s: LoopState, id: int, now: int, resp: Response)
    ensures Request(s, id, now, resp).visited == s.visited
    ensures Request(s, id, now, resp).progress == s.progress + (if Counted(resp) then 1 else 0)
    ensures multiset(Request(s, id, now, resp).invalid)
      == multiset(s.invalid) + multiset(if resp.RequestFailed? then [id] else [])
    ensures KeysOf(Request(s, id, now, resp).items) == KeysOf(s.items) + (if Stores(resp) then {Show(id)} else {})
  {
    RequestEffect(s, id, now, resp);
  }

  lemma BookedAfterRequest(s: LoopState, s': LoopState, t: LoopState, work: seq<int>, i: nat, fetch: (nat, int) -> Response)
    requires i < |work| && s.visited == i && s'.visited == i + 1
    requires multiset(s'.invalid) == multiset(s.invalid) + multiset(if fetch(i, work[i]).RequestFailed? then [work[i]] else [])
    requires KeysOf(s'.items) == KeysOf(s.items) + (if Stores(fetch(i, work[i])) then {Show(work[i])} else {})
    requires s'.progress == s.progress + (if Counted(fetch(i, work[i])) then 1 else 0)
    requires Booked(s', t, work, fetch)
    ensures Booked(s, t, work, fetch)
  {
    assert CountedBetween(work, i, t.visited, fetch)
      == (if Counted(fetch(i, work[i])) then 1 else 0) + CountedBetween(work, i + 1, t.visited, fetch);
    assert FailedBetween(work, i, t.visited, fetch)
      == (if fetch(i, work[i]).RequestFailed? then [work[i]] else []) + FailedBetween(work, i + 1, t.visited, fetch);
  }

  lemma BookedAfterCheck(s: LoopState, s': LoopState, t: LoopState, work: seq<int>, fetch: (nat, int) -> Response, chunkSize: int, now: int)
    requires s' == Checkpointed(s, chunkSize, now)
    requires Booked(s', t, work, fetch)
    ensures Booked(s, t, work, fetch)
  {
    if s.unsaved >= chunkSize {
      CheckpointEffect(s.(unsaved := 0), now);
    }
  }

  /** Over a run, `invalid` gains exactly the identifiers whose request failed, and the
      records gain exactly the keys of the identifiers whose reply was stored, among the
      identifiers the loop sent a request for. */
  lemma {:induction false} LoopBookkeeping(s: LoopState, work: seq<int>, i: nat, ph: Phase, o: Oracles, chunkSize: int)
    requires InRange(work, i, ph) && s.visited == Sent(i, ph) <= |work|
    ensures Booked(s, Iterate(s, work, i, ph, o, chunkSize), work, o.fetch)
    decreases |work| - i, Rank(ph), 1
  {
    var t := Iterate(s, work, i, ph, o, chunkSize);
    if i >= |work| || s.status != Active {
    } else if ph == Requesting {
      BookkeepingFromRequest(s, work, i, o, chunkSize);
    } else if ph == Checking {
      var s' := Checkpointed(s, chunkSize, o.clock(i));
      LoopBookkeeping(s', work, i, Waiting, o, chunkSize);
      BookedAfterCheck(s, s', t, work, o.fetch, chunkSize, o.clock(i));
    } else {
      LoopBookkeeping(Waited(s, o.sleep(i)), work, i + 1, Requesting, o, chunkSize);
    }
  }

  lemma {:induction false} BookkeepingFromRequest(s: LoopState, work: seq<int>, i: nat, o: Oracles, chunkSize: int)
    requires i < |work| && s.status == Active && s.visited == i
    ensures Booked(s, Iterate(s, work, i, Requesting, o, chunkSize), work, o.fetch)
    decreases |work| - i, 2, 0
  {
    var s' := RequestStep(s, work, i, o, chunkSize);
    LoopBookkeeping(s', work, i, Checking, o, chunkSize);
    BookedAfterRequest(s, s', Iterate(s', work, i, Checking, o, chunkSize), work, i, o.fetch);
  }

  /** The state after the request of step `i`, with what `Booked` needs to know of it. */
  lemma RequestStep(s: LoopState, work: seq<int>, i: nat, o: Oracles, chunkSize: int) returns (s': LoopState)
    requires i < |work| && s.status == Active && s.visited == i
    ensures Iterate(s, work, i, Requesting, o, chunkSize) == Iterate(s', work, i, Checking, o, chunkSize)
    ensures s'.visited == i + 1
    ensures multiset(s'.invalid) == multiset(s.invalid) + multiset(if o.fetch(i, work[i]).RequestFailed? then [work[i]] else [])
    ensures KeysOf(s'.items) == KeysOf(s.items) + (if Stores(o.fetch(i, work[i])) then {Show(work[i])} else {})
    ensures s'.progress == s.progress + (if Counted(o.fetch(i, work[i])) then 1 else 0)
  {
    s' := Request(s.(visited := i + 1), work[i], o.clock(i), o.fetch(i, work[i]));
    UnfoldRequesting(s, work, i, o, chunkSize);
    RequestBooks(s.(visited := i + 1), work[i], o.clock(i), o.fetch(i, work[i]));
  }

  /** The final save happens exactly when the loop ran to the end: a run stopped by the user
      (or ended by an exception) writes nothing more than its periodic checkpoints. */
  lemma FinalSaveOnlyWhenCompleted(s: LoopState, work: seq<int>, o: Oracles, chunkSize: int)
    ensures var t := Iterate(s, work, 0, Requesting, o, chunkSize); var r := RunLoop(s, work, o, chunkSize);
      && (t.status != Active ==> r == t)
      && (t.status == Active && r.status == Active ==>
            r.saves == t.saves + [Snapshot(r.items, r.invalid, o.clock(|work|))])
  {
    var t := Iterate(s, work, 0, Requesting, o, chunkSize);
    if t.status == Active {
      CheckpointEffect(t, o.clock(|work|));
    }
  }

  /** How the final save turns the state the loop ends in into the state the run ends in:
      only a loop that ran to the end saves once more, and the counters are untouched. */
  lemma FinishRun(s: LoopState, work: seq<int>, o: Oracles, chunkSize: int)
    ensures var t := Iterate(s, work, 0, Requesting, o, chunkSize); var r := RunLoop(s, work, o, chunkSize);
      && r.visited == t.visited && r.progress == t.progress && r.unsaved == t.unsaved
      && (r.status == Active ==> t.status == Active && |r.saves| == |t.saves| + 1
                                 && SortedBy(r.invalid, Identity) && SortedBy(r.items, IdKey))
      && (r.status == Stopped ==> r == t)
  {
    var t := Iterate(s, work, 0, Requesting, o, chunkSize);
    if t.status == Active {
      CheckpointEffect(t, o.clock(|work|));
    }
  }

  /** A count made of `saves` full chunks and fewer than a chunk left over lies between
      `saves` and `saves + 1` chunks. */
  lemma SaveCount(saves: nat, chunkSize: int, progress: int, unsaved: int)
    requires chunkSize > 0 && progress == saves * chunkSize + unsaved && 0 <= unsaved < chunkSize
    ensures saves * chunkSize <= progress < (saves + 1) * chunkSize
  {
    assert (saves + 1) * chunkSize == saves * chunkSize + chunkSize;
  }

  /** The progress count of a run is the number of counted replies among the identifiers it
      sent a request for. A run that does not raise has saved once per full `chunk_size` of
      them, and a completed run once more at the end, after visiting every identifier and
      leaving the document sorted. */
  lemma CompletedRunSaves(work: seq<int>, o: Oracles, chunkSize: int,
                          items: Entries<string>, invalid: seq<int>, updatedAt: Option<int>)
    requires chunkSize > 0
    ensures var r := RunLoop(Start(items, invalid, updatedAt), work, o, chunkSize);
      && r.visited <= |work|
      && r.progress == CountedBetween(work, 0, r.visited, o.fetch)
      && (r.status == Active ==>
            && r.visited == |work|
            && |r.saves| * chunkSize > r.progress >= (|r.saves| - 1) * chunkSize
            && SortedBy(r.invalid, Identity) && SortedBy(r.items, IdKey))
      && (r.status == Stopped ==> |r.saves| * chunkSize <= r.progress < (|r.saves| + 1) * chunkSize)
  {
    var s := Start(items, invalid, updatedAt);
    var t := Iterate(s, work, 0, Requesting, o, chunkSize);
    SavesFollowCadence(s, work, 0, Requesting, o, chunkSize);
    StopsOnlyOnInterruptedWait(s, work, 0, Requesting, o, chunkSize);
    LoopBookkeeping(s, work, 0, Requesting, o, chunkSize);
    FinishRun(s, work, o, chunkSize);
    if t.status != Crashed {
      SaveCount(|t.saves|, chunkSize, t.progress, t.unsaved);
    }
  }

  // ---------------------------------------------------------------------------
  // The document, updated in place
  // ---------------------------------------------------------------------------

  datatype Outcome = UpToDate | Completed | StoppedByUser | Raised

  /** What a run returns besides the document: how it ended, the work list it chose (missing
      identifiers, then the outdated sample) and the documents it wrote, in order. */
  datatype FetchRun = FetchRun(outcome: Outcome, missing: seq<int>, outdated: seq<int>, saves: seq<Snapshot<string>>)

  function OrEmpty<T>(o: Option<seq<T>>): seq<T>
  {
    if o.Some? then o.value else []
  }

  function OutcomeOf(status: Status): Outcome
  {
    match status
    case Active => Completed
    case Stopped => StoppedByUser
    case Crashed => Raised
  }

  /** The `data` dict: the records, the invalid identifiers and the last save time, each of
      which may be absent in a freshly loaded document. */
  class ItemDocument {
    var items: Option<Entries<string>>
    var invalid: Option<seq<int>>
    var updatedAt: Option<int>

    constructor (items: Option<Entries<string>>, invalid: Option<seq<int>>, updatedAt: Option<int>)
      ensures this.items == items && this.invalid == invalid && this.updatedAt == updatedAt
    {
      this.items := items;
      this.invalid := invalid;
      this.updatedAt := updatedAt;
    }

    /** `save_item_details(data, config)`: sets `updated_at`, sorts `invalid`, then sorts the
        records (which raises when a record has no integer `id`, after the first two changes)
        and writes the document. */
    method SaveItemDetails(now: int) returns (written: Option<Snapshot<string>>)
      requires items.Some? && invalid.Some?
      modifies this
      ensures written == SaveSorted(old(items.value), old(invalid.value), now)
      ensures updatedAt == Some(now) && invalid == Some(SortInts(old(invalid.value)))
      ensures items == if written.Some? then Some(written.value.items) else old(items)
    {
      updatedAt := Some(now);
      invalid := Some(SortInts(invalid.value));
      var sorted := SortItemsById(items.value);
      if sorted.None? {
        return None;
      }
      items := Some(sorted.value);
      written := Some(Snapshot(sorted.value, invalid.value, now));
    }

    /** The try/except/else around one request: records the reply in the document and
        returns the new `unsaved_count`, progress count and `interrupted` flag, and whether
        the loop goes on or an exception escapes. */
    method RecordReply(id: int, now: int, resp: Response, unsaved0: int, progress0: nat, interrupted0: bool,
                       ghost saves: seq<Snapshot<string>>, ghost visited: nat)
        returns (unsaved: int, progress: nat, interrupted: bool, status: Status)
      requires items.Some? && invalid.Some?
      modifies this
      ensures items.Some? && invalid.Some?
      ensures LoopState(items.value, invalid.value, updatedAt, unsaved, progress, interrupted, status, saves, visited)
        == Request(LoopState(old(items.value), old(invalid.value), old(updatedAt), unsaved0, progress0, interrupted0, Active, saves, visited),
                   id, now, resp)
    {
      unsaved, progress, interrupted, status := unsaved0, progress0, interrupted0, Active;
      match resp {
        case RequestInterrupted =>
          interrupted := true;
        case RequestFailed =>
          unsaved := unsaved + 1;
          progress := progress + 1;
          invalid := Some(invalid.value + [id]);
        case OtherError =>
          status := Crashed;
        case Found(raw) =>
          var cleaned := CleanItemDetails(raw, now);
          if cleaned.None? {
            status := Crashed;
          } else {
            items := Some(Upsert(items.value, Show(id), cleaned.value));
            if "name" in cleaned.value {
              unsaved := unsaved + 1;
              progress := progress + 1;
            } else {
              status := Crashed;
            }
          }
      }
    }

    /** `if unsaved_count >= chunk_size`: reset the count and save, adding the written
        document to `saves` or raising. */
    method CheckpointIfDue(chunkSize: int, now: int, unsaved0: int, saves0: seq<Snapshot<string>>,
                           ghost progress: nat, ghost interrupted: bool, ghost visited: nat)
        returns (unsaved: int, status: Status, saves: seq<Snapshot<string>>)
      requires items.Some? && invalid.Some?
      modifies this
      ensures items.Some? && invalid.Some?
      ensures LoopState(items.value, invalid.value, updatedAt, unsaved, progress, interrupted, status, saves, visited)
        == Checkpointed(LoopState(old(items.value), old(invalid.value), old(updatedAt), unsaved0, progress, interrupted, Active, saves0, visited),
                        chunkSize, now)
    {
      unsaved, status, saves := unsaved0, Active, saves0;
      if unsaved >= chunkSize {
        unsaved := 0;
        var written := SaveItemDetails(now);
        if written.None? {
          status := Crashed;
        } else {
          saves := saves + [written.value];
        }
      }
    }

    /** One pass of the `for` body on `work[i]`: the request, the checkpoint test and the
        wait, which together take the loop from position `i` to position `i + 1`. */
    method Iteration(work: seq<int>, i: nat, o: Oracles, chunkSize: int,
                     unsaved0: int, progress0: nat, interrupted0: bool, saves0: seq<Snapshot<string>>)
        returns (unsaved: int, progress: nat, interrupted: bool, status: Status, saves: seq<Snapshot<string>>)
      requires items.Some? && invalid.Some? && i < |work|
      modifies this
      ensures items.Some? && invalid.Some?
      ensures Iterate(LoopState(old(items.value), old(invalid.value), old(updatedAt), unsaved0, progress0, interrupted0, Active, saves0, i),
                      work, i, Requesting, o, chunkSize)
           == Iterate(LoopState(items.value, invalid.value, updatedAt, unsaved, progress, interrupted, status, saves, i + 1),
                      work, i + 1, Requesting, o, chunkSize)
    {
      ghost var before := LoopState(items.value, invalid.value, updatedAt, unsaved0, progress0, interrupted0, Active, saves0, i);
      var now := o.clock(i);
      saves := saves0;
      unsaved, progress, interrupted, status := RecordReply(work[i], now, o.fetch(i, work[i]), unsaved0, progress0, interrupted0, saves, i + 1);
      ghost var requested := LoopState(items.value, invalid.value, updatedAt, unsaved, progress, interrupted, status, saves, i + 1);
      if status == Active {
        unsaved, status, saves := CheckpointIfDue(chunkSize, now, unsaved, saves, progress, interrupted, i + 1);
      }
      ghost var checked := LoopState(items.value, invalid.value, updatedAt, unsaved, progress, interrupted, status, saves, i + 1);
      if status == Active && !interrupted {
        var okay := WaitForOkay(o.sleep(i));
        if !okay {
          status := Stopped;
        }
      }
      StepThrough(before, requested, checked, LoopState(items.value, invalid.value, updatedAt, unsaved, progress, interrupted, status, saves, i + 1),
                  work, i, o, chunkSize);
    }

    /** `fetch_item_details(data, config, wait, chunk_size)` with the upstream index listing
        `allIds` and the selection of outdated records made at time `startedAt`. */
    method FetchItemDetails(allIds: seq<int>, o: Oracles, settings: Settings, startedAt: int) returns (run: FetchRun)
      modifies this
      ensures items.Some? && invalid.Some?
      ensures ExistingIds(OrEmpty(old(items))).None? ==>
        run == FetchRun(Raised, [], [], []) && items == Some(OrEmpty(old(items))) &&
        invalid == Some(OrEmpty(old(invalid))) && updatedAt == old(updatedAt)
      ensures ExistingIds(OrEmpty(old(items))).Some? ==>
        var pop := Outdated(OrEmpty(old(items)), Cutoff(startedAt, settings.minimumDaysBeforeUpdate));
        if pop.None? || settings.updateChunkSize < 0 then
          run == FetchRun(Raised, [], [], []) && items == Some(OrEmpty(old(items))) &&
          invalid == Some(OrEmpty(old(invalid))) && updatedAt == old(updatedAt)
        else
          && Distinct(run.missing)
          && ElemSet(run.missing) == MissingSet(allIds, ExistingIds(OrEmpty(old(items))).value, OrEmpty(old(invalid)))
          && |run.outdated| == Min(settings.updateChunkSize, |pop.value|)
          && multiset(run.outdated) <= multiset(pop.value)
          && (run.missing + run.outdated == [] ==>
                run.outcome == UpToDate && run.saves == [] && items == Some(OrEmpty(old(items))) &&
                invalid == Some(OrEmpty(old(invalid))) && updatedAt == old(updatedAt))
          && (run.missing + run.outdated != [] ==>
                var r := RunLoop(Start(OrEmpty(old(items)), OrEmpty(old(invalid)), old(updatedAt)),
                                 run.missing + run.outdated, o, settings.chunkSize);
                run.outcome == OutcomeOf(r.status) && run.saves == r.saves &&
                items == Some(r.items) && invalid == Some(r.invalid) && updatedAt == r.updatedAt)
    {
      // Give the document the fields the loop needs.
      if items.None? {
        items := Some([]);
      }
      if invalid.None? {
        invalid := Some([]);
      }
      var existing := ExistingIds(items.value);
      if existing.None? {
        return FetchRun(Raised, [], [], []);
      }
      var outdated := RandomlySelectIds(items.value, startedAt, settings);
      if outdated.None? {
        return FetchRun(Raised, [], [], []);
      }
      var missing := MissingIds(allIds, existing.value, invalid.value);
      var work := missing + outdated.value;
      if work == [] {
        return FetchRun(UpToDate, missing, outdated.value, []);
      }

      ghost var s0 := Start(items.value, invalid.value, updatedAt);
      var unsaved := 0;
      var progress: nat := 0;
      var interrupted := false;
      var status := Active;
      var saves: seq<Snapshot<string>> := [];
      var i := 0;
      while i < |work| && status == Active
        invariant 0 <= i <= |work|
        invariant items.Some? && invalid.Some?
        invariant Iterate(LoopState(items.value, invalid.value, updatedAt, unsaved, progress, interrupted, status, saves, i),
                          work, i, Requesting, o, settings.chunkSize)
               == Iterate(s0, work, 0, Requesting, o, settings.chunkSize)
        decreases |work| - i
      {
        unsaved, progress, interrupted, status, saves := Iteration(work, i, o, settings.chunkSize, unsaved, progress, interrupted, saves);
        i := i + 1;
      }
      if status == Active {
        var written := SaveItemDetails(o.clock(|work|));
        if written.None? {
          status := Crashed;
        } else {
          saves := saves + [written.value];
        }
      }
      run := FetchRun(OutcomeOf(status), missing, outdated.value, saves);
    }
  }
}
