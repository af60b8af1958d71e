/** The older item-details fetcher of details.py. It differs from src/details.py in these
    ways:
    - It fetches only the missing identifiers, with no sample of outdated records.
    - It needs `items` and `invalid` to be present already.
    - It stores each record under the integer identifier rather than its string form.
    - It cleans a record by deleting a fixed list of unwanted fields in place.
    - It turns an interrupted request into a zero wait for the rest of the run, rather than
      skipping the waits.

    The network, the clock and the sleeps are inputs, as in the newer model. The sleep oracle
    also receives the current `wait`, so the model can tell a zero wait from the configured
    one. */
module LegacyDetails {
  import opened Wrappers
  import opened Json
  import opened IntText
  import opened Utilities
  import opened Sorting
  import opened ItemStore
  import opened Reconcile
  import opened Details

  // ---------------------------------------------------------------------------
  // Record keys
  // ---------------------------------------------------------------------------

  /** A key of the in-memory `items` dict. A document loaded from JSON has string keys, and
      this version adds records under the integer identifier itself. */
  datatype Key = Text(s: string) | Number(n: int)

  /** `int(item_id)`: an integer key is its own identifier, and a string key is parsed. */
  function KeyId(k: Key): (r: Option<int>)
    ensures k.Number? ==> r == Some(k.n)
    ensures k.Text? ==> r == Parse(k.s)
  {
    match k
    case Number(n) => Some(n)
    case Text(s) => Parse(s)
  }

  /** `[int(item_id) for item_id in details]`. A string key that is not an integer raises
      ValueError (`None`). */
  function KeyIds(items: Entries<Key>): (r: Option<seq<int>>)
    ensures r.Some? <==> forall i :: 0 <= i < |items| ==> KeyId(items[i].0).Some?
    ensures r.Some? ==> |r.value| == |items|
    ensures r.Some? ==> forall i :: 0 <= i < |items| ==> KeyId(items[i].0) == Some(r.value[i])
    decreases |items|
  {
    if |items| == 0 then Some([])
    else
      match KeyId(items[0].0)
      case None => None
      case Some(id) =>
        match KeyIds(items[1..])
        case None => None
        case Some(rest) => Some([id] + rest)
  }

  // ---------------------------------------------------------------------------
  // clean_item_details, deleting fields in place
  // ---------------------------------------------------------------------------

  /** The fields the older cleaner deletes when they are present. */
  const UndesiredKeys: seq<string> :=
    ["icon", "icon_large", "type", "typeIcon", "current", "today", "day30", "day90", "day120", "day180"]

  /** The fields the first `n` deletions have removed. */
  function DeletedBy(n: nat): set<string>
    requires n <= |UndesiredKeys|
  {
    set j | 0 <= j < n :: UndesiredKeys[j]
  }

  /** The cleaned record. The unwanted fields are gone and every other field stays. `members`
      becomes true, false or null, and `updated_at` is `now`. A record without `members`
      raises KeyError, and one whose `members` cannot be hashed raises TypeError: both are
      `None`. */
  function LegacyCleaned(raw: Object, now: int): (r: Option<Object>)
  {
    var kept := raw - DeletedBy(|UndesiredKeys|);
    if "members" !in kept then None
    else
      match MembersFlag(kept["members"])
      case None => None
      case Some(flag) => Some(kept["members" := flag]["updated_at" := Stamp(now, false)])
  }

  /** The cleaned record keeps every field except the ten unwanted ones and adds
      `updated_at`. The fields it does not rewrite keep their values, and it fails exactly
      when `members` is missing or cannot be hashed. */
  lemma LegacyCleanedFields(raw: Object, now: int)
    ensures LegacyCleaned(raw, now).None? <==> "members" !in raw || raw["members"].Composite?
    ensures LegacyCleaned(raw, now).Some? ==>
      && LegacyCleaned(raw, now).value.Keys == raw.Keys - DeletedBy(|UndesiredKeys|) + {"updated_at"}
      && (forall k :: k in raw && k !in UndesiredKeys && k != "members" && k != "updated_at" ==>
            LegacyCleaned(raw, now).value[k] == raw[k])
      && Some(LegacyCleaned(raw, now).value["members"]) == MembersFlag(raw["members"])
      && LegacyCleaned(raw, now).value["updated_at"] == Stamp(now, false)
  {
    assert "members" !in DeletedBy(|UndesiredKeys|);
    forall k | k in UndesiredKeys ensures k in DeletedBy(|UndesiredKeys|) {
      var j :| 0 <= j < |UndesiredKeys| && UndesiredKeys[j] == k;
    }
  }

  /** The two versions of the cleaner agree on a reply that has only the fields either one
      names (the four kept fields, the ten unwanted ones and `updated_at`), except for the
      stamp: the older one writes a naive local time, the newer one a time with a UTC
      offset. */
  lemma CleanersAgree(raw: Object, now: int)
    requires forall k :: k in raw ==> k in DesiredKeys || k in UndesiredKeys || k == "updated_at"
    ensures LegacyCleaned(raw, now).Some? <==> CleanItemDetails(raw, now).Some?
    ensures LegacyCleaned(raw, now).Some? ==>
      LegacyCleaned(raw, now).value == CleanItemDetails(raw, now).value["updated_at" := Stamp(now, false)]
    ensures LegacyCleaned(raw, now).Some? ==>
      LegacyCleaned(raw, now).value["updated_at"] != CleanItemDetails(raw, now).value["updated_at"]
  {
    var deleted := DeletedBy(|UndesiredKeys|);
    forall k | k in UndesiredKeys ensures k in deleted {
      var j :| 0 <= j < |UndesiredKeys| && UndesiredKeys[j] == k;
    }
    forall k | k in deleted ensures k !in DesiredKeys && k != "updated_at" {
      var j :| 0 <= j < |UndesiredKeys| && UndesiredKeys[j] == k;
    }
    var kl := raw - deleted;
    var kc := map k | k in raw && k in DesiredKeys :: raw[k];
    assert kc.Keys == kl.Keys - {"updated_at"};
    assert kc == kl - {"updated_at"};
    if "members" in kc {
      var flag := MembersFlag(kc["members"]);
      if flag.Some? {
        assert kl["members" := flag.value]["updated_at" := Stamp(now, false)]
            == kc["members" := flag.value]["updated_at" := Stamp(now, true)]["updated_at" := Stamp(now, false)];
      }
    }
  }

  /** A record stamped by the older cleaner makes the newer `randomly_select_ids` raise
      wherever it sits among the records: its naive time cannot be compared with the aware
      cutoff. */
  lemma LegacyRecordBreaksSelection(items: Entries<string>, i: nat, raw: Object, now: int, cutoff: int)
    requires i < |items| && LegacyCleaned(raw, now) == Some(items[i].1)
    ensures Outdated(items, cutoff).None?
  {
    LegacyCleanedFields(raw, now);
    OutdatedExactly(items, cutoff);
    assert SelectionRaises(items[i], cutoff);
  }

  /** A reply's JSON object, which the older cleaner changes in place. */
  class RawItem {
    var fields: Object

    constructor (fields: Object)
      ensures this.fields == fields
    {
      this.fields := fields;
    }

    /** `clean_item_details(item_details)`: delete each unwanted field with `del`, ignoring
        the KeyError of a missing one. Then coerce `members` and stamp `updated_at`.
        `ok` is false when the `members` lookup raises, and the deletions have happened by
        then. */
    method Clean(now: int) returns (ok: bool)
      modifies this
      ensures ok <==> LegacyCleaned(old(fields), now).Some?
      ensures ok ==> fields == LegacyCleaned(old(fields), now).value
      ensures !ok ==> fields == old(fields) - DeletedBy(|UndesiredKeys|)
    {
      for i := 0 to |UndesiredKeys|
        invariant fields == old(fields) - DeletedBy(i)
      {
        assert DeletedBy(i + 1) == DeletedBy(i) + {UndesiredKeys[i]};
        fields := fields - {UndesiredKeys[i]};
      }
      if "members" !in fields {
        return false;
      }
      var flag := MembersFlag(fields["members"]);
      if flag.None? {
        return false;
      }
      fields := fields["members" := flag.value];
      fields := fields["updated_at" := Stamp(now, false)];
      return true;
    }
  }

  // ---------------------------------------------------------------------------
  // The fetch loop, as a function of its inputs
  // ---------------------------------------------------------------------------

  /** The detail endpoint's reply to the request of each step, each sleep's outcome (given the step and
      the wait it was asked for), and the time read at each step. */
  datatype LegacyOracles = LegacyOracles(fetch: (nat, int) -> Response, sleep: (nat, real) -> Sleep, clock: nat -> int)

  /** Everything the loop of details.py changes. That is the document's three fields,
      `unsaved_count`, the number of progress-bar updates (the bar itself starts at the
      number of stored records) and `wait`. It also tracks the documents
      written so far, how many requests have been sent, and whether the loop is running,
      stopped by the user, or ended by an exception. */
  datatype LegacyState = LegacyState(
    items: Entries<Key>,
    invalid: seq<int>,
    updatedAt: Option<int>,
    unsaved: int,
    progress: nat,
    wait: real,
    status: Status,
    saves: seq<Snapshot<Key>>,
    visited: nat)

  /** The try/except/else around one request. An interrupted request only sets the wait to
      zero: the `okay_to_proceed = False` it also sets is overwritten by the next
      `wait_for_okay`. */
  function LegacyRequest(s: LegacyState, id: int, now: int, resp: Response): LegacyState
  {
    match resp
    case RequestInterrupted => s.(wait := 0.0)
    case RequestFailed => s.(unsaved := s.unsaved + 1, progress := s.progress + 1, invalid := s.invalid + [id])
    case OtherError => s.(status := Crashed)
    case Found(raw) =>
      match LegacyCleaned(raw, now)
      case None => s.(status := Crashed)
      case Some(rec) =>
        var stored := s.(items := Upsert(s.items, Number(id), rec));
        // The success message reads missing_details['name'], which raises when it is absent.
        if "name" in rec then stored.(unsaved := s.unsaved + 1, progress := s.progress + 1)
        else stored.(status := Crashed)
  }

  /** `save_item_details_to_json`: stamp the document, sort it and write it. */
  function LegacyCheckpoint(s: LegacyState, now: int): LegacyState
  {
    var stamped := s.(updatedAt := Some(now), invalid := SortInts(s.invalid));
    match SaveSorted(s.items, s.invalid, now)
    case None => stamped.(status := Crashed)
    case Some(snap) => stamped.(items := snap.items, saves := s.saves + [snap])
  }

  /** `if unsaved_count >= chunk_size`: reset the count and save. */
  function LegacyCheckpointed(s: LegacyState, chunkSize: int, now: int): LegacyState
  {
    if s.unsaved >= chunkSize then LegacyCheckpoint(s.(unsaved := 0), now) else s
  }

  /** `okay_to_proceed = wait_for_okay(wait)`, then `break` when it is false. Unlike the
      newer version, the wait is never skipped. */
  function LegacyWaited(s: LegacyState, sleep: Sleep): LegacyState
  {
    if !WaitForOkay(sleep) then s.(status := Stopped) else s
  }

  /** The loop from position `i` and phase `ph` on, until the list ends, the user stops it
      or it raises. */
  function LegacyIterate(s: LegacyState, work: seq<int>, i: nat, ph: Phase, o: LegacyOracles, chunkSize: int): LegacyState
    decreases |work| - i, Rank(ph)
  {
    if i >= |work| || s.status != Active then s
    else
      match ph
      case Requesting =>
        LegacyIterate(LegacyRequest(s.(visited := s.visited + 1), work[i], o.clock(i), o.fetch(i, work[i])),
                      work, i, Checking, o, chunkSize)
      case Checking => LegacyIterate(LegacyCheckpointed(s, chunkSize, o.clock(i)), work, i, Waiting, o, chunkSize)
      case Waiting => LegacyIterate(LegacyWaited(s, o.sleep(i, s.wait)), work, i + 1, Requesting, o, chunkSize)
  }

  /** The whole loop: the `else` of the `for` saves once more only when no `break` and no
      exception left the loop. */
  function LegacyRunLoop(s: LegacyState, work: seq<int>, o: LegacyOracles, chunkSize: int): LegacyState
  {
    var t := LegacyIterate(s, work, 0, Requesting, o, chunkSize);
    if t.status == Active then LegacyCheckpoint(t, o.clock(|work|)) else t
  }

  function LegacyStart(items: Entries<Key>, invalid: seq<int>, updatedAt: Option<int>, wait: real): LegacyState
  {
    LegacyState(items, invalid, updatedAt, 0, 0, wait, Active, [], 0)
  }

  lemma LegacyUnfoldRequesting(s: LegacyState, work: seq<int>, i: nat, o: LegacyOracles, chunkSize: int)
    requires i < |work| && s.status == Active
    ensures LegacyIterate(s, work, i, Requesting, o, chunkSize)
      == LegacyIterate(LegacyRequest(s.(visited := s.visited + 1), work[i], o.clock(i), o.fetch(i, work[i])),
                       work, i, Checking, o, chunkSize)
  {
  }

  lemma LegacyUnfoldChecking(s: LegacyState, work: seq<int>, i: nat, o: LegacyOracles, chunkSize: int)
    requires i < |work| && s.status == Active
    ensures LegacyIterate(s, work, i, Checking, o, chunkSize)
      == LegacyIterate(LegacyCheckpointed(s, chunkSize, o.clock(i)), work, i, Waiting, o, chunkSize)
  {
  }

  lemma LegacyUnfoldWaiting(s: LegacyState, work: seq<int>, i: nat, o: LegacyOracles, chunkSize: int)
    requires i < |work| && s.status == Active
    ensures LegacyIterate(s, work, i, Waiting, o, chunkSize)
      == LegacyIterate(LegacyWaited(s, o.sleep(i, s.wait)), work, i + 1, Requesting, o, chunkSize)
  {
  }

  /** One whole iteration moves the loop to the next position. */
  lemma LegacyStepThrough(s: LegacyState, r: LegacyState, c: LegacyState, w: LegacyState,
                          work: seq<int>, i: nat, o: LegacyOracles, chunkSize: int)
    requires i < |work| && s.status == Active
    requires r == LegacyRequest(s.(visited := s.visited + 1), work[i], o.clock(i), o.fetch(i, work[i]))
    requires c == if r.status == Active then LegacyCheckpointed(r, chunkSize, o.clock(i)) else r
    requires w == if c.status == Active then LegacyWaited(c, o.sleep(i, c.wait)) else c
    ensures LegacyIterate(s, work, i, Requesting, o, chunkSize) == LegacyIterate(w, work, i + 1, Requesting, o, chunkSize)
  {
    LegacyUnfoldRequesting(s, work, i, o, chunkSize);
    if r.status == Active {
      LegacyUnfoldChecking(r, work, i, o, chunkSize);
      if c.status == Active {
        LegacyUnfoldWaiting(c, work, i, o, chunkSize);
      }
    }
  }

  // ---------------------------------------------------------------------------
  // Properties of the loop
  // ---------------------------------------------------------------------------

  /** What one request does. A failed request appends the identifier to `invalid`. A stored
      reply puts the cleaned record under the integer key. An interrupted request sets the
      wait to zero and changes nothing else. Anything else raises, and so does a stored
      record without a `name`. Exactly a counted reply (a failed request, or a stored record
      with a `name`) moves both counters, by one. */
  lemma LegacyRequestEffect(s: LegacyState, id: int, now: int, resp: Response)
    ensures var t := LegacyRequest(s, id, now, resp);
      && t.visited == s.visited && t.saves == s.saves && t.updatedAt == s.updatedAt
      && t.status == (if Counted(resp) || resp.RequestInterrupted? then s.status else Crashed)
      && t.unsaved == s.unsaved + (if Counted(resp) then 1 else 0)
      && t.progress == s.progress + (if Counted(resp) then 1 else 0)
      && (t.wait == if resp.RequestInterrupted? then 0.0 else s.wait)
      && (resp.RequestInterrupted? ==> t == s.(wait := 0.0))
      && (resp.RequestFailed? ==> t.invalid == s.invalid + [id] && t.items == s.items)
      && (Stores(resp) ==> t.invalid == s.invalid && KeysOf(t.items) == KeysOf(s.items) + {Number(id)}
                           && Lookup(t.items, Number(id)) == LegacyCleaned(resp.raw, now))
      && (!resp.RequestInterrupted? && !resp.RequestFailed? && !Stores(resp) ==>
            t.invalid == s.invalid && t.items == s.items)
  {
    match resp
    case Found(raw) =>
      LegacyCleanedFields(raw, now);
      if LegacyCleaned(raw, now).Some? {
        var rec := LegacyCleaned(raw, now).value;
        assert LegacyRequest(s, id, now, resp).items == Upsert(s.items, Number(id), rec);
        UpsertKeys(s.items, Number(id), rec);
        UpsertLookup(s.items, Number(id), rec);
      }
    case _ =>
  }

  /** A save reorders the records and the invalid identifiers and changes no counter. It
      either adds one document to the log or raises. */
  lemma LegacyCheckpointEffect(s: LegacyState, now: int)
    ensures var t := LegacyCheckpoint(s, now);
      && t.unsaved == s.unsaved && t.progress == s.progress && t.wait == s.wait
      && t.visited == s.visited && t.updatedAt == Some(now)
      && multiset(t.invalid) == multiset(s.invalid) && KeysOf(t.items) == KeysOf(s.items)
      && SortedBy(t.invalid, Identity)
      && ((t.status == s.status && |t.saves| == |s.saves| + 1 && SortedBy(t.items, IdKey) &&
           t.saves[|s.saves|] == Snapshot(t.items, t.invalid, now) && t.saves[..|s.saves|] == s.saves)
          || (t.status == Crashed && t.saves == s.saves))
    ensures LegacyCheckpoint(s, now).status == Crashed <==>
      s.status == Crashed || exists i :: 0 <= i < |s.items| && !HasIntId(s.items[i].1)
  {
    SaveFailsIffIdMissing(s.items, s.invalid, now);
    SortIntsCorrect(s.invalid);
    if SaveSorted(s.items, s.invalid, now).Some? {
      SaveKeepsContents(s.items, s.invalid, now);
    }
  }

  /** The bound on `unsaved_count`: below `chunk_size`, except between a processed request
      and the checkpoint test that follows it. */
  predicate LegacyUnsavedBound(s: LegacyState, ph: Phase, chunkSize: int)
  {
    0 <= s.unsaved && (if ph == Checking && s.status == Active then s.unsaved <= chunkSize else s.unsaved < chunkSize)
  }

  /** The checkpoint cadence: every `chunk_size` processed identifiers produce exactly one
      save, and what is left over stays below `chunk_size`. */
  predicate LegacyCadence(s: LegacyState, ph: Phase, chunkSize: int)
  {
    s.progress == |s.saves| * chunkSize + s.unsaved && LegacyUnsavedBound(s, ph, chunkSize)
  }

  /** Reaching `chunk_size` saves and resets the count, so when the loop ends (unless by an
      exception) the number of saves is the number of full chunks processed and fewer than
      `chunk_size` identifiers are unsaved. */
  lemma {:induction false} LegacySavesFollowCadence(s: LegacyState, work: seq<int>, i: nat, ph: Phase, o: LegacyOracles, chunkSize: int)
    requires chunkSize > 0 && InRange(work, i, ph) && s.status != Crashed && LegacyCadence(s, ph, chunkSize)
    ensures var t := LegacyIterate(s, work, i, ph, o, chunkSize); t.status != Crashed ==> LegacyCadence(t, Requesting, chunkSize)
    decreases |work| - i, Rank(ph), 1
  {
    if i >= |work| || s.status != Active {
    } else if ph == Requesting {
      LegacyCadenceAfterRequest(s, work, i, o, chunkSize);
    } else if ph == Checking {
      var s' := LegacyCheckpointed(s, chunkSize, o.clock(i));
      if s.unsaved >= chunkSize {
        LegacyCheckpointEffect(s.(unsaved := 0), o.clock(i));
      }
      if s'.status != Crashed {
        LegacySavesFollowCadence(s', work, i, Waiting, o, chunkSize);
      }
    } else {
      LegacySavesFollowCadence(LegacyWaited(s, o.sleep(i, s.wait)), work, i + 1, Requesting, o, chunkSize);
    }
  }

  lemma {:induction false} LegacyCadenceAfterRequest(s: LegacyState, work: seq<int>, i: nat, o: LegacyOracles, chunkSize: int)
    requires chunkSize > 0 && i < |work| && s.status == Active && LegacyCadence(s, Requesting, chunkSize)
    ensures var t := LegacyIterate(s, work, i, Requesting, o, chunkSize); t.status != Crashed ==> LegacyCadence(t, Requesting, chunkSize)
    decreases |work| - i, 2, 0
  {
    var s' := LegacyRequest(s.(visited := s.visited + 1), work[i], o.clock(i), o.fetch(i, work[i]));
    LegacyRequestEffect(s.(visited := s.visited + 1), work[i], o.clock(i), o.fetch(i, work[i]));
    if s'.status != Crashed {
      LegacySavesFollowCadence(s', work, i, Checking, o, chunkSize);
    }
  }

  /** Whether a request among `work[from..to]` was interrupted. */
  predicate InterruptedBetween(work: seq<int>, from: nat, to: nat, fetch: (nat, int) -> Response)
    requires from <= to <= |work|
    decreases |work| - from
  {
    from < to && (fetch(from, work[from]).RequestInterrupted? || InterruptedBetween(work, from + 1, to, fetch))
  }

  /** The keys under which the replies among `work[from..to]` were stored. */
  function NumbersStoredBetween(work: seq<int>, from: nat, to: nat, fetch: (nat, int) -> Response): set<Key>
    requires from <= to <= |work|
    decreases |work| - from
  {
    if from == to then {}
    else (if Stores(fetch(from, work[from])) then {Number(work[from])} else {}) + NumbersStoredBetween(work, from + 1, to, fetch)
  }

  /** Between `s` and `t`, `invalid` gained exactly the identifiers whose request failed,
      and the records gained exactly the integer keys of the replies that were stored. The
      wait is zero once some request in between was interrupted, and unchanged otherwise.
      The progress count grew by exactly the number of counted replies. */
  predicate LegacyBooked(s: LegacyState, t: LegacyState, work: seq<int>, fetch: (nat, int) -> Response)
  {
    && s.visited <= t.visited <= |work|
    && multiset(t.invalid) == multiset(s.invalid) + multiset(FailedBetween(work, s.visited, t.visited, fetch))
    && KeysOf(t.items) == KeysOf(s.items) + NumbersStoredBetween(work, s.visited, t.visited, fetch)
    && t.wait == (if InterruptedBetween(work, s.visited, t.visited, fetch) then 0.0 else s.wait)
    && t.progress == s.progress + CountedBetween(work, s.visited, t.visited, fetch)
  }

  /** Where and why a loop that did not raise came to an end. */
  predicate LegacyEndedProperly(t: LegacyState, work: seq<int>, o: LegacyOracles)
  {
    && (t.status == Stopped ==> 0 < t.visited <= |work| && o.sleep(t.visited - 1, t.wait) == SleepInterrupted)
    && (t.status == Active ==> t.visited == |work|)
  }

  /** A state where the loop stops is booked against itself. */
  lemma LegacyBookedSelf(s: LegacyState, work: seq<int>, fetch: (nat, int) -> Response)
    requires s.visited <= |work|
    ensures LegacyBooked(s, s, work, fetch)
  {
    assert multiset(FailedBetween(work, s.visited, s.visited, fetch)) == multiset{};
  }

  /** One request's contribution to `LegacyBooked`. */
  lemma LegacyRequestBooks(s: LegacyState, id: int, now: int, resp: Response)
    ensures LegacyRequest(s, id, now, resp).visited == s.visited
    ensures LegacyRequest(s, id, now, resp).progress == s.progress + (if Counted(resp) then 1 else 0)
    ensures multiset(LegacyRequest(s, id, now, resp).invalid)
      == multiset(s.invalid) + multiset(if resp.RequestFailed? then [id] else [])
    ensures KeysOf(LegacyRequest(s, id, now, resp).items) == KeysOf(s.items) + (if Stores(resp) then {Number(id)} else {})
    ensures LegacyRequest(s, id, now, resp).wait == if resp.RequestInterrupted? then 0.0 else s.wait
  {
    LegacyRequestEffect(s, id, now, resp);
  }

  lemma LegacyBookedAfterRequest(s: LegacyState, s': LegacyState, t: LegacyState, work: seq<int>, i: nat, fetch: (nat, int) -> Response)
    requires i < |work| && s.visited == i && s'.visited == i + 1
    requires multiset(s'.invalid) == multiset(s.invalid) + multiset(if fetch(i, work[i]).RequestFailed? then [work[i]] else [])
    requires KeysOf(s'.items) == KeysOf(s.items) + (if Stores(fetch(i, work[i])) then {Number(work[i])} else {})
    requires s'.wait == if fetch(i, work[i]).RequestInterrupted? then 0.0 else s.wait
    requires s'.progress == s.progress + (if Counted(fetch(i, work[i])) then 1 else 0)
    requires LegacyBooked(s', t, work, fetch)
    ensures LegacyBooked(s, t, work, fetch)
  {
    assert CountedBetween(work, i, t.visited, fetch)
      == (if Counted(fetch(i, work[i])) then 1 else 0) + CountedBetween(work, i + 1, t.visited, fetch);
    assert FailedBetween(work, i, t.visited, fetch)
      == (if fetch(i, work[i]).RequestFailed? then [work[i]] else []) + FailedBetween(work, i + 1, t.visited, fetch);
  }

  lemma LegacyBookedAfterCheck(s: LegacyState, s': LegacyState, t: LegacyState, work: seq<int>, fetch: (nat, int) -> Response, chunkSize: int, now: int)
    requires s' == LegacyCheckpointed(s, chunkSize, now)
    requires LegacyBooked(s', t, work, fetch)
    ensures LegacyBooked(s, t, work, fetch)
  {
    if s.unsaved >= chunkSize {
      LegacyCheckpointEffect(s.(unsaved := 0), now);
    }
  }

  /** Over a run, `invalid` gains exactly the identifiers whose request failed and the
      records gain exactly the integer keys of the stored replies. The wait drops to zero
      for the rest of the run once a request is interrupted. */
  lemma {:induction false} LegacyLoopBookkeeping(s: LegacyState, work: seq<int>, i: nat, ph: Phase, o: LegacyOracles, chunkSize: int)
    requires InRange(work, i, ph) && s.visited == Sent(i, ph) <= |work|
    ensures LegacyBooked(s, LegacyIterate(s, work, i, ph, o, chunkSize), work, o.fetch)
    decreases |work| - i, Rank(ph), 1
  {
    var t := LegacyIterate(s, work, i, ph, o, chunkSize);
    if i >= |work| || s.status != Active {
      LegacyBookedSelf(s, work, o.fetch);
    } else if ph == Requesting {
      LegacyBookkeepingFromRequest(s, work, i, o, chunkSize);
    } else if ph == Checking {
      var s' := LegacyCheckpointed(s, chunkSize, o.clock(i));
      if s.unsaved >= chunkSize {
        LegacyCheckpointEffect(s.(unsaved := 0), o.clock(i));
      }
      LegacyLoopBookkeeping(s', work, i, Waiting, o, chunkSize);
      LegacyBookedAfterCheck(s, s', t, work, o.fetch, chunkSize, o.clock(i));
    } else {
      LegacyLoopBookkeeping(LegacyWaited(s, o.sleep(i, s.wait)), work, i + 1, Requesting, o, chunkSize);
    }
  }

  lemma {:induction false} LegacyBookkeepingFromRequest(s: LegacyState, work: seq<int>, i: nat, o: LegacyOracles, chunkSize: int)
    requires i < |work| && s.status == Active && s.visited == i
    ensures LegacyBooked(s, LegacyIterate(s, work, i, Requesting, o, chunkSize), work, o.fetch)
    decreases |work| - i, 2, 0
  {
    var s' := LegacyRequestStep(s, work, i, o, chunkSize);
    LegacyLoopBookkeeping(s', work, i, Checking, o, chunkSize);
    LegacyBookedAfterRequest(s, s', LegacyIterate(s', work, i, Checking, o, chunkSize), work, i, o.fetch);
  }

  /** The state after the request of step `i`, with what `LegacyBooked` needs to know of it. */
  lemma LegacyRequestStep(s: LegacyState, work: seq<int>, i: nat, o: LegacyOracles, chunkSize: int) returns (s': LegacyState)
    requires i < |work| && s.status == Active && s.visited == i
    ensures LegacyIterate(s, work, i, Requesting, o, chunkSize) == LegacyIterate(s', work, i, Checking, o, chunkSize)
    ensures s'.visited == i + 1
    ensures multiset(s'.invalid) == multiset(s.invalid) + multiset(if o.fetch(i, work[i]).RequestFailed? then [work[i]] else [])
    ensures KeysOf(s'.items) == KeysOf(s.items) + (if Stores(o.fetch(i, work[i])) then {Number(work[i])} else {})
    ensures s'.wait == if o.fetch(i, work[i]).RequestInterrupted? then 0.0 else s.wait
    ensures s'.progress == s.progress + (if Counted(o.fetch(i, work[i])) then 1 else 0)
  {
    s' := LegacyRequest(s.(visited := i + 1), work[i], o.clock(i), o.fetch(i, work[i]));
    LegacyUnfoldRequesting(s, work, i, o, chunkSize);
    LegacyRequestBooks(s.(visited := i + 1), work[i], o.clock(i), o.fetch(i, work[i]));
  }

  /** A run that does not raise stops early only right after an interrupted wait (which was
      asked for zero seconds if a request had been interrupted before), and otherwise has
      sent a request for every identifier. */
  lemma {:induction false} LegacyStopsOnlyOnInterruptedWait(s: LegacyState, work: seq<int>, i: nat, ph: Phase, o: LegacyOracles, chunkSize: int)
    requires i <= |work| && InRange(work, i, ph) && s.status == Active && s.visited == Sent(i, ph)
    ensures LegacyEndedProperly(LegacyIterate(s, work, i, ph, o, chunkSize), work, o)
    decreases |work| - i, Rank(ph), 1
  {
    if i >= |work| {
    } else if ph == Requesting {
      LegacyStopsAfterRequest(s, work, i, o, chunkSize);
    } else if ph == Checking {
      var s' := LegacyCheckpointed(s, chunkSize, o.clock(i));
      if s.unsaved >= chunkSize {
        LegacyCheckpointEffect(s.(unsaved := 0), o.clock(i));
      }
      if s'.status == Active {
        LegacyStopsOnlyOnInterruptedWait(s', work, i, Waiting, o, chunkSize);
      }
    } else {
      var s' := LegacyWaited(s, o.sleep(i, s.wait));
      if s'.status == Active {
        LegacyStopsOnlyOnInterruptedWait(s', work, i + 1, Requesting, o, chunkSize);
      }
    }
  }

  lemma {:induction false} LegacyStopsAfterRequest(s: LegacyState, work: seq<int>, i: nat, o: LegacyOracles, chunkSize: int)
    requires i < |work| && s.status == Active && s.visited == i
    ensures LegacyEndedProperly(LegacyIterate(s, work, i, Requesting, o, chunkSize), work, o)
    decreases |work| - i, 2, 0
  {
    var s' := LegacyRequest(s.(visited := s.visited + 1), work[i], o.clock(i), o.fetch(i, work[i]));
    LegacyRequestEffect(s.(visited := s.visited + 1), work[i], o.clock(i), o.fetch(i, work[i]));
    if s'.status == Active {
      LegacyStopsOnlyOnInterruptedWait(s', work, i, Checking, o, chunkSize);
    }
  }

  /** The final save happens exactly when the loop ran to the end. A run stopped by the user
      or ended by an exception writes nothing beyond its periodic checkpoints. */
  lemma LegacyFinalSaveOnlyWhenCompleted(s: LegacyState, work: seq<int>, o: LegacyOracles, chunkSize: int)
    ensures var t := LegacyIterate(s, work, 0, Requesting, o, chunkSize); var r := LegacyRunLoop(s, work, o, chunkSize);
      && (t.status != Active ==> r == t)
      && (t.status == Active && r.status == Active ==>
            r.saves == t.saves + [Snapshot(r.items, r.invalid, o.clock(|work|))])
  {
    var t := LegacyIterate(s, work, 0, Requesting, o, chunkSize);
    if t.status == Active {
      LegacyCheckpointEffect(t, o.clock(|work|));
    }
  }

  /** How the final save turns the state the loop ends in into the state the run ends in. */
  lemma LegacyFinishRun(s: LegacyState, work: seq<int>, o: LegacyOracles, chunkSize: int)
    ensures var t := LegacyIterate(s, work, 0, Requesting, o, chunkSize); var r := LegacyRunLoop(s, work, o, chunkSize);
      && r.visited == t.visited && r.progress == t.progress && r.unsaved == t.unsaved
      && (r.status == Active ==> t.status == Active && |r.saves| == |t.saves| + 1
                                 && SortedBy(r.invalid, Identity) && SortedBy(r.items, IdKey))
      && (r.status == Stopped ==> r == t)
  {
    var t := LegacyIterate(s, work, 0, Requesting, o, chunkSize);
    if t.status == Active {
      LegacyCheckpointEffect(t, o.clock(|work|));
    }
  }

  /** The progress count of a run is the number of counted replies among the identifiers it
      sent a request for. A run that does not raise has saved once per full `chunk_size` of
      them, and a completed run once more at the end, after visiting every identifier and
      leaving the document sorted. */
  lemma LegacyCompletedRunSaves(work: seq<int>, o: LegacyOracles, chunkSize: int,
                                items: Entries<Key>, invalid: seq<int>, updatedAt: Option<int>, wait: real)
    requires chunkSize > 0
    ensures var r := LegacyRunLoop(LegacyStart(items, invalid, updatedAt, wait), work, o, chunkSize);
      && r.visited <= |work|
      && r.progress == CountedBetween(work, 0, r.visited, o.fetch)
      && (r.status == Active ==>
            && r.visited == |work|
            && |r.saves| * chunkSize > r.progress >= (|r.saves| - 1) * chunkSize
            && SortedBy(r.invalid, Identity) && SortedBy(r.items, IdKey))
      && (r.status == Stopped ==> |r.saves| * chunkSize <= r.progress < (|r.saves| + 1) * chunkSize)
  {
    var s := LegacyStart(items, invalid, updatedAt, wait);
    var t := LegacyIterate(s, work, 0, Requesting, o, chunkSize);
    LegacySavesFollowCadence(s, work, 0, Requesting, o, chunkSize);
    LegacyStopsOnlyOnInterruptedWait(s, work, 0, Requesting, o, chunkSize);
    LegacyLoopBookkeeping(s, work, 0, Requesting, o, chunkSize);
    LegacyFinishRun(s, work, o, chunkSize);
    if t.status != Crashed {
      SaveCount(|t.saves|, chunkSize, t.progress, t.unsaved);
    }
  }

  // ---------------------------------------------------------------------------
  // The document, updated in place
  // ---------------------------------------------------------------------------

  /** What a run returns besides the document: how it ended, the missing identifiers it
      chose to fetch, and the documents it wrote, in order. */
  datatype LegacyRun = LegacyRun(outcome: Outcome, missing: seq<int>, saves: seq<Snapshot<Key>>)

  /** The `data` dict of details.py. Its `items` and `invalid` may be absent in a freshly
      loaded document, and this version does not add them. */
  class LegacyDocument {
    var items: Option<Entries<Key>>
    var invalid: Option<seq<int>>
    var updatedAt: Option<int>

    constructor (items: Option<Entries<Key>>, invalid: Option<seq<int>>, updatedAt: Option<int>)
      ensures this.items == items && this.invalid == invalid && this.updatedAt == updatedAt
    {
      this.items := items;
      this.invalid := invalid;
      this.updatedAt := updatedAt;
    }

    /** `save_item_details_to_json(data, filename)`. It sets `updated_at` and sorts
        `invalid`. Then it sorts the records, which raises when a record has no integer
        `id`, after the first two changes. Finally it writes the document. */
    method SaveItemDetailsToJson(now: int) returns (written: Option<Snapshot<Key>>)
      requires items.Some? && invalid.Some?
      modifies this
      ensures written == SaveSorted(old(items.value), old(invalid.value), now)
      ensures updatedAt == Some(now) && invalid == Some(SortInts(old(invalid.value)))
      ensures items == if written.Some? then Some(written.value.items) else old(items)
    {
      updatedAt := Some(now);
      invalid := Some(SortInts(invalid.value));
      var sorted := SortItemsById(items.value);
      if sorted.None? {
        return None;
      }
      items := Some(sorted.value);
      written := Some(Snapshot(sorted.value, invalid.value, now));
    }

    /** The try/except/else around one request. It records the reply, cleaning it in
        place, and returns the new `unsaved_count`, progress count and wait. It also says
        whether an exception escaped. */
    method RecordReply(id: int, now: int, resp: Response, unsaved0: int, progress0: nat, wait0: real,
                       ghost saves: seq<Snapshot<Key>>, ghost visited: nat)
        returns (unsaved: int, progress: nat, wait: real, status: Status)
      requires items.Some? && invalid.Some?
      modifies this
      ensures items.Some? && invalid.Some?
      ensures LegacyState(items.value, invalid.value, updatedAt, unsaved, progress, wait, status, saves, visited)
        == LegacyRequest(LegacyState(old(items.value), old(invalid.value), old(updatedAt), unsaved0, progress0, wait0, Active, saves, visited),
                         id, now, resp)
    {
      unsaved, progress, wait, status := unsaved0, progress0, wait0, Active;
      match resp {
        case RequestInterrupted =>
          wait := 0.0;
        case RequestFailed =>
          unsaved := unsaved + 1;
          progress := progress + 1;
          invalid := Some(invalid.value + [id]);
        case OtherError =>
          status := Crashed;
        case Found(raw) =>
          var details := new RawItem(raw);
          var ok := details.Clean(now);
          if !ok {
            status := Crashed;
          } else {
            items := Some(Upsert(items.value, Number(id), details.fields));
            if "name" in details.fields {
              unsaved := unsaved + 1;
              progress := progress + 1;
            } else {
              status := Crashed;
            }
          }
      }
    }

    /** `if unsaved_count >= chunk_size`: reset the count and save, adding the written
        document to `saves` or raising. */
    method CheckpointIfDue(chunkSize: int, now: int, unsaved0: int, saves0: seq<Snapshot<Key>>,
                           ghost progress: nat, ghost wait: real, ghost visited: nat)
        returns (unsaved: int, status: Status, saves: seq<Snapshot<Key>>)
      requires items.Some? && invalid.Some?
      modifies this
      ensures items.Some? && invalid.Some?
      ensures LegacyState(items.value, invalid.value, updatedAt, unsaved, progress, wait, status, saves, visited)
        == LegacyCheckpointed(LegacyState(old(items.value), old(invalid.value), old(updatedAt), unsaved0, progress, wait, Active, saves0, visited),
                              chunkSize, now)
    {
      unsaved, status, saves := unsaved0, Active, saves0;
      if unsaved >= chunkSize {
        unsaved := 0;
        var written := SaveItemDetailsToJson(now);
        if written.None? {
          status := Crashed;
        } else {
          saves := saves + [written.value];
        }
      }
    }

    /** One pass of the `for` body on `work[i]`: the request, the checkpoint test and the
        wait. */
    method Iteration(work: seq<int>, i: nat, o: LegacyOracles, chunkSize: int,
                     unsaved0: int, progress0: nat, wait0: real, saves0: seq<Snapshot<Key>>)
        returns (unsaved: int, progress: nat, wait: real, status: Status, saves: seq<Snapshot<Key>>)
      requires items.Some? && invalid.Some? && i < |work|
      modifies this
      ensures items.Some? && invalid.Some?
      ensures LegacyIterate(LegacyState(old(items.value), old(invalid.value), old(updatedAt), unsaved0, progress0, wait0, Active, saves0, i),
                            work, i, Requesting, o, chunkSize)
           == LegacyIterate(LegacyState(items.value, invalid.value, updatedAt, unsaved, progress, wait, status, saves, i + 1),
                            work, i + 1, Requesting, o, chunkSize)
    {
      ghost var before := LegacyState(items.value, invalid.value, updatedAt, unsaved0, progress0, wait0, Active, saves0, i);
      var now := o.clock(i);
      saves := saves0;
      unsaved, progress, wait, status := RecordReply(work[i], now, o.fetch(i, work[i]), unsaved0, progress0, wait0, saves, i + 1);
      ghost var requested := LegacyState(items.value, invalid.value, updatedAt, unsaved, progress, wait, status, saves, i + 1);
      if status == Active {
        unsaved, status, saves := CheckpointIfDue(chunkSize, now, unsaved, saves, progress, wait, i + 1);
      }
      ghost var checked := LegacyState(items.value, invalid.value, updatedAt, unsaved, progress, wait, status, saves, i + 1);
      if status == Active {
        var okay := WaitForOkay(o.sleep(i, wait));
        if !okay {
          status := Stopped;
        }
      }
      LegacyStepThrough(before, requested, checked,
                        LegacyState(items.value, invalid.value, updatedAt, unsaved, progress, wait, status, saves, i + 1),
                        work, i, o, chunkSize);
    }

    /** `fetch_item_details(data, filename, wait, chunk_size)` with the upstream index
        listing `allIds`. */
    method FetchItemDetails(allIds: seq<int>, o: LegacyOracles, wait: real, chunkSize: int) returns (run: LegacyRun)
      modifies this
      ensures old(items).None? || old(invalid).None? || KeyIds(old(items).value).None? ==>
        run == LegacyRun(Raised, [], []) && items == old(items) && invalid == old(invalid) && updatedAt == old(updatedAt)
      ensures old(items).Some? && old(invalid).Some? && KeyIds(old(items).value).Some? ==>
        && Distinct(run.missing)
        && ElemSet(run.missing) == MissingSet(allIds, KeyIds(old(items).value).value, old(invalid).value)
        && (run.missing == [] ==>
              run.outcome == UpToDate && run.saves == [] && items == old(items) &&
              invalid == old(invalid) && updatedAt == old(updatedAt))
        && (run.missing != [] ==>
              var r := LegacyRunLoop(LegacyStart(old(items).value, old(invalid).value, old(updatedAt), wait),
                                     run.missing, o, chunkSize);
              run.outcome == OutcomeOf(r.status) && run.saves == r.saves &&
              items == Some(r.items) && invalid == Some(r.invalid) && updatedAt == r.updatedAt)
    {
      // `data["items"]` and `data["invalid"]` raise KeyError when absent.
      if items.None? || invalid.None? {
        return LegacyRun(Raised, [], []);
      }
      var existing := KeyIds(items.value);
      if existing.None? {
        return LegacyRun(Raised, [], []);
      }
      var missing := MissingIds(allIds, existing.value, invalid.value);
      if missing == [] {
        return LegacyRun(UpToDate, missing, []);
      }

      ghost var s0 := LegacyStart(items.value, invalid.value, updatedAt, wait);
      var unsaved := 0;
      var progress: nat := 0;
      var currentWait := wait;
      var status := Active;
      var saves: seq<Snapshot<Key>> := [];
      var i := 0;
      while i < |missing| && status == Active
        invariant 0 <= i <= |missing|
        invariant items.Some? && invalid.Some?
        invariant LegacyIterate(LegacyState(items.value, invalid.value, updatedAt, unsaved, progress, currentWait, status, saves, i),
                                missing, i, Requesting, o, chunkSize)
               == LegacyIterate(s0, missing, 0, Requesting, o, chunkSize)
        decreases |missing| - i
      {
        unsaved, progress, currentWait, status, saves := Iteration(missing, i, o, chunkSize, unsaved, progress, currentWait, saves);
        i := i + 1;
      }
      if status == Active {
        var written := SaveItemDetailsToJson(o.clock(|missing|));
        if written.None? {
          status := Crashed;
        } else {
          saves := saves + [written.value];
        }
      }
      run := LegacyRun(OutcomeOf(status), missing, saves);
    }
  }
}
