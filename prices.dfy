/** The batched price fetcher of src/prices.py and prices.py (the two differ only in where
    the endpoint, user agent and timeout come from). The identifiers are cut into chunks.
    Each chunk's identifiers are joined with "|" into one query. Each chunk's reply is merged
    into the running result, a later chunk overwriting an earlier one, and the result is
    saved after every chunk.

    The endpoint is an input: `fetch` gives the reply to the k-th query sent, given its
    text, so two identical queries may get different replies. */
module Prices {
  import opened Wrappers
  import opened Json
  import opened IntText
  import opened Utilities

  /** An identifier as the callers pass it: the details document's keys are strings, and a
      caller may also pass integers. */
  datatype ItemRef = IntRef(n: int) | StrRef(s: string)

  /** What `get_current_prices_for_ids` does for one query. It can return the decoded body
      (an object of prices by identifier). A request error is caught and gives `{}`.
      Anything else that escapes, such as a body that is not JSON, is `Raised`. */
  datatype PriceReply = Quotes(prices: Object) | RequestFailed | Raised

  // ---------------------------------------------------------------------------
  // The query: "|".join(str(item_id) for item_id in item_ids)
  // ---------------------------------------------------------------------------

  /** `str(item_id)`. */
  function RefText(r: ItemRef): string
  {
    match r
    case IntRef(n) => Show(n)
    case StrRef(s) => s
  }

  function RefTexts(refs: seq<ItemRef>): (ts: seq<string>)
    ensures |ts| == |refs|
    ensures forall i :: 0 <= i < |refs| ==> ts[i] == RefText(refs[i])
  {
    seq(|refs|, i requires 0 <= i < |refs| => RefText(refs[i]))
  }

  /** `"|".join(parts)`. */
  function Join(parts: seq<string>): string
    decreases |parts|
  {
    if |parts| == 0 then ""
    else if |parts| == 1 then parts[0]
    else parts[0] + "|" + Join(parts[1..])
  }

  /** The query parameter for a chunk. */
  function JoinIds(refs: seq<ItemRef>): string
  {
    Join(RefTexts(refs))
  }

  /** `s.split("|")`: the pieces between the separators, always at least one. */
  function Split(s: string): (pieces: seq<string>)
    ensures |pieces| > 0
    decreases |s|
  {
    if |s| == 0 then [""]
    else
      var rest := Split(s[1..]);
      if s[0] == '|' then [""] + rest else [[s[0]] + rest[0]] + rest[1..]
  }

  predicate NoBar(t: string)
  {
    forall i :: 0 <= i < |t| ==> t[i] != '|'
  }

  /** Splitting off a separator-free first piece. */
  lemma {:induction false} SplitFirst(p: string, rest: string)
    requires NoBar(p)
    ensures Split(p + "|" + rest) == [p] + Split(rest)
    ensures Split(p) == [p]
    decreases |p|
  {
    if |p| == 0 {
      assert (p + "|" + rest)[1..] == rest;
    } else {
      assert (p + "|" + rest)[1..] == p[1..] + "|" + rest;
      SplitFirst(p[1..], rest);
      assert [p[0]] + p[1..] == p;
    }
  }

  /** Splitting the joined query gives back the pieces, provided none of them contains the
      separator and there is at least one. */
  lemma {:induction false} SplitJoin(parts: seq<string>)
    requires |parts| > 0
    requires forall i :: 0 <= i < |parts| ==> NoBar(parts[i])
    ensures Split(Join(parts)) == parts
    decreases |parts|
  {
    if |parts| == 1 {
      SplitFirst(parts[0], "");
    } else {
      var tail := parts[1..];
      assert forall i :: 0 <= i < |tail| ==> tail[i] == parts[i + 1];
      SplitJoin(tail);
      assert Join(parts) == parts[0] + "|" + Join(tail);
      SplitFirst(parts[0], Join(tail));
      assert parts == [parts[0]] + tail;
    }
  }

  /** `str` of an integer is a sign and digits, never the separator. */
  lemma ShowHasNoBar(n: int)
    ensures NoBar(Show(n))
  {
    if n < 0 {
      assert Show(n) == "-" + ShowNat(-n);
      assert forall i :: 1 <= i < |Show(n)| ==> Show(n)[i] == ShowNat(-n)[i - 1];
    }
  }

  /** The query names exactly the chunk's identifiers, in order: splitting it at "|" gives
      back each identifier's text, and an integer identifier reads back as itself. Text
      identifiers must not contain "|" themselves. */
  lemma QueryNamesChunk(refs: seq<ItemRef>)
    requires |refs| > 0
    requires forall i :: 0 <= i < |refs| && refs[i].StrRef? ==> NoBar(refs[i].s)
    ensures Split(JoinIds(refs)) == RefTexts(refs)
    ensures forall i :: 0 <= i < |refs| && refs[i].IntRef? ==> Parse(Split(JoinIds(refs))[i]) == Some(refs[i].n)
  {
    forall i | 0 <= i < |refs| ensures NoBar(RefTexts(refs)[i]) {
      if refs[i].IntRef? {
        ShowHasNoBar(refs[i].n);
      }
    }
    SplitJoin(RefTexts(refs));
    forall i | 0 <= i < |refs| && refs[i].IntRef? ensures Parse(Split(JoinIds(refs))[i]) == Some(refs[i].n) {
      ParseShow(refs[i].n);
    }
  }

  // ---------------------------------------------------------------------------
  // Merging the replies
  // ---------------------------------------------------------------------------

  /** What a reply adds to `all_prices`: its prices, or nothing for a failed request. */
  function Contribution(reply: PriceReply): Object
  {
    if reply.Quotes? then reply.prices else map[]
  }

  /** The reply to chunk `k`. */
  function ReplyTo(cs: seq<seq<ItemRef>>, k: nat, fetch: (nat, string) -> PriceReply): PriceReply
    requires k < |cs|
  {
    fetch(k, JoinIds(cs[k]))
  }

  /** `all_prices` after `.update(...)` with the replies to the first `n` chunks. */
  function MergeUpTo(cs: seq<seq<ItemRef>>, n: nat, fetch: (nat, string) -> PriceReply): Object
    requires n <= |cs|
  {
    if n == 0 then map[] else MergeUpTo(cs, n - 1, fetch) + Contribution(ReplyTo(cs, n - 1, fetch))
  }

  /** The index of the first chunk whose request raises, or the number of chunks. */
  function FirstRaise(cs: seq<seq<ItemRef>>, from: nat, fetch: (nat, string) -> PriceReply): (n: nat)
    requires from <= |cs|
    ensures from <= n <= |cs|
    decreases |cs| - from
  {
    if from == |cs| || ReplyTo(cs, from, fetch).Raised? then from else FirstRaise(cs, from + 1, fetch)
  }

  /** `FirstRaise` finds the first raising chunk: when no chunk in `from..k` raises and the
      one at `k` does (or `k` is the end), it is `k`. */
  lemma {:induction false} FirstRaiseAt(cs: seq<seq<ItemRef>>, from: nat, k: nat, fetch: (nat, string) -> PriceReply)
    requires from <= k <= |cs|
    requires forall j :: from <= j < k ==> !ReplyTo(cs, j, fetch).Raised?
    requires k < |cs| ==> ReplyTo(cs, k, fetch).Raised?
    ensures FirstRaise(cs, from, fetch) == k
    decreases k - from
  {
    if from < k {
      FirstRaiseAt(cs, from + 1, k, fetch);
    }
  }

  /** A price is in the merged result exactly when some merged reply has it. */
  lemma {:induction false} MergedKeys(cs: seq<seq<ItemRef>>, n: nat, fetch: (nat, string) -> PriceReply, key: string)
    requires n <= |cs|
    ensures key in MergeUpTo(cs, n, fetch) <==> exists k :: 0 <= k < n && key in Contribution(ReplyTo(cs, k, fetch))
    decreases n
  {
    if n > 0 {
      MergedKeys(cs, n - 1, fetch, key);
      if key in Contribution(ReplyTo(cs, n - 1, fetch)) {
        assert 0 <= n - 1 < n && key in Contribution(ReplyTo(cs, n - 1, fetch));
      }
    }
  }

  /** A merged price comes from the last reply that has it: later chunks win. */
  lemma {:induction false} LaterChunkWins(cs: seq<seq<ItemRef>>, n: nat, fetch: (nat, string) -> PriceReply, key: string, k: nat)
    requires k < n <= |cs|
    requires key in Contribution(ReplyTo(cs, k, fetch))
    requires forall j :: k < j < n ==> key !in Contribution(ReplyTo(cs, j, fetch))
    ensures key in MergeUpTo(cs, n, fetch)
    ensures MergeUpTo(cs, n, fetch)[key] == Contribution(ReplyTo(cs, k, fetch))[key]
    decreases n
  {
    if k < n - 1 {
      LaterChunkWins(cs, n - 1, fetch, key, k);
    }
  }

  /** The number of identifiers in the first `n` chunks. */
  function CountUpTo(cs: seq<seq<ItemRef>>, n: nat): nat
    requires n <= |cs|
  {
    if n == 0 then 0 else CountUpTo(cs, n - 1) + |cs[n - 1]|
  }

  lemma {:induction false} CountIsFlattenLength(cs: seq<seq<ItemRef>>, n: nat)
    requires n <= |cs|
    ensures CountUpTo(cs, n) == |Flatten(cs[..n])|
    decreases n
  {
    if n > 0 {
      CountIsFlattenLength(cs, n - 1);
      assert cs[..n] == cs[..n - 1] + [cs[n - 1]];
      FlattenAppend(cs[..n - 1], cs[n - 1]);
    }
  }

  // ---------------------------------------------------------------------------
  // fetch_item_prices
  // ---------------------------------------------------------------------------

  datatype PriceOutcome = Completed | ChunkingFailed | RequestRaised

  /** What a run produces: how it ended, the prices gathered, the queries sent in order, the
      documents saved in order, and the progress bar's count. */
  datatype PriceRun = PriceRun(outcome: PriceOutcome, prices: Object, queries: seq<string>,
                               saves: seq<Object>, progress: nat)

  /** The queries for the first `n` chunks, in order. */
  function QueriesUpTo(cs: seq<seq<ItemRef>>, n: nat): seq<string>
    requires n <= |cs|
  {
    if n == 0 then [] else QueriesUpTo(cs, n - 1) + [JoinIds(cs[n - 1])]
  }

  /** The documents saved after each of the first `n` chunks. */
  function SnapshotsUpTo(cs: seq<seq<ItemRef>>, n: nat, fetch: (nat, string) -> PriceReply): seq<Object>
    requires n <= |cs|
  {
    if n == 0 then [] else SnapshotsUpTo(cs, n - 1, fetch) + [MergeUpTo(cs, n, fetch)]
  }

  /** Query `k` is chunk `k` joined, and snapshot `k` is the merge of the first `k + 1`
      chunks' replies. */
  lemma {:induction false} LogsAt(cs: seq<seq<ItemRef>>, n: nat, fetch: (nat, string) -> PriceReply)
    requires n <= |cs|
    ensures |QueriesUpTo(cs, n)| == n && forall k :: 0 <= k < n ==> QueriesUpTo(cs, n)[k] == JoinIds(cs[k])
    ensures |SnapshotsUpTo(cs, n, fetch)| == n
    ensures forall k :: 0 <= k < n ==> SnapshotsUpTo(cs, n, fetch)[k] == MergeUpTo(cs, k + 1, fetch)
    decreases n
  {
    if n > 0 {
      LogsAt(cs, n - 1, fetch);
    }
  }

  /** The loop of `fetch_item_prices` over given chunks. Each chunk is queried, merged,
      counted and saved in turn, and a reply that raises ends the run after its query. */
  method MergeChunks(cs: seq<seq<ItemRef>>, fetch: (nat, string) -> PriceReply) returns (run: PriceRun)
    ensures var n := FirstRaise(cs, 0, fetch);
      && run.outcome == (if n < |cs| then RequestRaised else Completed)
      && run.prices == MergeUpTo(cs, n, fetch)
      && run.queries == QueriesUpTo(cs, if n < |cs| then n + 1 else n)
      && run.saves == SnapshotsUpTo(cs, n, fetch)
      && run.progress == CountUpTo(cs, n)
  {
    var allPrices: Object := map[];
    var queries: seq<string> := [];
    var saves: seq<Object> := [];
    var progress: nat := 0;
    var k := 0;
    while k < |cs|
      invariant 0 <= k <= |cs|
      invariant forall j :: 0 <= j < k ==> !ReplyTo(cs, j, fetch).Raised?
      invariant allPrices == MergeUpTo(cs, k, fetch)
      invariant queries == QueriesUpTo(cs, k)
      invariant saves == SnapshotsUpTo(cs, k, fetch)
      invariant progress == CountUpTo(cs, k)
    {
      var query := JoinIds(cs[k]);
      queries := queries + [query];
      var reply := fetch(k, query);
      if reply.Raised? {
        FirstRaiseAt(cs, 0, k, fetch);
        return PriceRun(RequestRaised, allPrices, queries, saves, progress);
      }
      allPrices := allPrices + Contribution(reply);
      progress := progress + |cs[k]|;
      saves := saves + [allPrices];
      k := k + 1;
    }
    FirstRaiseAt(cs, 0, k, fetch);
    run := PriceRun(Completed, allPrices, queries, saves, progress);
  }

  /** `fetch_item_prices(item_ids, filename, wait, chunk_size)`. A zero chunk size makes
      `range` raise before any request, and a negative one gives no chunk at all. Otherwise
      the chunks of `as_chunks` are fetched in turn. */
  method FetchItemPrices(itemIds: seq<ItemRef>, chunkSize: int, fetch: (nat, string) -> PriceReply) returns (run: PriceRun)
    ensures chunkSize == 0 ==> run == PriceRun(ChunkingFailed, map[], [], [], 0)
    ensures chunkSize < 0 ==> run == PriceRun(Completed, map[], [], [], 0)
    ensures |itemIds| == 0 && chunkSize != 0 ==> run == PriceRun(Completed, map[], [], [], 0)
    ensures chunkSize > 0 ==>
      var cs := ChunksFrom(itemIds, chunkSize, 0);
      var n := FirstRaise(cs, 0, fetch);
      && run.outcome == (if n < |cs| then RequestRaised else Completed)
      && run.prices == MergeUpTo(cs, n, fetch)
      && run.queries == QueriesUpTo(cs, if n < |cs| then n + 1 else n)
      && run.saves == SnapshotsUpTo(cs, n, fetch)
      && run.progress == CountUpTo(cs, n)
  {
    var chunks := AsChunks(itemIds, chunkSize);
    if chunks.Failure? {
      return PriceRun(ChunkingFailed, map[], [], [], 0);
    }
    run := MergeChunks(chunks.value, fetch);
  }

  /** Without a raising reply and with a positive chunk size, there is one save per chunk,
      ceil(n / chunk_size) in all, and the progress bar reaches the number of identifiers. */
  lemma OneSavePerChunk(itemIds: seq<ItemRef>, chunkSize: int, fetch: (nat, string) -> PriceReply)
    requires chunkSize > 0
    requires FirstRaise(ChunksFrom(itemIds, chunkSize, 0), 0, fetch) == |ChunksFrom(itemIds, chunkSize, 0)|
    ensures |ChunksFrom(itemIds, chunkSize, 0)| == (|itemIds| + chunkSize - 1) / chunkSize
    ensures CountUpTo(ChunksFrom(itemIds, chunkSize, 0), |ChunksFrom(itemIds, chunkSize, 0)|) == |itemIds|
    ensures var cs := ChunksFrom(itemIds, chunkSize, 0);
      |SnapshotsUpTo(cs, FirstRaise(cs, 0, fetch), fetch)| == (|itemIds| + chunkSize - 1) / chunkSize
  {
    var cs := ChunksFrom(itemIds, chunkSize, 0);
    ChunksShape(itemIds, chunkSize);
    CountIsFlattenLength(cs, |cs|);
    assert cs[..|cs|] == cs;
    ChunksRoundTrip(itemIds, chunkSize);
    LogsAt(cs, |cs|, fetch);
  }
}
