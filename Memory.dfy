/**
 * The memory service of internal/memory/service.go: write normalisation,
 * search re-ranking, context-pack assembly and promotion, over the store.
 *
 * The clock, the generated id, the namespace regular expression and the
 * recency decay `exp(-days/14)` are parameters. Scores are real numbers.
 */
module Memory {
  import opened Wrappers
  import opened Text
  import opened Types
  import opened Sorting
  import Config
  import Store

  const MaxSearchK: int := 100
  const MaxPackK: int := 50
  const DefaultTokenBudget: int := 512
  const SummaryLimit: int := 160
  const LineTextLimit: int := 300
  const NormalizeLimit: int := 180
  const DefaultImportance: int := 3
  const NanosPerSecond: int := 1_000_000_000
  const SecondsPerHour: int := 3600

  datatype Error =
    | NamespaceRequired
    | NamespaceMismatch(namespace: string)
    | InvalidScope(scope: string)
    | EmptyContent
    | MemoryIdRequired
    | UnsupportedTarget
    | NotFound(id: string)
    | Storage(cause: Store.StoreError)

  /** The error's text, as the tool result shows it. */
  function Message(e: Error): string {
    match e
    case NamespaceRequired => "namespace is required"
    case NamespaceMismatch(ns) => "namespace \"" + ns + "\" does not match required pattern"
    case InvalidScope(sc) => "invalid scope \"" + sc + "\""
    case EmptyContent => "content must not be empty"
    case MemoryIdRequired => "memory_id is required"
    case UnsupportedTarget => "only target_scope=long is supported"
    case NotFound(id) => "memory " + id + " not found"
    case Storage(cause) => if cause.NoRows? then "sql: no rows in result set" else cause.message
  }

  // ---------------------------------------------------------------------------
  // String helpers

  /** `truncate`: at most `limit` runes, the cut marked by "..." when there is room for it. */
  function Truncate(s: string, limit: int): (r: string)
    requires limit >= 0
    ensures |s| <= limit ==> r == s
    ensures |s| > limit ==> |r| == limit
    ensures |s| > limit && limit >= 3 ==> r[..limit - 3] == s[..limit - 3] && r[limit - 3..] == "..."
    ensures |s| > limit && limit < 3 ==> r == s[..limit]
  {
    if |s| <= limit then s
    else if limit < 3 then s[..limit]
    else s[..limit - 3] + "..."
  }

  /** `normalize`: the dedup key — lower-cased, whitespace runs collapsed to one space, at most 180 runes. */
  function Normalize(s: string): (r: string)
    ensures |r| <= NormalizeLimit
  {
    Truncate(Join(Fields(ToLower(TrimSpace(s))), " "), NormalizeLimit)
  }

  /** `estimateTokens`: a quarter of the rune count, rounded up, and never below 1. */
  function EstimateTokens(s: string): (r: int)
    ensures r >= 1
    ensures s == [] ==> r == 1
    ensures s != [] ==> 4 * (r - 1) < |s| <= 4 * r
  {
    var t := (|s| + 3) / 4;
    if t < 1 then 1 else t
  }

  /** `autoSummary`: the trimmed content, cut to 160 runes. */
  function AutoSummary(content: string): (r: string)
    ensures |r| <= SummaryLimit
    ensures r == [] <==> IsBlank(content)
    ensures |TrimSpace(content)| <= SummaryLimit ==> r == TrimSpace(content)
  {
    var c := TrimSpace(content);
    if c == [] then []
    else
      var t := Truncate(c, SummaryLimit);
      assert |t| == if |c| <= SummaryLimit then |c| else SummaryLimit;
      t
  }

  /** `validateNamespace`: the trimmed namespace must be non-empty and match the pattern. */
  function ValidateNamespace(namespace: string, matches: string -> bool): (r: Option<Error>)
    ensures r.None? <==> !IsBlank(namespace) && matches(TrimSpace(namespace))
    ensures r == Some(NamespaceRequired) <==> IsBlank(namespace)
  {
    var ns := TrimSpace(namespace);
    if ns == [] then Some(NamespaceRequired)
    else if !matches(ns) then Some(NamespaceMismatch(ns))
    else None
  }

  /** The scope as the service compares it: lower-cased, then trimmed. */
  function NormalizeScope(scope: string): (r: string)
    ensures |r| <= |scope|
    ensures r == [] || (!IsSpace(r[0]) && !IsSpace(r[|r| - 1]))
  {
    TrimSpace(ToLower(scope))
  }

  /** The scope a write uses: normalised, with "" meaning short-term. */
  function WriteScope(scope: string): (r: string)
    ensures r != []
  {
    var s := NormalizeScope(scope);
    if s == [] then ScopeShort else s
  }

  function ClampImportance(importance: int): (r: int)
    ensures 1 <= r <= 5
    ensures 1 <= importance <= 5 ==> r == importance
    ensures !(1 <= importance <= 5) ==> r == DefaultImportance
  {
    if importance < 1 || importance > 5 then DefaultImportance else importance
  }

  function SummaryFor(summary: string, content: string): (r: string)
    ensures !IsBlank(summary) ==> r == TrimSpace(summary)
    ensures IsBlank(summary) ==> r == AutoSummary(content)
    ensures !IsBlank(content) ==> r != []
  {
    var s := TrimSpace(summary);
    if s == [] then AutoSummary(content) else s
  }

  /** The TTL in seconds a short-term write uses: the given one, or the configured hours. */
  function TtlSeconds(ttlSeconds: int, defaultHours: int): (r: int)
    ensures ttlSeconds > 0 ==> r == ttlSeconds
    ensures ttlSeconds <= 0 ==> r == defaultHours * SecondsPerHour
  {
    if ttlSeconds <= 0 then defaultHours * SecondsPerHour else ttlSeconds
  }

  /**
   * The expiry as the code computes it: `time.Duration(ttl) * time.Second` is
   * an int64 product of nanoseconds, and so is `DefaultShortTTLHours * 3600`.
   */
  function ExpiryAsWritten(now: int, ttlSeconds: int, defaultHours: int): int {
    var ttl := if ttlSeconds <= 0 then Wrap64(defaultHours * SecondsPerHour) else ttlSeconds;
    now + Wrap64(ttl * NanosPerSecond)
  }

  /** The expiry the code means: `ttl` seconds after now, without wrap-around. */
  function Expiry(now: int, ttlSeconds: int, defaultHours: int): (r: int)
    ensures r == now + TtlSeconds(ttlSeconds, defaultHours) * NanosPerSecond
    ensures (ttlSeconds > 0 || defaultHours > 0) ==> r > now
  {
    now + TtlSeconds(ttlSeconds, defaultHours) * NanosPerSecond
  }

  /** A TTL of 10^10 seconds (about 317 years) wraps to an expiry before the write. */
  lemma ExpiryOverflowCounterexample(now: int)
    ensures ExpiryAsWritten(now, 10_000_000_000, 48) < now
    ensures Expiry(now, 10_000_000_000, 48) > now
  {
    assert 10_000_000_000 * NanosPerSecond == 10_000_000_000_000_000_000;
    assert Wrap64(10_000_000_000_000_000_000) == 10_000_000_000_000_000_000 - 0x1_0000_0000_0000_0000;
  }

  /** Whenever the products fit in int64 the two agree. */
  lemma ExpiryAgreesInRange(now: int, ttlSeconds: int, defaultHours: int)
    requires InInt64(TtlSeconds(ttlSeconds, defaultHours) * NanosPerSecond)
    requires ttlSeconds <= 0 ==> InInt64(defaultHours * SecondsPerHour)
    ensures ExpiryAsWritten(now, ttlSeconds, defaultHours) == Expiry(now, ttlSeconds, defaultHours)
  {
  }

  // ---------------------------------------------------------------------------
  // Write

  /**
   * `Write` up to the store call: the validation errors in source order, then
   * the record to insert with scope, importance, summary and expiry defaulted.
   * The namespace is stored as given; only its trimmed form is validated.
   */
  function PrepareWrite(cfg: Config.Config, matches: string -> bool, input: WriteInput, id: string, now: int): (r: Result<MemoryRecord, Error>)
    ensures ValidateNamespace(input.namespace, matches).Some? ==> r == Failure(ValidateNamespace(input.namespace, matches).value)
    ensures ValidateNamespace(input.namespace, matches).None? && WriteScope(input.scope) != ScopeShort && WriteScope(input.scope) != ScopeLong
      ==> r == Failure(InvalidScope(WriteScope(input.scope)))
    ensures ValidateNamespace(input.namespace, matches).None? && WriteScope(input.scope) in {ScopeShort, ScopeLong} && IsBlank(input.content)
      ==> r == Failure(EmptyContent)
    ensures r.Success? <==> ValidateNamespace(input.namespace, matches).None? && WriteScope(input.scope) in {ScopeShort, ScopeLong} && !IsBlank(input.content)
    ensures r.Success? ==>
      var rec := r.value;
      && rec.id == id && rec.namespace == input.namespace && rec.content == input.content
      && rec.sourceAgent == input.sourceAgent && rec.metadata == input.metadata
      && rec.scope == WriteScope(input.scope)
      && rec.importance == ClampImportance(input.importance)
      && rec.summary == SummaryFor(input.summary, input.content)
      && rec.createdAt == now && rec.lastAccessedAt == now && rec.promotedAt == None
      && (rec.expiresAt.Some? <==> rec.scope == ScopeShort)
      && (rec.expiresAt.Some? ==> rec.expiresAt.value == Expiry(now, input.ttlSeconds, cfg.defaultShortTtlHours))
  {
    match ValidateNamespace(input.namespace, matches)
    case Some(e) => Failure(e)
    case None =>
      var scope := WriteScope(input.scope);
      if scope != ScopeShort && scope != ScopeLong then Failure(InvalidScope(scope))
      else if IsBlank(input.content) then Failure(EmptyContent)
      else
        var expires := if scope == ScopeShort then Some(Expiry(now, input.ttlSeconds, cfg.defaultShortTtlHours)) else None;
        Success(MemoryRecord(id, input.namespace, scope, input.content, SummaryFor(input.summary, input.content),
                             ClampImportance(input.importance), input.sourceAgent, input.metadata, now, now, expires, None))
  }

  /** The shape every memory the service writes or promotes keeps. */
  predicate WellFormed(rec: MemoryRecord) {
    && (rec.scope == ScopeShort || rec.scope == ScopeLong)
    && 1 <= rec.importance <= 5
    && (rec.expiresAt.Some? <==> rec.scope == ScopeShort)
    && (rec.promotedAt.Some? ==> rec.scope == ScopeLong)
    && !IsBlank(rec.content)
    && rec.summary != []
  }

  /** A written memory is well formed, and a short-term one expires after it was written. */
  lemma WriteWellFormed(cfg: Config.Config, matches: string -> bool, input: WriteInput, id: string, now: int)
    requires cfg.defaultShortTtlHours > 0
    requires PrepareWrite(cfg, matches, input, id, now).Success?
    ensures var rec := PrepareWrite(cfg, matches, input, id, now).value;
      WellFormed(rec) && (rec.expiresAt.Some? ==> rec.expiresAt.value > now)
  {
  }

  /** Promotion keeps a memory well formed. */
  lemma PromoteWellFormed(rec: MemoryRecord, now: int)
    requires WellFormed(rec)
    ensures WellFormed(Store.PromotedRow(rec, now))
  {
  }

  /** The whole table stays well formed through promotion and expiry. */
  lemma TableWellFormed(rows: seq<MemoryRecord>, id: string, now: int)
    requires forall r :: r in rows ==> WellFormed(r)
    ensures forall r :: r in Store.PromoteRows(rows, id, now) ==> WellFormed(r)
    ensures forall r :: r in Store.Survivors(rows, now) ==> WellFormed(r)
  {
    var p := Store.PromoteRows(rows, id, now);
    forall r | r in p ensures WellFormed(r) {
      var i :| 0 <= i < |p| && p[i] == r;
      assert rows[i] in rows;
    }
  }

  // ---------------------------------------------------------------------------
  // Search ranking

  function SearchK(k: int, defaultK: int): (r: int)
    ensures defaultK > 0 ==> 1 <= r <= MaxSearchK
    ensures 0 < k <= MaxSearchK ==> r == k
    ensures k > MaxSearchK ==> r == MaxSearchK
  {
    var k1 := if k <= 0 then defaultK else k;
    if k1 > MaxSearchK then MaxSearchK else k1
  }

  /** `recencyScore`: 1 for a memory not older than now, otherwise the decay of its age. */
  function Recency(now: int, createdAt: int, decay: int -> real): (r: real)
    ensures now <= createdAt ==> r == 1.0
    ensures now > createdAt ==> r == decay(now - createdAt)
  {
    if now - createdAt <= 0 then 1.0 else decay(now - createdAt)
  }

  function Scored(c: Store.Candidate, now: int, decay: int -> real): (r: SearchResult)
    ensures r.record == c.record && r.lexicalScore == c.lexicalScore
    ensures r.score == 0.60 * r.lexicalScore + 0.25 * r.recencyScore + 0.15 * r.importanceScore
  {
    var recency := Recency(now, c.record.createdAt, decay);
    var importance := c.record.importance as real / 5.0;
    SearchResult(c.record, 0.60 * c.lexicalScore + 0.25 * recency + 0.15 * importance,
                 c.lexicalScore, recency, importance)
  }

  function ScoreKey(r: SearchResult): real {
    r.score
  }

  function WithoutMetadata(r: SearchResult): SearchResult {
    r.(record := r.record.(metadata := None))
  }

  /** Score every candidate, stable-sort by score, keep the best k, and drop metadata unless asked for. */
  function Rank(cands: seq<Store.Candidate>, k: int, includeMetadata: bool, now: int, decay: int -> real): (r: seq<SearchResult>)
    ensures |r| == if k < 0 then 0 else if |cands| <= k then |cands| else k
    ensures !includeMetadata ==> forall i :: 0 <= i < |r| ==> r[i].record.metadata.None?
  {
    var scored := seq(|cands|, i requires 0 <= i < |cands| => Scored(cands[i], now, decay));
    var top := Take(SortDesc(scored, ScoreKey), k);
    if includeMetadata then top else seq(|top|, i requires 0 <= i < |top| => WithoutMetadata(top[i]))
  }

  /** `Search`'s checks before the store call: the namespace, then a scope that is "", short or long once normalised. */
  function SearchCheck(namespace: string, scope: string, matches: string -> bool): (r: Option<Error>)
    ensures r.None? <==> ValidateNamespace(namespace, matches).None? && NormalizeScope(scope) in {[], ScopeShort, ScopeLong}
    ensures ValidateNamespace(namespace, matches).Some? ==> r == ValidateNamespace(namespace, matches)
    ensures ValidateNamespace(namespace, matches).None? && r.Some? ==> r == Some(InvalidScope(NormalizeScope(scope)))
  {
    var s := NormalizeScope(scope);
    if ValidateNamespace(namespace, matches).Some? then ValidateNamespace(namespace, matches)
    else if s != [] && s != ScopeShort && s != ScopeLong then Some(InvalidScope(s))
    else None
  }

  function SearchSpec(rows: seq<MemoryRecord>, ftsEnabled: bool, fts: Store.FtsSearch, cfg: Config.Config, matches: string -> bool,
                      input: SearchInput, now: int, decay: int -> real): (r: Result<seq<SearchResult>, Error>)
    ensures r.Failure? <==> SearchCheck(input.namespace, input.scope, matches).Some?
    ensures r.Failure? ==> SearchCheck(input.namespace, input.scope, matches) == Some(r.error)
    ensures r.Success? && cfg.defaultSearchK > 0 ==> |r.value| <= SearchK(input.k, cfg.defaultSearchK)
    ensures r.Success? && !input.includeMetadata ==> forall i :: 0 <= i < |r.value| ==> r.value[i].record.metadata.None?
  {
    match SearchCheck(input.namespace, input.scope, matches)
    case Some(e) => Failure(e)
    case None =>
      var k := SearchK(input.k, cfg.defaultSearchK);
      var cands := Store.Candidates(rows, ftsEnabled, fts, input.namespace, input.query, NormalizeScope(input.scope), 3 * k, now);
      var ranked := Rank(cands, k, input.includeMetadata, now, decay);
      assert |ranked| == (if k < 0 then 0 else if |cands| <= k then |cands| else k);
      Success(ranked)
  }

  /**
   * The ranking keeps at most k results, by non-increasing score, each a
   * scored candidate, and no candidate left out scores above one kept; for every score value, the results with that score are
   * the first ones of that score in candidate order (a stable sort, then a cut).
   */
  lemma RankMeaning(cands: seq<Store.Candidate>, k: int, now: int, decay: int -> real)
    requires k >= 0
    ensures var r := Rank(cands, k, true, now, decay);
      var scored := seq(|cands|, i requires 0 <= i < |cands| => Scored(cands[i], now, decay));
      && |r| == (if |cands| <= k then |cands| else k)
      && SortedDesc(r, ScoreKey)
      && (forall i :: 0 <= i < |r| ==> r[i] in scored)
      && (forall v :: WithKey(r, ScoreKey, v) <= WithKey(scored, ScoreKey, v))
      && (forall x, y :: x in scored && x !in r && y in r ==> x.score <= y.score)
      && (|cands| <= k ==> multiset(r) == multiset(scored))
  {
    var scored := seq(|cands|, i requires 0 <= i < |cands| => Scored(cands[i], now, decay));
    var sorted := SortDesc(scored, ScoreKey);
    SortDescSorted(scored, ScoreKey);
    SortDescPermutes(scored, ScoreKey);
    var r := Take(sorted, k);
    forall i | 0 <= i < |r| ensures r[i] in scored {
      assert r[i] == sorted[i];
      assert sorted[i] in multiset(scored);
    }
    forall v ensures WithKey(r, ScoreKey, v) <= WithKey(scored, ScoreKey, v) {
      SortDescStable(scored, ScoreKey, v);
      if |sorted| > k {
        assert r == sorted[..k];
        WithKeyOfPrefix(sorted, k, v);
      }
    }
    forall x, y | x in scored && x !in r && y in r ensures x.score <= y.score {
      assert x in multiset(sorted);
      TakeKeepsBest(sorted, ScoreKey, k, x, y);
    }
    if |cands| <= k {
      assert r == sorted;
    }
  }

  /** Without metadata asked for, the ranking is the same with every metadata map dropped. */
  lemma RankWithoutMetadata(cands: seq<Store.Candidate>, k: int, now: int, decay: int -> real)
    ensures var full := Rank(cands, k, true, now, decay);
      var r := Rank(cands, k, false, now, decay);
      && |r| == |full|
      && forall i :: 0 <= i < |r| ==> r[i].record.metadata == None && r[i] == full[i].(record := full[i].record.(metadata := None))
  {
  }

  lemma {:induction false} WithKeyOfPrefix(s: seq<SearchResult>, n: int, v: real)
    requires 0 <= n <= |s|
    ensures WithKey(s[..n], ScoreKey, v) <= WithKey(s, ScoreKey, v)
  {
    if n > 0 {
      WithKeyOfPrefix(s[1..], n - 1, v);
      assert s[..n][1..] == s[1..][..n - 1];
    }
  }

  // ---------------------------------------------------------------------------
  // Context pack

  /** A memory a pack may include: its id and the text its line shows. */
  datatype Entry = Entry(id: string, text: string)

  /** The text of a memory's line: the trimmed summary, or else the trimmed content. */
  function EntryText(rec: MemoryRecord): (r: string)
    ensures !IsBlank(rec.summary) ==> r == TrimSpace(rec.summary)
    ensures IsBlank(rec.summary) ==> r == TrimSpace(rec.content)
    ensures r == [] <==> IsBlank(rec.summary) && IsBlank(rec.content)
  {
    var s := TrimSpace(rec.summary);
    if s == [] then TrimSpace(rec.content) else s
  }

  function EntryOf(r: SearchResult): Entry {
    Entry(r.record.id, EntryText(r.record))
  }

  /** The line of an entry: `- [id] text`, the text cut to 300 runes. */
  function LineOf(e: Entry): (line: string)
    ensures |line| <= |e.id| + 5 + LineTextLimit
  {
    "- [" + e.id + "] " + Truncate(e.text, LineTextLimit)
  }

  function Cost(e: Entry): (t: int)
    ensures t >= 1
  {
    EstimateTokens(LineOf(e))
  }

  function TokensOf(es: seq<Entry>): (t: int)
    ensures t >= |es|
  {
    if es == [] then 0 else Cost(es[0]) + TokensOf(es[1..])
  }

  function IdsOf(es: seq<Entry>): (r: seq<string>)
    ensures |r| == |es| && forall i :: 0 <= i < |es| ==> r[i] == es[i].id
  {
    seq(|es|, i requires 0 <= i < |es| => es[i].id)
  }

  function LinesOf(es: seq<Entry>): (r: seq<string>)
    ensures |r| == |es| && forall i :: 0 <= i < |es| ==> r[i] == LineOf(es[i])
  {
    seq(|es|, i requires 0 <= i < |es| => LineOf(es[i]))
  }

  /**
   * The entries a pack may take, in rank order: those with some text, each
   * the first of its dedup key (`normalize` in the service); keys in `seen`
   * are already taken.
   */
  function Eligible(entries: seq<Entry>, seen: set<string>, key: string -> string): (es: seq<Entry>)
    ensures |es| <= |entries|
  {
    if entries == [] then []
    else
      var e := entries[0];
      if e.text == [] || key(e.text) in seen then Eligible(entries[1..], seen, key)
      else [e] + Eligible(entries[1..], seen + {key(e.text)}, key)
  }

  /** The longest prefix of the entries whose lines fit in the budget. */
  function Fit(es: seq<Entry>, budget: int): (r: seq<Entry>)
    ensures r <= es
  {
    if es == [] || Cost(es[0]) > budget then []
    else [es[0]] + Fit(es[1..], budget - Cost(es[0]))
  }

  function PackBudget(tokenBudget: int): (b: int)
    ensures b > 0
    ensures tokenBudget > 0 ==> b == tokenBudget
  {
    if tokenBudget <= 0 then DefaultTokenBudget else tokenBudget
  }

  function PackK(k: int, maxItems: int): (r: int)
    ensures maxItems > 0 ==> 1 <= r <= MaxPackK
    ensures 0 < k <= MaxPackK ==> r == k
  {
    var k1 := if k <= 0 then maxItems else k;
    if k1 > MaxPackK then MaxPackK else k1
  }

  /**
   * The pack built from ranked results: the lines joined by newlines, their
   * token total and ids. `key` is the dedup key, `normalize` in the service.
   */
  function Pack(results: seq<SearchResult>, budget: int, key: string -> string): (p: ContextPack)
    ensures budget >= 0 ==> 0 <= p.estimatedTokens <= budget
    ensures |p.memoryIds| <= |results|
  {
    var es := Fit(Eligible(EntriesOf(results), {}, key), budget);
    assert budget >= 0 ==> TokensOf(es) <= budget by {
      if budget >= 0 {
        FitWithin(Eligible(EntriesOf(results), {}, key), budget);
      }
    }
    ContextPack(Join(LinesOf(es), "\n"), TokensOf(es), IdsOf(es))
  }

  function ContextPackSpec(rows: seq<MemoryRecord>, ftsEnabled: bool, fts: Store.FtsSearch, cfg: Config.Config, matches: string -> bool,
                           input: ContextPackInput, now: int, decay: int -> real): (r: Result<ContextPack, Error>)
    ensures r.Failure? <==> SearchCheck(input.namespace, input.scope, matches).Some?
    ensures r.Failure? ==> SearchCheck(input.namespace, input.scope, matches) == Some(r.error)
    ensures r.Success? ==> r.value.estimatedTokens <= PackBudget(input.tokenBudget)
    ensures r.Success? && cfg.maxContextPackItems > 0 && cfg.defaultSearchK > 0 ==>
      |r.value.memoryIds| <= PackK(input.k, cfg.maxContextPackItems)
  {
    var search := SearchInput(input.namespace, input.query, input.scope, PackK(input.k, cfg.maxContextPackItems), false);
    match SearchSpec(rows, ftsEnabled, fts, cfg, matches, search, now, decay)
    case Failure(e) => Failure(e)
    case Success(results) => Success(Pack(results, PackBudget(input.tokenBudget), Normalize))
  }

  /** The entries that fit never cost more than the budget. */
  lemma {:induction false} FitWithin(es: seq<Entry>, budget: int)
    requires budget >= 0
    ensures TokensOf(Fit(es, budget)) <= budget
  {
    if es != [] && Cost(es[0]) <= budget {
      FitWithin(es[1..], budget - Cost(es[0]));
      assert Fit(es, budget)[1..] == Fit(es[1..], budget - Cost(es[0]));
    }
  }

  /** Fitting stops at the first entry that would overrun the budget: it does not skip and continue. */
  lemma {:induction false} FitMaximal(es: seq<Entry>, budget: int)
    requires |Fit(es, budget)| < |es|
    ensures TokensOf(Fit(es, budget)) + Cost(es[|Fit(es, budget)|]) > budget
  {
    if es != [] && Cost(es[0]) <= budget {
      FitMaximal(es[1..], budget - Cost(es[0]));
      assert Fit(es, budget)[1..] == Fit(es[1..], budget - Cost(es[0]));
    }
  }

  /** Every prefix of the entries that fits within the budget is a prefix of what Fit keeps. */
  lemma {:induction false} FitLongest(es: seq<Entry>, budget: int, n: nat)
    requires n <= |es| && TokensOf(es[..n]) <= budget
    ensures n <= |Fit(es, budget)|
  {
    if n > 0 {
      assert es[..n][1..] == es[1..][..n - 1];
      FitLongest(es[1..], budget - Cost(es[0]), n - 1);
    }
  }

  predicate DistinctKeys(es: seq<Entry>, key: string -> string) {
    forall i, j :: 0 <= i < j < |es| ==> key(es[i].text) != key(es[j].text)
  }

  /** No two eligible entries share a key, none reuses a key in `seen`, and none is blank. */
  lemma {:induction false} EligibleKeys(entries: seq<Entry>, seen: set<string>, key: string -> string)
    ensures DistinctKeys(Eligible(entries, seen, key), key)
    ensures forall e :: e in Eligible(entries, seen, key) ==> e.text != [] && key(e.text) !in seen
  {
    if entries != [] {
      var e := entries[0];
      if e.text == [] || key(e.text) in seen {
        EligibleKeys(entries[1..], seen, key);
      } else {
        var rest := Eligible(entries[1..], seen + {key(e.text)}, key);
        EligibleKeys(entries[1..], seen + {key(e.text)}, key);
        var es := [e] + rest;
        forall i, j | 0 <= i < j < |es| ensures key(es[i].text) != key(es[j].text) {
          if i == 0 {
            assert es[j] in rest;
          } else {
            assert es[i] == rest[i - 1] && es[j] == rest[j - 1];
          }
        }
      }
    }
  }

  /** `a` is `b` with some elements left out, order kept. */
  predicate IsSubsequence(a: seq<Entry>, b: seq<Entry>)
    decreases |b|
  {
    a == [] || (b != [] && ((a[0] == b[0] && IsSubsequence(a[1..], b[1..])) || IsSubsequence(a, b[1..])))
  }

  function EntriesOf(results: seq<SearchResult>): (r: seq<Entry>)
    ensures |r| == |results| && forall i :: 0 <= i < |r| ==> r[i] == EntryOf(results[i])
  {
    seq(|results|, i requires 0 <= i < |results| => EntryOf(results[i]))
  }

  /** The eligible entries are the given ones in their order, some left out. */
  lemma {:induction false} EligibleInOrder(entries: seq<Entry>, seen: set<string>, key: string -> string)
    ensures IsSubsequence(Eligible(entries, seen, key), entries)
  {
    if entries != [] {
      var e := entries[0];
      if e.text == [] || key(e.text) in seen {
        EligibleInOrder(entries[1..], seen, key);
      } else {
        EligibleInOrder(entries[1..], seen + {key(e.text)}, key);
      }
    }
  }

  /** Only blank entries and repeated keys are left out: every other entry's key is taken. */
  lemma {:induction false} EligibleCovers(entries: seq<Entry>, seen: set<string>, key: string -> string, i: nat)
    requires i < |entries| && entries[i].text != []
    ensures key(entries[i].text) in seen || exists e :: e in Eligible(entries, seen, key) && key(e.text) == key(entries[i].text)
  {
    var e := entries[0];
    if i == 0 {
      if key(e.text) !in seen {
        assert e in Eligible(entries, seen, key);
      }
    } else if e.text == [] || key(e.text) in seen {
      EligibleCovers(entries[1..], seen, key, i - 1);
    } else {
      var k := key(entries[i].text);
      EligibleCovers(entries[1..], seen + {key(e.text)}, key, i - 1);
      if k != key(e.text) && k !in seen {
        var x :| x in Eligible(entries[1..], seen + {key(e.text)}, key) && key(x.text) == k;
        assert x in Eligible(entries, seen, key);
      }
    }
  }

  /**
   * The entry that represents a key is its first non-blank entry: an entry
   * whose key is not in `seen` and appears on no earlier non-blank entry is
   * eligible (and, keys being distinct, no later entry with that key is).
   */
  lemma {:induction false} EligibleFirst(entries: seq<Entry>, seen: set<string>, key: string -> string, j: nat)
    requires j < |entries| && entries[j].text != [] && key(entries[j].text) !in seen
    requires forall i :: 0 <= i < j && entries[i].text != [] ==> key(entries[i].text) != key(entries[j].text)
    ensures entries[j] in Eligible(entries, seen, key)
  {
    var e := entries[0];
    if j > 0 {
      assert forall i :: 0 <= i < j - 1 ==> entries[1..][i] == entries[i + 1];
      if e.text == [] || key(e.text) in seen {
        EligibleFirst(entries[1..], seen, key, j - 1);
      } else {
        EligibleFirst(entries[1..], seen + {key(e.text)}, key, j - 1);
      }
    }
  }

  /** A prefix of a subsequence is a subsequence. */
  lemma {:induction false} SubsequencePrefix(a: seq<Entry>, b: seq<Entry>, n: nat)
    requires IsSubsequence(a, b) && n <= |a|
    ensures IsSubsequence(a[..n], b)
    decreases |b|
  {
    if n > 0 {
      if a[0] == b[0] && IsSubsequence(a[1..], b[1..]) {
        SubsequencePrefix(a[1..], b[1..], n - 1);
        assert a[..n][1..] == a[1..][..n - 1];
      } else {
        SubsequencePrefix(a, b[1..], n);
      }
    }
  }

  /**
   * What a pack holds: the ids of a prefix of the eligible entries, in rank
   * order, none blank and no two with the same key, whose lines cost exactly
   * the reported tokens, never more than the budget; the next eligible entry,
   * if any, would have overrun it.
   */
  lemma PackMeaning(results: seq<SearchResult>, budget: int, key: string -> string)
    requires budget >= 0
    ensures var p := Pack(results, budget, key);
      var eligible := Eligible(EntriesOf(results), {}, key);
      var es := Fit(eligible, budget);
      && es <= eligible
      && p.memoryIds == IdsOf(es)
      && p.estimatedTokens == TokensOf(es) <= budget
      && (|es| < |eligible| ==> p.estimatedTokens + Cost(eligible[|es|]) > budget)
      && IsSubsequence(es, EntriesOf(results))
      && DistinctKeys(es, key)
      && (forall e :: e in es ==> e.text != [])
  {
    PackFits(results, budget, key);
    PackDistinct(results, budget, key);
  }

  /** The packed entries are the longest prefix of the eligible ones that fits the budget. */
  lemma PackFits(results: seq<SearchResult>, budget: int, key: string -> string)
    requires budget >= 0
    ensures var p := Pack(results, budget, key);
      var eligible := Eligible(EntriesOf(results), {}, key);
      var es := Fit(eligible, budget);
      && es <= eligible
      && p.memoryIds == IdsOf(es)
      && p.estimatedTokens == TokensOf(es) <= budget
      && (|es| < |eligible| ==> p.estimatedTokens + Cost(eligible[|es|]) > budget)
  {
    var eligible := Eligible(EntriesOf(results), {}, key);
    FitWithin(eligible, budget);
    if |Fit(eligible, budget)| < |eligible| {
      FitMaximal(eligible, budget);
    }
  }

  /** The packed entries keep the search order, have distinct keys and no empty text. */
  lemma PackDistinct(results: seq<SearchResult>, budget: int, key: string -> string)
    requires budget >= 0
    ensures var eligible := Eligible(EntriesOf(results), {}, key);
      var es := Fit(eligible, budget);
      && IsSubsequence(es, EntriesOf(results))
      && DistinctKeys(es, key)
      && (forall e :: e in es ==> e.text != [])
  {
    var eligible := Eligible(EntriesOf(results), {}, key);
    var es := Fit(eligible, budget);
    FitWithin(eligible, budget);
    EligibleInOrder(EntriesOf(results), {}, key);
    SubsequencePrefix(eligible, EntriesOf(results), |es|);
    assert eligible[..|es|] == es;
    EligibleKeys(EntriesOf(results), {}, key);
    forall e | e in es ensures e.text != [] {
      assert e in eligible;
    }
  }


  lemma EligibleStep(entries: seq<Entry>, i: nat, seen: set<string>, key: string -> string)
    requires i < |entries|
    ensures var e := entries[i];
      Eligible(entries[i..], seen, key) ==
        if e.text == [] || key(e.text) in seen then Eligible(entries[i + 1..], seen, key)
        else [e] + Eligible(entries[i + 1..], seen + {key(e.text)}, key)
  {
    assert entries[i..][1..] == entries[i + 1..];
  }

  lemma FitCons(e: Entry, es: seq<Entry>, budget: int)
    ensures Fit([e] + es, budget) == if Cost(e) > budget then [] else [e] + Fit(es, budget - Cost(e))
  {
    assert ([e] + es)[1..] == es;
  }

  lemma {:induction false} TokensOfSnoc(es: seq<Entry>, e: Entry)
    ensures TokensOf(es + [e]) == TokensOf(es) + Cost(e)
  {
    if es != [] {
      TokensOfSnoc(es[1..], e);
      assert (es + [e])[1..] == es[1..] + [e];
    }
  }

  lemma SnocOfEntries(es: seq<Entry>, e: Entry)
    ensures LinesOf(es + [e]) == LinesOf(es) + [LineOf(e)]
    ensures IdsOf(es + [e]) == IdsOf(es) + [e.id]
  {
  }

  /** A pack never reports more tokens than its budget, and its ids match its lines one to one. */
  lemma PackWithinBudget(results: seq<SearchResult>, tokenBudget: int, key: string -> string)
    ensures var p := Pack(results, PackBudget(tokenBudget), key);
      && 0 <= p.estimatedTokens <= PackBudget(tokenBudget)
      && (tokenBudget > 0 ==> p.estimatedTokens <= tokenBudget)
      && |p.memoryIds| <= |results|
  {
    FitWithin(Eligible(EntriesOf(results), {}, key), PackBudget(tokenBudget));
  }

  /** The error a failed store call surfaces as. */
  function FromStore(r: Result<MemoryRecord, Store.StoreError>): (s: Result<MemoryRecord, Error>)
    ensures r.Success? ==> s == Success(r.value)
    ensures r.Failure? ==> s == Failure(Storage(r.error))
  {
    match r
    case Success(rec) => Success(rec)
    case Failure(e) => Failure(Storage(e))
  }

  /** `Promote`'s checks before the store call: an id is required, and only "long" ("" by default) is a target. */
  function PromoteCheck(input: PromoteInput): (r: Option<Error>)
    ensures r.None? <==> !IsBlank(input.memoryId) && (input.targetScope == [] || input.targetScope == ScopeLong)
    ensures IsBlank(input.memoryId) ==> r == Some(MemoryIdRequired)
    ensures !IsBlank(input.memoryId) && r.Some? ==> r == Some(UnsupportedTarget)
  {
    if IsBlank(input.memoryId) then Some(MemoryIdRequired)
    else
      var target := if input.targetScope == [] then ScopeLong else input.targetScope;
      if target != ScopeLong then Some(UnsupportedTarget) else None
  }

  /** `Search` after the store call: score each candidate, stable-sort by score, cut to k, drop metadata unless asked for. */
  method RankCandidates(cands: seq<Store.Candidate>, k: int, includeMetadata: bool, now: int, decay: int -> real)
    returns (results: seq<SearchResult>)
    requires k >= 0
    ensures results == Rank(cands, k, includeMetadata, now, decay)
  {
    results := [];
    for i := 0 to |cands|
      invariant results == seq(i, j requires 0 <= j < i => Scored(cands[j], now, decay))
    {
      results := results + [Scored(cands[i], now, decay)];
    }
    results := SortDesc(results, ScoreKey);
    if |results| > k {
      results := results[..k];
    }
    if !includeMetadata {
      ghost var top := results;
      for i := 0 to |results|
        invariant |results| == |top|
        invariant forall j :: 0 <= j < i ==> results[j] == WithoutMetadata(top[j])
        invariant forall j :: i <= j < |top| ==> results[j] == top[j]
      {
        results := results[i := WithoutMetadata(results[i])];
      }
    }
  }

  /**
   * `ContextPack` after the search: takes ranked results into a pack line by
   * line, skipping blank texts and repeated keys, and stopping at the first
   * line over the budget.
   */
  method Assemble(results: seq<SearchResult>, budget: int, key: string -> string) returns (pack: ContextPack)
    requires budget >= 0
    ensures pack == Pack(results, budget, key)
  {
    ghost var entries := EntriesOf(results);
    ghost var goal := Fit(Eligible(entries, {}, key), budget);
    var seen: set<string> := {};
    var lines: seq<string> := [];
    var ids: seq<string> := [];
    var tokens := 0;
    ghost var included: seq<Entry> := [];
    ghost var room := budget;
    var i := 0;
    while i < |results|
      invariant 0 <= i <= |results|
      invariant 0 <= tokens <= budget && room == budget - tokens
      invariant tokens == TokensOf(included)
      invariant lines == LinesOf(included) && ids == IdsOf(included)
      invariant goal == included + Fit(Eligible(entries[i..], seen, key), room)
    {
      var rec := results[i].record;
      var text := EntryText(rec);
      ghost var e := Entry(rec.id, text);
      assert e == entries[i];
      PackStep(entries, i, seen, key, room, included, goal);
      if text == [] {
        i := i + 1;
        continue;
      }
      var norm := key(text);
      if norm in seen {
        i := i + 1;
        continue;
      }
      seen := seen + {norm};
      var line := LineOf(Entry(rec.id, text));
      var lineTokens := EstimateTokens(line);
      assert lineTokens == Cost(e);
      if tokens + lineTokens > budget {
        break;
      }
      TokensOfSnoc(included, e);
      SnocOfEntries(included, e);
      tokens := tokens + lineTokens;
      lines := lines + [line];
      ids := ids + [rec.id];
      included := included + [e];
      room := room - lineTokens;
      i := i + 1;
    }
    assert goal == included by {
      if i == |results| {
        assert entries[i..] == [];
      }
    }
    return ContextPack(Join(lines, "\n"), tokens, ids);
  }

  /** One step of the pack loop, stated on the entries. */
  lemma PackStep(entries: seq<Entry>, i: nat, seen: set<string>, key: string -> string, room: int, included: seq<Entry>, goal: seq<Entry>)
    requires i < |entries|
    requires goal == included + Fit(Eligible(entries[i..], seen, key), room)
    ensures var e := entries[i];
      if e.text == [] || key(e.text) in seen then goal == included + Fit(Eligible(entries[i + 1..], seen, key), room)
      else if Cost(e) > room then goal == included
      else goal == (included + [e]) + Fit(Eligible(entries[i + 1..], seen + {key(e.text)}, key), room - Cost(e))
  {
    var e := entries[i];
    EligibleStep(entries, i, seen, key);
    if e.text != [] && key(e.text) !in seen {
      FitCons(e, Eligible(entries[i + 1..], seen + {key(e.text)}, key), room);
    }
  }

  /** A failed promotion: a missing row is "not found", anything else the store's error. */
  function PromoteError(id: string, e: Store.StoreError): (r: Error)
    ensures e.NoRows? <==> r == NotFound(id)
  {
    if e.NoRows? then NotFound(id) else Storage(e)
  }

  // ---------------------------------------------------------------------------
  // The service

  /**
   * `Service`: the store, the validated configuration and the namespace
   * pattern, with the full-text search of the store and the recency decay as
   * oracles. The clock and the generated id are method parameters.
   */
  class Service {
    const store: Store.MemoryStore
    const cfg: Config.Config
    const matches: string -> bool
    const fts: Store.FtsSearch
    const decay: int -> real

    ghost predicate Valid()
      reads this, store
    {
      store.Valid() && Config.PositiveLimits(cfg)
    }

    constructor (store: Store.MemoryStore, cfg: Config.Config, matches: string -> bool, fts: Store.FtsSearch, decay: int -> real)
      requires store.Valid() && Config.PositiveLimits(cfg)
      ensures Valid()
      ensures this.store == store && this.cfg == cfg && this.matches == matches && this.fts == fts && this.decay == decay
    {
      this.store := store;
      this.cfg := cfg;
      this.matches := matches;
      this.fts := fts;
      this.decay := decay;
    }

    /** Validates and defaults the write; only a valid one reaches the store. */
    method Write(input: WriteInput, id: string, now: int) returns (r: Result<MemoryRecord, Error>)
      requires Valid()
      modifies store
      ensures Valid()
      ensures PrepareWrite(cfg, matches, input, id, now).Failure? ==>
        r == Failure(PrepareWrite(cfg, matches, input, id, now).error) && store.memories == old(store.memories)
      ensures PrepareWrite(cfg, matches, input, id, now).Success? ==>
        var rec := PrepareWrite(cfg, matches, input, id, now).value;
        if id in Store.Ids(old(store.memories)) then r.Failure? && r.error.Storage? && store.memories == old(store.memories)
        else r == Success(rec) && store.memories == old(store.memories) + [Store.Stored(rec)]
    {
      var prepared := PrepareWrite(cfg, matches, input, id, now);
      if prepared.Failure? {
        return Failure(prepared.error);
      }
      var stored := store.InsertMemory(prepared.value);
      r := FromStore(stored);
    }

    method Search(input: SearchInput, now: int) returns (r: Result<seq<SearchResult>, Error>)
      requires Valid()
      ensures r == SearchSpec(store.memories, store.ftsEnabled, fts, cfg, matches, input, now, decay)
    {
      var check := SearchCheck(input.namespace, input.scope, matches);
      if check.Some? {
        return Failure(check.value);
      }
      var scope := NormalizeScope(input.scope);
      var k := input.k;
      if k <= 0 {
        k := cfg.defaultSearchK;
      }
      if k > MaxSearchK {
        k := MaxSearchK;
      }
      assert k == SearchK(input.k, cfg.defaultSearchK);
      var cands := store.SearchCandidates(fts, input.namespace, input.query, scope, 3 * k, now);
      var results := RankCandidates(cands, k, input.includeMetadata, now, decay);
      return Success(results);
    }

    method ContextPack(input: ContextPackInput, now: int) returns (r: Result<ContextPack, Error>)
      requires Valid()
      ensures r == ContextPackSpec(store.memories, store.ftsEnabled, fts, cfg, matches, input, now, decay)
    {
      var budget := input.tokenBudget;
      if budget <= 0 {
        budget := DefaultTokenBudget;
      }
      var k := input.k;
      if k <= 0 {
        k := cfg.maxContextPackItems;
      }
      if k > MaxPackK {
        k := MaxPackK;
      }
      assert budget == PackBudget(input.tokenBudget) && k == PackK(input.k, cfg.maxContextPackItems);
      var found := Search(SearchInput(input.namespace, input.query, input.scope, k, false), now);
      if found.Failure? {
        return Failure(found.error);
      }
      var results := found.value;
      var pack := Assemble(results, budget, Normalize);
      return Success(pack);
    }

    method Promote(input: PromoteInput, now: int) returns (r: Result<MemoryRecord, Error>)
      requires Valid()
      modifies store
      ensures Valid()
      ensures PromoteCheck(input).Some? ==> r == Failure(PromoteCheck(input).value) && store.memories == old(store.memories)
      ensures PromoteCheck(input).None? && input.memoryId !in Store.Ids(old(store.memories)) ==>
        r == Failure(NotFound(input.memoryId)) && store.memories == old(store.memories)
      ensures PromoteCheck(input).None? && input.memoryId in Store.Ids(old(store.memories)) ==>
        && store.memories == Store.PromoteRows(old(store.memories), input.memoryId, now)
        && r == Success(Store.PromotedRow(Store.Lookup(old(store.memories), input.memoryId).value, now))
    {
      var check := PromoteCheck(input);
      if check.Some? {
        return Failure(check.value);
      }
      ghost var before := store.memories;
      var promoted := store.Promote(input.memoryId, now);
      if promoted.Failure? {
        return Failure(PromoteError(input.memoryId, promoted.error));
      }
      Store.PromoteThenLookup(before, input.memoryId, now);
      var got := store.GetMemory(input.memoryId);
      r := FromStore(got);
    }

    method ExpireShort(now: int) returns (n: nat)
      requires Valid()
      modifies store
      ensures Valid()
      ensures store.memories == Store.Survivors(old(store.memories), now)
      ensures n == Store.ExpiredCount(old(store.memories), now)
    {
      n := store.ExpireShort(now);
    }
  }
}
