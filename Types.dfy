/**
 * The plain records of pkg/types/types.go. Timestamps are integers (nanoseconds
 * since the Unix epoch); Go's optional (*time.Time) fields are options.
 */
module Types {
  import opened Wrappers

  const MinInt64: int := -0x8000_0000_0000_0000
  const MaxInt64: int := 0x7FFF_FFFF_FFFF_FFFF

  predicate InInt64(x: int) {
    MinInt64 <= x <= MaxInt64
  }

  /** Two's-complement wrap-around of Go's int64 arithmetic. */
  function Wrap64(x: int): (r: int)
    ensures InInt64(r)
    ensures InInt64(x) ==> r == x
    ensures (r - x) % 0x1_0000_0000_0000_0000 == 0
  {
    (x - MinInt64) % 0x1_0000_0000_0000_0000 + MinInt64
  }

  /** A decoded JSON value, for the free-form metadata map. */
  datatype Json =
    | JNull
    | JBool(b: bool)
    | JNumber(n: real)
    | JString(s: string)
    | JArray(items: seq<Json>)
    | JObject(fields: map<string, Json>)

  /** A metadata map; None is Go's nil map. */
  type Metadata = Option<map<string, Json>>

  datatype MemoryRecord = MemoryRecord(
    id: string,
    namespace: string,
    scope: string,
    content: string,
    summary: string,
    importance: int,
    sourceAgent: string,
    metadata: Metadata,
    createdAt: int,
    lastAccessedAt: int,
    expiresAt: Option<int>,
    promotedAt: Option<int>)

  datatype WriteInput = WriteInput(
    namespace: string,
    scope: string,
    content: string,
    summary: string,
    importance: int,
    sourceAgent: string,
    ttlSeconds: int,
    metadata: Metadata)

  datatype SearchInput = SearchInput(
    namespace: string,
    query: string,
    scope: string,
    k: int,
    includeMetadata: bool)

  datatype SearchResult = SearchResult(
    record: MemoryRecord,
    score: real,
    lexicalScore: real,
    recencyScore: real,
    importanceScore: real)

  datatype ContextPackInput = ContextPackInput(
    namespace: string,
    query: string,
    tokenBudget: int,
    scope: string,
    k: int)

  datatype ContextPack = ContextPack(
    text: string,
    estimatedTokens: int,
    memoryIds: seq<string>)

  datatype PromoteInput = PromoteInput(
    memoryId: string,
    targetScope: string,
    reason: string)

  const ScopeShort: string := "short"
  const ScopeLong: string := "long"
}
