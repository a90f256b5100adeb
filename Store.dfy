/**
 * The SQLite store of internal/store/sqlite.go, with the memories table held
 * as a sequence of records in row order. The SQL statements' meaning (insert,
 * update where id, delete where expired, counts, the LIKE query) is written
 * out over that sequence; full-text search is an oracle.
 */
module Store {
  import opened Wrappers
  import opened Text
  import opened Types
  import Sorting

  datatype Candidate = Candidate(record: MemoryRecord, lexicalScore: real)

  datatype Stats = Counts(total: nat, short: nat, long: nat, expired: nat)

  datatype StoreError =
    | NoRows                        // sql.ErrNoRows
    | Constraint(message: string)   // the INSERT was refused

  /** The arguments of one full-text query. */
  datatype FtsQuery = FtsQuery(namespace: string, matchQuery: string, scope: string, limit: int, now: int)

  /** The FTS5 query, bm25 ranking and lexical-score mapping, which are not modelled. */
  type FtsSearch = FtsQuery -> Result<seq<Candidate>, string>

  const DefaultCandidateLimit: int := 10
  const LikeScore: real := 0.4
  const EmptyQueryLikeScore: real := 0.25

  // ---------------------------------------------------------------------------
  // Rows

  function Ids(rows: seq<MemoryRecord>): (r: seq<string>)
    ensures |r| == |rows| && forall i :: 0 <= i < |rows| ==> r[i] == rows[i].id
  {
    seq(|rows|, i requires 0 <= i < |rows| => rows[i].id)
  }

  /** The id column is a key. */
  predicate UniqueIds(rows: seq<MemoryRecord>) {
    forall i, j :: 0 <= i < j < |rows| ==> rows[i].id != rows[j].id
  }

  /** What a row reads back as: a nil metadata map is stored as `{}`. */
  function Stored(rec: MemoryRecord): (r: MemoryRecord)
    ensures r.metadata.Some?
    ensures rec.metadata.Some? ==> r == rec
    ensures r.(metadata := rec.metadata) == rec
  {
    rec.(metadata := Some(rec.metadata.GetOr(map[])))
  }

  /** The row an UPDATE ... SET scope = 'long' ... leaves behind. */
  function PromotedRow(r: MemoryRecord, now: int): (p: MemoryRecord)
    ensures p.scope == ScopeLong && p.expiresAt == None
    ensures p.promotedAt == Some(now) && p.lastAccessedAt == now
    ensures p.(scope := r.scope, expiresAt := r.expiresAt, promotedAt := r.promotedAt, lastAccessedAt := r.lastAccessedAt) == r
  {
    r.(scope := ScopeLong, expiresAt := None, promotedAt := Some(now), lastAccessedAt := now)
  }

  function PromoteRows(rows: seq<MemoryRecord>, id: string, now: int): (r: seq<MemoryRecord>)
    ensures |r| == |rows|
    ensures forall i :: 0 <= i < |rows| ==> r[i] == if rows[i].id == id then PromotedRow(rows[i], now) else rows[i]
  {
    seq(|rows|, i requires 0 <= i < |rows| => if rows[i].id == id then PromotedRow(rows[i], now) else rows[i])
  }

  /** The rows `DELETE ... WHERE scope = 'short' AND expires_at IS NOT NULL AND expires_at <= now` removes. */
  predicate IsExpiredShort(r: MemoryRecord, now: int) {
    r.scope == ScopeShort && r.expiresAt.Some? && r.expiresAt.value <= now
  }

  /** The rows that survive, in their order. */
  function Survivors(rows: seq<MemoryRecord>, now: int): (r: seq<MemoryRecord>)
    ensures |r| <= |rows|
    ensures forall i :: 0 <= i < |r| ==> r[i] in rows && !IsExpiredShort(r[i], now)
  {
    if rows == [] then []
    else if IsExpiredShort(rows[0], now) then Survivors(rows[1..], now)
    else [rows[0]] + Survivors(rows[1..], now)
  }

  function ExpiredCount(rows: seq<MemoryRecord>, now: int): nat {
    if rows == [] then 0
    else (if IsExpiredShort(rows[0], now) then 1 else 0) + ExpiredCount(rows[1..], now)
  }

  function CountScope(rows: seq<MemoryRecord>, scope: string): nat {
    if rows == [] then 0
    else (if rows[0].scope == scope then 1 else 0) + CountScope(rows[1..], scope)
  }

  /** Rows whose expiry has passed, whatever their scope. */
  function CountPastExpiry(rows: seq<MemoryRecord>, now: int): nat {
    if rows == [] then 0
    else (if rows[0].expiresAt.Some? && rows[0].expiresAt.value <= now then 1 else 0) + CountPastExpiry(rows[1..], now)
  }

  /** The row with the given id, if any. */
  function Lookup(rows: seq<MemoryRecord>, id: string): (r: Option<MemoryRecord>)
    ensures r.Some? <==> id in Ids(rows)
    ensures r.Some? ==> r.value in rows && r.value.id == id
  {
    if rows == [] then None
    else if rows[0].id == id then Some(rows[0])
    else
      var r := Lookup(rows[1..], id);
      assert Ids(rows) == [rows[0].id] + Ids(rows[1..]);
      r
  }

  // ---------------------------------------------------------------------------
  // The LIKE path of searchLIKE

  /**
   * `text LIKE '%needle%'`: SQLite's LIKE ignores ASCII case. The `%` and `_`
   * wildcards a needle might itself contain are taken literally here.
   */
  predicate LikeContains(text: string, needle: string) {
    Contains(ToLower(text), ToLower(needle))
  }

  predicate MatchesNeedle(r: MemoryRecord, needle: string) {
    LikeContains(r.content, needle) || LikeContains(r.summary, needle)
  }

  /** The WHERE clause searchLIKE builds. */
  predicate LikeWhere(r: MemoryRecord, namespace: string, query: string, terms: seq<string>, scope: string, now: int) {
    && r.namespace == namespace
    && (r.expiresAt.None? || r.expiresAt.value > now)
    && (scope != [] ==> r.scope == scope)
    && (if |terms| > 0 then forall t :: t in terms ==> MatchesNeedle(r, t)
        else query != [] ==> MatchesNeedle(r, query))
  }

  function LikeRows(rows: seq<MemoryRecord>, namespace: string, query: string, terms: seq<string>, scope: string, now: int): (r: seq<MemoryRecord>)
    ensures |r| <= |rows|
  {
    if rows == [] then []
    else
      var rest := LikeRows(rows[1..], namespace, query, terms, scope, now);
      if LikeWhere(rows[0], namespace, query, terms, scope, now) then [rows[0]] + rest else rest
  }

  function CreatedKey(r: MemoryRecord): real {
    r.createdAt as real
  }

  /** searchLIKE: the matching rows, newest first (ties in row order), at most `limit` of them. */
  function SearchLike(rows: seq<MemoryRecord>, namespace: string, query: string, terms: seq<string>, scope: string, limit: int, now: int): (r: seq<Candidate>)
    ensures limit >= 0 ==> |r| <= limit
  {
    var lex := if query == [] then EmptyQueryLikeScore else LikeScore;
    var top := Sorting.Take(Sorting.SortDesc(LikeRows(rows, namespace, query, terms, scope, now), CreatedKey), limit);
    seq(|top|, i requires 0 <= i < |top| => Candidate(top[i], lex))
  }

  /**
   * SearchCandidates: the limit defaults to 10, and full-text search is tried
   * first when the query has terms and the FTS table exists. Its rows are used
   * only when it succeeds with at least one row; otherwise the LIKE path runs.
   */
  function Candidates(rows: seq<MemoryRecord>, ftsEnabled: bool, fts: FtsSearch,
                      namespace: string, query: string, scope: string, limit: int, now: int): (r: seq<Candidate>)
    ensures !ftsEnabled || QueryTerms(TrimSpace(query)) == [] ==>
      && |r| <= (if limit <= 0 then DefaultCandidateLimit else limit)
      && forall i :: 0 <= i < |r| ==> r[i].record in rows && r[i].record.namespace == namespace
  {
    var lim := if limit <= 0 then DefaultCandidateLimit else limit;
    var q := TrimSpace(query);
    var terms := QueryTerms(q);
    var like := SearchLike(rows, namespace, q, terms, scope, lim, now);
    SearchLikeSound(rows, namespace, q, terms, scope, lim, now);
    if |terms| > 0 && ftsEnabled then
      match fts(FtsQuery(namespace, FtsMatch(terms), scope, lim, now))
      case Success(found) => if |found| > 0 then found else like
      case Failure(_) => like
    else like
  }

  // ---------------------------------------------------------------------------
  // The table

  class MemoryStore {
    var memories: seq<MemoryRecord>
    const ftsEnabled: bool

    ghost predicate Valid()
      reads this
    {
      UniqueIds(memories)
    }

    constructor (ftsEnabled: bool)
      ensures Valid() && memories == [] && this.ftsEnabled == ftsEnabled
    {
      memories := [];
      this.ftsEnabled := ftsEnabled;
    }

    /** INSERT INTO memories: refused when the id is already a row's key. */
    method InsertMemory(rec: MemoryRecord) returns (r: Result<MemoryRecord, StoreError>)
      requires Valid()
      modifies this
      ensures Valid()
      ensures rec.id in Ids(old(memories)) ==> r.Failure? && memories == old(memories)
      ensures rec.id !in Ids(old(memories)) ==> r == Success(rec) && memories == old(memories) + [Stored(rec)]
    {
      if rec.id in Ids(memories) {
        return Failure(Constraint("insert memory: UNIQUE constraint failed: memories.id"));
      }
      memories := memories + [Stored(rec)];
      return Success(rec);
    }

    method Promote(id: string, now: int) returns (r: Result<(), StoreError>)
      requires Valid()
      modifies this
      ensures Valid()
      ensures id in Ids(old(memories)) ==> r.Success? && memories == PromoteRows(old(memories), id, now)
      ensures id !in Ids(old(memories)) ==> r == Failure(NoRows) && memories == old(memories)
    {
      if id !in Ids(memories) {
        return Failure(NoRows);
      }
      memories := PromoteRows(memories, id, now);
      return Success(());
    }

    method ExpireShort(now: int) returns (n: nat)
      requires Valid()
      modifies this
      ensures Valid()
      ensures memories == Survivors(old(memories), now)
      ensures n == ExpiredCount(old(memories), now)
    {
      n := ExpiredCount(memories, now);
      SurvivorsUnique(memories, now);
      memories := Survivors(memories, now);
    }

    function Stats(now: int): (st: Stats)
      reads this
      ensures st.total == |memories|
      ensures st.short == CountScope(memories, ScopeShort) && st.long == CountScope(memories, ScopeLong)
      ensures st.expired == CountPastExpiry(memories, now)
      ensures st.short + st.long <= st.total
    {
      ScopeCountsBounded(memories);
      Counts(|memories|, CountScope(memories, ScopeShort), CountScope(memories, ScopeLong), CountPastExpiry(memories, now))
    }

    function GetMemory(id: string): (r: Result<MemoryRecord, StoreError>)
      reads this
      ensures r.Success? <==> id in Ids(memories)
      ensures r.Success? ==> r.value in memories && r.value.id == id
      ensures r.Failure? ==> r.error == NoRows
    {
      match Lookup(memories, id)
      case Some(rec) => Success(rec)
      case None => Failure(NoRows)
    }

    method SearchCandidates(fts: FtsSearch, namespace: string, query: string, scope: string, limit: int, now: int)
      returns (r: seq<Candidate>)
      ensures r == Candidates(memories, ftsEnabled, fts, namespace, query, scope, limit, now)
    {
      var lim := if limit <= 0 then DefaultCandidateLimit else limit;
      var q := TrimSpace(query);
      var terms := TokenizeQueryTerms(q);
      if |terms| > 0 && ftsEnabled {
        var matchQuery := BuildFtsMatchQuery(terms);
        var found := fts(FtsQuery(namespace, matchQuery, scope, lim, now));
        if found.Success? && |found.value| > 0 {
          return found.value;
        }
      }
      r := SearchLike(memories, namespace, q, terms, scope, lim, now);
    }
  }

  // ---------------------------------------------------------------------------
  // Facts about the table operations

  lemma {:induction false} ScopeCountsBounded(rows: seq<MemoryRecord>)
    ensures CountScope(rows, ScopeShort) + CountScope(rows, ScopeLong) <= |rows|
  {
    if rows != [] {
      ScopeCountsBounded(rows[1..]);
    }
  }

  /** Promoting an existing id changes exactly that row and keeps the ids, so it keeps them unique. */
  lemma PromoteRowsKeepsIds(rows: seq<MemoryRecord>, id: string, now: int)
    ensures Ids(PromoteRows(rows, id, now)) == Ids(rows)
    ensures UniqueIds(rows) ==> UniqueIds(PromoteRows(rows, id, now))
  {
    assert Ids(PromoteRows(rows, id, now)) == Ids(rows);
  }

  /** Reading a promoted memory back gives the old row with the promotion applied. */
  lemma {:induction false} PromoteThenLookup(rows: seq<MemoryRecord>, id: string, now: int)
    requires UniqueIds(rows) && id in Ids(rows)
    ensures Lookup(PromoteRows(rows, id, now), id) == Some(PromotedRow(Lookup(rows, id).value, now))
  {
    if rows[0].id != id {
      assert Ids(rows) == [rows[0].id] + Ids(rows[1..]);
      assert PromoteRows(rows, id, now)[1..] == PromoteRows(rows[1..], id, now);
      PromoteThenLookup(rows[1..], id, now);
    }
  }

  /** Promotion leaves every other row as it was. */
  lemma PromoteOthersUnchanged(rows: seq<MemoryRecord>, id: string, now: int, other: string)
    requires other != id
    ensures Lookup(PromoteRows(rows, id, now), other) == Lookup(rows, other)
    decreases |rows|
  {
    if rows != [] {
      assert PromoteRows(rows, id, now)[1..] == PromoteRows(rows[1..], id, now);
      PromoteOthersUnchanged(rows[1..], id, now, other);
    }
  }

  /** A row survives ExpireShort exactly when it is not an expired short-term row. */
  lemma {:induction false} SurvivorsExact(rows: seq<MemoryRecord>, now: int, r: MemoryRecord)
    ensures r in Survivors(rows, now) <==> r in rows && !IsExpiredShort(r, now)
  {
    if rows != [] {
      SurvivorsExact(rows[1..], now, r);
      assert rows == [rows[0]] + rows[1..];
    }
  }

  /** The deleted rows and the surviving rows make up the table. */
  lemma {:induction false} ExpireAccounts(rows: seq<MemoryRecord>, now: int)
    ensures |Survivors(rows, now)| + ExpiredCount(rows, now) == |rows|
  {
    if rows != [] {
      ExpireAccounts(rows[1..], now);
    }
  }

  /** Running ExpireShort again at the same instant deletes nothing. */
  lemma {:induction false} ExpireRerun(rows: seq<MemoryRecord>, now: int)
    ensures Survivors(Survivors(rows, now), now) == Survivors(rows, now)
    ensures ExpiredCount(Survivors(rows, now), now) == 0
  {
    if rows != [] {
      ExpireRerun(rows[1..], now);
    }
  }

  /** Expiry never deletes a long-term row. */
  lemma {:induction false} ExpireKeepsLong(rows: seq<MemoryRecord>, now: int)
    ensures CountScope(Survivors(rows, now), ScopeLong) == CountScope(rows, ScopeLong)
  {
    if rows != [] {
      ExpireKeepsLong(rows[1..], now);
    }
  }

  lemma {:induction false} SurvivorsUnique(rows: seq<MemoryRecord>, now: int)
    requires UniqueIds(rows)
    ensures UniqueIds(Survivors(rows, now))
  {
    if rows != [] {
      SurvivorsUnique(rows[1..], now);
      var s := Survivors(rows[1..], now);
      if !IsExpiredShort(rows[0], now) {
        forall k | 0 <= k < |s| ensures s[k].id != rows[0].id {
          var m :| 0 <= m < |rows[1..]| && rows[1..][m] == s[k];
          assert rows[m + 1] == s[k];
        }
      }
    }
  }

  lemma {:induction false} LikeRowsExact(rows: seq<MemoryRecord>, namespace: string, query: string, terms: seq<string>, scope: string, now: int, r: MemoryRecord)
    ensures r in LikeRows(rows, namespace, query, terms, scope, now) <==> r in rows && LikeWhere(r, namespace, query, terms, scope, now)
  {
    if rows != [] {
      LikeRowsExact(rows[1..], namespace, query, terms, scope, now, r);
      assert rows == [rows[0]] + rows[1..];
    }
  }

  /**
   * searchLIKE returns rows of the table that meet every filter, newest first,
   * with the one lexical score for the query; when no more than `limit`
   * rows match, it returns every one of them, and otherwise the newest ones.
   */
  lemma SearchLikeMeaning(rows: seq<MemoryRecord>, namespace: string, query: string, terms: seq<string>, scope: string, limit: int, now: int)
    requires limit > 0
    ensures var r := SearchLike(rows, namespace, query, terms, scope, limit, now);
      && |r| <= limit
      && (forall i :: 0 <= i < |r| ==> r[i].record in rows && LikeWhere(r[i].record, namespace, query, terms, scope, now))
      && (forall i :: 0 <= i < |r| ==> r[i].lexicalScore == if query == [] then 0.25 else 0.4)
      && (forall i, j :: 0 <= i < j < |r| ==> r[i].record.createdAt >= r[j].record.createdAt)
      && (|LikeRows(rows, namespace, query, terms, scope, now)| <= limit ==>
            forall x :: x in rows && LikeWhere(x, namespace, query, terms, scope, now) ==>
              exists i :: 0 <= i < |r| && r[i].record == x)
      && (forall x, y :: x in rows && LikeWhere(x, namespace, query, terms, scope, now) && x !in RecordsOf(r) && y in RecordsOf(r) ==>
            x.createdAt <= y.createdAt)
  {
    SearchLikeSound(rows, namespace, query, terms, scope, limit, now);
    SearchLikeOrdered(rows, namespace, query, terms, scope, limit, now);
    SearchLikeComplete(rows, namespace, query, terms, scope, limit, now);
    SearchLikeNewest(rows, namespace, query, terms, scope, limit, now);
  }

  lemma SearchLikeSound(rows: seq<MemoryRecord>, namespace: string, query: string, terms: seq<string>, scope: string, limit: int, now: int)
    requires limit > 0
    ensures var r := SearchLike(rows, namespace, query, terms, scope, limit, now);
      && (forall i :: 0 <= i < |r| ==> r[i].record in rows && LikeWhere(r[i].record, namespace, query, terms, scope, now))
      && (forall i :: 0 <= i < |r| ==> r[i].lexicalScore == if query == [] then 0.25 else 0.4)
  {
    var like := LikeRows(rows, namespace, query, terms, scope, now);
    var sorted := Sorting.SortDesc(like, CreatedKey);
    var r := SearchLike(rows, namespace, query, terms, scope, limit, now);
    Sorting.SortDescPermutes(like, CreatedKey);
    forall i | 0 <= i < |r|
      ensures r[i].record in rows && LikeWhere(r[i].record, namespace, query, terms, scope, now)
    {
      assert r[i].record == sorted[i];
      assert sorted[i] in multiset(like);
      LikeRowsExact(rows, namespace, query, terms, scope, now, sorted[i]);
    }
  }

  lemma SearchLikeOrdered(rows: seq<MemoryRecord>, namespace: string, query: string, terms: seq<string>, scope: string, limit: int, now: int)
    requires limit > 0
    ensures var r := SearchLike(rows, namespace, query, terms, scope, limit, now);
      forall i, j :: 0 <= i < j < |r| ==> r[i].record.createdAt >= r[j].record.createdAt
  {
    var like := LikeRows(rows, namespace, query, terms, scope, now);
    var sorted := Sorting.SortDesc(like, CreatedKey);
    var r := SearchLike(rows, namespace, query, terms, scope, limit, now);
    Sorting.SortDescSorted(like, CreatedKey);
    forall i, j | 0 <= i < j < |r| ensures r[i].record.createdAt >= r[j].record.createdAt {
      assert r[i].record == sorted[i] && r[j].record == sorted[j];
      assert CreatedKey(sorted[i]) >= CreatedKey(sorted[j]);
    }
  }

  lemma SearchLikeComplete(rows: seq<MemoryRecord>, namespace: string, query: string, terms: seq<string>, scope: string, limit: int, now: int)
    requires limit > 0
    ensures var r := SearchLike(rows, namespace, query, terms, scope, limit, now);
      |LikeRows(rows, namespace, query, terms, scope, now)| <= limit ==>
        forall x :: x in rows && LikeWhere(x, namespace, query, terms, scope, now) ==>
          exists i :: 0 <= i < |r| && r[i].record == x
  {
    var like := LikeRows(rows, namespace, query, terms, scope, now);
    var sorted := Sorting.SortDesc(like, CreatedKey);
    var r := SearchLike(rows, namespace, query, terms, scope, limit, now);
    Sorting.SortDescPermutes(like, CreatedKey);
    if |like| <= limit {
      forall x | x in rows && LikeWhere(x, namespace, query, terms, scope, now)
        ensures exists i :: 0 <= i < |r| && r[i].record == x
      {
        LikeRowsExact(rows, namespace, query, terms, scope, now, x);
        assert x in multiset(sorted);
        var i :| 0 <= i < |sorted| && sorted[i] == x;
        assert r[i].record == x;
      }
    }
  }

  /** The rows behind a list of candidates, in order. */
  function RecordsOf(cs: seq<Candidate>): (r: seq<MemoryRecord>)
    ensures |r| == |cs| && forall i :: 0 <= i < |cs| ==> r[i] == cs[i].record
  {
    seq(|cs|, i requires 0 <= i < |cs| => cs[i].record)
  }

  /** When more rows match than the limit, the ones left out are no newer than any returned. */
  lemma SearchLikeNewest(rows: seq<MemoryRecord>, namespace: string, query: string, terms: seq<string>, scope: string, limit: int, now: int)
    requires limit > 0
    ensures var r := RecordsOf(SearchLike(rows, namespace, query, terms, scope, limit, now));
      forall x, y :: x in rows && LikeWhere(x, namespace, query, terms, scope, now) && x !in r && y in r ==>
        x.createdAt <= y.createdAt
  {
    var like := LikeRows(rows, namespace, query, terms, scope, now);
    var sorted := Sorting.SortDesc(like, CreatedKey);
    var r := RecordsOf(SearchLike(rows, namespace, query, terms, scope, limit, now));
    Sorting.SortDescSorted(like, CreatedKey);
    Sorting.SortDescPermutes(like, CreatedKey);
    assert r == Sorting.Take(sorted, limit);
    forall x, y | x in rows && LikeWhere(x, namespace, query, terms, scope, now) && x !in r && y in r
      ensures x.createdAt <= y.createdAt
    {
      LikeRowsExact(rows, namespace, query, terms, scope, now, x);
      assert x in multiset(sorted);
      Sorting.TakeKeepsBest(sorted, CreatedKey, limit, x, y);
    }
  }


  /** Which path SearchCandidates takes, in terms of the full-text outcome. */
  lemma CandidatesPath(rows: seq<MemoryRecord>, ftsEnabled: bool, fts: FtsSearch,
                       namespace: string, query: string, scope: string, limit: int, now: int)
    ensures var lim := if limit <= 0 then 10 else limit;
      var q := TrimSpace(query);
      var terms := QueryTerms(q);
      var found := fts(FtsQuery(namespace, FtsMatch(terms), scope, lim, now));
      var useFts := |terms| > 0 && ftsEnabled && found.Success? && |found.value| > 0;
      Candidates(rows, ftsEnabled, fts, namespace, query, scope, limit, now) ==
        if useFts then found.value else SearchLike(rows, namespace, q, terms, scope, lim, now)
  {
  }

  // ---------------------------------------------------------------------------
  // tokenizeQueryTerms

  /**
   * The runs of letters and digits of s, lower-cased: the finished runs and
   * the run still being built at the end of s.
   */
  function RunsAcc(s: string): (seq<string>, string) {
    if s == [] then ([], []) else RunsStep(RunsAcc(s[..|s| - 1]), s[|s| - 1])
  }

  /** One rune of the tokenizer loop: extend the pending run, or close it. */
  function RunsStep(acc: (seq<string>, string), c: char): (seq<string>, string) {
    if IsLetterOrDigit(c) then (acc.0, acc.1 + [LowerChar(c)])
    else if acc.1 == [] then acc
    else (acc.0 + [acc.1], [])
  }

  lemma RunsAccSnoc(s: string, c: char)
    ensures RunsAcc(s + [c]) == RunsStep(RunsAcc(s), c)
  {
    assert (s + [c])[..|s|] == s;
  }

  lemma RunsAccPrefix(s: string, i: nat)
    requires i < |s|
    ensures RunsAcc(s[..i + 1]) == RunsStep(RunsAcc(s[..i]), s[i])
  {
    assert s[..i + 1] == s[..i] + [s[i]];
    RunsAccSnoc(s[..i], s[i]);
  }

  function Runs(s: string): seq<string> {
    var acc := RunsAcc(s);
    if acc.1 == [] then acc.0 else acc.0 + [acc.1]
  }

  /** xs without repeats, each element kept at its first occurrence. */
  function Dedup(xs: seq<string>): (d: seq<string>)
    ensures |d| <= |xs|
  {
    if xs == [] then []
    else
      var d := Dedup(xs[..|xs| - 1]);
      if xs[|xs| - 1] in d then d else d + [xs[|xs| - 1]]
  }

  /** tokenizeQueryTerms. */
  function QueryTerms(query: string): (terms: seq<string>)
    ensures Distinct(terms)
    ensures forall t :: t in terms ==> t != [] && LowerAlnum(t)
  {
    var q := TrimSpace(query);
    if q == [] then []
    else
      DedupDistinct(Runs(q));
      DedupElements(Runs(q));
      RunsShape(q);
      Dedup(Runs(q))
  }

  /** The `flush` closure: emit the pending run unless it is empty or already seen. */
  method Flush(sb: string, seen: set<string>, terms: seq<string>) returns (seen': set<string>, terms': seq<string>)
    requires forall t :: t in seen <==> t in terms
    ensures forall t :: t in seen' <==> t in terms'
    ensures terms' == if sb == [] || sb in terms then terms else terms + [sb]
  {
    seen', terms' := seen, terms;
    if sb == [] {
      return;
    }
    if sb in seen {
      return;
    }
    seen' := seen + {sb};
    terms' := terms + [sb];
  }

  method TokenizeQueryTerms(query: string) returns (terms: seq<string>)
    ensures terms == QueryTerms(query)
  {
    var q := TrimSpace(query);
    if q == [] {
      return [];
    }
    var seen: set<string> := {};
    terms := [];
    var sb: string := [];
    ghost var done: seq<string> := [];
    for i := 0 to |q|
      invariant (done, sb) == RunsAcc(q[..i])
      invariant terms == Dedup(done)
      invariant forall t :: t in seen <==> t in terms
    {
      RunsAccPrefix(q, i);
      var c := q[i];
      if IsLetterOrDigit(c) {
        sb := sb + [LowerChar(c)];
        continue;
      }
      if sb != [] {
        DedupSnoc(done, sb);
        done := done + [sb];
      }
      seen, terms := Flush(sb, seen, terms);
      sb := [];
    }
    assert q[..|q|] == q;
    if sb != [] {
      DedupSnoc(done, sb);
      done := done + [sb];
    }
    seen, terms := Flush(sb, seen, terms);
  }

  lemma DedupSnoc(xs: seq<string>, x: string)
    ensures Dedup(xs + [x]) == if x in Dedup(xs) then Dedup(xs) else Dedup(xs) + [x]
  {
    assert (xs + [x])[..|xs|] == xs;
  }

  predicate LowerAlnum(t: string) {
    forall i :: 0 <= i < |t| ==> IsAsciiLower(t[i]) || IsDigit(t[i])
  }

  lemma {:induction false} RunsAccShape(s: string)
    ensures LowerAlnum(RunsAcc(s).1)
    ensures forall k :: 0 <= k < |RunsAcc(s).0| ==> RunsAcc(s).0[k] != [] && LowerAlnum(RunsAcc(s).0[k])
  {
    if s != [] {
      RunsAccShape(s[..|s| - 1]);
    }
  }

  lemma {:induction false} DedupElements(xs: seq<string>)
    ensures forall x :: x in Dedup(xs) <==> x in xs
  {
    if xs != [] {
      DedupElements(xs[..|xs| - 1]);
      assert xs == xs[..|xs| - 1] + [xs[|xs| - 1]];
    }
  }

  predicate Distinct(xs: seq<string>) {
    forall i, j :: 0 <= i < j < |xs| ==> xs[i] != xs[j]
  }

  lemma {:induction false} DedupDistinct(xs: seq<string>)
    ensures Distinct(Dedup(xs))
  {
    if xs != [] {
      DedupDistinct(xs[..|xs| - 1]);
    }
  }

  /** The position of the first occurrence of x. */
  function FirstIndex(xs: seq<string>, x: string): (k: nat)
    requires x in xs
    ensures k < |xs| && xs[k] == x && x !in xs[..k]
  {
    if xs[0] == x then 0
    else
      assert x in xs[1..];
      var k := FirstIndex(xs[1..], x);
      assert xs[..k + 1] == [xs[0]] + xs[1..][..k];
      k + 1
  }

  lemma FirstIndexUnique(xs: seq<string>, x: string, k: nat)
    requires k < |xs| && xs[k] == x && x !in xs[..k]
    ensures FirstIndex(xs, x) == k
  {
    var f := FirstIndex(xs, x);
  }

  lemma FirstIndexSnoc(xs: seq<string>, y: string, x: string)
    requires x in xs
    ensures x in xs + [y] && FirstIndex(xs + [y], x) == FirstIndex(xs, x)
  {
    var f := FirstIndex(xs, x);
    assert (xs + [y])[..f] == xs[..f];
    FirstIndexUnique(xs + [y], x, f);
  }

  lemma FirstIndexSnocAll(xs: seq<string>, y: string)
    ensures forall x :: x in xs ==> FirstIndex(xs + [y], x) == FirstIndex(xs, x)
  {
    forall x | x in xs ensures FirstIndex(xs + [y], x) == FirstIndex(xs, x) {
      FirstIndexSnoc(xs, y, x);
    }
  }

  /** The step of DedupFirstSeen where the last element is new. */
  lemma DedupFirstSeenNew(init: seq<string>, last: string)
    requires last !in Dedup(init)
    requires forall x :: x in Dedup(init) <==> x in init
    requires forall x :: x in init ==> FirstIndex(init + [last], x) == FirstIndex(init, x)
    requires forall i, j :: 0 <= i < j < |Dedup(init)| ==> FirstIndex(init, Dedup(init)[i]) < FirstIndex(init, Dedup(init)[j])
    ensures var xs := init + [last];
      forall i, j :: 0 <= i < j < |Dedup(xs)| ==> FirstIndex(xs, Dedup(xs)[i]) < FirstIndex(xs, Dedup(xs)[j])
  {
    var xs := init + [last];
    var d := Dedup(init);
    assert xs[..|init|] == init && xs[|xs| - 1] == last;
    assert Dedup(xs) == d + [last];
    FirstIndexUnique(xs, last, |init|);
    forall i, j | 0 <= i < j < |Dedup(xs)| ensures FirstIndex(xs, Dedup(xs)[i]) < FirstIndex(xs, Dedup(xs)[j]) {
      assert Dedup(xs)[i] == d[i] && d[i] in init;
      if j < |d| {
        assert Dedup(xs)[j] == d[j];
      }
    }
  }

  /** Dedup keeps first occurrences in the order they are met. */
  lemma {:induction false} DedupFirstSeen(xs: seq<string>)
    ensures forall x :: x in Dedup(xs) ==> x in xs
    ensures forall i, j :: 0 <= i < j < |Dedup(xs)| ==> FirstIndex(xs, Dedup(xs)[i]) < FirstIndex(xs, Dedup(xs)[j])
  {
    DedupElements(xs);
    if xs != [] {
      var init := xs[..|xs| - 1];
      var last := xs[|xs| - 1];
      DedupFirstSeen(init);
      DedupElements(init);
      FirstIndexSnocAll(init, last);
      assert xs == init + [last];
      if last !in Dedup(init) {
        DedupFirstSeenNew(init, last);
      } else {
        DedupFirstSeenOld(init, last);
      }
    }
  }

  /** The step of DedupFirstSeen where the last element was seen before. */
  lemma DedupFirstSeenOld(init: seq<string>, last: string)
    requires last in Dedup(init)
    requires forall x :: x in Dedup(init) ==> x in init
    requires forall x :: x in init ==> FirstIndex(init + [last], x) == FirstIndex(init, x)
    requires forall i, j :: 0 <= i < j < |Dedup(init)| ==> FirstIndex(init, Dedup(init)[i]) < FirstIndex(init, Dedup(init)[j])
    ensures var xs := init + [last];
      forall i, j :: 0 <= i < j < |Dedup(xs)| ==> FirstIndex(xs, Dedup(xs)[i]) < FirstIndex(xs, Dedup(xs)[j])
  {
    var xs := init + [last];
    var d := Dedup(init);
    assert xs[..|init|] == init && xs[|xs| - 1] == last;
    assert Dedup(xs) == d;
    forall i, j | 0 <= i < j < |d| ensures FirstIndex(xs, d[i]) < FirstIndex(xs, d[j]) {
      assert d[i] in init && d[j] in init;
    }
  }

  /** A blank query has no terms. */
  lemma QueryTermsOfBlank(query: string)
    requires IsBlank(query)
    ensures QueryTerms(query) == []
  {
  }

  /** No term is returned twice. */
  lemma QueryTermsDistinct(query: string)
    ensures Distinct(QueryTerms(query))
  {
    if !IsBlank(query) {
      DedupDistinct(Runs(TrimSpace(query)));
    }
  }

  /** Every term is a non-empty string of lower-case letters and digits. */
  lemma QueryTermsAlnum(query: string)
    ensures forall t :: t in QueryTerms(query) ==> t != [] && LowerAlnum(t)
  {
    var q := TrimSpace(query);
    if q != [] {
      RunsShape(q);
      DedupElements(Runs(q));
    }
  }

  lemma RunsShape(s: string)
    ensures forall t :: t in Runs(s) ==> t != [] && LowerAlnum(t)
  {
    RunsAccShape(s);
    var acc := RunsAcc(s);
    forall t | t in Runs(s) ensures t != [] && LowerAlnum(t) {
      if t in acc.0 {
        var k :| 0 <= k < |acc.0| && acc.0[k] == t;
      }
    }
  }

  /** The terms are the runs of the trimmed query, each once, in the order they first occur. */
  lemma QueryTermsFirstSeen(query: string)
    requires !IsBlank(query)
    ensures var runs := Runs(TrimSpace(query)); var terms := QueryTerms(query);
      && (forall t :: t in terms <==> t in runs)
      && (forall i, j :: 0 <= i < j < |terms| ==> FirstIndex(runs, terms[i]) < FirstIndex(runs, terms[j]))
  {
    DedupElements(Runs(TrimSpace(query)));
    DedupFirstSeen(Runs(TrimSpace(query)));
  }

  /** A rune that is neither letter nor digit separates the runs on either side of it. */
  lemma {:induction false} RunsAccAfterSeparator(a: string, c: char, b: string)
    requires !IsLetterOrDigit(c)
    ensures RunsAcc(a + [c] + b) == (Runs(a) + RunsAcc(b).0, RunsAcc(b).1)
    decreases |b|
  {
    if b == [] {
      assert a + [c] + b == a + [c];
      assert (a + [c])[..|a|] == a;
      assert RunsAcc(b) == ([], []);
      assert Runs(a) + [] == Runs(a);
    } else {
      var b' := b[..|b| - 1];
      var s := a + [c] + b;
      assert s[..|s| - 1] == a + [c] + b' && s[|s| - 1] == b[|b| - 1];
      RunsAccAfterSeparator(a, c, b');
      var acc := RunsAcc(b');
      if !IsLetterOrDigit(b[|b| - 1]) && acc.1 != [] {
        assert (Runs(a) + acc.0) + [acc.1] == Runs(a) + (acc.0 + [acc.1]);
      }
    }
  }

  lemma RunsAtSeparator(a: string, c: char, b: string)
    requires !IsLetterOrDigit(c)
    ensures Runs(a + [c] + b) == Runs(a) + Runs(b)
  {
    RunsAccAfterSeparator(a, c, b);
  }

  /** A word of letters and digits is one run, lower-cased. */
  lemma {:induction false} RunsOfWord(w: string)
    requires w != [] && forall i :: 0 <= i < |w| ==> IsLetterOrDigit(w[i])
    ensures Runs(w) == [ToLower(w)]
  {
    RunsAccOfWord(w);
  }

  lemma {:induction false} RunsAccOfWord(w: string)
    requires forall i :: 0 <= i < |w| ==> IsLetterOrDigit(w[i])
    ensures RunsAcc(w) == ([], ToLower(w))
  {
    if w != [] {
      RunsAccOfWord(w[..|w| - 1]);
      assert ToLower(w) == ToLower(w[..|w| - 1]) + [LowerChar(w[|w| - 1])];
    }
  }

  // ---------------------------------------------------------------------------
  // buildFTSMatchQuery

  /** strings.ReplaceAll(t, `"`, `""`). */
  function Escape(t: string): (r: string)
    ensures |r| >= |t|
  {
    if t == [] then []
    else (if t[0] == '"' then "\"\"" else [t[0]]) + Escape(t[1..])
  }

  /** Reads a doubled quote back as one quote. */
  function Unescape(s: string): string {
    if s == [] then []
    else if |s| >= 2 && s[0] == '"' && s[1] == '"' then "\"" + Unescape(s[2..])
    else [s[0]] + Unescape(s[1..])
  }

  function Quote(t: string): (r: string)
    ensures |r| == |Escape(t)| + 2 && r[0] == '"' && r[|r| - 1] == '"'
  {
    "\"" + Escape(t) + "\""
  }

  function FtsMatch(terms: seq<string>): (q: string)
    ensures terms == [] <==> q == []
    ensures |terms| == 1 ==> q == Quote(terms[0])
    ensures terms != [] ==> q[0] == '"'
  {
    if terms == [] then []
    else Join(seq(|terms|, i requires 0 <= i < |terms| => Quote(terms[i])), " AND ")
  }

  method BuildFtsMatchQuery(terms: seq<string>) returns (q: string)
    ensures q == FtsMatch(terms)
  {
    if |terms| == 0 {
      return [];
    }
    var parts: seq<string> := [];
    for i := 0 to |terms|
      invariant parts == seq(i, k requires 0 <= k < i => Quote(terms[k]))
    {
      parts := parts + [Quote(terms[i])];
    }
    q := Join(parts, " AND ");
  }

  /** Escaping loses nothing: the term can be read back from its quoted form. */
  lemma {:induction false} UnescapeEscape(t: string)
    ensures Unescape(Escape(t)) == t
  {
    if t != [] {
      UnescapeEscape(t[1..]);
      var e := Escape(t[1..]);
      if t[0] == '"' {
        assert ("\"\"" + e)[2..] == e;
      } else {
        assert ([t[0]] + e)[1..] == e;
      }
    }
  }

  /** Tokenizer output holds no quotes, so its terms are quoted as they are. */
  lemma {:induction false} EscapeNoQuote(t: string)
    requires '"' !in t
    ensures Escape(t) == t
  {
    if t != [] {
      assert '"' !in t[1..];
      EscapeNoQuote(t[1..]);
    }
  }

  // ---------------------------------------------------------------------------
  // splitSQLStatements

  function StatementOf(piece: string): seq<string> {
    var p := TrimSpace(piece);
    if p == [] then [] else [p + ";"]
  }

  function Statements(pieces: seq<string>): seq<string> {
    if pieces == [] then [] else Statements(pieces[..|pieces| - 1]) + StatementOf(pieces[|pieces| - 1])
  }

  function SqlStatements(s: string): (stmts: seq<string>)
    ensures forall st :: st in stmts ==> WellTerminated(st)
  {
    SplitPieces(s, ';');
    StatementsShape(Split(s, ';'));
    Statements(Split(s, ';'))
  }

  method SplitSqlStatements(s: string) returns (out: seq<string>)
    ensures out == SqlStatements(s)
  {
    var parts := Split(s, ';');
    out := [];
    for i := 0 to |parts|
      invariant out == Statements(parts[..i])
    {
      assert parts[..i + 1][..i] == parts[..i];
      var p := TrimSpace(parts[i]);
      if p == [] {
        continue;
      }
      out := out + [p + ";"];
    }
    assert parts[..|parts|] == parts;
  }

  /** A statement body: trimmed, non-empty and free of ';'. */
  predicate StatementBody(b: string) {
    b != [] && TrimSpace(b) == b && ';' !in b
  }

  /** A statement: a body followed by its ';' terminator. */
  predicate WellTerminated(st: string) {
    |st| >= 2 && st[|st| - 1] == ';' && StatementBody(st[..|st| - 1])
  }

  lemma StatementOfShape(piece: string)
    requires ';' !in piece
    ensures forall st :: st in StatementOf(piece) ==> WellTerminated(st)
  {
    var p := TrimSpace(piece);
    TrimSpaceIdempotent(piece);
    TrimKeepsOut(piece, ';');
    if p != [] {
      var st := p + ";";
      assert st[..|st| - 1] == p;
    }
  }

  lemma {:induction false} StatementsShape(pieces: seq<string>)
    requires forall i :: 0 <= i < |pieces| ==> ';' !in pieces[i]
    ensures forall st :: st in Statements(pieces) ==> WellTerminated(st)
  {
    if pieces != [] {
      StatementsShape(pieces[..|pieces| - 1]);
      StatementOfShape(pieces[|pieces| - 1]);
    }
  }

  lemma TrimKeepsOut(s: string, c: char)
    requires c !in s
    ensures c !in TrimSpace(s)
  {
    var l := TrimLeft(s);
    forall i | 0 <= i < |l| ensures l[i] != c {
      assert l[i] == s[|s| - |l| + i];
    }
    var t := TrimRight(l);
    forall i | 0 <= i < |t| ensures t[i] != c {
      assert t[i] == l[i];
    }
    assert TrimSpace(s) == t;
  }

  /** Every statement splitSQLStatements yields is a trimmed, non-empty body followed by ';'. */
  lemma SqlStatementsShape(s: string)
    ensures forall st :: st in SqlStatements(s) ==> WellTerminated(st)
  {
    SplitPieces(s, ';');
    StatementsShape(Split(s, ';'));
  }

  function Terminated(bodies: seq<string>): string {
    if bodies == [] then [] else bodies[0] + ";" + Terminated(bodies[1..])
  }

  function EachTerminated(bodies: seq<string>): (r: seq<string>)
    ensures |r| == |bodies| && forall i :: 0 <= i < |bodies| ==> r[i] == bodies[i] + ";"
  {
    if bodies == [] then [] else [bodies[0] + ";"] + EachTerminated(bodies[1..])
  }

  lemma {:induction false} StatementsCons(p: string, rest: seq<string>)
    ensures Statements([p] + rest) == StatementOf(p) + Statements(rest)
    decreases |rest|
  {
    var s := [p] + rest;
    if rest == [] {
      assert s[..0] == [];
    } else {
      var r' := rest[..|rest| - 1];
      var last := StatementOf(rest[|rest| - 1]);
      assert s[..|s| - 1] == [p] + r';
      assert s[|s| - 1] == rest[|rest| - 1];
      assert Statements(s) == Statements([p] + r') + last;
      StatementsCons(p, r');
      assert Statements(rest) == Statements(r') + last;
      assert (StatementOf(p) + Statements(r')) + last == StatementOf(p) + (Statements(r') + last);
    }
  }

  /** Splitting a schema written as terminated statements gives those statements back. */
  lemma {:induction false} SqlStatementsOfTerminated(bodies: seq<string>)
    requires forall i :: 0 <= i < |bodies| ==> StatementBody(bodies[i])
    ensures SqlStatements(Terminated(bodies)) == EachTerminated(bodies)
  {
    if bodies == [] {
      assert Split([], ';') == [[]];
      assert Statements([[]]) == Statements([]) + StatementOf([]);
    } else {
      SqlStatementsOfTerminated(bodies[1..]);
      SqlStatementsCons(bodies[0], Terminated(bodies[1..]));
    }
  }

  lemma SqlStatementsCons(b: string, rest: string)
    requires StatementBody(b)
    ensures SqlStatements(b + ";" + rest) == [b + ";"] + SqlStatements(rest)
  {
    SplitAtFirst(b, ';', rest);
    StatementsCons(b, Split(rest, ';'));
  }
}
