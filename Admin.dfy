/**
 * internal/admin/tui.go: the state of the admin dashboard and how messages
 * update it (the bounded log of events, the data a refresh brings in), and
 * the text helpers its panes use. Rendering is not modelled; the clock text
 * of a log entry and the formatted refresh duration are parameters.
 */
module Admin {
  import opened Wrappers
  import opened Text
  import opened Types
  import Store

  /** The columns of a request-log row the dashboard looks at. */
  datatype RequestRow = RequestRow(methodName: string, toolName: string, success: bool, errorText: string)

  /** The columns of a recent-memory row the dashboard looks at. */
  datatype MemoryRow = MemoryRow(namespace: string, scope: string, summary: string)

  /** `dashboardMsg`: what one fetch brought back, or the error that stopped it. */
  datatype Refresh = Refresh(
    stats: Store.Stats,
    reqLogs: seq<RequestRow>,
    memories: seq<MemoryRow>,
    err: Option<string>,
    duration: string)

  /** The messages `Update` handles. */
  datatype Msg = Key(key: string) | WindowSize(width: int, height: int) | Tick(time: int) | Dashboard(refresh: Refresh)

  /** The command `Update` returns: none, quit, or fetch again and schedule the next tick. */
  datatype Cmd = NoCmd | Quit | FetchAndTick

  const DefaultMaxLogs: int := 10
  const DefaultRowsLimit: int := 8
  const QuitLine: string := "received quit signal"
  const StartLine: string := "admin UI started"

  /** The last n lines, or all of them when there are no more than n. */
  function KeepLast(lines: seq<string>, n: int): (r: seq<string>)
    requires n > 0
    ensures |r| == if |lines| > n then n else |lines|
    ensures r == lines[|lines| - |r|..]
  {
    if |lines| > n then lines[|lines| - n..] else lines
  }

  /** Trimming an already trimmed log and then appending keeps the same lines as trimming once. */
  lemma {:induction false} KeepLastAppend(lines: seq<string>, e: string, n: int)
    requires n > 0
    ensures KeepLast(KeepLast(lines, n) + [e], n) == KeepLast(lines + [e], n)
  {
    var k := KeepLast(lines, n);
    if |lines| > n {
      assert k + [e] == (lines + [e])[|lines| - n..];
      assert (k + [e])[1..] == (lines + [e])[|lines| + 1 - n..];
    }
  }

  /** The newest entry is the last one kept. */
  lemma KeepLastNewest(lines: seq<string>, e: string, n: int)
    requires n > 0
    ensures var r := KeepLast(lines + [e], n); |r| > 0 && r[|r| - 1] == e
  {
  }

  /** A log entry: the time of day in brackets, then the line. */
  function Entry(stamp: string, line: string): string {
    "[" + stamp + "] " + line
  }

  const RefreshPrefix: string := "refresh "

  /** The line a refresh adds to the log: an error line, or the counts it brought in. */
  function RefreshLine(r: Refresh): (line: string)
    ensures |line| > |RefreshPrefix| && line[..|RefreshPrefix|] == RefreshPrefix
    ensures r.err.Some? ==> |r.err.value| <= |line| && line[|line| - |r.err.value|..] == r.err.value
  {
    RefreshPrefix + match r.err
    case Some(e) => "error: " + e
    case None =>
      "ok total=" + IntToString(r.stats.total) + " short=" + IntToString(r.stats.short) +
      " long=" + IntToString(r.stats.long) + " req=" + IntToString(|r.reqLogs|) +
      " mem=" + IntToString(|r.memories|) + " (" + r.duration + ")"
  }

  /** So every refresh adds an entry to the log. */
  lemma RefreshLineNotBlank(r: Refresh)
    ensures !IsBlank(RefreshLine(r))
  {
    assert RefreshLine(r)[0] == 'r';
    NotBlankOfWordStart(RefreshLine(r));
  }

  /** The fixed lines the dashboard logs pass the blank-line guard of `appendLog`. */
  lemma FixedLinesNotBlank()
    ensures !IsBlank(StartLine) && !IsBlank(QuitLine)
  {
    NotBlankOfWordStart(StartLine);
    NotBlankOfWordStart(QuitLine);
  }

  /** What `Update` adds to the log for a message, if anything. */
  function LogLine(msg: Msg): Option<string> {
    match msg
    case Key(k) => if k == "q" || k == "ctrl+c" then Some(QuitLine) else None
    case Dashboard(r) => Some(RefreshLine(r))
    case _ => None
  }

  /** The dashboard `model`, less its context, store and clock. */
  class Dashboard {
    var stats: Store.Stats
    var reqLogs: seq<RequestRow>
    var memories: seq<MemoryRow>
    var lastErr: Option<string>
    var lastTick: int
    var logLines: seq<string>
    var maxLogs: int
    var requestsLimit: int
    var memoriesLimit: int
    var width: int
    var height: int
    /** Every entry ever logged, oldest first. */
    ghost var history: seq<string>

    /** The log holds the newest `maxLogs` entries of the history. */
    ghost predicate Valid()
      reads this
    {
      maxLogs > 0 && logLines == KeepLast(history, maxLogs)
    }

    /** `Run`'s model, with the start-up line logged. */
    constructor (stamp: string)
      ensures Valid()
      ensures Shown() == (Store.Counts(0, 0, 0, 0), [], [], None, 0, 0, 0, DefaultRowsLimit, DefaultRowsLimit)
      ensures maxLogs == DefaultMaxLogs
      ensures history == [Entry(stamp, StartLine)] && logLines == history
    {
      stats := Store.Counts(0, 0, 0, 0);
      reqLogs := [];
      memories := [];
      lastErr := None;
      lastTick := 0;
      width := 0;
      height := 0;
      maxLogs := DefaultMaxLogs;
      requestsLimit := DefaultRowsLimit;
      memoriesLimit := DefaultRowsLimit;
      // appendLog of the start-up line on an empty log (FixedLinesNotBlank).
      logLines := [Entry(stamp, StartLine)];
      history := logLines;
    }

    /**
     * `appendLog`: a blank line changes nothing; any other line is stamped and
     * appended, and only the newest `maxLogs` (10 when unset) are kept.
     */
    method AppendLog(line: string, stamp: string)
      modifies this
      ensures old(Valid()) ==> Valid()
      ensures IsBlank(line) ==> logLines == old(logLines) && maxLogs == old(maxLogs) && history == old(history)
      ensures !IsBlank(line) ==> maxLogs == if old(maxLogs) <= 0 then DefaultMaxLogs else old(maxLogs)
      ensures !IsBlank(line) ==> logLines == KeepLast(old(logLines) + [Entry(stamp, line)], maxLogs)
      ensures !IsBlank(line) ==> history == old(history) + [Entry(stamp, line)]
      ensures Shown() == old(Shown())
    {
      if IsBlank(line) {
        return;
      }
      Push(Entry(stamp, line));
    }

    /** The fields a log line leaves alone. */
    function Shown(): (Store.Stats, seq<RequestRow>, seq<MemoryRow>, Option<string>, int, int, int, int, int)
      reads this
    {
      (stats, reqLogs, memories, lastErr, lastTick, width, height, requestsLimit, memoriesLimit)
    }

    /** The part of `appendLog` after its blank-line guard. */
    method Push(entry: string)
      modifies this
      ensures old(Valid()) ==> Valid()
      ensures maxLogs == if old(maxLogs) <= 0 then DefaultMaxLogs else old(maxLogs)
      ensures logLines == KeepLast(old(logLines) + [entry], maxLogs)
      ensures history == old(history) + [entry]
      ensures Shown() == old(Shown())
    {
      logLines := logLines + [entry];
      history := history + [entry];
      if maxLogs <= 0 {
        maxLogs := DefaultMaxLogs;
      }
      if |logLines| > maxLogs {
        logLines := logLines[|logLines| - maxLogs..];
      }
      KeepLastAppend(old(history), entry, maxLogs);
    }

    /**
     * `Update`: a quit key logs and quits; a resize records the size; a tick
     * records its time and asks for a fetch; a refresh always records its
     * error, and brings in stats, requests and memories only when there is none.
     */
    method Update(msg: Msg, stamp: string) returns (cmd: Cmd)
      requires Valid()
      modifies this
      ensures Valid()
      ensures cmd == match msg
        case Key(k) => if k == "q" || k == "ctrl+c" then Quit else NoCmd
        case Tick(_) => FetchAndTick
        case _ => NoCmd
      ensures LogLine(msg).None? ==> logLines == old(logLines) && history == old(history)
      ensures LogLine(msg).Some? ==> logLines == KeepLast(old(logLines) + [Entry(stamp, LogLine(msg).value)], maxLogs)
      ensures LogLine(msg).Some? ==> history == old(history) + [Entry(stamp, LogLine(msg).value)]
      ensures maxLogs == old(maxLogs) && requestsLimit == old(requestsLimit) && memoriesLimit == old(memoriesLimit)
      ensures (width, height) == if msg.WindowSize? then (msg.width, msg.height) else (old(width), old(height))
      ensures lastTick == if msg.Tick? then msg.time else old(lastTick)
      ensures lastErr == if msg.Dashboard? then msg.refresh.err else old(lastErr)
      ensures if msg.Dashboard? && msg.refresh.err.None?
        then stats == msg.refresh.stats && reqLogs == msg.refresh.reqLogs && memories == msg.refresh.memories
        else stats == old(stats) && reqLogs == old(reqLogs) && memories == old(memories)
    {
      cmd := NoCmd;
      match msg {
        case Key(k) =>
          if k == "q" || k == "ctrl+c" {
            // appendLog, past its guard: the line is not blank (FixedLinesNotBlank).
            Push(Entry(stamp, QuitLine));
            cmd := Quit;
          }
        case WindowSize(w, h) =>
          width := w;
          height := h;
        case Tick(t) =>
          lastTick := t;
          cmd := FetchAndTick;
        case Dashboard(r) =>
          ApplyRefresh(r, stamp);
      }
    }

    /** The `dashboardMsg` branch of `Update`. */
    method ApplyRefresh(r: Refresh, stamp: string)
      requires Valid()
      modifies this
      ensures Valid()
      ensures lastErr == r.err
      ensures (stats, reqLogs, memories) == if r.err.None? then (r.stats, r.reqLogs, r.memories) else old((stats, reqLogs, memories))
      ensures logLines == KeepLast(old(logLines) + [Entry(stamp, RefreshLine(r))], maxLogs)
      ensures history == old(history) + [Entry(stamp, RefreshLine(r))]
      ensures (maxLogs, requestsLimit, memoriesLimit, lastTick, width, height) ==
        old((maxLogs, requestsLimit, memoriesLimit, lastTick, width, height))
    {
      lastErr := r.err;
      if r.err.None? {
        stats := r.stats;
        reqLogs := r.reqLogs;
        memories := r.memories;
      }
      // appendLog, past its guard: a refresh line is never blank (RefreshLineNotBlank).
      Push(Entry(stamp, RefreshLine(r)));
    }
  }

  // ---------------------------------------------------------------------------
  // Text helpers of the panes

  /** `truncateText`: the trimmed text, cut to `limit` runes, the last three an ellipsis when there is room. */
  function TruncateText(s: string, limit: int): (r: string)
    requires limit >= 0
    ensures |r| <= limit
    ensures |TrimSpace(s)| <= limit ==> r == TrimSpace(s)
    ensures |TrimSpace(s)| > limit ==> |r| == limit
    ensures |TrimSpace(s)| > limit && limit > 3 ==> r[..limit - 3] == TrimSpace(s)[..limit - 3] && r[limit - 3..] == "..."
    ensures |TrimSpace(s)| > limit && limit <= 3 ==> r == TrimSpace(s)[..limit]
  {
    if |TrimSpace(s)| <= limit then TrimSpace(s)
    else if limit <= 3 then TrimSpace(s)[..limit]
    else TrimSpace(s)[..limit - 3] + "..."
  }

  /** With room for the ellipsis, truncating twice is truncating once. */
  lemma TruncateTextIdempotent(s: string, limit: int)
    requires limit > 3
    ensures TruncateText(TruncateText(s, limit), limit) == TruncateText(s, limit)
  {
    if |TrimSpace(s)| <= limit {
      TrimSpaceIdempotent(s);
    } else {
      TruncatedIsTrimmed(s, limit);
    }
  }

  lemma TruncatedIsTrimmed(s: string, limit: int)
    requires |TrimSpace(s)| > limit > 3
    ensures TrimSpace(TruncateText(s, limit)) == TruncateText(s, limit)
  {
    var r := TruncateText(s, limit);
    assert r[0] == TrimSpace(s)[0] && r[|r| - 1] == '.';
    TrimSpaceOfTrimmed(r);
  }

  /** `compactWhitespace`: the words of the text joined by single spaces. */
  function CompactWhitespace(s: string): (r: string)
    ensures CompactShape(r)
    ensures Fields(r) == Fields(TrimSpace(s))
  {
    FieldsAreWords(TrimSpace(s));
    JoinWords(Fields(TrimSpace(s)));
    Join(Fields(TrimSpace(s)), " ")
  }

  lemma JoinWords(words: seq<string>)
    requires forall i :: 0 <= i < |words| ==> words[i] != [] && NoSpace(words[i])
    ensures CompactShape(Join(words, " ")) && Fields(Join(words, " ")) == words
  {
    JoinWordsCompact(words);
    FieldsOfJoin(words);
  }

  /** Compacting compacted text changes nothing. */
  lemma CompactWhitespaceIdempotent(s: string)
    ensures CompactWhitespace(CompactWhitespace(s)) == CompactWhitespace(s)
  {
    var r := CompactWhitespace(s);
    assert r == [] || (!IsSpace(r[0]) && !IsSpace(r[|r| - 1]));
    TrimSpaceOfTrimmed(r);
  }

  /** The status column of a request row. */
  function StatusLabel(row: RequestRow): (tag: string)
    ensures tag == "err" <==> !row.success
    ensures tag == "ok" <==> row.success
  {
    if !row.success then "err" else "ok"
  }

  /** The scope column of a memory row. */
  function ScopeLabel(row: MemoryRow): (tag: string)
    ensures tag == "S" <==> row.scope == ScopeShort
    ensures tag == "L" <==> row.scope != ScopeShort
  {
    if row.scope == ScopeShort then "S" else "L"
  }
}
