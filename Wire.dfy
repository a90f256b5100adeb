/**
 * The byte transport of internal/mcp/server.go: wire-mode detection, the
 * line-mode and Content-Length-framed readers, and the two writers.
 *
 * The input stream is a byte sequence and a reader is a position in it.
 * Lines, keys and values are ranges [lo, hi) of a byte string, so that
 * trimming and scanning are arithmetic on positions. The JSON encoding of a
 * message is not part of this module: writers take the encoded payload.
 */
module Wire {
  import opened Wrappers
  import opened Types

  newtype byte = x: int | 0 <= x < 256

  datatype Mode = Framed | JsonLine

  /** The read errors `Serve` can meet: io.EOF, io.ErrUnexpectedEOF, a non-numeric length, a missing one. */
  datatype ReadError = Eof | UnexpectedEof | InvalidLength(value: seq<byte>) | MissingLength

  /** One message as `readMessage` returns it, with the stream position after it. */
  datatype Message = Message(payload: seq<byte>, mode: Mode, next: nat)

  const LF: byte := 10
  const CR: byte := 13
  const Space: byte := 32
  const Plus: byte := 43
  const Minus: byte := 45
  const Zero: byte := 48
  const Colon: byte := 58

  /** The bytes of a string of Latin-1 runes, one byte per rune. */
  function Latin1(s: string): (b: seq<byte>)
    requires forall i :: 0 <= i < |s| ==> s[i] as int < 256
    ensures |b| == |s| && forall i :: 0 <= i < |s| ==> b[i] as int == s[i] as int
  {
    seq(|s|, i requires 0 <= i < |s| => s[i] as int as byte)
  }

  /** `unicode.IsSpace(rune(b))`, the test `detectWireMode` applies to each byte: the Latin-1 white space. */
  predicate IsSpaceRune(b: byte) {
    b == 9 || b == 10 || b == 11 || b == 12 || b == 13 || b == 32 || b == 0x85 || b == 0xA0
  }

  /** The ASCII white space `bytes.TrimSpace` and `strings.TrimSpace` drop. */
  predicate IsAsciiSpace(b: byte) {
    b == 9 || b == 10 || b == 11 || b == 12 || b == 13 || b == 32
  }

  function LowerByte(b: byte): byte {
    if 65 <= b <= 90 then b + 32 else b
  }

  function LowerBytes(s: seq<byte>): (r: seq<byte>)
    ensures |r| == |s| && forall i :: 0 <= i < |s| ==> r[i] == LowerByte(s[i])
  {
    seq(|s|, i requires 0 <= i < |s| => LowerByte(s[i]))
  }

  predicate HasPrefixBytes(s: seq<byte>, p: seq<byte>) {
    |p| <= |s| && s[..|p|] == p
  }

  // ---------------------------------------------------------------------------
  // Scanning and trimming ranges of a byte string

  /** The first occurrence of b at or after j: where `ReadBytes` stops, where `SplitN` splits. */
  function IndexByte(s: seq<byte>, j: nat, b: byte): (r: Option<nat>)
    requires j <= |s|
    ensures r.Some? ==> j <= r.value < |s| && s[r.value] == b
    decreases |s| - j
  {
    if j == |s| then None else if s[j] == b then Some(j) else IndexByte(s, j + 1, b)
  }

  /** What IndexByte finds is the first occurrence, and when it finds none there is none. */
  lemma {:induction false} IndexByteFirst(s: seq<byte>, j: nat, b: byte)
    requires j <= |s|
    ensures IndexByte(s, j, b).Some? ==> forall k :: j <= k < IndexByte(s, j, b).value ==> s[k] != b
    ensures IndexByte(s, j, b).None? ==> forall k :: j <= k < |s| ==> s[k] != b
    decreases |s| - j
  {
    if j < |s| && s[j] != b {
      IndexByteFirst(s, j + 1, b);
    }
  }

  /** An occurrence with none before it is what IndexByte finds. */
  lemma {:induction false} IndexByteFinds(s: seq<byte>, j: nat, c: nat, b: byte)
    requires j <= c < |s| && s[c] == b
    requires forall k :: j <= k < c ==> s[k] != b
    ensures IndexByte(s, j, b) == Some(c)
    decreases c - j
  {
    if j < c {
      IndexByteFinds(s, j + 1, c, b);
    }
  }

  /** The first index in [i, n) that does not hold ASCII white space, or n. */
  function SpaceEnd(s: seq<byte>, i: nat, n: nat): (j: nat)
    requires i <= n <= |s|
    ensures i <= j <= n && (j == n || !IsAsciiSpace(s[j]))
    decreases n - i
  {
    if i < n && IsAsciiSpace(s[i]) then SpaceEnd(s, i + 1, n) else i
  }

  /** The end of [lo, n) once its trailing ASCII white space is dropped. */
  function SpaceStart(s: seq<byte>, lo: nat, n: nat): (m: nat)
    requires lo <= n <= |s|
    ensures lo <= m <= n && (m == lo || !IsAsciiSpace(s[m - 1]))
    decreases n
  {
    if lo < n && IsAsciiSpace(s[n - 1]) then SpaceStart(s, lo, n - 1) else n
  }

  lemma {:induction false} SpaceEndSkipsSpace(s: seq<byte>, i: nat, n: nat)
    requires i <= n <= |s|
    ensures forall k :: i <= k < SpaceEnd(s, i, n) ==> IsAsciiSpace(s[k])
    decreases n - i
  {
    if i < n && IsAsciiSpace(s[i]) {
      SpaceEndSkipsSpace(s, i + 1, n);
    }
  }

  lemma {:induction false} SpaceStartSkipsSpace(s: seq<byte>, lo: nat, n: nat)
    requires lo <= n <= |s|
    ensures forall k :: SpaceStart(s, lo, n) <= k < n ==> IsAsciiSpace(s[k])
    decreases n
  {
    if lo < n && IsAsciiSpace(s[n - 1]) {
      SpaceStartSkipsSpace(s, lo, n - 1);
    }
  }

  /** `bytes.TrimSpace(s[lo..hi])`, ASCII white space only. */
  function Trimmed(s: seq<byte>, lo: nat, hi: nat): (r: seq<byte>)
    requires lo <= hi <= |s|
    ensures r == [] || (!IsAsciiSpace(r[0]) && !IsAsciiSpace(r[|r| - 1]))
  {
    var a := SpaceEnd(s, lo, hi);
    s[a..SpaceStart(s, a, hi)]
  }

  /** Trimming drops white space and nothing else: what is left lies between two runs of white space. */
  lemma TrimmedDropsSpace(s: seq<byte>, lo: nat, hi: nat)
    requires lo <= hi <= |s|
    ensures exists a, b ::
      lo <= a <= b <= hi && Trimmed(s, lo, hi) == s[a..b] &&
      (forall k :: lo <= k < a ==> IsAsciiSpace(s[k])) && (forall k :: b <= k < hi ==> IsAsciiSpace(s[k]))
  {
    var a := SpaceEnd(s, lo, hi);
    SpaceEndSkipsSpace(s, lo, hi);
    SpaceStartSkipsSpace(s, a, hi);
    assert Trimmed(s, lo, hi) == s[a..SpaceStart(s, a, hi)];
  }

  /** A range of white space alone trims to nothing. */
  lemma AllSpaceTrims(s: seq<byte>, lo: nat, hi: nat)
    requires lo <= hi <= |s|
    requires forall k :: lo <= k < hi ==> IsAsciiSpace(s[k])
    ensures Trimmed(s, lo, hi) == []
  {
  }

  /** A range with no white space at either end is its own trim. */
  lemma TrimmedOfTrimmed(s: seq<byte>, lo: nat, hi: nat)
    requires lo < hi <= |s| && !IsAsciiSpace(s[lo]) && !IsAsciiSpace(s[hi - 1])
    ensures Trimmed(s, lo, hi) == s[lo..hi]
  {
  }

  /** The end of [lo, n) once its trailing carriage returns and line feeds are dropped. */
  function EolStart(s: seq<byte>, lo: nat, n: nat): (m: nat)
    requires lo <= n <= |s|
    ensures lo <= m <= n && (m == lo || (s[m - 1] != CR && s[m - 1] != LF))
    decreases n
  {
    if lo < n && (s[n - 1] == CR || s[n - 1] == LF) then EolStart(s, lo, n - 1) else n
  }

  lemma {:induction false} EolStartDropsEol(s: seq<byte>, lo: nat, n: nat)
    requires lo <= n <= |s|
    ensures forall k :: EolStart(s, lo, n) <= k < n ==> s[k] == CR || s[k] == LF
    decreases n
  {
    if lo < n && (s[n - 1] == CR || s[n - 1] == LF) {
      EolStartDropsEol(s, lo, n - 1);
    }
  }

  /** `bytes.TrimSpace` of a line. */
  function TrimSpace(line: seq<byte>): seq<byte> {
    Trimmed(line, 0, |line|)
  }

  /** `strings.TrimRight(line, "\r\n")`. */
  function TrimEol(line: seq<byte>): seq<byte> {
    line[..EolStart(line, 0, |line|)]
  }

  /** TrimEol keeps a prefix of the line, drops only carriage returns and line feeds, and ends in neither. */
  lemma TrimEolDropsEol(line: seq<byte>)
    ensures |TrimEol(line)| <= |line| && TrimEol(line) == line[..|TrimEol(line)|]
    ensures forall k :: |TrimEol(line)| <= k < |line| ==> line[k] == CR || line[k] == LF
    ensures TrimEol(line) == [] || (TrimEol(line)[|TrimEol(line)| - 1] != CR && TrimEol(line)[|TrimEol(line)| - 1] != LF)
  {
    EolStartDropsEol(line, 0, |line|);
  }

  // The same scans over a line taken out of the stream

  lemma {:induction false} SpaceEndOfSlice(s: seq<byte>, lo: nat, hi: nat, i: nat)
    requires lo <= i <= hi <= |s|
    ensures SpaceEnd(s[lo..hi], i - lo, hi - lo) == SpaceEnd(s, i, hi) - lo
    decreases hi - i
  {
    if i < hi {
      assert s[lo..hi][i - lo] == s[i];
      if IsAsciiSpace(s[i]) {
        SpaceEndOfSlice(s, lo, hi, i + 1);
      }
    }
  }

  lemma {:induction false} SpaceStartOfSlice(s: seq<byte>, lo: nat, hi: nat, a: nat, n: nat)
    requires lo <= a <= n <= hi <= |s|
    ensures SpaceStart(s[lo..hi], a - lo, n - lo) == SpaceStart(s, a, n) - lo
    decreases n
  {
    if a < n {
      assert s[lo..hi][n - 1 - lo] == s[n - 1];
      if IsAsciiSpace(s[n - 1]) {
        SpaceStartOfSlice(s, lo, hi, a, n - 1);
      }
    }
  }

  lemma {:induction false} EolStartOfSlice(s: seq<byte>, lo: nat, hi: nat, n: nat)
    requires lo <= n <= hi <= |s|
    ensures EolStart(s[lo..hi], 0, n - lo) == EolStart(s, lo, n) - lo
    decreases n
  {
    if lo < n {
      assert s[lo..hi][n - 1 - lo] == s[n - 1];
      if s[n - 1] == CR || s[n - 1] == LF {
        EolStartOfSlice(s, lo, hi, n - 1);
      }
    }
  }

  lemma TrimSpaceOfSlice(s: seq<byte>, lo: nat, hi: nat)
    requires lo <= hi <= |s|
    ensures TrimSpace(s[lo..hi]) == Trimmed(s, lo, hi)
  {
    var line := s[lo..hi];
    assert |line| == hi - lo;
    var a := SpaceEnd(s, lo, hi);
    var b := SpaceStart(s, a, hi);
    SpaceEndOfSlice(s, lo, hi, lo);
    SpaceStartOfSlice(s, lo, hi, a, hi);
    var a' := SpaceEnd(line, 0, |line|);
    assert a' == a - lo;
    var b' := SpaceStart(line, a', |line|);
    assert b' == b - lo;
    assert TrimSpace(line) == line[a'..b'];
    assert line[a'..b'] == s[a..b] by {
      forall k | 0 <= k < b - a ensures line[a'..b'][k] == s[a..b][k] {
        assert line[a'..b'][k] == s[a + k];
      }
    }
  }

  lemma TrimEolOfSlice(s: seq<byte>, lo: nat, hi: nat)
    requires lo <= hi <= |s|
    ensures TrimEol(s[lo..hi]) == s[lo..EolStart(s, lo, hi)]
  {
    var line := s[lo..hi];
    assert |line| == hi - lo;
    var e := EolStart(s, lo, hi);
    EolStartOfSlice(s, lo, hi, hi);
    var e' := EolStart(line, 0, |line|);
    assert e' == e - lo;
    assert TrimEol(line) == line[..e'];
    assert line[..e'] == s[lo..e] by {
      forall k | 0 <= k < e - lo ensures line[..e'][k] == s[lo..e][k] {
        assert line[..e'][k] == s[lo + k];
      }
    }
  }

  // ---------------------------------------------------------------------------
  // Numbers

  predicate AllDigits(b: seq<byte>) {
    forall i :: 0 <= i < |b| ==> Zero <= b[i] <= Zero + 9
  }

  /** The value of a string of decimal digits. */
  function DigitsValue(b: seq<byte>): (v: nat)
    requires AllDigits(b)
    decreases |b|
  {
    if b == [] then 0 else 10 * DigitsValue(b[..|b| - 1]) + (b[|b| - 1] - Zero) as int
  }

  /** `strconv.Atoi` with 64-bit int: an optional sign and at least one decimal digit, within int64. */
  function Atoi(b: seq<byte>): (r: Option<int>)
    ensures r.Some? ==> InInt64(r.value)
    ensures r.Some? ==> b != [] && (AllDigits(b) || ((b[0] == Plus || b[0] == Minus) && |b| > 1 && AllDigits(b[1..])))
  {
    var signed := b != [] && (b[0] == Plus || b[0] == Minus);
    var digits := if signed then b[1..] else b;
    if digits == [] || !AllDigits(digits) then None
    else
      var magnitude: int := DigitsValue(digits);
      var v: int := if b[0] == Minus then -magnitude else magnitude;
      if InInt64(v) then Some(v) else None
  }

  /** The decimal text `%d` prints for a length. */
  function Decimal(n: nat): (b: seq<byte>)
    ensures |b| >= 1 && AllDigits(b)
  {
    if n < 10 then [(Zero as int + n) as byte] else Decimal(n / 10) + [(Zero as int + n % 10) as byte]
  }

  lemma {:induction false} DigitsValueOfDecimal(n: nat)
    ensures DigitsValue(Decimal(n)) == n
  {
    if n >= 10 {
      DigitsValueOfDecimal(n / 10);
      assert Decimal(n)[..|Decimal(n)| - 1] == Decimal(n / 10);
    }
  }

  /** Printing a length and parsing it back gives the length. */
  lemma AtoiOfDecimal(n: nat)
    requires n <= MaxInt64
    ensures Atoi(Decimal(n)) == Some(n)
  {
    DigitsValueOfDecimal(n);
  }

  // ---------------------------------------------------------------------------
  // Reading, as functions of the stream and a position in it

  /** The position after the white-space bytes `detectWireMode` consumes. */
  function SkipSpace(s: seq<byte>, i: nat): (j: nat)
    requires i <= |s|
    ensures i <= j <= |s|
    ensures j < |s| ==> !IsSpaceRune(s[j])
    decreases |s| - i
  {
    if i == |s| || !IsSpaceRune(s[i]) then i else SkipSpace(s, i + 1)
  }

  lemma {:induction false} SkipSpaceSkipsSpace(s: seq<byte>, i: nat)
    requires i <= |s|
    ensures forall k :: i <= k < SkipSpace(s, i) ==> IsSpaceRune(s[k])
    decreases |s| - i
  {
    if i < |s| && IsSpaceRune(s[i]) {
      SkipSpaceSkipsSpace(s, i + 1);
    }
  }

  const ContentLengthPrefix: seq<byte> := Latin1("content-length:")

  /** `detectWireMode`: end of input after the white space, or a peek at up to 16 bytes. */
  function Detect(s: seq<byte>, i: nat): (r: Result<Mode, ReadError>)
    requires i <= |s|
    ensures r.Success? || r == Failure(Eof)
  {
    var j := SkipSpace(s, i);
    if j == |s| then Failure(Eof)
    else
      var peek := s[j..if j + 16 <= |s| then j + 16 else |s|];
      if HasPrefixBytes(LowerBytes(peek), ContentLengthPrefix) then Success(Framed) else Success(JsonLine)
  }

  /**
   * Detection sees end of input exactly when only white space is left, and a
   * frame exactly when what follows the white space starts, in any case, with
   * "content-length:": the 16-byte peek loses nothing.
   */
  lemma DetectClassifies(s: seq<byte>, i: nat)
    requires i <= |s|
    ensures Detect(s, i) == Failure(Eof) <==> forall k :: i <= k < |s| ==> IsSpaceRune(s[k])
    ensures Detect(s, i) == Success(Framed) <==>
      SkipSpace(s, i) < |s| && HasPrefixBytes(LowerBytes(s[SkipSpace(s, i)..]), ContentLengthPrefix)
  {
    var j := SkipSpace(s, i);
    SkipSpaceSkipsSpace(s, i);
    if j < |s| {
      var peek := s[j..if j + 16 <= |s| then j + 16 else |s|];
      assert |ContentLengthPrefix| == 15;
      if HasPrefixBytes(LowerBytes(s[j..]), ContentLengthPrefix) || HasPrefixBytes(LowerBytes(peek), ContentLengthPrefix) {
        assert LowerBytes(s[j..])[..15] == LowerBytes(peek)[..15];
      }
    }
  }

  /** `readJSONLineMessage`: the next line that is not blank, trimmed; end of input when none is left. */
  function ReadJsonLine(s: seq<byte>, i: nat): (r: Result<(seq<byte>, nat), ReadError>)
    requires i <= |s|
    ensures r.Success? ==> i < r.value.1 <= |s| && r.value.0 != []
    ensures r.Success? ==> !IsAsciiSpace(r.value.0[0]) && !IsAsciiSpace(r.value.0[|r.value.0| - 1])
    ensures r.Failure? ==> r == Failure(Eof)
    decreases |s| - i
  {
    match IndexByte(s, i, LF)
    case None =>
      var line := Trimmed(s, i, |s|);
      if line == [] then Failure(Eof) else Success((line, |s|))
    case Some(k) =>
      var line := Trimmed(s, i, k + 1);
      if line == [] then ReadJsonLine(s, k + 1) else Success((line, k + 1))
  }

  /** One step of `readJSONLineMessage`: the line up to the next line feed, or the rest of the input. */
  lemma ReadJsonLineStep(s: seq<byte>, i: nat)
    requires i <= |s|
    ensures IndexByte(s, i, LF).None? ==>
      ReadJsonLine(s, i) == if Trimmed(s, i, |s|) == [] then Failure(Eof) else Success((Trimmed(s, i, |s|), |s|))
    ensures IndexByte(s, i, LF).Some? ==> var k := IndexByte(s, i, LF).value;
      ReadJsonLine(s, i) == if Trimmed(s, i, k + 1) == [] then ReadJsonLine(s, k + 1) else Success((Trimmed(s, i, k + 1), k + 1))
  {
  }
  /** The same step with the end of the line read given as n: a line that trims to nothing is skipped. */
  lemma ReadJsonLineUpTo(s: seq<byte>, i: nat, n: nat)
    requires i <= n <= |s|
    requires IndexByte(s, i, LF).Some? ==> n == IndexByte(s, i, LF).value + 1
    requires IndexByte(s, i, LF).None? ==> n == |s|
    ensures Trimmed(s, i, n) != [] ==> ReadJsonLine(s, i) == Success((Trimmed(s, i, n), n))
    ensures Trimmed(s, i, n) == [] ==> ReadJsonLine(s, i) == ReadJsonLine(s, n)
    ensures n == |s| ==> ReadJsonLine(s, n) == Failure(Eof)
  {
    assert ReadJsonLine(s, |s|) == Failure(Eof) by {
      assert Trimmed(s, |s|, |s|) == [];
    }
    if i == n {
      assert Trimmed(s, i, n) == [];
    }
  }


  /** What one header line says about the length. */
  datatype Header = Ignored | Length(n: int) | BadLength(value: seq<byte>)

  const ContentLengthKey: seq<byte> := Latin1("content-length")

  /**
   * One non-empty header line: split at the first colon, a key that is
   * "Content-Length" in any case once trimmed, and its trimmed value; every
   * other line is ignored.
   */
  function ParseHeader(line: seq<byte>): (h: Header)
    ensures h.Length? ==> InInt64(h.n)
  {
    match IndexByte(line, 0, Colon)
    case None => Ignored
    case Some(c) =>
      if LowerBytes(Trimmed(line, 0, c)) != ContentLengthKey then Ignored
      else
        var v := Trimmed(line, c + 1, |line|);
        match Atoi(v)
        case Some(n) => Length(n)
        case None => BadLength(v)
  }

  /** A line without a colon says nothing, and neither does a key other than Content-Length. */
  lemma ParseHeaderIgnores(line: seq<byte>)
    ensures Colon !in line ==> ParseHeader(line) == Ignored
    ensures ParseHeader(line) != Ignored ==>
      exists c :: 0 <= c < |line| && line[c] == Colon && LowerBytes(Trimmed(line, 0, c)) == ContentLengthKey
  {
  }

  /** The header loop of `readFramedMessage`: the last length given, and the position after the empty line. */
  function ReadHeaders(s: seq<byte>, i: nat, contentLength: int): (r: Result<(int, nat), ReadError>)
    requires i <= |s|
    ensures r.Success? ==> i < r.value.1 <= |s|
    ensures r.Failure? ==> r == Failure(Eof) || r.error.InvalidLength?
    decreases |s| - i
  {
    match IndexByte(s, i, LF)
    case None => Failure(Eof)
    case Some(k) =>
      var e := EolStart(s, i, k + 1);
      if e == i then Success((contentLength, k + 1))
      else match ParseHeader(s[i..e])
        case Ignored => ReadHeaders(s, k + 1, contentLength)
        case Length(n) => ReadHeaders(s, k + 1, n)
        case BadLength(v) => Failure(InvalidLength(v))
  }

  /** The header loop at a line that is not empty: the line decides. */
  lemma ReadHeadersStep(s: seq<byte>, i: nat, contentLength: int, k: nat)
    requires i <= |s| && IndexByte(s, i, LF) == Some(k) && EolStart(s, i, k + 1) != i
    ensures ReadHeaders(s, i, contentLength) ==
      match ParseHeader(s[i..EolStart(s, i, k + 1)])
      case Ignored => ReadHeaders(s, k + 1, contentLength)
      case Length(n) => ReadHeaders(s, k + 1, n)
      case BadLength(v) => Failure(InvalidLength(v))
  {
  }
  /** One pass of the header loop with the end of the line read given as n. */
  lemma ReadHeadersUpTo(s: seq<byte>, i: nat, contentLength: int, n: nat)
    requires i < n <= |s| && IndexByte(s, i, LF).Some? && n == IndexByte(s, i, LF).value + 1
    ensures EolStart(s, i, n) == i ==> ReadHeaders(s, i, contentLength) == Success((contentLength, n))
    ensures EolStart(s, i, n) != i ==>
      ReadHeaders(s, i, contentLength) == match ParseHeader(s[i..EolStart(s, i, n)])
        case Ignored => ReadHeaders(s, n, contentLength)
        case Length(m) => ReadHeaders(s, n, m)
        case BadLength(v) => Failure(InvalidLength(v))
  {
  }


  /** `readFramedMessage`: the headers, then exactly the announced number of bytes. */
  function ReadFramed(s: seq<byte>, i: nat): (r: Result<(seq<byte>, nat), ReadError>)
    requires i <= |s|
    ensures r.Success? ==> i < r.value.1 <= |s| && r.value.0 != []
  {
    match ReadHeaders(s, i, 0)
    case Failure(e) => Failure(e)
    case Success((contentLength, h)) =>
      if contentLength <= 0 then Failure(MissingLength)
      else if h == |s| then Failure(Eof)
      else if |s| - h < contentLength then Failure(UnexpectedEof)
      else Success((s[h..h + contentLength], h + contentLength))
  }

  /** `readMessage`: detect the mode of the next message, then read it in that mode. */
  function ReadMessage(s: seq<byte>, i: nat): (r: Result<Message, ReadError>)
    requires i <= |s|
    ensures r.Success? ==> i < r.value.next <= |s| && r.value.payload != []
    ensures r.Success? ==> Detect(s, i) == Success(r.value.mode)
  {
    match Detect(s, i)
    case Failure(e) => Failure(e)
    case Success(mode) =>
      var j := SkipSpace(s, i);
      if mode == JsonLine then
        match ReadJsonLine(s, j)
        case Failure(e) => Failure(e)
        case Success((line, next)) => Success(Message(line, JsonLine, next))
      else
        match ReadFramed(s, j)
        case Failure(e) => Failure(e)
        case Success((payload, next)) => Success(Message(payload, Framed, next))
  }

  // ---------------------------------------------------------------------------
  // Writing

  const HeaderPrefix: seq<byte> := Latin1("Content-Length: ")
  const CrLf: seq<byte> := [CR, LF]

  /** `writeFramedMessage`: "Content-Length: N\r\n\r\n" and then the payload. */
  function Frame(payload: seq<byte>): (b: seq<byte>)
    ensures |b| > |payload| && b[|b| - |payload|..] == payload
  {
    HeaderPrefix + Decimal(|payload|) + CrLf + CrLf + payload
  }

  /** The line-mode branch of `writeMessage`: the payload and a line feed. */
  function Line(payload: seq<byte>): (b: seq<byte>)
    ensures |b| == |payload| + 1 && b[..|payload|] == payload && b[|payload|] == LF
  {
    payload + [LF]
  }

  /** `writeMessage`. */
  function Encode(payload: seq<byte>, mode: Mode): (b: seq<byte>)
    ensures mode == Framed ==> b == Frame(payload)
    ensures mode == JsonLine ==> b == Line(payload)
  {
    if mode == JsonLine then Line(payload) else Frame(payload)
  }

  // ---------------------------------------------------------------------------
  // Round trips: what a writer emits, a reader reads back, wherever in the stream it starts

  /** The header line a writer emits says what the length is. */
  lemma {:induction false} ParseHeaderOfFrame(n: nat)
    requires n <= MaxInt64
    ensures ParseHeader(HeaderPrefix + Decimal(n)) == Length(n)
  {
    var d := Decimal(n);
    var line := HeaderPrefix + d;
    assert IndexByte(line, 0, Colon) == Some(14) by {
      forall k | 0 <= k < 14 ensures line[k] != Colon {
        assert line[k] == HeaderPrefix[k];
      }
      IndexByteFinds(line, 0, 14, Colon);
    }
    assert Trimmed(line, 0, 14) == HeaderPrefix[..14] by {
      TrimmedOfTrimmed(line, 0, 14);
      assert line[..14] == HeaderPrefix[..14];
    }
    assert LowerBytes(HeaderPrefix[..14]) == ContentLengthKey;
    assert Trimmed(line, 15, |line|) == d by {
      assert SpaceEnd(line, 15, |line|) == SpaceEnd(line, 16, |line|) == 16 by {
        assert line[15] == Space && line[16] == d[0];
      }
      assert SpaceStart(line, 16, |line|) == |line| by {
        assert line[|line| - 1] == d[|d| - 1];
      }
      assert line[16..] == d;
    }
    AtoiOfDecimal(n);
  }

  /** Where the line feeds of a frame lie in a stream that holds it at i. */
  lemma {:induction false} FrameLayout(s: seq<byte>, i: nat, p: seq<byte>, rest: seq<byte>)
    requires i <= |s| && s[i..] == Frame(p) + rest
    ensures var k := i + |HeaderPrefix| + |Decimal(|p|)| + 1;
      k + 3 + |p| <= |s| && s[i..k - 1] == HeaderPrefix + Decimal(|p|) && s[k - 1] == CR &&
      s[k + 1] == CR && IndexByte(s, i, LF) == Some(k) && IndexByte(s, k + 1, LF) == Some(k + 2)
  {
    var d := Decimal(|p|);
    var line := HeaderPrefix + d;
    var k := i + |line| + 1;
    assert s[i..] == line + CrLf + CrLf + p + rest;
    assert s[i..k - 1] == line by { assert s[i..k - 1] == s[i..][..|line|]; }
    forall j | i <= j < k ensures s[j] != LF {
      assert s[j] == s[i..][j - i];
      if j - i < |HeaderPrefix| {
        assert s[i..][j - i] == HeaderPrefix[j - i];
      } else if j - i < |line| {
        assert s[i..][j - i] == d[j - i - |HeaderPrefix|];
      } else {
        assert s[i..][j - i] == CR;
      }
    }
    assert s[k - 1] == CR && s[k] == LF && s[k + 1] == CR && s[k + 2] == LF by {
      assert s[k - 1] == s[i..][|line|] && s[k] == s[i..][|line| + 1];
      assert s[k + 1] == s[i..][|line| + 2] && s[k + 2] == s[i..][|line| + 3];
    }
    IndexByteFinds(s, i, k, LF);
    IndexByteFinds(s, k + 1, k + 2, LF);
  }

  /** The header loop over the header line a writer emits. */
  lemma ReadHeadersOfHeaderLine(s: seq<byte>, i: nat, k: nat, n: nat)
    requires n <= MaxInt64 && i + 2 <= k < |s| && IndexByte(s, i, LF) == Some(k)
    requires s[i..k - 1] == HeaderPrefix + Decimal(n) && s[k - 1] == CR
    ensures ReadHeaders(s, i, 0) == ReadHeaders(s, k + 1, n)
  {
    assert EolStart(s, i, k + 1) == k - 1 by {
      var d := Decimal(n);
      assert |HeaderPrefix| == 16;
      assert s[k - 2] == (HeaderPrefix + d)[k - 2 - i] == d[|d| - 1] by { assert s[k - 2] == s[i..k - 1][k - 2 - i]; }
      assert EolStart(s, i, k + 1) == EolStart(s, i, k) == EolStart(s, i, k - 1);
    }
    ParseHeaderOfFrame(n);
    ReadHeadersStep(s, i, 0, k);
  }

  /** The header loop at the empty line that ends the headers. */
  lemma ReadHeadersAtBlank(s: seq<byte>, j: nat, contentLength: int)
    requires j + 2 <= |s| && s[j] == CR && IndexByte(s, j, LF) == Some(j + 1)
    ensures ReadHeaders(s, j, contentLength) == Success((contentLength, j + 2))
  {
    assert EolStart(s, j, j + 2) == j;
  }

  /** The headers of a frame announce the length of its payload and end where the payload starts. */
  lemma {:induction false} ReadHeadersOfFrame(s: seq<byte>, i: nat, p: seq<byte>, rest: seq<byte>)
    requires 0 < |p| <= MaxInt64
    requires i <= |s| && s[i..] == Frame(p) + rest
    ensures ReadHeaders(s, i, 0) == Success((|p|, i + |Frame(p)| - |p|))
  {
    var k := i + |HeaderPrefix| + |Decimal(|p|)| + 1;
    FrameLayout(s, i, p, rest);
    ReadHeadersOfHeaderLine(s, i, k, |p|);
    ReadHeadersAtBlank(s, k + 1, |p|);
  }

  lemma PayloadOfFrame(s: seq<byte>, i: nat, p: seq<byte>, rest: seq<byte>)
    requires i <= |s| && s[i..] == Frame(p) + rest
    ensures i + |Frame(p)| <= |s| && s[i + |Frame(p)| - |p|..i + |Frame(p)|] == p
  {
    assert s[i + |Frame(p)| - |p|..i + |Frame(p)|] == s[i..][|Frame(p)| - |p|..|Frame(p)|];
  }

  /** The framed reader at a frame whose headers announce the length of the bytes that follow them. */
  lemma ReadFramedOfFrameParts(s: seq<byte>, i: nat, p: seq<byte>)
    requires p != [] && i + |Frame(p)| <= |s|
    requires ReadHeaders(s, i, 0) == Success((|p|, i + |Frame(p)| - |p|))
    requires s[i + |Frame(p)| - |p|..i + |Frame(p)|] == p
    ensures ReadFramed(s, i) == Success((p, i + |Frame(p)|))
  {
  }

  /** A frame starts with its header, which detection takes for a frame. */
  lemma {:induction false} DetectOfFrame(s: seq<byte>, i: nat, p: seq<byte>, rest: seq<byte>)
    requires i <= |s| && s[i..] == Frame(p) + rest
    ensures SkipSpace(s, i) == i && Detect(s, i) == Success(Framed)
  {
    assert s[i..i + 16] == HeaderPrefix by { assert s[i..i + 16] == s[i..][..16]; }
    assert SkipSpace(s, i) == i by { assert s[i] == HeaderPrefix[0]; }
    assert LowerBytes(s[i..i + 16])[..15] == LowerBytes(HeaderPrefix[..15]);
  }

  /** `readMessage` at a frame: the framed reader decides. */
  lemma ReadMessageOfFramed(s: seq<byte>, i: nat, p: seq<byte>, next: nat)
    requires i <= |s| && SkipSpace(s, i) == i && Detect(s, i) == Success(Framed)
    requires ReadFramed(s, i) == Success((p, next))
    ensures ReadMessage(s, i) == Success(Message(p, Framed, next))
  {
  }

  /** `readMessage` at a frame whose headers announce the length of the bytes that follow them. */
  lemma ReadMessageOfFrameParts(s: seq<byte>, i: nat, p: seq<byte>)
    requires p != [] && i + |Frame(p)| <= |s| && SkipSpace(s, i) == i && Detect(s, i) == Success(Framed)
    requires ReadHeaders(s, i, 0) == Success((|p|, i + |Frame(p)| - |p|))
    requires s[i + |Frame(p)| - |p|..i + |Frame(p)|] == p
    ensures ReadMessage(s, i) == Success(Message(p, Framed, i + |Frame(p)|))
  {
    ReadFramedOfFrameParts(s, i, p);
    ReadMessageOfFramed(s, i, p, i + |Frame(p)|);
  }

  /** A framed message reads back as its payload, whatever comes after it. */
  lemma {:induction false} FramedRoundTrip(s: seq<byte>, i: nat, payload: seq<byte>, rest: seq<byte>)
    requires 0 < |payload| <= MaxInt64
    requires i <= |s| && s[i..] == Frame(payload) + rest
    ensures ReadMessage(s, i) == Success(Message(payload, Framed, i + |Frame(payload)|))
  {
    DetectOfFrame(s, i, payload, rest);
    ReadHeadersOfFrame(s, i, payload, rest);
    PayloadOfFrame(s, i, payload, rest);
    ReadMessageOfFrameParts(s, i, payload);
  }

  /** The payloads line mode carries: non-empty, one line, trimmed, and not taken for a frame header. */
  predicate LinePayload(p: seq<byte>) {
    p != [] && LF !in p && !IsSpaceRune(p[0]) && !IsAsciiSpace(p[|p| - 1]) &&
    !HasPrefixBytes(LowerBytes(p), ContentLengthPrefix)
  }

  lemma {:induction false} ReadLineOfLine(s: seq<byte>, i: nat, p: seq<byte>, rest: seq<byte>)
    requires LinePayload(p)
    requires i <= |s| && s[i..] == Line(p) + rest
    ensures ReadJsonLine(s, i) == Success((p, i + |p| + 1))
  {
    var n := i + |p|;
    forall j | i <= j < n ensures s[j] != LF {
      assert s[j] == s[i..][j - i] == p[j - i];
    }
    assert s[n] == s[i..][|p|] == LF;
    IndexByteFinds(s, i, n, LF);
    assert s[i..n] == p by { assert s[i..n] == s[i..][..|p|]; }
    assert Trimmed(s, i, n + 1) == p by {
      assert SpaceEnd(s, i, n + 1) == i by { assert s[i] == p[0]; }
      assert SpaceStart(s, i, n + 1) == SpaceStart(s, i, n) == n by { assert s[n - 1] == p[|p| - 1]; }
    }
    ReadJsonLineStep(s, i);
  }

  /** A line payload starts with no white space and no frame header. */
  lemma {:induction false} DetectOfLine(s: seq<byte>, i: nat, p: seq<byte>, rest: seq<byte>)
    requires LinePayload(p)
    requires i <= |s| && s[i..] == Line(p) + rest
    ensures SkipSpace(s, i) == i && Detect(s, i) == Success(JsonLine)
  {
    assert SkipSpace(s, i) == i by { assert s[i] == s[i..][0] == p[0]; }
    var peek := s[i..if i + 16 <= |s| then i + 16 else |s|];
    var l := LowerBytes(peek);
    if |p| >= 15 {
      assert l[..15] == LowerBytes(p)[..15] by {
        forall j | 0 <= j < 15 ensures l[j] == LowerBytes(p)[j] {
          assert peek[j] == s[i..][j] == p[j];
        }
      }
    } else if |l| >= 15 {
      assert l[..15][|p|] == LF by { assert peek[|p|] == s[i..][|p|] == LF; }
      assert ContentLengthPrefix[|p|] != LF;
    }
  }

  /** `readMessage` at a line: the line reader decides. */
  lemma ReadMessageOfJsonLine(s: seq<byte>, i: nat, p: seq<byte>)
    requires i <= |s| && SkipSpace(s, i) == i && Detect(s, i) == Success(JsonLine)
    requires ReadJsonLine(s, i) == Success((p, i + |p| + 1))
    ensures ReadMessage(s, i) == Success(Message(p, JsonLine, i + |p| + 1))
  {
  }

  /** A line-mode message reads back as its payload, whatever comes after it. */
  lemma {:induction false} LineRoundTrip(s: seq<byte>, i: nat, payload: seq<byte>, rest: seq<byte>)
    requires LinePayload(payload)
    requires i <= |s| && s[i..] == Line(payload) + rest
    ensures ReadMessage(s, i) == Success(Message(payload, JsonLine, i + |payload| + 1))
  {
    DetectOfLine(s, i, payload, rest);
    ReadLineOfLine(s, i, payload, rest);
    ReadMessageOfJsonLine(s, i, payload);
  }

  /** Input that holds nothing but white space reads as end of input in line mode. */
  lemma {:induction false} BlankLinesEof(s: seq<byte>, i: nat)
    requires i <= |s|
    requires forall j :: i <= j < |s| ==> IsAsciiSpace(s[j])
    ensures ReadJsonLine(s, i) == Failure(Eof)
    decreases |s| - i
  {
    ReadJsonLineStep(s, i);
    match IndexByte(s, i, LF)
    case None =>
      AllSpaceTrims(s, i, |s|);
    case Some(k) =>
      AllSpaceTrims(s, i, k + 1);
      BlankLinesEof(s, k + 1);
  }

  // ---------------------------------------------------------------------------
  // The reader and the writer

  /** A buffered reader over an input stream: the bytes and how far they are consumed. */
  class Reader {
    const data: seq<byte>
    var pos: nat

    ghost predicate Valid()
      reads this
    {
      pos <= |data|
    }

    constructor (data: seq<byte>)
      ensures this.data == data && pos == 0 && Valid()
    {
      this.data := data;
      pos := 0;
    }

    /** `detectWireMode`: consumes the white space and peeks at what follows. */
    method DetectWireMode() returns (r: Result<Mode, ReadError>)
      requires Valid()
      modifies this
      ensures Valid()
      ensures pos == SkipSpace(data, old(pos))
      ensures r == Detect(data, old(pos))
    {
      while pos < |data| && IsSpaceRune(data[pos])
        invariant pos <= |data|
        invariant SkipSpace(data, pos) == SkipSpace(data, old(pos))
        decreases |data| - pos
      {
        pos := pos + 1;
      }
      if pos == |data| {
        return Failure(Eof);
      }
      var end := if pos + 16 <= |data| then pos + 16 else |data|;
      var peek := LowerBytes(data[pos..end]);
      if HasPrefixBytes(peek, ContentLengthPrefix) {
        r := Success(Framed);
      } else {
        r := Success(JsonLine);
      }
    }

    /** `ReadBytes('\n')`: the bytes up to and including the next line feed, or up to the end. */
    method ReadLine() returns (line: seq<byte>, sawNewline: bool)
      requires Valid()
      modifies this
      ensures Valid()
      ensures sawNewline <==> IndexByte(data, old(pos), LF).Some?
      ensures sawNewline ==> pos == IndexByte(data, old(pos), LF).value + 1
      ensures !sawNewline ==> pos == |data|
      ensures line == data[old(pos)..pos]
    {
      var start := pos;
      while pos < |data| && data[pos] != LF
        invariant start <= pos <= |data|
        invariant IndexByte(data, pos, LF) == IndexByte(data, start, LF)
        decreases |data| - pos
      {
        pos := pos + 1;
      }
      sawNewline := pos < |data|;
      if sawNewline {
        pos := pos + 1;
      }
      line := data[start..pos];
    }

    /** `readJSONLineMessage`: skips blank lines; its tail call is this loop. */
    method ReadJsonLineMessage() returns (r: Result<seq<byte>, ReadError>)
      requires Valid()
      modifies this
      ensures Valid()
      ensures ReadJsonLine(data, old(pos)) == if r.Success? then Success((r.value, pos)) else Failure(r.error)
    {
      ghost var goal := ReadJsonLine(data, pos);
      while true
        invariant Valid()
        invariant ReadJsonLine(data, pos) == goal
        decreases |data| - pos
      {
        ghost var start := pos;
        var line, sawNewline := ReadLine();
        ReadJsonLineUpTo(data, start, pos);
        TrimSpaceOfSlice(data, start, pos);
        line := TrimSpace(line);
        if line == [] {
          if !sawNewline {
            return Failure(Eof);
          }
        } else {
          return Success(line);
        }
      }
    }

    /** The header loop of `readFramedMessage`: keeps the last length it saw, up to the empty line. */
    method ReadHeaderLines() returns (r: Result<int, ReadError>)
      requires Valid()
      modifies this
      ensures Valid()
      ensures ReadHeaders(data, old(pos), 0) == if r.Success? then Success((r.value, pos)) else Failure(r.error)
    {
      ghost var goal := ReadHeaders(data, pos, 0);
      var contentLength := 0;
      while true
        invariant Valid()
        invariant ReadHeaders(data, pos, contentLength) == goal
        decreases |data| - pos
      {
        ghost var start := pos;
        var line, sawNewline := ReadLine();
        if !sawNewline {
          return Failure(Eof);
        }
        TrimEolOfSlice(data, start, pos);
        ReadHeadersUpTo(data, start, contentLength, pos);
        line := TrimEol(line);
        if line == [] {
          return Success(contentLength);
        }
        var h := ParseHeader(line);
        if h.BadLength? {
          return Failure(InvalidLength(h.value));
        } else if h.Length? {
          contentLength := h.n;
        }
      }
    }

    /** `readFramedMessage`: the headers, then exactly the announced number of bytes. */
    method ReadFramedMessage() returns (r: Result<seq<byte>, ReadError>)
      requires Valid()
      modifies this
      ensures Valid()
      ensures ReadFramed(data, old(pos)) == if r.Success? then Success((r.value, pos)) else Failure(r.error)
    {
      var contentLength := ReadHeaderLines();
      if contentLength.Failure? {
        return Failure(contentLength.error);
      }
      if contentLength.value <= 0 {
        return Failure(MissingLength);
      }
      if pos == |data| {
        return Failure(Eof);
      }
      if |data| - pos < contentLength.value {
        return Failure(UnexpectedEof);
      }
      r := Success(data[pos..pos + contentLength.value]);
      pos := pos + contentLength.value;
    }

    /** `readMessage`. */
    method NextMessage() returns (r: Result<(seq<byte>, Mode), ReadError>)
      requires Valid()
      modifies this
      ensures Valid()
      ensures ReadMessage(data, old(pos)).Success? ==>
        var m := ReadMessage(data, old(pos)).value; r == Success((m.payload, m.mode)) && pos == m.next
      ensures ReadMessage(data, old(pos)).Failure? ==> r == Failure(ReadMessage(data, old(pos)).error)
    {
      var mode := DetectWireMode();
      if mode.Failure? {
        return Failure(mode.error);
      }
      if mode.value == JsonLine {
        var line := ReadJsonLineMessage();
        if line.Failure? {
          return Failure(line.error);
        }
        return Success((line.value, JsonLine));
      }
      var payload := ReadFramedMessage();
      if payload.Failure? {
        return Failure(payload.error);
      }
      return Success((payload.value, Framed));
    }
  }

  /** A buffered writer: everything written so far. */
  class Writer {
    var out: seq<byte>

    constructor ()
      ensures out == []
    {
      out := [];
    }

    /** `writeFramedMessage`. */
    method WriteFramedMessage(payload: seq<byte>)
      modifies this
      ensures out == old(out) + Frame(payload)
    {
      var header := HeaderPrefix + Decimal(|payload|) + CrLf + CrLf;
      out := out + header;
      out := out + payload;
    }

    /** `writeMessage`: a line in line mode, a frame otherwise. */
    method WriteMessage(payload: seq<byte>, mode: Mode)
      modifies this
      ensures out == old(out) + Encode(payload, mode)
    {
      if mode == JsonLine {
        out := out + payload;
        out := out + [LF];
      } else {
        WriteFramedMessage(payload);
      }
    }
  }
}
