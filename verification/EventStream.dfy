/** The daemon's event stream: build output cut into frames, and the client that puts it together again. */
module EventStream {
  import opened Wrappers

  const LINE_BUF: nat := 8192
  const MAX_EVENT: nat := 16 * 1024 * 1024
  const HEADER_BUF: nat := 256
  const CHUNK: nat := 8192
  const WORD_LIMIT: nat := 63
  const ULONG_RANGE: nat := 0x1_0000_0000_0000_0000

  // ---- numbers and words as printf and scanf have them -------------------------------------

  predicate IsDigit(c: char) {
    '0' <= c <= '9'
  }

  predicate IsSpace(c: char) {
    c == ' ' || c == '\t' || c == '\n' || c == '\r' || c == 11 as char || c == 12 as char
  }

  function DigitOf(d: nat): (c: char)
    requires d < 10
    ensures IsDigit(c) && c as int - '0' as int == d
  {
    ('0' as int + d) as char
  }

  function Decimal(n: nat): (s: string)
    ensures |s| > 0 && forall i :: 0 <= i < |s| ==> IsDigit(s[i])
  {
    if n < 10 then [DigitOf(n)] else Decimal(n / 10) + [DigitOf(n % 10)]
  }

  /** The value of the digits at the front, after `seen`, and the rest. */
  function Number(s: string, seen: nat): (nat, string)
    decreases |s|
  {
    if s != [] && IsDigit(s[0]) then Number(s[1..], seen * 10 + (s[0] as int - '0' as int)) else (seen, s)
  }

  lemma {:induction false} DecimalReadsBack(n: nat, rest: string)
    ensures Number(Decimal(n) + rest, 0) == Number(rest, n)
  {
    if n < 10 {
      assert (Decimal(n) + rest)[1..] == rest;
    } else {
      var last := [DigitOf(n % 10)];
      assert Decimal(n) + rest == Decimal(n / 10) + (last + rest);
      DecimalReadsBack(n / 10, last + rest);
      assert (last + rest)[1..] == rest;
    }
  }

  function SkipSpaces(s: string): string {
    if s != [] && IsSpace(s[0]) then SkipSpaces(s[1..]) else s
  }

  /** A run of non-spaces, no longer than `limit`. */
  function Word(s: string, limit: nat): (string, string)
    decreases limit
  {
    if limit == 0 || s == [] || IsSpace(s[0]) then ([], s)
    else
      var (more, rest) := Word(s[1..], limit - 1);
      ([s[0]] + more, rest)
  }

  /** A decimal number with an optional sign. */
  function Signed(s: string): Option<int> {
    var t := SkipSpaces(s);
    var minus := t != [] && t[0] == '-';
    var digits := if t != [] && (t[0] == '-' || t[0] == '+') then t[1..] else t;
    if digits == [] || !IsDigit(digits[0]) then None
    else
      var value: int := Number(digits, 0).0;
      Some(if minus then -value else value)
  }

  predicate StartsWith(s: string, prefix: string) {
    |prefix| <= |s| && s[..|prefix|] == prefix
  }

  // ---- headers --------------------------------------------------------------------------------

  datatype Kind = Output | Progress | Diagnostic | Action | Summary

  function Name(k: Kind): (s: string)
    ensures 0 < |s| <= 16
    ensures forall i :: 0 <= i < |s| ==> 'a' <= s[i] <= 'z'
  {
    match k
    case Output => "output"
    case Progress => "progress"
    case Diagnostic => "diagnostic"
    case Action => "action"
    case Summary => "summary"
  }

  predicate Contains(s: string, part: string) {
    exists i :: 0 <= i <= |s| - |part| && StartsWith(s[i..], part)
  }

  /** What a line of build output is about. */
  function Classify(s: string): Kind {
    if s == [] then Output
    else if s[0] == '[' && Contains(s, "%]") then Progress
    else if Contains(s, "warning:") || Contains(s, "error:") then Diagnostic
    else if StartsWith(s, "action_") || StartsWith(s, "build_action ") || StartsWith(s, "schedule_action ")
         || StartsWith(s, "cache_action ") || StartsWith(s, "daemon_server ") || StartsWith(s, "daemon_watcher ")
         || StartsWith(s, "plan_cache ") || StartsWith(s, "dirty_state_db ") || StartsWith(s, "deps_db ") then Action
    else if StartsWith(s, "qstar build ") || StartsWith(s, "backend ") || StartsWith(s, "root ")
         || StartsWith(s, "status ") || StartsWith(s, "run=") then Summary
    else Output
  }

  lemma ContainsIs(s: string, part: string)
    ensures Contains(s, part) <==> exists a: string, b: string :: s == a + part + b
  {
    if Contains(s, part) {
      var i :| 0 <= i <= |s| - |part| && StartsWith(s[i..], part);
      assert s == s[..i] + part + s[i..][|part|..];
    }
    if a: string, b: string :| s == a + part + b {
      assert s[|a|..] == part + b;
      assert StartsWith(s[|a|..], part);
    }
  }

  /** A line is progress if it begins with a bracket and holds a closed percentage, and else a diagnostic if it holds
      a warning or an error. */
  lemma ClassifiedAre(s: string)
    ensures Classify(s) == Progress <==> s != [] && s[0] == '[' && exists a: string, b: string :: s == a + "%]" + b
    ensures Classify(s) == Diagnostic <==>
              && Classify(s) != Progress
              && exists a: string, b: string :: s == a + "warning:" + b || s == a + "error:" + b
  {
    hide Contains, StartsWith;
    ContainsIs(s, "%]");
    ContainsIs(s, "warning:");
    ContainsIs(s, "error:");
  }

  function EventHeader(k: Kind, len: nat): string {
    "event " + Name(k) + " " + Decimal(len)
  }

  function FinalHeader(status: nat): string {
    "final " + Decimal(status)
  }

  datatype Header = Final(status: int) | Event(name: string, len: nat) | Invalid

  /** How the client reads a header line. */
  function ParseHeader(line: string): Header {
    if StartsWith(line, "final") && Signed(line[5..]).Some? then Final(Signed(line[5..]).value)
    else if !StartsWith(line, "event") then Invalid
    else
      var (name, rest) := Word(SkipSpaces(line[5..]), WORD_LIMIT);
      if name == [] || Signed(rest).None? then Invalid
      else
        var n := Signed(rest).value;
        var len := if n >= 0 then n else if ULONG_RANGE + n <= 0 then ULONG_RANGE - 1 else ULONG_RANGE + n;
        if len > MAX_EVENT then Invalid else Event(name, len)
  }

  lemma SignedReadsBack(n: nat)
    ensures Signed(" " + Decimal(n)) == Some(n)
  {
    hide Decimal;
    var s := " " + Decimal(n);
    assert s[1..] == Decimal(n);
    assert IsDigit(Decimal(n)[0]);
    assert SkipSpaces(s) == Decimal(n);
    assert Decimal(n) + [] == Decimal(n);
    DecimalReadsBack(n, []);
  }

  /** A sign in front of the digits counts. */
  lemma SignReadsBack(n: nat)
    ensures Signed("-" + Decimal(n)).Some? && Signed("-" + Decimal(n)).value + n == 0
    ensures Signed("+" + Decimal(n)) == Some(n)
  {
    hide Decimal;
    assert IsDigit(Decimal(n)[0]);
    assert ("-" + Decimal(n))[1..] == Decimal(n) && ("+" + Decimal(n))[1..] == Decimal(n);
    assert Decimal(n) + [] == Decimal(n);
    DecimalReadsBack(n, []);
  }

  lemma {:induction false} WordReadsBack(name: string, rest: string, limit: nat)
    requires |name| <= limit && forall i :: 0 <= i < |name| ==> !IsSpace(name[i])
    requires rest != [] && IsSpace(rest[0])
    ensures Word(name + rest, limit) == (name, rest)
  {
    if name == [] {
      assert name + rest == rest;
    } else {
      assert (name + rest)[1..] == name[1..] + rest;
      WordReadsBack(name[1..], rest, limit - 1);
      assert [name[0]] + name[1..] == name;
    }
  }

  lemma SpaceIsSkipped(s: string)
    ensures Signed(" " + s) == Signed(s)
  {
    assert (" " + s)[1..] == s;
  }

  lemma EventHeaderReadsBack(k: Kind, len: nat)
    requires len <= MAX_EVENT
    ensures ParseHeader(EventHeader(k, len)) == Event(Name(k), len)
  {
    hide Decimal, Name, Number, Signed;
    var line := EventHeader(k, len);
    var tail := " " + Decimal(len);
    assert line[..5] == "event" && line[5..] == " " + (Name(k) + tail);
    assert line[0] == 'e';
    assert !StartsWith(line, "final") by { assert "final"[0] == 'f'; }
    assert (" " + (Name(k) + tail))[1..] == Name(k) + tail;
    assert SkipSpaces(line[5..]) == Name(k) + tail;
    WordReadsBack(Name(k), tail, WORD_LIMIT);
    SignedReadsBack(len);
  }

  /** A negative length is read as scanf reads it, wrapped round, and so refused unless it is close to a whole word. */
  lemma NegativeLength(name: string, n: nat)
    requires 0 < n && 0 < |name| <= WORD_LIMIT && forall i :: 0 <= i < |name| ==> !IsSpace(name[i])
    ensures var line := "event " + name + " -" + Decimal(n);
            ParseHeader(line) == if 0 < ULONG_RANGE - n <= MAX_EVENT then Event(name, ULONG_RANGE - n) else Invalid
  {
    hide Decimal, Number, Signed;
    var tail := " " + ("-" + Decimal(n));
    var line := "event " + name + " -" + Decimal(n);
    assert line[..5] == "event" && line[5..] == " " + (name + tail);
    assert line[0] == 'e';
    assert !StartsWith(line, "final") by { assert "final"[0] == 'f'; }
    assert (" " + (name + tail))[1..] == name + tail;
    assert SkipSpaces(line[5..]) == name + tail by { assert (name + tail)[0] == name[0]; }
    WordReadsBack(name, tail, WORD_LIMIT);
    SignReadsBack(n);
    SpaceIsSkipped("-" + Decimal(n));
  }

  lemma FinalHeaderReadsBack(status: nat)
    ensures ParseHeader(FinalHeader(status)) == Final(status)
  {
    hide Decimal, Number, Signed;
    var line := FinalHeader(status);
    assert line[..5] == "final" && line[5..] == " " + Decimal(status);
    SignedReadsBack(status);
  }

  // ---- lines ------------------------------------------------------------------------------------

  /** One line without its newline and carriage returns; nothing when the stream ends first or it is too long. */
  function ReadLine(s: string, sofar: string): (r: Option<(string, string)>)
    ensures r.Some? ==> |r.value.1| < |s|
    decreases |s|
  {
    if s == [] then None
    else if s[0] == '\n' then Some((sofar, s[1..]))
    else if s[0] == '\r' then ReadLine(s[1..], sofar)
    else if |sofar| + 1 >= HEADER_BUF then None
    else ReadLine(s[1..], sofar + [s[0]])
  }

  predicate Printable(s: string) {
    forall i :: 0 <= i < |s| ==> s[i] != '\n' && s[i] != '\r'
  }

  lemma {:induction false} LineReadsBack(line: string, sofar: string, rest: string)
    requires Printable(line) && |sofar| + |line| < HEADER_BUF
    ensures ReadLine(line + ['\n'] + rest, sofar) == Some((sofar + line, rest))
    decreases |line|
  {
    var s := line + ['\n'] + rest;
    if line == [] {
      assert s[0] == '\n' && s[1..] == rest && sofar + line == sofar;
    } else {
      assert s[0] == line[0] && s[1..] == line[1..] + ['\n'] + rest;
      LineReadsBack(line[1..], sofar + [line[0]], rest);
      assert sofar + [line[0]] + line[1..] == sofar + line;
    }
  }

  lemma {:induction false} CutLineFails(s: string, sofar: string)
    requires forall i :: 0 <= i < |s| ==> s[i] != '\n'
    ensures ReadLine(s, sofar) == None
    decreases |s|
  {
    if s != [] {
      CutLineFails(s[1..], sofar);
      CutLineFails(s[1..], sofar + [s[0]]);
    }
  }

  function PowerOfTen(k: nat): (r: nat)
    ensures r > 0
  {
    if k == 0 then 1 else 10 * PowerOfTen(k - 1)
  }

  lemma {:induction false} DecimalLength(n: nat, k: nat)
    requires k > 0 && n < PowerOfTen(k)
    ensures |Decimal(n)| <= k
  {
    if n >= 10 {
      assert PowerOfTen(k) == 10 * PowerOfTen(k - 1);
      assert PowerOfTen(0) == 1 && PowerOfTen(1) == 10;
      DecimalLength(n / 10, k - 1);
    }
  }

  lemma DecimalShort(n: nat)
    requires n <= MAX_EVENT
    ensures |Decimal(n)| <= 8
  {
    assert PowerOfTen(2) == 100;
    assert PowerOfTen(4) == 10_000;
    assert PowerOfTen(6) == 1_000_000;
    assert PowerOfTen(8) == 100_000_000;
    DecimalLength(n, 8);
  }

  // ---- frames -------------------------------------------------------------------------------------

  function Frame(piece: string): string {
    EventHeader(Classify(piece), |piece|) + ['\n'] + piece
  }

  function Wire(pieces: seq<string>): string {
    if pieces == [] then [] else Frame(pieces[0]) + Wire(pieces[1..])
  }

  function Joined(pieces: seq<string>): string {
    if pieces == [] then [] else pieces[0] + Joined(pieces[1..])
  }

  predicate Pieces(pieces: seq<string>) {
    forall i :: 0 <= i < |pieces| ==> 0 < |pieces[i]| < LINE_BUF
  }

  datatype Ending = Done(status: int) | Interrupted | BadFrame | Truncated

  /** What the client prints of the stream, and how it ends. */
  function Read(s: string): (string, Ending)
    decreases |s|
  {
    var line := ReadLine(s, []);
    if line.None? then ([], Interrupted)
    else
      var rest := line.value.1;
      match ParseHeader(line.value.0)
      case Final(status) => ([], Done(status))
      case Invalid => ([], BadFrame)
      case Event(_, len) =>
        if |rest| < len then (rest[..|rest| - |rest| % CHUNK], Truncated)
        else
          var (more, ending) := Read(rest[len..]);
          (rest[..len] + more, ending)
  }

  lemma HeaderIsALine(k: Kind, len: nat)
    requires len <= MAX_EVENT
    ensures Printable(EventHeader(k, len)) && |EventHeader(k, len)| < HEADER_BUF
  {
    hide Name, Decimal;
    DecimalShort(len);
    var s := EventHeader(k, len);
    forall i | 0 <= i < |s| ensures s[i] != '\n' && s[i] != '\r' {
      if i >= 6 + |Name(k)| + 1 {
        assert s[i] == Decimal(len)[i - 7 - |Name(k)|];
      } else if 6 <= i < 6 + |Name(k)| {
        assert s[i] == Name(k)[i - 6];
      }
    }
  }

  lemma FrameReads(piece: string, rest: string)
    requires |piece| < LINE_BUF
    ensures Read(Frame(piece) + rest) == (piece + Read(rest).0, Read(rest).1)
  {
    hide EventHeader, ParseHeader, Classify;
    var header := EventHeader(Classify(piece), |piece|);
    HeaderIsALine(Classify(piece), |piece|);
    EventHeaderReadsBack(Classify(piece), |piece|);
    LineReadsBack(header, [], piece + rest);
    assert Frame(piece) + rest == header + ['\n'] + (piece + rest);
    assert [] + header == header;
    assert (piece + rest)[..|piece|] == piece && (piece + rest)[|piece|..] == rest;
  }

  lemma FinalReads(status: nat)
    requires status < 1000
    ensures Read(FinalHeader(status) + ['\n']) == ([], Done(status))
  {
    hide ParseHeader;
    var line := FinalHeader(status);
    FinalIsALine(status);
    FinalHeaderReadsBack(status);
    LineReadsBack(line, [], []);
    assert line + ['\n'] + [] == line + ['\n'] && [] + line == line;
  }

  lemma FinalIsALine(status: nat)
    requires status < 1000
    ensures Printable(FinalHeader(status)) && |FinalHeader(status)| < HEADER_BUF
  {
    hide Decimal;
    DecimalShort(status);
    var s := FinalHeader(status);
    forall i | 0 <= i < |s| ensures s[i] != '\n' && s[i] != '\r' {
      if i >= 6 {
        assert s[i] == Decimal(status)[i - 6];
      }
    }
  }

  function Session(pieces: seq<string>, status: nat): string {
    Wire(pieces) + (FinalHeader(status) + ['\n'])
  }

  /** The client prints exactly what the build wrote, and ends with its status. */
  lemma {:induction false} SessionReadsBack(pieces: seq<string>, status: nat)
    requires Pieces(pieces) && status < 1000
    ensures Read(Session(pieces, status)) == (Joined(pieces), Done(status))
    decreases |pieces|
  {
    hide Read, FinalHeader, Frame;
    var end := FinalHeader(status) + ['\n'];
    if pieces == [] {
      FinalReads(status);
      assert Wire(pieces) + end == end;
    } else {
      FrameReads(pieces[0], Session(pieces[1..], status));
      assert Session(pieces, status) == Frame(pieces[0]) + Session(pieces[1..], status);
      SessionReadsBack(pieces[1..], status);
    }
  }

  lemma CutFrame(piece: string, n: nat)
    requires |piece| < LINE_BUF && n < |Frame(piece)|
    ensures !Read(Frame(piece)[..n]).1.Done? && Read(Frame(piece)[..n]).0 == []
  {
    hide EventHeader, ParseHeader, Classify;
    var header := EventHeader(Classify(piece), |piece|);
    HeaderIsALine(Classify(piece), |piece|);
    EventHeaderReadsBack(Classify(piece), |piece|);
    var s := Frame(piece)[..n];
    if n <= |header| {
      assert s == header[..n];
      CutLineFails(s, []);
    } else {
      var part := piece[..n - |header| - 1];
      assert s == header + ['\n'] + part;
      LineReadsBack(header, [], part);
      assert [] + header == header;
    }
  }

  lemma CutFinal(status: nat, n: nat)
    requires status < 1000 && n < |FinalHeader(status) + ['\n']|
    ensures Read((FinalHeader(status) + ['\n'])[..n]) == ([], Interrupted)
  {
    FinalIsALine(status);
    var s := (FinalHeader(status) + ['\n'])[..n];
    assert s == FinalHeader(status)[..n];
    CutLineFails(s, []);
  }

  /** A stream cut anywhere never ends with a status, and what was printed is the beginning of the output. */
  lemma {:induction false} CutSessionIsNoticed(pieces: seq<string>, status: nat, n: nat)
    requires Pieces(pieces) && status < 1000 && n < |Session(pieces, status)|
    ensures !Read(Session(pieces, status)[..n]).1.Done?
    ensures Read(Session(pieces, status)[..n]).0 <= Joined(pieces)
    decreases |pieces|
  {
    hide Read, FinalHeader, Frame;
    var end := FinalHeader(status) + ['\n'];
    if pieces == [] {
      assert Wire(pieces) + end == end;
      CutFinal(status, n);
    } else {
      var first, later := Frame(pieces[0]), Session(pieces[1..], status);
      assert Session(pieces, status) == first + later;
      if n < |first| {
        assert (first + later)[..n] == first[..n];
        CutFrame(pieces[0], n);
      } else {
        var m := n - |first|;
        assert (first + later)[..n] == first + later[..m];
        FrameReads(pieces[0], later[..m]);
        CutSessionIsNoticed(pieces[1..], status, m);
      }
    }
  }

  // ---- the daemon's side ------------------------------------------------------------------------------

  lemma {:induction false} WireGrows(pieces: seq<string>, piece: string)
    ensures Wire(pieces + [piece]) == Wire(pieces) + Frame(piece)
    ensures Joined(pieces + [piece]) == Joined(pieces) + piece
    decreases |pieces|
  {
    hide Frame;
    if pieces == [] {
      assert pieces + [piece] == [piece] && [piece][1..] == [];
      assert Frame(piece) + [] == Frame(piece) && piece + [] == piece;
    } else {
      assert (pieces + [piece])[1..] == pieces[1..] + [piece];
      WireGrows(pieces[1..], piece);
      assert Frame(pieces[0]) + (Wire(pieces[1..]) + Frame(piece)) == (Frame(pieces[0]) + Wire(pieces[1..])) + Frame(piece);
      assert pieces[0] + (Joined(pieces[1..]) + piece) == (pieces[0] + Joined(pieces[1..])) + piece;
    }
  }

  class EventWriter {
    var wire: string
    var line: array<char>
    var lineLen: nat
    ghost var pieces: seq<string>

    /** The wire holds the frames of `pieces`; the line buffer holds what came after them. */
    ghost predicate Valid()
      reads this, line
    {
      && line.Length == LINE_BUF && lineLen < LINE_BUF
      && Pieces(pieces) && wire == Wire(pieces)
    }

    /** All bytes taken so far. */
    ghost function Taken(): string
      requires Valid()
      reads this, line
    {
      Joined(pieces) + line[..lineLen]
    }

    constructor ()
      ensures Valid() && Taken() == [] && fresh(line)
    {
      wire, pieces, lineLen := [], [], 0;
      line := new char[LINE_BUF];
    }

    /** Sends the buffered line as one frame. */
    method FlushLine()
      requires Valid()
      modifies this`wire, this`lineLen, this`pieces
      ensures Valid() && Taken() == old(Taken()) && lineLen == 0
    {
      hide Frame, Classify;
      if lineLen == 0 {
        return;
      }
      var payload := line[..lineLen];
      WireGrows(pieces, payload);
      SendFrame(payload);
      pieces := pieces + [payload];
      lineLen := 0;
      assert line[..0] == [];
    }

    method SendFrame(payload: string)
      modifies this`wire
      ensures wire == old(wire) + Frame(payload)
    {
      hide Classify, Decimal, Name;
      var header := "event " + Name(Classify(payload)) + " " + Decimal(|payload|);
      wire := wire + header + "\n";
      if |payload| > 0 {
        wire := wire + payload;
      }
    }

    /** One more byte; a frame ends at a newline or when the buffer is full. */
    method WriteByte(c: char)
      requires Valid()
      modifies this, line
      ensures Valid() && line == old(line) && Taken() == old(Taken()) + [c]
    {
      hide Wire, Joined;
      if lineLen + 1 >= LINE_BUF {
        FlushLine();
      }
      ghost var was := line[..lineLen];
      line[lineLen] := c;
      lineLen := lineLen + 1;
      assert line[..lineLen] == was + [c];
      assert Joined(pieces) + (was + [c]) == (Joined(pieces) + was) + [c];
      if c == '\n' {
        FlushLine();
      }
    }

    /** Takes output in chunks of any size. */
    method WriteBytes(buf: string)
      requires Valid()
      modifies this, line
      ensures Valid() && line == old(line) && Taken() == old(Taken()) + buf
    {
      hide Wire, Joined;
      for i := 0 to |buf|
        invariant Valid() && line == old(line) && Taken() == old(Taken()) + buf[..i]
      {
        WriteByte(buf[i]);
        assert buf[..i + 1] == buf[..i] + [buf[i]];
      }
    }

    /** The last partial line, then the final status. */
    method Finish(status: nat)
      requires Valid()
      modifies this`wire, this`lineLen, this`pieces
      ensures Pieces(pieces) && wire == Session(pieces, status) && Joined(pieces) == old(Taken())
    {
      FlushLine();
      assert line[..0] == [] && Joined(pieces) + [] == Joined(pieces);
      wire := wire + ("final " + Decimal(status) + "\n");
    }
  }

  // ---- the client's side ------------------------------------------------------------------------------

  class StreamReader {
    const wire: string
    var pos: nat
    var printed: string

    ghost predicate Valid()
      reads this
    {
      pos <= |wire|
    }

    constructor (wire: string)
      ensures Valid() && this.wire == wire && pos == 0 && printed == []
    {
      this.wire, pos, printed := wire, 0, [];
    }

    /** Reads a line byte by byte into a buffer of 256. */
    method NextLine() returns (ok: bool, line: string)
      requires Valid()
      modifies this`pos
      ensures Valid() && ok == ReadLine(wire[old(pos)..], []).Some?
      ensures ok ==> ReadLine(wire[old(pos)..], []) == Some((line, wire[pos..])) && pos > old(pos)
    {
      line := [];
      while pos < |wire|
        invariant Valid() && pos >= old(pos)
        invariant ReadLine(wire[old(pos)..], []) == ReadLine(wire[pos..], line)
      {
        var c := wire[pos];
        assert wire[pos..][0] == c && wire[pos..][1..] == wire[pos + 1..];
        pos := pos + 1;
        if c == '\n' {
          return true, line;
        }
        if c == '\r' {
          continue;
        }
        if |line| + 1 >= HEADER_BUF {
          return false, line;
        }
        line := line + [c];
      }
      ok := false;
    }

    /** Copies a frame's body to the output, at most 8192 bytes at a time. */
    method CopyBody(len: nat) returns (ok: bool)
      requires Valid()
      modifies this
      ensures Valid() && ok == (|wire| - old(pos) >= len)
      ensures ok ==> pos == old(pos) + len && printed == old(printed) + wire[old(pos)..old(pos) + len]
      ensures !ok ==> printed == old(printed) + wire[old(pos)..|wire| - (|wire| - old(pos)) % CHUNK]
    {
      var left := len;
      while left > 0
        invariant Valid() && 0 <= left <= len && pos == old(pos) + (len - left)
        invariant left > 0 ==> (len - left) % CHUNK == 0
        invariant printed == old(printed) + wire[old(pos)..pos]
      {
        var chunk := if left > CHUNK then CHUNK else left;
        if |wire| - pos < chunk {
          WholeChunks(pos - old(pos), |wire| - pos);
          return false;
        }
        printed := printed + wire[pos..pos + chunk];
        assert wire[old(pos)..pos + chunk] == wire[old(pos)..pos] + wire[pos..pos + chunk];
        pos := pos + chunk;
        left := left - chunk;
      }
      ok := true;
    }

    /** Renders frames until the final status or the first fault. */
    method Render() returns (ending: Ending)
      requires Valid()
      modifies this
      ensures (printed, ending) == (old(printed) + Read(wire[old(pos)..]).0, Read(wire[old(pos)..]).1)
    {
      hide ParseHeader, ReadLine, Read;
      ghost var start := pos;
      while true
        invariant Valid()
        invariant old(printed) + Read(wire[start..]).0 == printed + Read(wire[pos..]).0
        invariant Read(wire[start..]).1 == Read(wire[pos..]).1
        decreases |wire| - pos
      {
        ghost var s, before := wire[pos..], printed;
        var ok, line := NextLine();
        assert printed + [] == printed;
        StreamEnds(s);
        if !ok {
          return Interrupted;
        }
        match ParseHeader(line) {
          case Final(status) =>
            return Done(status);
          case Invalid =>
            return BadFrame;
          case Event(_, len) =>
            ghost var at := pos;
            FrameStep(wire, at, line, s, len);
            ok := CopyBody(len);
            if !ok {
              return Truncated;
            }
            assert before + (wire[at..pos] + Read(wire[pos..]).0) == printed + Read(wire[pos..]).0;
        }
      }
    }
  }

  /** Where no further frame is read. */
  lemma StreamEnds(s: string)
    ensures ReadLine(s, []).None? ==> Read(s) == ([], Interrupted)
    ensures ReadLine(s, []).Some? ==>
              var header := ParseHeader(ReadLine(s, []).value.0);
              && (header.Final? ==> Read(s) == ([], Done(header.status)))
              && (header.Invalid? ==> Read(s) == ([], BadFrame))
  {
    hide ParseHeader, ReadLine;
  }

  /** One frame, and what follows it on the wire. */
  lemma FrameStep(wire: string, at: nat, line: string, s: string, len: nat)
    requires at <= |wire| && ReadLine(s, []) == Some((line, wire[at..]))
    requires ParseHeader(line).Event? && ParseHeader(line).len == len
    ensures |wire| - at < len ==> Read(s) == (wire[at..|wire| - (|wire| - at) % CHUNK], Truncated)
    ensures |wire| - at >= len ==> Read(s) == (wire[at..at + len] + Read(wire[at + len..]).0, Read(wire[at + len..]).1)
  {
    hide ParseHeader, ReadLine;
    SliceOfTail(wire, at, |wire| - (|wire| - at) % CHUNK);
    if |wire| - at >= len {
      assert wire[at..][..len] == wire[at..at + len] && wire[at..][len..] == wire[at + len..];
    }
  }

  lemma SliceOfTail(s: string, from: nat, to: nat)
    requires from <= to <= |s|
    ensures s[from..][..to - from] == s[from..to]
  {
  }

  /** A short rest after whole chunks is the remainder. */
  lemma WholeChunks(done: nat, left: nat)
    requires done % CHUNK == 0 && left < CHUNK
    ensures (done + left) % CHUNK == left
  {
  }
}
