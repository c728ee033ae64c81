/**
 * The standalone capture script (python_serial_logger_script.py): open the
 * port once, poll it, decode each chunk as UTF-8 and append it to a log file
 * opened in append mode, skipping undecodable chunks with a warning; on exit,
 * close the port if it is still open.
 *
 * The polls are given as the finite sequence of chunks `read_all()`
 * returned before the loop ended (by Ctrl+C or by a SerialException from a
 * read); the file is its text, and the console warnings are counted.
 */
module Capture {
  import opened Wrappers
  import opened Utf8

  const SerialPort := "/dev/ttyS0"
  const BaudRate := 115200
  const ReadTimeout := 1
  const LogDir := "/home/pi/serial_logs"
  const LogFilePrefix := "serial_data_"

  /** `os.path.join(a, b)` on POSIX, for two components: an absolute `b`
      replaces `a`; otherwise a '/' is inserted unless `a` is empty or already
      ends with one. */
  function PathJoin(a: string, b: string): (p: string)
    ensures |b| <= |p| && p[|p| - |b|..] == b
  {
    if |b| > 0 && b[0] == '/' then b
    else if a == [] || a[|a| - 1] == '/' then a + b
    else a + "/" + b
  }

  /** The name of the session's log file, for the `%Y%m%d_%H%M%S` timestamp:
      it lies directly in LogDir, and is named from the prefix, the timestamp
      and the `.log` extension. */
  function LogFileName(timestamp: string): (name: string)
    ensures name == LogDir + "/" + LogFilePrefix + timestamp + ".log"
  {
    var b := LogFilePrefix + timestamp + ".log";
    assert b[0] == 's';
    assert LogDir[|LogDir| - 1] == 's';
    PathJoin(LogDir, b)
  }

  /** Distinct timestamps give distinct files. */
  lemma LogFileNameInjective(t1: string, t2: string)
    requires LogFileName(t1) == LogFileName(t2)
    ensures t1 == t2
  {
    var head := LogDir + "/" + LogFilePrefix;
    var n1, n2 := LogFileName(t1), LogFileName(t2);
    assert n1 == head + t1 + ".log" && n2 == head + t2 + ".log";
    assert |t1| == |t2|;
    assert n1[|head|..|head| + |t1|] == t1;
    assert n2[|head|..|head| + |t2|] == t2;
  }

  /** How the loop decodes a chunk: the text, or None where Python raises
      UnicodeDecodeError. The script uses UTF-8 (`Utf8.Decode`); the loop's
      laws hold for any decoder. */
  type Decoder = seq<byte> -> Option<string>

  /** The text one chunk returned by `read_all()` adds to the log file:
      nothing for an empty read or a chunk that does not decode. */
  function TextOf(decode: Decoder, chunk: seq<byte>): (text: string)
    ensures chunk == [] || decode(chunk).None? ==> text == []
    ensures chunk != [] && decode(chunk).Some? ==> text == decode(chunk).value
  {
    if chunk == [] then []
    else match decode(chunk)
      case Some(text) => text
      case None => []
  }

  /** Whether the loop warns about a chunk: it is not empty and does not decode. */
  predicate Rejected(decode: Decoder, chunk: seq<byte>)
    ensures Rejected(decode, chunk) ==> TextOf(decode, chunk) == []
    ensures !Rejected(decode, chunk) && chunk != [] ==> TextOf(decode, chunk) == decode(chunk).value
  {
    chunk != [] && decode(chunk).None?
  }

  /** The text of the chunks that decode, concatenated in read order. */
  function Captured(decode: Decoder, chunks: seq<seq<byte>>): (text: string)
    ensures |chunks| == 1 ==> text == TextOf(decode, chunks[0])
    decreases |chunks|
  {
    if chunks == [] then []
    else Captured(decode, chunks[..|chunks| - 1]) + TextOf(decode, chunks[|chunks| - 1])
  }

  /** The number of chunks rejected with a warning. */
  function WarningCount(decode: Decoder, chunks: seq<seq<byte>>): (n: nat)
    ensures n <= |chunks|
    decreases |chunks|
  {
    if chunks == [] then 0
    else WarningCount(decode, chunks[..|chunks| - 1]) + (if Rejected(decode, chunks[|chunks| - 1]) then 1 else 0)
  }

  /** With UTF-8, what one chunk contributes: an empty read nothing, a chunk
      that decodes its text, whose encoding is the chunk itself, and no
      warning, any other chunk no text and one warning. */
  lemma ChunkEffect(chunk: seq<byte>)
    ensures chunk == [] ==> TextOf(Decode, chunk) == [] && !Rejected(Decode, chunk)
    ensures chunk != [] && WellFormed(chunk) ==>
      TextOf(Decode, chunk) != [] && Encode(TextOf(Decode, chunk)) == chunk && !Rejected(Decode, chunk)
    ensures chunk != [] && !WellFormed(chunk) ==> TextOf(Decode, chunk) == [] && Rejected(Decode, chunk)
  {
    if chunk != [] && WellFormed(chunk) {
      EncodeOfDecode(chunk);
    }
  }

  /** One more poll appends its chunk's text to the file and its warning, if
      any, to the count. */
  lemma OnePoll(decode: Decoder, chunks: seq<seq<byte>>, chunk: seq<byte>)
    ensures Captured(decode, chunks + [chunk]) == Captured(decode, chunks) + TextOf(decode, chunk)
    ensures WarningCount(decode, chunks + [chunk]) ==
      WarningCount(decode, chunks) + (if Rejected(decode, chunk) then 1 else 0)
  {
    assert (chunks + [chunk])[..|chunks|] == chunks;
  }

  /** The `i`-th poll of the loop, in the terms the loop body uses. */
  lemma LoopStep(decode: Decoder, existing: string, chunks: seq<seq<byte>>, i: nat)
    requires i < |chunks|
    ensures chunks[i] == [] ==>
      && Captured(decode, chunks[..i + 1]) == Captured(decode, chunks[..i])
      && WarningCount(decode, chunks[..i + 1]) == WarningCount(decode, chunks[..i])
    ensures chunks[i] != [] && decode(chunks[i]).Some? ==>
      && existing + Captured(decode, chunks[..i + 1]) == existing + Captured(decode, chunks[..i]) + decode(chunks[i]).value
      && WarningCount(decode, chunks[..i + 1]) == WarningCount(decode, chunks[..i])
    ensures chunks[i] != [] && decode(chunks[i]).None? ==>
      && Captured(decode, chunks[..i + 1]) == Captured(decode, chunks[..i])
      && WarningCount(decode, chunks[..i + 1]) == WarningCount(decode, chunks[..i]) + 1
  {
    assert chunks[..i + 1][..i] == chunks[..i];
  }

  /** The main loop: a poll at a time, append what decodes and flush, warn
      about what does not. The file only ever grows at its end. */
  method CaptureLoop(decode: Decoder, existing: string, chunks: seq<seq<byte>>) returns (file: string, warnings: nat)
    ensures file == existing + Captured(decode, chunks)
    ensures warnings == WarningCount(decode, chunks)
    ensures existing <= file
  {
    file, warnings := existing, 0;
    var i := 0;
    while i < |chunks|
      invariant 0 <= i <= |chunks|
      invariant file == existing + Captured(decode, chunks[..i])
      invariant warnings == WarningCount(decode, chunks[..i])
    {
      var rawData := chunks[i];
      LoopStep(decode, existing, chunks, i);
      if rawData != [] {
        match decode(rawData)
        case Some(dataLine) =>
          file := file + dataLine;
        case None =>
          warnings := warnings + 1;
      }
      i := i + 1;
    }
    assert chunks[..|chunks|] == chunks;
  }

  /** Polls compose: the file after two runs of polls is the file after the
      first followed by the text of the second. */
  lemma {:induction false} CapturedConcat(decode: Decoder, a: seq<seq<byte>>, b: seq<seq<byte>>)
    ensures Captured(decode, a + b) == Captured(decode, a) + Captured(decode, b)
    decreases |b|
  {
    if b == [] {
      assert a + b == a;
    } else {
      var b', last := b[..|b| - 1], b[|b| - 1];
      CapturedConcat(decode, a, b');
      assert (a + b)[..|a + b| - 1] == a + b';
      assert (a + b)[|a + b| - 1] == last;
    }
  }

  /** The warnings of two runs of polls add up. */
  lemma {:induction false} WarningsConcat(decode: Decoder, a: seq<seq<byte>>, b: seq<seq<byte>>)
    ensures WarningCount(decode, a + b) == WarningCount(decode, a) + WarningCount(decode, b)
    decreases |b|
  {
    if b == [] {
      assert a + b == a;
    } else {
      var b', last := b[..|b| - 1], b[|b| - 1];
      WarningsConcat(decode, a, b');
      assert (a + b)[..|a + b| - 1] == a + b';
      assert (a + b)[|a + b| - 1] == last;
    }
  }

  /** Append mode: the file after some polls is a prefix of the file after
      any further polls. */
  lemma CapturedGrows(decode: Decoder, a: seq<seq<byte>>, b: seq<seq<byte>>)
    ensures Captured(decode, a) <= Captured(decode, a + b)
  {
    CapturedConcat(decode, a, b);
  }

  /** A malformed chunk never stops the capture: after it, the following
      chunks are captured exactly as if it had not been read, and it adds one
      warning. */
  lemma MalformedChunkSkipped(decode: Decoder, bad: seq<byte>, rest: seq<seq<byte>>)
    requires Rejected(decode, bad)
    ensures Captured(decode, [bad] + rest) == Captured(decode, rest)
    ensures WarningCount(decode, [bad] + rest) == WarningCount(decode, rest) + 1
  {
    CapturedConcat(decode, [bad], rest);
    WarningsConcat(decode, [bad], rest);
    OnePoll(decode, [], bad);
  }

  /** A chunk of octets 00-7F is logged verbatim, one character per octet. */
  lemma AsciiChunkLogged(chunk: seq<byte>)
    requires chunk != []
    requires forall i :: 0 <= i < |chunk| ==> chunk[i] <= 0x7F
    ensures !Rejected(Decode, chunk)
    ensures |TextOf(Decode, chunk)| == |chunk|
    ensures forall i :: 0 <= i < |chunk| ==> TextOf(Decode, chunk)[i] as int == chunk[i] as int
  {
    AsciiDecodesVerbatim(chunk);
  }

  /** The strings, concatenated in order. */
  function Concat(ts: seq<string>): string
    decreases |ts|
  {
    if ts == [] then [] else Concat(ts[..|ts| - 1]) + ts[|ts| - 1]
  }

  /** The UTF-8 encodings of the lines, one chunk per line. */
  function EncodeLines(lines: seq<string>): (chunks: seq<seq<byte>>)
    ensures |chunks| == |lines|
    decreases |lines|
  {
    if lines == [] then [] else EncodeLines(lines[..|lines| - 1]) + [Encode(lines[|lines| - 1])]
  }

  /** Lines sent one per chunk in UTF-8 are captured exactly and in order, without a warning. */
  lemma {:induction false} EncodedLinesCaptured(lines: seq<string>)
    ensures Captured(Decode, EncodeLines(lines)) == Concat(lines)
    ensures WarningCount(Decode, EncodeLines(lines)) == 0
    decreases |lines|
  {
    if lines != [] {
      var init, last := lines[..|lines| - 1], lines[|lines| - 1];
      EncodedLinesCaptured(init);
      OnePoll(Decode, EncodeLines(init), Encode(last));
      DecodeEncode(last);
    }
  }

  /** One malformed chunk followed by N lines gives exactly those N lines, in
      order, and one warning. */
  lemma MalformedThenLines(bad: seq<byte>, lines: seq<string>)
    requires bad != [] && !WellFormed(bad)
    ensures Captured(Decode, [bad] + EncodeLines(lines)) == Concat(lines)
    ensures WarningCount(Decode, [bad] + EncodeLines(lines)) == 1
  {
    MalformedChunkSkipped(Decode, bad, EncodeLines(lines));
    EncodedLinesCaptured(lines);
  }

  /** Noise between two chunks: the file gets the text of the first and of
      the last, and the rejected chunk in the middle one warning. */
  lemma NoiseBetweenChunks(decode: Decoder, one: seq<byte>, bad: seq<byte>, two: seq<byte>)
    requires Rejected(decode, bad)
    ensures Captured(decode, [one, bad, two]) == TextOf(decode, one) + TextOf(decode, two)
    ensures WarningCount(decode, [one, bad, two]) ==
      1 + (if Rejected(decode, one) then 1 else 0) + (if Rejected(decode, two) then 1 else 0)
  {
    OnePoll(decode, [], one);
    OnePoll(decode, [one], bad);
    OnePoll(decode, [one, bad], two);
    assert [] + [one] == [one] && [one] + [bad] == [one, bad] && [one, bad] + [two] == [one, bad, two];
  }

  /** A line sent as one chunk in UTF-8 is captured as exactly that line. */
  lemma EncodedLineText(line: string)
    ensures TextOf(Decode, Encode(line)) == line
    ensures !Rejected(Decode, Encode(line))
  {
    DecodeEncode(line);
  }

  /** A line, a malformed chunk (such as the single octet FF) and another
      line give the two lines and one warning. */
  lemma NoiseBetweenLines(line1: string, bad: seq<byte>, line2: string)
    requires bad != [] && !WellFormed(bad)
    ensures Captured(Decode, [Encode(line1), bad, Encode(line2)]) == line1 + line2
    ensures WarningCount(Decode, [Encode(line1), bad, Encode(line2)]) == 1
  {
    NoiseBetweenChunks(Decode, Encode(line1), bad, Encode(line2));
    EncodedLineText(line1);
    EncodedLineText(line2);
  }

  /** The octet FF starts no UTF-8 character. */
  lemma OctetFFMalformed()
    ensures !WellFormed([0xFF])
  {
  }

  /** What a run of the script leaves behind. */
  datatype Session = Session(fileName: string, file: string, warnings: nat, portClosed: bool)

  /** start_serial_logging. `portOpens` says whether `serial.Serial(...)`
      returns (otherwise it raises SerialException, which is caught before the
      log file is opened); `existing` is the log file's earlier content;
      `openAtExit` is `ser.is_open` when the `finally` block runs. */
  method StartSerialLogging(timestamp: string, existing: string, portOpens: bool,
                            chunks: seq<seq<byte>>, openAtExit: bool)
    returns (s: Session)
    ensures s.fileName == LogFileName(timestamp)
    ensures portOpens ==> s.file == existing + Captured(Decode, chunks) && s.warnings == WarningCount(Decode, chunks)
    ensures !portOpens ==> s.file == existing && s.warnings == 0
    ensures s.portClosed <==> portOpens && openAtExit
  {
    var logFilename := LogFileName(timestamp);
    var file, warnings := existing, 0;
    var serBound := false;
    if portOpens {
      serBound := true;
      file, warnings := CaptureLoop(Decode, existing, chunks);
    }
    var closed := false;
    if serBound && openAtExit {
      closed := true;
    }
    s := Session(logFilename, file, warnings, closed);
  }
}
