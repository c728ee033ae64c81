/**
 * The static command table of the control panel (COMMAND_MAP) and the two
 * string operations the dispatcher applies to a command: Python's
 * `str.strip()` for the log line and `str.encode('ascii')` for the wire.
 */
module Commands {
  import opened Wrappers
  import Utf8

  /** The start and stop command strings of one mode. */
  datatype CommandPair = CommandPair(start: string, stop: string)

  /** One key of the table with its command pair. */
  datatype Entry = Entry(mode: string, commands: CommandPair)

  /** COMMAND_MAP, as an ordered list of entries: a Python dict keeps its keys
      in insertion order, and the mode menu lists them in that order. */
  const CommandMap: seq<Entry> := [
    Entry("Xirgo_GPS", CommandPair("!yde\r\n", "!ydd\r\n")),
    Entry("Xirgo_GSM", CommandPair("!gde\r\n", "!gdd\r\n")),
    Entry("Xirgo_VBUS", CommandPair("!vde\r\n", "!vdd\r\n"))
  ]

  /** The mode that is selected when the panel starts. */
  const DefaultMode := "Xirgo_GPS"

  /** The keys of a table, in order (`list(COMMAND_MAP.keys())`). */
  function Modes(table: seq<Entry>): (ms: seq<string>)
    ensures |ms| == |table|
    ensures forall i :: 0 <= i < |table| ==> ms[i] == table[i].mode
  {
    if table == [] then [] else [table[0].mode] + Modes(table[1..])
  }

  /** The modes of the panel's table, in menu order. */
  function ModeNames(): seq<string> { Modes(CommandMap) }

  /** No key appears twice, as in any dict. */
  predicate Distinct(ms: seq<string>) {
    forall i, j :: 0 <= i < j < |ms| ==> ms[i] != ms[j]
  }

  /** `table[mode]`, or None where Python would raise KeyError. */
  function Lookup(table: seq<Entry>, mode: string): (r: Option<CommandPair>)
    ensures r.Some? <==> mode in Modes(table)
    ensures r.Some? ==> Entry(mode, r.value) in table
  {
    if table == [] then None
    else if table[0].mode == mode then Some(table[0].commands)
    else Lookup(table[1..], mode)
  }

  /** A device command: '!', lower-case letters, then the CR LF terminator. */
  predicate IsCommand(c: string) {
    && |c| >= 3
    && c[0] == '!'
    && c[|c| - 2..] == "\r\n"
    && forall k :: 1 <= k < |c| - 2 ==> 'a' <= c[k] <= 'z'
  }

  /** The table is a proper dict of modes, in menu order, each with a start
      and a stop command that are well-formed and differ. */
  lemma CommandMapWellFormed()
    ensures ModeNames() == ["Xirgo_GPS", "Xirgo_GSM", "Xirgo_VBUS"]
    ensures Distinct(ModeNames())
    ensures DefaultMode in ModeNames()
    ensures forall e :: e in CommandMap ==>
      IsCommand(e.commands.start) && IsCommand(e.commands.stop) && e.commands.start != e.commands.stop
  {
    ModeNamesInOrder();
    CommandsWellFormed();
  }

  /** The menu lists the three modes in the table's order. */
  lemma ModeNamesInOrder()
    ensures ModeNames() == ["Xirgo_GPS", "Xirgo_GSM", "Xirgo_VBUS"]
  {
    assert CommandMap[1..][1..][1..] == [];
  }

  /** Every command of the table is well-formed, and no mode's start equals its stop. */
  lemma CommandsWellFormed()
    ensures forall e :: e in CommandMap ==>
      IsCommand(e.commands.start) && IsCommand(e.commands.stop) && e.commands.start != e.commands.stop
  {
    ThreeLetterCommand('y', 'd', 'e');
    ThreeLetterCommand('y', 'd', 'd');
    ThreeLetterCommand('g', 'd', 'e');
    ThreeLetterCommand('g', 'd', 'd');
    ThreeLetterCommand('v', 'd', 'e');
    ThreeLetterCommand('v', 'd', 'd');
  }

  /** '!', three lower-case letters and CR LF make a command. */
  lemma ThreeLetterCommand(x: char, y: char, z: char)
    requires 'a' <= x <= 'z' && 'a' <= y <= 'z' && 'a' <= z <= 'z'
    ensures IsCommand(['!', x, y, z, '\r', '\n'])
  {
    var c := ['!', x, y, z, '\r', '\n'];
    assert c[4..] == "\r\n";
  }

  /** Looking a mode of the panel up always succeeds and yields well-formed commands. */
  lemma LookupModeName(mode: string)
    requires mode in ModeNames()
    ensures Lookup(CommandMap, mode).Some?
    ensures IsCommand(Lookup(CommandMap, mode).value.start)
    ensures IsCommand(Lookup(CommandMap, mode).value.stop)
  {
    CommandMapWellFormed();
  }

  /** The characters Python's `str.isspace()` accepts, which `str.strip()` removes. */
  predicate IsSpace(c: char)
    ensures ' ' <= c <= '~' ==> (IsSpace(c) <==> c == ' ')
    ensures c == '\t' || c == '\n' || c == '\r' ==> IsSpace(c)
  {
    var x := c as int;
    || 0x09 <= x <= 0x0D || 0x1C <= x <= 0x20 || x == 0x85 || x == 0xA0 || x == 0x1680
    || 0x2000 <= x <= 0x200A || x == 0x2028 || x == 0x2029 || x == 0x202F || x == 0x205F
    || x == 0x3000
  }

  /** The length of the run of whitespace `s` starts with. */
  function LeadingSpace(s: string): (n: nat)
    ensures n <= |s|
    ensures forall k :: 0 <= k < n ==> IsSpace(s[k])
    ensures n < |s| ==> !IsSpace(s[n])
  {
    if s != [] && IsSpace(s[0]) then 1 + LeadingSpace(s[1..]) else 0
  }

  /** The length of `s` without the run of whitespace it ends with. */
  function TextEnd(s: string): (n: nat)
    ensures n <= |s|
    ensures forall k :: n <= k < |s| ==> IsSpace(s[k])
    ensures 0 < n ==> !IsSpace(s[n - 1])
  {
    if s != [] && IsSpace(s[|s| - 1]) then TextEnd(s[..|s| - 1]) else |s|
  }

  /** Python's `s.strip()`: `s` without its leading and trailing whitespace. */
  function Strip(s: string): (r: string)
    ensures LeadingSpace(s) + |r| <= |s|
    ensures r == s[LeadingSpace(s)..LeadingSpace(s) + |r|]
    ensures forall k :: LeadingSpace(s) + |r| <= k < |s| ==> IsSpace(s[k])
    ensures r == [] || (!IsSpace(r[0]) && !IsSpace(r[|r| - 1]))
  {
    var t := s[LeadingSpace(s)..];
    t[..TextEnd(t)]
  }

  /** Stripping a command removes exactly its CR LF terminator. */
  lemma StripCommand(c: string)
    requires IsCommand(c)
    ensures Strip(c) == c[..|c| - 2]
  {
    assert !IsSpace(c[0]) && LeadingSpace(c) == 0;
    assert c[LeadingSpace(c)..] == c;
    var body := c[..|c| - 2];
    assert c[..|c| - 1][..|c| - 2] == body;
    assert !IsSpace(body[|body| - 1]);
    assert TextEnd(body) == |body|;
  }

  /** Every character of `s` is 7-bit ASCII. */
  predicate IsAscii(s: string) {
    forall k :: 0 <= k < |s| ==> s[k] as int < 0x80
  }

  /** Python's `s.encode('ascii')`: one octet per character, or None where
      Python raises UnicodeEncodeError. */
  function EncodeAscii(s: string): (r: Option<seq<Utf8.byte>>)
    ensures r.Some? <==> IsAscii(s)
    ensures r.Some? ==> |r.value| == |s| && forall k :: 0 <= k < |s| ==> r.value[k] as int == s[k] as int
  {
    if IsAscii(s) then Some(seq(|s|, k requires 0 <= k < |s| => s[k] as int as Utf8.byte)) else None
  }

  /** A command is ASCII, so its `encode('ascii')` at main_ui.py:183 cannot
      raise. The second clause describes the receiving side, not the panel:
      the octets written are also the command's UTF-8 encoding, so a UTF-8
      reader on the device recovers the command exactly. */
  lemma CommandEncodesAsUtf8(c: string)
    requires IsCommand(c)
    ensures IsAscii(c)
    ensures Utf8.Decode(EncodeAscii(c).value) == Some(c)
  {
    assert IsAscii(c) by {
      forall k | 0 <= k < |c| ensures c[k] as int < 0x80 {
        if k >= |c| - 2 {
          assert c[k] == c[|c| - 2..][k - (|c| - 2)];
        }
      }
    }
    var b := EncodeAscii(c).value;
    Utf8.AsciiDecodesVerbatim(b);
    var t := Utf8.Decode(b).value;
    assert |t| == |c|;
    assert forall k :: 0 <= k < |c| ==> t[k] == c[k];
    assert t == c;
  }
}
