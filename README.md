# Xirgo serial control panel and capture script, in Dafny

This project models the two pieces of logic of a small Raspberry Pi tool
that drives a Xirgo tracking device over a serial line.

- **The control panel** (`main_ui.py`). A touch-screen window holds a
  selected mode (`Xirgo_GPS`, `Xirgo_GSM` or `Xirgo_VBUS`) and a running
  flag.
  - A MENU button opens a popup from which a mode is confirmed.
  - A START/STOP button flips the flag and dispatches the mode's start or
    stop command. The dispatch calls `serial.Serial` with `/dev/ttyUSB0`
    passed under the keyword `PORT_NAME=` (main_ui.py:180); the port trace
    records that value as the name given to the call.
  - The dispatch opens the port, writes the command as ASCII, logs it with
    its CR LF stripped and closes the port. An exception is logged, and a
    `SerialException` also clears the running flag.
- **The capture script** (`python_serial_logger_script.py`). It opens
  `/dev/ttyS0` and polls it with `read_all()`.
  - Every non-empty chunk that decodes as UTF-8 is appended to a timestamped
    log file opened in append mode.
  - A chunk that does not decode is skipped with a warning.
  - On exit, the port is closed if it is still open.

Files:

- `wrappers.dfy`: the `Option` type.
- `utf8.dfy`: the UTF-8 byte-sequence grammar of section 4 of RFC 3629.
  - It holds a decoder, the model of Python's strict `bytes.decode('utf-8')`, and an encoder.
  - Proved: decoding succeeds exactly on well-formed input, and the two round trips hold.
- `commands.dfy`:
  - `COMMAND_MAP` as an ordered list of entries (a Python dict keeps insertion order) and its lookup;
  - Python's `str.strip()` and `str.encode('ascii')`.
- `control_panel.dfy`: the panel's state as a value (`PanelState`), one pure function per handler, then the class `XirgoControlPanel`.
  - Each method of the class performs the source's steps on its fields.
  - Each method is proved to produce the state the matching function gives.
  - pyserial is abstract: a `PortBehaviour` says whether each of the dispatch's three port calls returns or raises, and with what.
- `capture.dfy`: the capture loop (a method with a `while` loop), the session around it and the log-file name.
  - The loop's laws are proved over any decoder, then specialised to UTF-8.
  - The chunks are the finite sequence `read_all()` returned before the loop ended.

The model keeps these behaviours of the code as written:

- START sets the running flag before the start command is dispatched, not after it succeeds (main_ui.py:146, 153).
- Only a `SerialException` clears the flag (main_ui.py:192-197). Any other exception is logged and leaves the panel "running" (main_ui.py:199-200).
- Confirming a mode does not check the running flag (main_ui.py:126-133); the only guard is when the menu opens (main_ui.py:102-104). A popup opened while idle can still change the mode after START (`ModeChangeWhileRunning`).
- A dispatch that fails after the port opened leaves the port open: `ser.close()` (main_ui.py:189) is reached only on the success path, and no `finally` closes it.
- STOP always leaves the panel idle, whatever the dispatch does (main_ui.py:157).

## Model

| member | source | states |
|---|---|---|
| Utf8.CodePoint | python_serial_logger_script.py:57 | a well-formed UTF-8 character decodes to a Unicode scalar value (never a surrogate), and its length is 1, 2, 3 or 4 exactly when that value is below 0x80, 0x800, 0x10000 or above |
| Utf8.LeadFixesLength | python_serial_logger_script.py:57 | the lead octet of a UTF-8 character determines its length |
| Utf8.EncodeCodePoint | python_serial_logger_script.py:57 | every scalar value has a well-formed UTF-8 encoding that decodes back to it |
| Utf8.EncodeChar | python_serial_logger_script.py:57 | every character has a well-formed UTF-8 encoding that decodes back to it |
| Utf8.CodePointInjective | python_serial_logger_script.py:57 | two UTF-8 characters with the same code point are the same octets (no overlong forms) |
| Utf8.EncodeDecodeChar | python_serial_logger_script.py:57 | re-encoding a decoded UTF-8 character gives back its octets |
| Utf8.Decode | python_serial_logger_script.py:56-67 | `decode('utf-8')` succeeds exactly on octet strings that are well-formed UTF-8 (RFC 3629 section 4) and fails, as UnicodeDecodeError, on all others |
| Utf8.DecodeEncode | python_serial_logger_script.py:57 | decoding the UTF-8 encoding of any text gives that text |
| Utf8.EncodeOfDecode | python_serial_logger_script.py:57 | a chunk that decodes is the UTF-8 encoding of its text |
| Utf8.AsciiDecodesVerbatim | python_serial_logger_script.py:55-57 | octets 00-7F always decode, one character per octet with the octet's value |
| Commands.Modes | main_ui.py:120 | `list(COMMAND_MAP.keys())` has one key per entry, in table order |
| Commands.Lookup | main_ui.py:142 | `COMMAND_MAP[mode]` succeeds exactly when the mode is a key (else KeyError), and yields that key's own pair |
| Commands.CommandMapWellFormed | main_ui.py:14-30 | the table's keys are GPS, GSM, VBUS in that order and distinct, the default mode is one of them, and every start and stop command is '!', lower-case letters, CR LF, with start different from stop |
| Commands.ModeNamesInOrder | main_ui.py:14-18 | the menu lists exactly GPS, GSM, VBUS in that order |
| Commands.CommandsWellFormed | main_ui.py:15-17 | all six commands are well-formed and each mode's start differs from its stop |
| Commands.LookupModeName | main_ui.py:142 | the lookup of any mode of the menu succeeds and yields well-formed commands |
| Commands.IsSpace | main_ui.py:186 | the whitespace `strip()` removes: among printable ASCII only the space, and it includes tab, LF and CR |
| Commands.LeadingSpace | main_ui.py:186 | the leading run that `strip()` removes is all whitespace and is maximal |
| Commands.TextEnd | main_ui.py:186 | the trailing run that `strip()` removes is all whitespace and is maximal |
| Commands.Strip | main_ui.py:186 | `strip()` yields a slice of its input that neither starts nor ends with whitespace, after stripping only whitespace at either end |
| Commands.StripCommand | main_ui.py:186 | stripping a command removes exactly its CR LF terminator |
| Commands.EncodeAscii | main_ui.py:183 | `encode('ascii')` succeeds exactly on 7-bit text and gives one octet per character with the character's code |
| Commands.CommandEncodesAsUtf8 | main_ui.py:183-184 | every command is ASCII, so `encode('ascii')` cannot raise; on the receiving side, the octets written also decode as UTF-8 back to the command |
| ControlPanel.ErrorMessage | main_ui.py:192-200 | the log line of a caught exception is "Serial Error: " or "Error: " followed by its text, and its first letter tells the two kinds apart |
| ControlPanel.ErrorMessageInjective | main_ui.py:193-200 | two error lines are equal only for the same exception kind and the same text |
| ControlPanel.Transmit | main_ui.py:170-200 | a dispatch always logs "Opening /dev/ttyUSB0..." first and calls `serial.Serial` first; it closes the port exactly when open, encode and write all succeeded; it ends without exception exactly when close also returned; the only write is the second call and carries the command's ASCII octets |
| ControlPanel.TransmitSucceeds | main_ui.py:171-189 | on the success path the port sees one open, one write of the ASCII octets and one close, and the log gains "Opening ..." then "Data sent: " and the stripped command |
| ControlPanel.FailureLeavesPortOpen | main_ui.py:180-189 | when the open returned but encode or write failed, no close is made and an exception ends the dispatch |
| ControlPanel.CommandOutcome | main_ui.py:180-200 | for a table command the dispatch ends on exactly the first port call that raises, and its error line ("Serial Error: ..." or "Error: ...") is the last message |
| ControlPanel.Initial | main_ui.py:30-62 | the panel starts idle in Xirgo_GPS with no popup, no port call and the two start-up lines logged |
| ControlPanel.OpenMenu | main_ui.py:100-107 | MENU while running changes nothing (the Busy warning); while idle it adds one popup and changes nothing else |
| ControlPanel.Confirm | main_ui.py:126-133 | Confirm with a selection sets the mode to the selected key, logs "Mode changed to: <mode>" and closes that popup, without touching the running flag; without a selection nothing changes |
| ControlPanel.AfterSend | main_ui.py:165-200 | dispatch appends its messages and port calls, clears the running flag exactly on a SerialException, and keeps mode and popups |
| ControlPanel.SelectedCommands | main_ui.py:142 | `COMMAND_MAP[self.current_mode]` is the selected mode's own entry, and its start and stop are well-formed commands that differ |
| ControlPanel.Toggle | main_ui.py:138-163 | START/STOP keeps the mode, which stays a key of the table, and the popups |
| ControlPanel.StartOutcome | main_ui.py:144-200 | START logs "Starting <mode>..." and then dispatches the mode's start command, and leaves the panel running unless a SerialException was raised |
| ControlPanel.StopOutcome | main_ui.py:155-200 | STOP logs "Stopping <mode>..." and then dispatches the mode's stop command, and leaves the panel idle whatever the dispatch does |
| ControlPanel.GpsCommands | main_ui.py:14-15 | the GPS mode is offered and its pair is `!yde` / `!ydd` with CR LF |
| ControlPanel.GpsStartCommand | main_ui.py:183-186 | the GPS start command logs as `!yde` and is written as 21 79 64 65 0D 0A |
| ControlPanel.GpsStartTransmit | main_ui.py:170-189 | a GPS start over a port that raises nothing logs the opening and "Data sent: !yde", and opens, writes and closes |
| ControlPanel.StartGpsScenario | main_ui.py:144-189 | pressing START in Xirgo_GPS over a port that raises nothing runs the panel, appends the three log lines and makes the three port calls with `!yde` CR LF |
| ControlPanel.Handle | main_ui.py:100-163 | no button press can make the mode stop being a key of the table |
| ControlPanel.Run | main_ui.py:92-200 | over any session of presses and port outcomes the mode stays a key of the table, and the log and the port trace only grow at their ends |
| ControlPanel.ModeChangeWhileRunning | main_ui.py:102-146 | MENU while idle, then START, then Confirm of the second entry leaves the panel running in Xirgo_GSM |
| ControlPanel.XirgoControlPanel.constructor | main_ui.py:21-62 | the new panel's state is the initial state |
| ControlPanel.XirgoControlPanel.LogMessage | main_ui.py:92-98 | one line is appended to the console and the earlier lines are kept |
| ControlPanel.XirgoControlPanel.OpenMenuSelection | main_ui.py:100-107 | the new state is OpenMenu of the old, and a popup appears exactly when idle |
| ControlPanel.XirgoControlPanel.ConfirmSelection | main_ui.py:126-133 | the new state is Confirm of the old |
| ControlPanel.XirgoControlPanel.ToggleStartStop | main_ui.py:138-163 | the new state is Toggle of the old |
| ControlPanel.XirgoControlPanel.Start | main_ui.py:144-153 | the start branch produces Toggle's state |
| ControlPanel.XirgoControlPanel.Stop | main_ui.py:155-163 | the stop branch produces Toggle's state |
| ControlPanel.XirgoControlPanel.HandleException | main_ui.py:192-200 | the handler appends the error line and clears the running flag exactly on a SerialException |
| ControlPanel.XirgoControlPanel.SendSerialCommand | main_ui.py:165-200 | log, trace and flag change exactly as Transmit says |
| Capture.PathJoin | python_serial_logger_script.py:37 | `os.path.join` ends with its second component |
| Capture.LogFileName | python_serial_logger_script.py:13-37 | the log file is `/home/pi/serial_logs/serial_data_<timestamp>.log` |
| Capture.LogFileNameInjective | python_serial_logger_script.py:35-37 | distinct timestamps name distinct log files |
| Capture.TextOf | python_serial_logger_script.py:54-67 | an empty read or an undecodable chunk adds no text; a non-empty chunk that decodes adds exactly its decoded text |
| Capture.Rejected | python_serial_logger_script.py:54-67 | a chunk warned about adds no text; any other non-empty chunk adds its decoded text |
| Capture.Captured | python_serial_logger_script.py:46-61 | the file text of a single poll is that poll's text |
| Capture.WarningCount | python_serial_logger_script.py:54-67 | there are never more warnings than polls |
| Capture.ChunkEffect | python_serial_logger_script.py:52-67 | an empty read adds nothing and no warning; a well-formed chunk adds its non-empty text, whose UTF-8 encoding is the chunk; any other chunk adds no text and one warning |
| Capture.OnePoll | python_serial_logger_script.py:50-70 | one more poll appends exactly its chunk's text to the file and adds its warning, if any |
| Capture.LoopStep | python_serial_logger_script.py:52-67 | the three branches of one iteration (empty, decodes, fails) in the loop's own terms |
| Capture.CaptureLoop | python_serial_logger_script.py:46-70 | the file is its earlier content followed by the texts of the decoding chunks in read order, the warnings count the non-empty chunks that fail to decode, and the earlier content stays a prefix |
| Capture.CapturedConcat | python_serial_logger_script.py:50-70 | the file text of two runs of polls is that of the first followed by that of the second |
| Capture.WarningsConcat | python_serial_logger_script.py:54-67 | the warnings of two runs of polls add up |
| Capture.CapturedGrows | python_serial_logger_script.py:46 | append mode: the file after some polls is a prefix of the file after any further polls |
| Capture.MalformedChunkSkipped | python_serial_logger_script.py:56-67 | a chunk that fails to decode does not end the loop: what follows is captured as if it had not been read, and it adds one warning |
| Capture.AsciiChunkLogged | python_serial_logger_script.py:55-61 | a non-empty chunk of octets 00-7F is appended verbatim without a warning |
| Capture.EncodeLines | python_serial_logger_script.py:52 | one chunk per line |
| Capture.EncodedLinesCaptured | python_serial_logger_script.py:50-61 | lines sent in UTF-8, one per chunk, are captured exactly and in order, without a warning |
| Capture.MalformedThenLines | python_serial_logger_script.py:50-67 | a malformed chunk followed by lines gives exactly those lines and one warning |
| Capture.NoiseBetweenChunks | python_serial_logger_script.py:50-67 | with a rejected chunk between two others, the file gets the texts of the first and the last, and the middle chunk adds one warning |
| Capture.EncodedLineText | python_serial_logger_script.py:57-61 | a line sent as one UTF-8 chunk is appended as exactly that line, without a warning |
| Capture.NoiseBetweenLines | python_serial_logger_script.py:50-67 | line, malformed chunk, line gives the two lines and one warning |
| Capture.OctetFFMalformed | python_serial_logger_script.py:57-66 | the octet FF by itself is not UTF-8 |
| Capture.StartSerialLogging | python_serial_logger_script.py:30-83 | the file name is the timestamped name; when the port opens, the file and the warnings are those of the capture loop, otherwise the file is untouched and no chunk is read; the port is closed at exit exactly when it was opened and is still open |

## Left out

- The tkinter window is not modelled: layout, colours, fonts, button relabelling, the selection label, popup placement, the clock (`update_clock`) and the `messagebox` popup. The Busy warning shows up only as "nothing changes".
- The log's timestamps and colours (main_ui.py:94-97) are dropped: a log line is its message text.
- The dispatch threads (main_ui.py:153, 163) are modelled as a synchronous call that runs to completion right after the button handler. The races that two overlapping dispatches allow are not modelled.
- `time.sleep` calls in the panel and in the capture loop are left out, being timing only.
- pyserial's behaviour is a parameter of the model. Each of `serial.Serial`, `write` and `close` returns or raises, with an exception kind and its text.
  - In particular, the model does not decide which exception the `PORT_NAME=` keyword argument at main_ui.py:180 makes `serial.Serial` raise.
  - Whether the garbage collector later closes a port left open by a failed dispatch is not modelled.
- ControlPanel.AsciiEncodeErrorText: the UnicodeEncodeError message is a fixed text without its position details, because the table's commands are ASCII and never reach it.
- Popups closed by the window manager rather than by Confirm are not modelled. The popup count only grows by MENU and shrinks by a Confirm with a selection.
- `gsm_logs_enable.py` is not part of this model: it is a one-shot write of a fixed command, which the dispatch trace already covers.
- `setup_log_directory` (`os.path.exists`, `os.makedirs`, `exit(1)`) is not modelled, and neither is a failure to open the log file. The session assumes the directory exists and the file opens.
- Capture.StartSerialLogging: the clock is a parameter (`timestamp`). The port's behaviour is a parameter too: whether it opens, the chunks `read_all()` returned before Ctrl+C or a read error ended the loop, and `ser.is_open` at exit.
- The capture script's console output (`print`) is left out, beyond counting the warnings.
- The log file is modelled as its text. Python's file encoding and newline translation on write are not modelled.
