/**
 * The control panel's mode/run state machine (class XirgoControlPanel in
 * main_ui.py) and its serial command dispatch.
 *
 * The panel's state is the selected mode, the running flag, the number of
 * mode-selection popups on screen, the log console (an append-only list of
 * lines, timestamps and colours dropped) and the trace of calls made on the
 * serial port. The pure functions below say what each handler does to that
 * state; the class at the end performs the same steps on its fields and is
 * proved to agree with them.
 *
 * pyserial is abstract: for one dispatch, a PortBehaviour says whether
 * `serial.Serial(...)`, `ser.write(...)` and `ser.close()` each return or
 * raise, and with which kind of exception and text. The dispatch thread is
 * modelled as a call that runs to completion right after the button handler.
 */
module ControlPanel {
  import opened Wrappers
  import opened Commands
  import Utf8

  const SerialPort := "/dev/ttyUSB0"
  const BaudRate := 115200
  const OpenTimeout := 1

  /** `serial.SerialException` (and its subclasses) versus any other exception. */
  datatype ErrorKind = SerialError | OtherError

  /** What one pyserial call does: return, or raise with the exception's text `str(e)`. */
  datatype Step = Returns | Raises(kind: ErrorKind, text: string)

  /** How the port behaves during one dispatch. */
  datatype PortBehaviour = PortBehaviour(open: Step, write: Step, close: Step)

  /** A call made on the serial port, in the order made. */
  datatype PortAction =
    | OpenPort(name: string, baud: int, timeout: int)
    | WritePort(bytes: seq<Utf8.byte>)
    | ClosePort

  /** What one dispatch adds to the log and to the port trace, and the kind of
      exception that ended it, if any. */
  datatype Transmission = Transmission(messages: seq<string>, actions: seq<PortAction>, raised: Option<ErrorKind>)

  /** The text of the UnicodeEncodeError that `str.encode('ascii')` raises
      (its position details are not modelled). */
  const AsciiEncodeErrorText := "'ascii' codec can't encode character"

  const OpeningMessage := "Opening " + SerialPort + "..."

  /** The call `serial.Serial(...)` as main_ui.py makes it: the name is the
      value passed under the keyword `PORT_NAME=`, not as the `port`
      argument; whether pyserial accepts that keyword is part of the
      abstract PortBehaviour. */
  const OpenCall := OpenPort(SerialPort, BaudRate, OpenTimeout)

  /** The log line of an exception caught by the dispatch worker. */
  function ErrorMessage(kind: ErrorKind, text: string): (m: string)
    ensures kind == SerialError ==> m == "Serial Error: " + text
    ensures kind == OtherError ==> m == "Error: " + text
    ensures |m| > |text| && m[|m| - |text|..] == text
    ensures m[0] == 'S' <==> kind == SerialError
  {
    match kind
    case SerialError => "Serial Error: " + text
    case OtherError => "Error: " + text
  }

  /** The console tells the kind of an exception and its text apart: two
      error lines are equal only for the same kind and the same text. */
  lemma ErrorMessageInjective(k1: ErrorKind, t1: string, k2: ErrorKind, t2: string)
    requires ErrorMessage(k1, t1) == ErrorMessage(k2, t2)
    ensures k1 == k2 && t1 == t2
  {
    var m := ErrorMessage(k1, t1);
    assert k1 == k2;
    var head := if k1 == SerialError then "Serial Error: " else "Error: ";
    assert m == head + t1 && m == head + t2;
    assert t1 == m[|head|..] == t2;
  }

  /** The port opened, the data encoded and the write returned: the command left the panel. */
  predicate Delivered(data: string, port: PortBehaviour) {
    port.open == Returns && IsAscii(data) && port.write == Returns
  }

  /** The first of the three port calls that raises, when the data encodes. */
  function FirstRaised(port: PortBehaviour): Option<ErrorKind> {
    if port.open.Raises? then Some(port.open.kind)
    else if port.write.Raises? then Some(port.write.kind)
    else if port.close.Raises? then Some(port.close.kind)
    else None
  }

  /** A dispatch that stopped on an exception: its error line ends the messages. */
  function Failed(messages: seq<string>, actions: seq<PortAction>, kind: ErrorKind, text: string): Transmission {
    Transmission(messages + [ErrorMessage(kind, text)], actions, Some(kind))
  }

  /** send_serial_command: log, open, encode, write, log, close; on an
      exception, log it and stop where it was raised. */
  function Transmit(data: string, port: PortBehaviour): (d: Transmission)
    ensures |d.actions| >= 1 && d.actions[0] == OpenCall
    ensures |d.messages| >= 1 && d.messages[0] == OpeningMessage
    ensures ClosePort in d.actions <==> Delivered(data, port)
    ensures d.raised.None? <==> Delivered(data, port) && port.close == Returns
    ensures forall i :: 0 <= i < |d.actions| && d.actions[i].WritePort? ==>
      i == 1 && IsAscii(data) && d.actions[i].bytes == EncodeAscii(data).value
  {
    match port.open
    case Raises(kind, text) => Failed([OpeningMessage], [OpenCall], kind, text)
    case Returns =>
      match EncodeAscii(data)
      case None => Failed([OpeningMessage], [OpenCall], OtherError, AsciiEncodeErrorText)
      case Some(bytes) =>
        var written := [OpenCall, WritePort(bytes)];
        match port.write
        case Raises(kind, text) => Failed([OpeningMessage], written, kind, text)
        case Returns =>
          var sent := [OpeningMessage, "Data sent: " + Strip(data)];
          match port.close
          case Raises(kind, text) => Failed(sent, written + [ClosePort], kind, text)
          case Returns => Transmission(sent, written + [ClosePort], None)
  }

  /** On the success path the trace is one open, one write of exactly the
      command's ASCII octets and one close, and the log gains the opening line
      and the stripped command. */
  lemma TransmitSucceeds(data: string, port: PortBehaviour)
    requires Delivered(data, port) && port.close == Returns
    ensures Transmit(data, port).actions == [OpenCall, WritePort(EncodeAscii(data).value), ClosePort]
    ensures Transmit(data, port).messages == [OpeningMessage, "Data sent: " + Strip(data)]
    ensures Transmit(data, port).raised == None
  {
  }

  /** A failed open or write never reaches `ser.close()`: when the open
      returned, the port is left open by the dispatch. */
  lemma FailureLeavesPortOpen(data: string, port: PortBehaviour)
    requires port.open == Returns && !Delivered(data, port)
    ensures OpenCall in Transmit(data, port).actions
    ensures ClosePort !in Transmit(data, port).actions
    ensures Transmit(data, port).raised.Some?
  {
  }

  /** For a command of the table the encoding cannot fail, so the dispatch
      ends exactly on the first port call that raises, and any exception adds
      exactly one error line at the end of the log. */
  lemma CommandOutcome(c: string, port: PortBehaviour)
    requires IsCommand(c)
    ensures Transmit(c, port).raised == FirstRaised(port)
    ensures FirstRaised(port).Some? ==>
      var d := Transmit(c, port);
      var step := if port.open.Raises? then port.open else if port.write.Raises? then port.write else port.close;
      d.messages[|d.messages| - 1] == ErrorMessage(step.kind, step.text)
  {
    CommandEncodesAsUtf8(c);
  }

  /** What the panel holds: the selected mode, the running flag, the number of
      mode popups on screen, the log console's lines and the port trace. */
  datatype PanelState = PanelState(mode: string, running: bool, menus: nat, log: seq<string>, trace: seq<PortAction>)

  /** The selected mode is always a key of COMMAND_MAP. */
  predicate ValidState(s: PanelState) {
    s.mode in ModeNames()
  }

  /** The state after `__init__` (setup_ui logs two lines). */
  function Initial(): (s: PanelState)
    ensures ValidState(s)
    ensures s.mode == "Xirgo_GPS" && !s.running && s.menus == 0 && s.trace == []
    ensures s.log == ["System initialized...", "Target Port: /dev/ttyUSB0"]
  {
    CommandMapWellFormed();
    assert "Target Port: " + SerialPort == "Target Port: /dev/ttyUSB0";
    PanelState(DefaultMode, false, 0, ["System initialized...", "Target Port: " + SerialPort], [])
  }

  /** open_menu_selection: busy while running, otherwise one more popup. */
  function OpenMenu(s: PanelState): (r: PanelState)
    ensures s.running ==> r == s
    ensures !s.running ==> r == s.(menus := s.menus + 1)
  {
    if s.running then s else s.(menus := s.menus + 1)
  }

  /** A Confirm button exists only on a popup that is open, and the popup's
      list offers only the table's modes. */
  predicate CanConfirm(s: PanelState, selection: Option<nat>) {
    s.menus > 0 && (selection.Some? ==> selection.value < |ModeNames()|)
  }

  /** confirm_selection: with an entry selected, switch to it, log the change
      and close the popup; without one, nothing happens. The running flag is
      not consulted. */
  function Confirm(s: PanelState, selection: Option<nat>): (r: PanelState)
    requires ValidState(s) && CanConfirm(s, selection)
    ensures ValidState(r)
    ensures r.running == s.running && r.trace == s.trace
    ensures selection.None? ==> r == s
    ensures selection.Some? ==>
      && r.mode == ModeNames()[selection.value]
      && r.log == s.log + ["Mode changed to: " + r.mode]
      && r.menus == s.menus - 1
  {
    match selection
    case None => s
    case Some(i) =>
      var selected := ModeNames()[i];
      s.(mode := selected, log := s.log + ["Mode changed to: " + selected], menus := s.menus - 1)
  }

  /** The effect of send_serial_command on the panel: its messages and port
      calls are appended, and a SerialException clears the running flag. */
  function AfterSend(s: PanelState, data: string, port: PortBehaviour): (r: PanelState)
    ensures r.mode == s.mode && r.menus == s.menus
    ensures r.log == s.log + Transmit(data, port).messages
    ensures r.trace == s.trace + Transmit(data, port).actions
    ensures r.running == (s.running && Transmit(data, port).raised != Some(SerialError))
  {
    var d := Transmit(data, port);
    s.(running := if d.raised == Some(SerialError) then false else s.running,
       log := s.log + d.messages,
       trace := s.trace + d.actions)
  }

  /** The commands of the selected mode. */
  function SelectedCommands(s: PanelState): (c: CommandPair)
    requires ValidState(s)
    ensures Entry(s.mode, c) in CommandMap
    ensures IsCommand(c.start) && IsCommand(c.stop) && c.start != c.stop
  {
    CommandMapWellFormed();
    LookupModeName(s.mode);
    Lookup(CommandMap, s.mode).value
  }

  /** toggle_start_stop: flip the flag first, log, then dispatch the start or
      the stop command of the selected mode. */
  function Toggle(s: PanelState, port: PortBehaviour): (r: PanelState)
    requires ValidState(s)
    ensures ValidState(r)
    ensures r.mode == s.mode && r.menus == s.menus
  {
    var commands := SelectedCommands(s);
    if !s.running then
      AfterSend(s.(running := true, log := s.log + ["Starting " + s.mode + "..."]), commands.start, port)
    else
      AfterSend(s.(running := false, log := s.log + ["Stopping " + s.mode + "..."]), commands.stop, port)
  }

  /** A start leaves the panel running unless the dispatch raised a
      SerialException; any other exception leaves it running. */
  lemma StartOutcome(s: PanelState, port: PortBehaviour)
    requires ValidState(s) && !s.running
    ensures Toggle(s, port).running <==> FirstRaised(port) != Some(SerialError)
    ensures Toggle(s, port).log ==
      s.log + ["Starting " + s.mode + "..."] + Transmit(SelectedCommands(s).start, port).messages
    ensures Toggle(s, port).trace == s.trace + Transmit(SelectedCommands(s).start, port).actions
  {
    LookupModeName(s.mode);
    CommandOutcome(SelectedCommands(s).start, port);
  }

  /** A stop leaves the panel idle whatever the dispatch does. */
  lemma StopOutcome(s: PanelState, port: PortBehaviour)
    requires ValidState(s) && s.running
    ensures !Toggle(s, port).running
    ensures Toggle(s, port).log ==
      s.log + ["Stopping " + s.mode + "..."] + Transmit(SelectedCommands(s).stop, port).messages
    ensures Toggle(s, port).trace == s.trace + Transmit(SelectedCommands(s).stop, port).actions
  {
    var stopping := s.(running := false, log := s.log + ["Stopping " + s.mode + "..."]);
    var c := SelectedCommands(s).stop;
    assert Toggle(s, port) == AfterSend(stopping, c, port);
    assert AfterSend(stopping, c, port).log == stopping.log + Transmit(c, port).messages;
    assert stopping.log == s.log + ["Stopping " + s.mode + "..."];
  }

  /** The GPS mode is offered, and its pair is `!yde` / `!ydd`. */
  lemma GpsCommands()
    ensures "Xirgo_GPS" in ModeNames()
    ensures Lookup(CommandMap, "Xirgo_GPS") == Some(CommandPair("!yde\r\n", "!ydd\r\n"))
  {
    assert CommandMap[0].mode == "Xirgo_GPS";
  }

  /** The GPS start command as logged and as written. */
  lemma GpsStartCommand()
    ensures Strip("!yde\r\n") == "!yde"
    ensures EncodeAscii("!yde\r\n") == Some([0x21, 0x79, 0x64, 0x65, 0x0D, 0x0A])
  {
    StripCommand("!yde\r\n");
    assert "!yde\r\n"[..4] == "!yde";
    var b := EncodeAscii("!yde\r\n").value;
    assert b == [0x21, 0x79, 0x64, 0x65, 0x0D, 0x0A];
  }

  /** A dispatch of the GPS start command over a port that raises nothing. */
  lemma GpsStartTransmit(port: PortBehaviour)
    requires port == PortBehaviour(Returns, Returns, Returns)
    ensures Transmit("!yde\r\n", port) == Transmission(
      ["Opening /dev/ttyUSB0...", "Data sent: !yde"],
      [OpenPort("/dev/ttyUSB0", 115200, 1), WritePort([0x21, 0x79, 0x64, 0x65, 0x0D, 0x0A]), ClosePort],
      None)
  {
    GpsStartCommand();
    TransmitSucceeds("!yde\r\n", port);
    assert OpeningMessage == "Opening /dev/ttyUSB0...";
    assert "Data sent: " + Strip("!yde\r\n") == "Data sent: !yde";
  }

  /** A successful start of the GPS mode logs, in order, the start, the
      opening of the port and the command sent, and writes `!yde` CR LF. */
  lemma StartGpsScenario(s: PanelState, port: PortBehaviour)
    requires s.mode == "Xirgo_GPS" && !s.running
    requires port == PortBehaviour(Returns, Returns, Returns)
    ensures Toggle(s, port).running
    ensures Toggle(s, port).log ==
      s.log + ["Starting Xirgo_GPS...", "Opening /dev/ttyUSB0...", "Data sent: !yde"]
    ensures Toggle(s, port).trace ==
      s.trace + [OpenPort("/dev/ttyUSB0", 115200, 1), WritePort([0x21, 0x79, 0x64, 0x65, 0x0D, 0x0A]), ClosePort]
  {
    GpsCommands();
    assert SelectedCommands(s).start == "!yde\r\n";
    GpsStartTransmit(port);
    StartOutcome(s, port);
    assert "Starting " + s.mode + "..." == "Starting Xirgo_GPS...";
  }

  /** A press of one of the panel's buttons. */
  datatype Event =
    | MenuPressed
    | ConfirmPressed(selection: Option<nat>)
    | StartStopPressed(port: PortBehaviour)

  /** Whether the button of `e` is on screen in state `s`. */
  predicate Enabled(s: PanelState, e: Event) {
    match e
    case ConfirmPressed(selection) => CanConfirm(s, selection)
    case _ => true
  }

  /** The handler of one button press. */
  function Handle(s: PanelState, e: Event): (r: PanelState)
    requires ValidState(s) && Enabled(s, e)
    ensures ValidState(r)
  {
    match e
    case MenuPressed => OpenMenu(s)
    case ConfirmPressed(selection) => Confirm(s, selection)
    case StartStopPressed(port) => Toggle(s, port)
  }

  /** Every press of `es` happens on a button that is on screen at that moment. */
  predicate Feasible(s: PanelState, es: seq<Event>)
    requires ValidState(s)
    decreases |es|
  {
    es == [] || (Enabled(s, es[0]) && Feasible(Handle(s, es[0]), es[1..]))
  }

  /** The state after a session of button presses. Whatever the presses and
      whatever the port does, the mode stays a key of COMMAND_MAP and the log
      and the port trace only grow at their ends. */
  function Run(s: PanelState, es: seq<Event>): (r: PanelState)
    requires ValidState(s) && Feasible(s, es)
    ensures ValidState(r)
    ensures s.log <= r.log && s.trace <= r.trace
    decreases |es|
  {
    if es == [] then s else Run(Handle(s, es[0]), es[1..])
  }

  /** The selection is not re-checked: a popup opened while idle still
      switches the mode after a start, so the mode changes while running. */
  lemma ModeChangeWhileRunning(port: PortBehaviour)
    requires FirstRaised(port) != Some(SerialError)
    ensures Feasible(Initial(), [MenuPressed, StartStopPressed(port), ConfirmPressed(Some(1))])
    ensures var r := Run(Initial(), [MenuPressed, StartStopPressed(port), ConfirmPressed(Some(1))]);
      r.running && r.mode == "Xirgo_GSM"
  {
    CommandMapWellFormed();
    var a, b, c := MenuPressed, StartStopPressed(port), ConfirmPressed(Some(1));
    var s1 := OpenMenu(Initial());
    var s2 := Toggle(s1, port);
    StartOutcome(s1, port);
    var s3 := Confirm(s2, Some(1));
    assert [a, b, c][1..] == [b, c] && [b, c][1..] == [c] && [c][1..] == [];
    assert Feasible(s3, []) && Run(s3, []) == s3;
    assert Feasible(s2, [c]) && Run(s2, [c]) == s3;
    assert Feasible(s1, [b, c]) && Run(s1, [b, c]) == s3;
    assert Feasible(Initial(), [a, b, c]) && Run(Initial(), [a, b, c]) == s3;
  }

  /** The panel (XirgoControlPanel): its fields are those of PanelState. */
  class XirgoControlPanel {
    var currentMode: string
    var isRunning: bool
    var openMenus: nat
    var log: seq<string>
    var portTrace: seq<PortAction>

    ghost function State(): PanelState
      reads this
    {
      PanelState(currentMode, isRunning, openMenus, log, portTrace)
    }

    ghost predicate Valid()
      reads this
    {
      ValidState(State())
    }

    constructor ()
      ensures Valid() && State() == Initial()
    {
      currentMode := DefaultMode;
      isRunning := false;
      openMenus := 0;
      log := [];
      portTrace := [];
      new;
      LogMessage("System initialized...");
      LogMessage("Target Port: " + SerialPort);
    }

    /** log_message: append one line to the console. */
    method LogMessage(msg: string)
      modifies this`log
      ensures log == old(log) + [msg]
    {
      log := log + [msg];
    }

    /** open_menu_selection; `shown` is false when the Busy warning is shown instead. */
    method OpenMenuSelection() returns (shown: bool)
      requires Valid()
      modifies this`openMenus
      ensures Valid() && State() == OpenMenu(old(State()))
      ensures shown == !isRunning
    {
      if isRunning {
        return false;
      }
      openMenus := openMenus + 1;
      shown := true;
    }

    /** confirm_selection of one open popup, with the listbox's selected index if any. */
    method ConfirmSelection(selection: Option<nat>)
      requires Valid() && CanConfirm(State(), selection)
      modifies this`currentMode, this`log, this`openMenus
      ensures Valid() && State() == Confirm(old(State()), selection)
    {
      if selection.Some? {
        var selected := ModeNames()[selection.value];
        currentMode := selected;
        LogMessage("Mode changed to: " + currentMode);
        openMenus := openMenus - 1;
      }
    }

    /** toggle_start_stop, followed by the dispatch it starts. */
    method ToggleStartStop(port: PortBehaviour)
      requires Valid()
      modifies this`isRunning, this`log, this`portTrace
      ensures Valid() && State() == Toggle(old(State()), port)
    {
      if !isRunning {
        Start(port);
      } else {
        Stop(port);
      }
    }

    /** The start branch of toggle_start_stop. */
    method Start(port: PortBehaviour)
      requires Valid() && !isRunning
      modifies this`isRunning, this`log, this`portTrace
      ensures Valid() && State() == Toggle(old(State()), port)
    {
      ghost var s0 := State();
      LookupModeName(currentMode);
      var commands := Lookup(CommandMap, currentMode).value;
      isRunning := true;
      LogMessage("Starting " + currentMode + "...");
      SendSerialCommand(commands.start, port);
      StartOutcome(s0, port);
    }

    /** The stop branch of toggle_start_stop. */
    method Stop(port: PortBehaviour)
      requires Valid() && isRunning
      modifies this`isRunning, this`log, this`portTrace
      ensures Valid() && State() == Toggle(old(State()), port)
    {
      ghost var s0 := State();
      LookupModeName(currentMode);
      var commands := Lookup(CommandMap, currentMode).value;
      isRunning := false;
      LogMessage("Stopping " + currentMode + "...");
      SendSerialCommand(commands.stop, port);
      StopOutcome(s0, port);
    }

    /** The two `except` clauses of send_serial_command: log the exception;
        on a SerialException also clear the running flag. */
    method HandleException(kind: ErrorKind, text: string)
      modifies this`log, this`isRunning
      ensures log == old(log) + [ErrorMessage(kind, text)]
      ensures isRunning == (old(isRunning) && kind != SerialError)
    {
      LogMessage(ErrorMessage(kind, text));
      if kind == SerialError && isRunning {
        isRunning := false;
      }
    }

    /** send_serial_command: the try block step by step; an exception leaves
        the block at the call that raised it. */
    method SendSerialCommand(data: string, port: PortBehaviour)
      modifies this`log, this`portTrace, this`isRunning
      ensures log == old(log) + Transmit(data, port).messages
      ensures portTrace == old(portTrace) + Transmit(data, port).actions
      ensures isRunning == (old(isRunning) && Transmit(data, port).raised != Some(SerialError))
    {
      ghost var d := Transmit(data, port);
      LogMessage(OpeningMessage);
      portTrace := portTrace + [OpenCall];
      if port.open.Raises? {
        assert d == Failed([OpeningMessage], [OpenCall], port.open.kind, port.open.text);
        HandleException(port.open.kind, port.open.text);
        return;
      }
      var encoded := EncodeAscii(data);
      if encoded.None? {
        assert d == Failed([OpeningMessage], [OpenCall], OtherError, AsciiEncodeErrorText);
        HandleException(OtherError, AsciiEncodeErrorText);
        return;
      }
      portTrace := portTrace + [WritePort(encoded.value)];
      if port.write.Raises? {
        assert d == Failed([OpeningMessage], [OpenCall, WritePort(encoded.value)], port.write.kind, port.write.text);
        HandleException(port.write.kind, port.write.text);
        return;
      }
      LogMessage("Data sent: " + Strip(data));
      portTrace := portTrace + [ClosePort];
      if port.close.Raises? {
        HandleException(port.close.kind, port.close.text);
      }
    }
  }
}
