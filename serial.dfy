/**
 * The serial link of the desktop app (`app/src/serial.ts`): one process-wide object that owns the
 * port, a one-slot pending command, the heartbeat interval and three single-slot event callbacks.
 *
 * The transport is abstract: `io(n)` says whether the n-th transport operation (an `open`, a `write`
 * or a `close`) resolves or rejects, and `ops` counts the operations issued so far. The bytes of the
 * writes that resolve are appended to `written`. Each timer callback is one atomic step.
 */
module SerialLink {
  import opened Common
  import opened Text

  /** The wire protocol: one ASCII byte per message. */
  const DisableByte: char := '0'
  const EnableByte: char := '1'
  const HeartbeatByte: char := '2'
  const BaudRate: nat := 9600

  // ---------------------------------------------------------------------------------------------
  // Device discovery: `listAllDevices` and the `getCompatibleDevices` filter
  // ---------------------------------------------------------------------------------------------

  /** The properties of a plugin `PortInfo` that the filter reads. */
  datatype PortInfo = PortInfo(path: string, portType: string, manufacturer: string, product: string)

  /** `PortInfo & { port }`: a port record together with the key it was listed under. */
  datatype Device = Device(port: string, info: PortInfo)

  /** `/^(?:com|\/dev\/cu.)/i`: `com`, or `/dev/cu` and one more character that is not a line terminator, in any ASCII case. */
  predicate IsCompatiblePath(path: string) {
    StartsWithCaseless(path, "com")
    || (|path| >= 8 && StartsWithCaseless(path, "/dev/cu") && !IsLineTerminator(path[7]))
  }

  /** The predicate `getCompatibleDevices` filters with. */
  predicate IsCompatible(d: Device) {
    d.info.portType == "USB"
    && Contains(d.info.manufacturer, "Arduino")
    && Contains(d.info.product, "Arduino Leonardo")
    && IsCompatiblePath(d.info.path)
  }

  /** `devices.filter(IsCompatible)` */
  function CompatibleDevices(devices: seq<Device>): (r: seq<Device>)
    ensures |r| <= |devices|
    ensures forall d :: d in r <==> d in devices && IsCompatible(d)
  {
    if devices == [] then []
    else (if IsCompatible(devices[0]) then [devices[0]] else []) + CompatibleDevices(devices[1..])
  }

  /** The filter keeps order: filtering a concatenation is concatenating the filtered parts. */
  lemma {:induction false} CompatibleDevicesAppend(a: seq<Device>, b: seq<Device>)
    ensures CompatibleDevices(a + b) == CompatibleDevices(a) + CompatibleDevices(b)
  {
    if a != [] {
      assert (a + b)[0] == a[0] && (a + b)[1..] == a[1..] + b;
      CompatibleDevicesAppend(a[1..], b);
      var head := if IsCompatible(a[0]) then [a[0]] else [];
      assert CompatibleDevices(a + b) == head + CompatibleDevices(a[1..] + b);
    } else {
      assert a + b == b;
    }
  }

  /** The record `{ ...value, port }` built for each entry of `available_ports()`. */
  function DevicesOf(entries: seq<(string, PortInfo)>): seq<Device> {
    seq(|entries|, k requires 0 <= k < |entries| => Device(entries[k].0, entries[k].1))
  }

  /** The loop of `listAllDevices`: one device per entry, in the order the entries come. */
  method EntriesToDevices(entries: seq<(string, PortInfo)>) returns (devices: seq<Device>)
    ensures |devices| == |entries|
    ensures forall k :: 0 <= k < |entries| ==> devices[k].port == entries[k].0 && devices[k].info == entries[k].1
  {
    devices := [];
    for i := 0 to |entries|
      invariant |devices| == i
      invariant forall k :: 0 <= k < i ==> devices[k] == Device(entries[k].0, entries[k].1)
    {
      var (port, value) := entries[i];
      devices := devices + [Device(port, value)];
    }
  }

  // ---------------------------------------------------------------------------------------------
  // The link state and its transitions
  // ---------------------------------------------------------------------------------------------

  /** A `SerialPort` object: created closed by `new SerialPort(...)`, then opened and closed. */
  datatype Port = Port(path: string, baudRate: nat, isOpen: bool)

  /** A registered callback, identified by a number. */
  type Handler = nat

  /**
   * Everything the static members of `Serial` hold, plus the environment's view: the bytes of the
   * writes that resolved, the number of transport operations issued, and, per event, how often its
   * `callback?.()` call was reached (whether or not a callback was registered).
   * `timers` is the set of armed intervals; `heartbeatInterval` is the id stored by the last arm
   * (-1 before the first one) and `nextTimer` the id the next `setInterval` returns.
   */
  datatype Link = Link(
    buffer: Option<char>,
    heartbeatInterval: int,
    timers: set<int>,
    nextTimer: int,
    port: Option<Port>,
    written: seq<char>,
    ops: nat,
    connectCallback: Option<Handler>,
    disconnectCallback: Option<Handler>,
    errorCallback: Option<Handler>,
    connects: nat,
    disconnects: nat,
    errors: nat)

  /** After the class is loaded: nothing pending, no timer, no port, no callbacks. */
  const Initial: Link := Link(None, -1, {}, 1, None, [], 0, None, None, None, 0, 0, 0)

  /** The heartbeat interval is armed. */
  predicate Running(s: Link) {
    s.heartbeatInterval in s.timers
  }

  /** At most one interval is armed, and it is the one whose id is stored. */
  predicate Valid(s: Link) {
    s.timers <= {s.heartbeatInterval}
  }

  lemma AtMostOneTimer(s: Link)
    requires Valid(s)
    ensures |s.timers| <= 1
    ensures s.timers != {} <==> Running(s)
  {
    if s.heartbeatInterval in s.timers {
      assert s.timers == {s.heartbeatInterval};
    } else {
      assert s.timers == {};
    }
  }

  /** `r` still has a port exactly when `s` had one, on the same path and at the same rate. */
  predicate SamePort(s: Link, r: Link) {
    (s.port.Some? <==> r.port.Some?)
    && (s.port.Some? ==> r.port.value.path == s.port.value.path && r.port.value.baudRate == s.port.value.baudRate)
  }

  /** `Serial.buffer || '2'`: the byte the next heartbeat sends. */
  function Pending(buffer: Option<char>): char {
    if buffer.Some? then buffer.value else HeartbeatByte
  }

  /** The link after a transport call, and whether the call resolved. */
  datatype Outcome = Outcome(link: Link, resolved: bool)

  /** `await serialPort?.write(b)`: no port means no call; otherwise one operation, which may reject. */
  function Write(s: Link, io: nat -> bool, b: char): Outcome {
    if s.port.None? then Outcome(s, true)
    else if io(s.ops) then Outcome(s.(ops := s.ops + 1, written := s.written + [b]), true)
    else Outcome(s.(ops := s.ops + 1), false)
  }

  /** `await serialPort.open()`: one operation, which opens the port when it resolves. */
  function Open(s: Link, io: nat -> bool): Outcome {
    if s.port.None? then Outcome(s, true)
    else if io(s.ops) then Outcome(s.(ops := s.ops + 1, port := Some(s.port.value.(isOpen := true))), true)
    else Outcome(s.(ops := s.ops + 1), false)
  }

  /** `await serialPort?.close()` */
  function Close(s: Link, io: nat -> bool): Outcome {
    if s.port.None? then Outcome(s, true)
    else if io(s.ops) then Outcome(s.(ops := s.ops + 1, port := Some(s.port.value.(isOpen := false))), true)
    else Outcome(s.(ops := s.ops + 1), false)
  }

  /**
   * `disconnect`: clear the stored interval, write the fail-safe `'0'`, close, fire the disconnect
   * event. There is no `try`: a rejected write skips the close and the event, a rejected close skips
   * the event. There is no guard either, so every call does all of this again.
   */
  function DisconnectStep(s: Link, io: nat -> bool): Link {
    var cleared := s.(timers := s.timers - {s.heartbeatInterval});
    var w := Write(cleared, io, DisableByte);
    if !w.resolved then w.link
    else
      var c := Close(w.link, io);
      if !c.resolved then c.link else c.link.(disconnects := c.link.disconnects + 1)
  }

  /**
   * After `disconnect` the heartbeat is stopped. `'0'` is written before the port is closed, and
   * the event fires only when both resolve (or when there is no port, so neither is attempted).
   */
  lemma DisconnectOutcome(s: Link, io: nat -> bool)
    ensures var r := DisconnectStep(s, io);
            !Running(r) && (Valid(s) ==> Valid(r) && r.timers == {}) && SamePort(s, r)
            && r.buffer == s.buffer && r.connects == s.connects && r.errors == s.errors
            && r.heartbeatInterval == s.heartbeatInterval && r.nextTimer == s.nextTimer
    ensures var r := DisconnectStep(s, io);
            s.port.None? ==> r.written == s.written && r.ops == s.ops && r.port == s.port
                             && r.disconnects == s.disconnects + 1
    ensures var r := DisconnectStep(s, io);
            s.port.Some? && io(s.ops) && io(s.ops + 1) ==>
              r.written == s.written + [DisableByte] && r.ops == s.ops + 2
              && r.port == Some(s.port.value.(isOpen := false)) && r.disconnects == s.disconnects + 1
    ensures var r := DisconnectStep(s, io);
            s.port.Some? && io(s.ops) && !io(s.ops + 1) ==>
              r.written == s.written + [DisableByte] && r.ops == s.ops + 2
              && r.port == s.port && r.disconnects == s.disconnects
    ensures var r := DisconnectStep(s, io);
            s.port.Some? && !io(s.ops) ==>
              r.written == s.written && r.ops == s.ops + 1 && r.port == s.port && r.disconnects == s.disconnects
  {
    if Valid(s) {
      assert s.timers - {s.heartbeatInterval} == {};
    }
  }

  /**
   * `sendHeartbeat`: write the pending command, or `'2'` when none is pending, and empty the slot
   * whatever happens; a rejected write disconnects and fires the error event.
   */
  function SendHeartbeatStep(s: Link, io: nat -> bool): Link {
    var w := Write(s, io, Pending(s.buffer));
    var emptied := w.link.(buffer := None);
    if w.resolved then emptied
    else
      var d := DisconnectStep(emptied, io);
      d.(errors := d.errors + 1)
  }

  /**
   * A heartbeat empties the slot whatever happens. On success it writes exactly the pending byte,
   * or `'2'`. A rejected write disconnects, which stops the heartbeat, and fires the error event.
   */
  lemma SendHeartbeatOutcome(s: Link, io: nat -> bool)
    ensures var r := SendHeartbeatStep(s, io);
            r.buffer == None && (Valid(s) ==> Valid(r)) && SamePort(s, r)
    ensures s.port.None? ==> SendHeartbeatStep(s, io) == s.(buffer := None)
    ensures s.port.Some? && io(s.ops) ==>
              SendHeartbeatStep(s, io) == s.(buffer := None, written := s.written + [Pending(s.buffer)], ops := s.ops + 1)
    ensures var r := SendHeartbeatStep(s, io);
            s.port.Some? && !io(s.ops) ==>
              !Running(r) && r.errors == s.errors + 1
              && r == DisconnectStep(s.(buffer := None, ops := s.ops + 1), io).(errors := s.errors + 1)
  {
    if s.port.Some? && !io(s.ops) {
      DisconnectOutcome(s.(buffer := None, ops := s.ops + 1), io);
    } else if s.port.None? {
      DisconnectOutcome(s.(buffer := None), io);
    }
  }

  /**
   * `startHeartbeat`: clear the stored interval, arm a new one and send one heartbeat at once.
   * That first heartbeat is not awaited, so its failure is handled after the new interval is armed.
   */
  function StartHeartbeatStep(s: Link, io: nat -> bool): Link {
    var cleared := s.(timers := s.timers - {s.heartbeatInterval});
    var armed := cleared.(timers := cleared.timers + {cleared.nextTimer},
                          heartbeatInterval := cleared.nextTimer,
                          nextTimer := cleared.nextTimer + 1);
    SendHeartbeatStep(armed, io)
  }

  /**
   * `startHeartbeat` keeps a single interval: the old one is cleared and exactly one new one armed,
   * and one heartbeat goes out at once. If that heartbeat fails, no interval is left running.
   */
  lemma StartHeartbeatOutcome(s: Link, io: nat -> bool)
    ensures var r := StartHeartbeatStep(s, io);
            (Valid(s) ==> Valid(r)) && r.buffer == None && SamePort(s, r)
    ensures var r := StartHeartbeatStep(s, io);
            Valid(s) && s.port.Some? && io(s.ops) ==>
              Running(r) && r.timers == {s.nextTimer} && r.port == s.port && r.written == s.written + [Pending(s.buffer)]
              && r.errors == s.errors && r.disconnects == s.disconnects
    ensures var r := StartHeartbeatStep(s, io);
            s.port.Some? && !io(s.ops) ==> !Running(r) && r.errors == s.errors + 1
  {
    var cleared := s.(timers := s.timers - {s.heartbeatInterval});
    var armed := cleared.(timers := cleared.timers + {cleared.nextTimer},
                          heartbeatInterval := cleared.nextTimer,
                          nextTimer := cleared.nextTimer + 1);
    assert StartHeartbeatStep(s, io) == SendHeartbeatStep(armed, io);
    SendHeartbeatOutcome(armed, io);
    if Valid(s) {
      assert cleared.timers == {};
      assert armed.timers == {s.nextTimer} && Valid(armed);
    }
  }

  /**
   * `connect(path)`: replace the port object by a new closed one at 9600 baud and open it; on
   * success start the heartbeat and fire the connect event, on failure fire only the error event.
   */
  function ConnectStep(s: Link, io: nat -> bool, path: string): Link {
    var o := Open(s.(port := Some(Port(path, BaudRate, false))), io);
    if o.resolved then
      var started := StartHeartbeatStep(o.link, io);
      started.(connects := started.connects + 1)
    else
      o.link.(errors := o.link.errors + 1)
  }

  /**
   * `connect` always installs a new 9600-baud port on the path. If it opens, the connect event
   * fires, and when the first heartbeat also goes through the heartbeat is running. If open
   * fails, only the error event fires and nothing else changes.
   */
  lemma ConnectOutcome(s: Link, io: nat -> bool, path: string)
    ensures var r := ConnectStep(s, io, path);
            (Valid(s) ==> Valid(r))
            && r.port.Some? && r.port.value.path == path && r.port.value.baudRate == BaudRate
    ensures !io(s.ops) ==>
              ConnectStep(s, io, path)
              == s.(port := Some(Port(path, BaudRate, false)), ops := s.ops + 1, errors := s.errors + 1)
    ensures var r := ConnectStep(s, io, path);
            io(s.ops) ==> r.connects == s.connects + 1
    ensures var r := ConnectStep(s, io, path);
            Valid(s) && io(s.ops) && io(s.ops + 1) ==>
              Running(r) && r.port == Some(Port(path, BaudRate, true)) && r.buffer == None
              && r.written == s.written + [Pending(s.buffer)] && r.errors == s.errors
              && r.disconnects == s.disconnects
    ensures var r := ConnectStep(s, io, path);
            io(s.ops) && !io(s.ops + 1) ==> !Running(r) && r.errors == s.errors + 1 && r.connects == s.connects + 1
  {
    var installed := s.(port := Some(Port(path, BaudRate, false)));
    if io(s.ops) {
      var live := s.(port := Some(Port(path, BaudRate, true)), ops := s.ops + 1);
      assert Open(installed, io) == Outcome(live, true);
      var started := StartHeartbeatStep(live, io);
      StartHeartbeatOutcome(live, io);
      assert ConnectStep(s, io, path) == started.(connects := started.connects + 1);
    } else {
      assert ConnectStep(s, io, path) == installed.(ops := s.ops + 1, errors := s.errors + 1);
    }
  }

  /** One firing of the armed interval; nothing happens when no interval is armed. */
  function TickStep(s: Link, io: nat -> bool): Link {
    if Running(s) then SendHeartbeatStep(s, io) else s
  }

  /** `enable()` / `disable()`: overwrite the pending slot; nothing is written until the next heartbeat. */
  function CommandStep(s: Link, enable: bool): (r: Link)
    ensures r.buffer == Some(if enable then EnableByte else DisableByte)
    ensures r.(buffer := s.buffer) == s
  {
    s.(buffer := Some(if enable then EnableByte else DisableByte))
  }

  /** A sequence of `enable` (true) / `disable` (false) calls with no heartbeat in between. */
  function Commands(s: Link, calls: seq<bool>): Link
    decreases |calls|
  {
    if calls == [] then s else Commands(CommandStep(s, calls[0]), calls[1..])
  }

  /** The slot has one cell: of several calls before a heartbeat, only the last one is kept. */
  lemma {:induction false} LastCommandWins(s: Link, calls: seq<bool>)
    requires calls != []
    ensures Commands(s, calls) == s.(buffer := Some(if calls[|calls| - 1] then EnableByte else DisableByte))
    decreases |calls|
  {
    if |calls| > 1 {
      LastCommandWins(CommandStep(s, calls[0]), calls[1..]);
    }
  }

  /** `n` firings of the heartbeat interval. */
  function Ticks(s: Link, io: nat -> bool, n: nat): Link
    decreases n
  {
    if n == 0 then s else Ticks(TickStep(s, io), io, n - 1)
  }

  /** `k` heartbeat bytes. */
  function Heartbeats(k: nat): (r: seq<char>)
    ensures |r| == k && forall i :: 0 <= i < k ==> r[i] == HeartbeatByte
  {
    seq(k, _ => HeartbeatByte)
  }

  /**
   * While every write goes through, `n >= 1` heartbeats send the pending command exactly once and
   * plain heartbeats after it.
   */
  lemma {:induction false} PendingSentOnce(s: Link, io: nat -> bool, n: nat)
    requires Running(s) && s.port.Some? && n >= 1
    requires forall k :: s.ops <= k < s.ops + n ==> io(k)
    ensures Ticks(s, io, n).written == s.written + [Pending(s.buffer)] + Heartbeats(n - 1)
    ensures Ticks(s, io, n).buffer == None && Running(Ticks(s, io, n))
    decreases n
  {
    var t := TickStep(s, io);
    SendHeartbeatOutcome(s, io);
    assert t == s.(buffer := None, written := s.written + [Pending(s.buffer)], ops := s.ops + 1);
    if n > 1 {
      PendingSentOnce(t, io, n - 1);
      assert Pending(t.buffer) == HeartbeatByte;
      assert [HeartbeatByte] + Heartbeats(n - 2) == Heartbeats(n - 1);
    } else {
      assert Ticks(t, io, 0) == t;
    }
  }

  /** After the heartbeat stopped (a write failure or `disconnect`), further firings change nothing. */
  lemma {:induction false} StoppedStaysSilent(s: Link, io: nat -> bool, n: nat)
    requires !Running(s)
    ensures Ticks(s, io, n) == s
    decreases n
  {
    if n > 0 {
      StoppedStaysSilent(TickStep(s, io), io, n - 1);
    }
  }

  /** A failed heartbeat write stops the heartbeat: no later firing writes anything. */
  lemma FailedWriteEndsHeartbeat(s: Link, io: nat -> bool, n: nat)
    requires Running(s) && s.port.Some? && !io(s.ops)
    ensures !Running(TickStep(s, io))
    ensures Ticks(TickStep(s, io), io, n) == TickStep(s, io)
  {
    SendHeartbeatOutcome(s, io);
    StoppedStaysSilent(TickStep(s, io), io, n);
  }

  /** `disconnect` has no guard: called twice on a healthy port it writes `'0'` twice and fires twice. */
  lemma DisconnectTwice(s: Link, io: nat -> bool)
    requires s.port.Some?
    requires io(s.ops) && io(s.ops + 1) && io(s.ops + 2) && io(s.ops + 3)
    ensures DisconnectStep(DisconnectStep(s, io), io).written == s.written + [DisableByte, DisableByte]
    ensures DisconnectStep(DisconnectStep(s, io), io).disconnects == s.disconnects + 2
  {
    DisconnectOutcome(s, io);
    DisconnectOutcome(DisconnectStep(s, io), io);
  }

  /** The operations of `Serial` a caller can invoke, and the interval firing. */
  datatype Call =
    | ConnectCall(path: string)
    | DisconnectCall
    | EnableCall
    | DisableCall
    | TickCall
    | OnConnectCall(h: Handler)
    | OnDisconnectCall(h: Handler)
    | OnErrorCall(h: Handler)

  function Apply(s: Link, io: nat -> bool, c: Call): Link {
    match c
    case ConnectCall(path) => ConnectStep(s, io, path)
    case DisconnectCall => DisconnectStep(s, io)
    case EnableCall => CommandStep(s, true)
    case DisableCall => CommandStep(s, false)
    case TickCall => TickStep(s, io)
    case OnConnectCall(h) => s.(connectCallback := Some(h))
    case OnDisconnectCall(h) => s.(disconnectCallback := Some(h))
    case OnErrorCall(h) => s.(errorCallback := Some(h))
  }

  function Run(s: Link, io: nat -> bool, calls: seq<Call>): Link
    decreases |calls|
  {
    if calls == [] then s else Run(Apply(s, io, calls[0]), io, calls[1..])
  }

  /** No single call or firing arms a second interval. */
  lemma ApplyKeepsValid(s: Link, io: nat -> bool, c: Call)
    requires Valid(s)
    ensures Valid(Apply(s, io, c))
  {
    match c
    case ConnectCall(path) => ConnectOutcome(s, io, path);
    case DisconnectCall => DisconnectOutcome(s, io);
    case TickCall => SendHeartbeatOutcome(s, io);
    case _ =>
  }

  /** Whatever the calls and whatever the transport does, at most one heartbeat interval is ever armed. */
  lemma {:induction false} RunKeepsOneTimer(s: Link, io: nat -> bool, calls: seq<Call>)
    requires Valid(s)
    ensures Valid(Run(s, io, calls)) && |Run(s, io, calls).timers| <= 1
    decreases |calls|
  {
    if calls == [] {
      AtMostOneTimer(s);
    } else {
      ApplyKeepsValid(s, io, calls[0]);
      RunKeepsOneTimer(Apply(s, io, calls[0]), io, calls[1..]);
    }
  }

  /** Registering a callback replaces the previous one: each event has a single subscriber. */
  lemma CallbackSlotOverwritten(s: Link, io: nat -> bool, h1: Handler, h2: Handler)
    ensures Run(s, io, [OnConnectCall(h1), OnConnectCall(h2)]).connectCallback == Some(h2)
    ensures Run(s, io, [OnDisconnectCall(h1), OnDisconnectCall(h2)]).disconnectCallback == Some(h2)
    ensures Run(s, io, [OnErrorCall(h1), OnErrorCall(h2)]).errorCallback == Some(h2)
  {
    forall c1: Call, c2: Call ensures Run(s, io, [c1, c2]) == Apply(Apply(s, io, c1), io, c2) {
      assert [c1, c2][1..] == [c2];
      assert Run(Apply(s, io, c1), io, [c2]) == Run(Apply(Apply(s, io, c1), io, c2), io, []);
    }
  }

  // ---------------------------------------------------------------------------------------------
  // The class
  // ---------------------------------------------------------------------------------------------

  /** The static class `Serial`, as one object whose fields are its static members. */
  class Serial {
    const io: nat -> bool
    var buffer: Option<char>
    var heartbeatInterval: int
    var timers: set<int>
    var nextTimer: int
    var port: Option<Port>
    var written: seq<char>
    var ops: nat
    var connectCallback: Option<Handler>
    var disconnectCallback: Option<Handler>
    var errorCallback: Option<Handler>
    var connects: nat
    var disconnects: nat
    var errors: nat

    function State(): Link
      reads this
    {
      Link(buffer, heartbeatInterval, timers, nextTimer, port, written, ops,
           connectCallback, disconnectCallback, errorCallback, connects, disconnects, errors)
    }

    constructor (io: nat -> bool)
      ensures State() == Initial && this.io == io
      ensures Valid(State())
    {
      this.io := io;
      buffer, heartbeatInterval, timers, nextTimer := None, -1, {}, 1;
      port, written, ops := None, [], 0;
      connectCallback, disconnectCallback, errorCallback := None, None, None;
      connects, disconnects, errors := 0, 0, 0;
    }

    method WritePort(b: char) returns (resolved: bool)
      modifies this
      ensures Outcome(State(), resolved) == Write(old(State()), io, b)
    {
      resolved := true;
      if port.Some? {
        resolved := io(ops);
        if resolved {
          written := written + [b];
        }
        ops := ops + 1;
      }
    }

    method OpenPort() returns (resolved: bool)
      modifies this
      ensures Outcome(State(), resolved) == Open(old(State()), io)
    {
      resolved := true;
      if port.Some? {
        resolved := io(ops);
        if resolved {
          port := Some(port.value.(isOpen := true));
        }
        ops := ops + 1;
      }
    }

    method ClosePort() returns (resolved: bool)
      modifies this
      ensures Outcome(State(), resolved) == Close(old(State()), io)
    {
      resolved := true;
      if port.Some? {
        resolved := io(ops);
        if resolved {
          port := Some(port.value.(isOpen := false));
        }
        ops := ops + 1;
      }
    }

    method Disconnect()
      modifies this
      ensures State() == DisconnectStep(old(State()), io)
      ensures Valid(old(State())) ==> Valid(State())
    {
      DisconnectOutcome(State(), io);
      timers := timers - {heartbeatInterval};
      var wrote := WritePort(DisableByte);
      if !wrote {
        return;
      }
      var closed := ClosePort();
      if !closed {
        return;
      }
      disconnects := disconnects + 1;
    }

    method SendHeartbeat()
      modifies this
      ensures State() == SendHeartbeatStep(old(State()), io)
      ensures Valid(old(State())) ==> Valid(State())
    {
      SendHeartbeatOutcome(State(), io);
      var wrote := WritePort(Pending(buffer));
      buffer := None;
      if !wrote {
        Disconnect();
        errors := errors + 1;
      }
    }

    method StartHeartbeat()
      modifies this
      ensures State() == StartHeartbeatStep(old(State()), io)
      ensures Valid(old(State())) ==> Valid(State())
    {
      StartHeartbeatOutcome(State(), io);
      timers := timers - {heartbeatInterval};
      timers := timers + {nextTimer};
      heartbeatInterval := nextTimer;
      nextTimer := nextTimer + 1;
      SendHeartbeat();
    }

    method Connect(path: string)
      modifies this
      ensures State() == ConnectStep(old(State()), io, path)
      ensures Valid(old(State())) ==> Valid(State())
    {
      ConnectOutcome(State(), io, path);
      port := Some(Port(path, BaudRate, false));
      var didOpen := OpenPort();
      if didOpen {
        StartHeartbeat();
        connects := connects + 1;
      } else {
        errors := errors + 1;
      }
    }

    /** The callback of the armed interval. */
    method HeartbeatTick()
      modifies this
      ensures State() == TickStep(old(State()), io)
      ensures Valid(old(State())) ==> Valid(State())
    {
      if Running(State()) { SendHeartbeatOutcome(State(), io); }
      if heartbeatInterval in timers {
        SendHeartbeat();
      }
    }

    method Enable()
      modifies this
      ensures State() == CommandStep(old(State()), true)
    {
      buffer := Some(EnableByte);
    }

    method Disable()
      modifies this
      ensures State() == CommandStep(old(State()), false)
    {
      buffer := Some(DisableByte);
    }

    method OnConnect(h: Handler)
      modifies this
      ensures State() == old(State()).(connectCallback := Some(h))
    {
      connectCallback := Some(h);
    }

    method OnDisconnect(h: Handler)
      modifies this
      ensures State() == old(State()).(disconnectCallback := Some(h))
    {
      disconnectCallback := Some(h);
    }

    method OnError(h: Handler)
      modifies this
      ensures State() == old(State()).(errorCallback := Some(h))
    {
      errorCallback := Some(h);
    }

    /**
     * `listAllDevices`: `available` is what `available_ports()` resolved to, or `None` when it threw,
     * in which case the error event fires and the list is empty.
     */
    method ListAllDevices(available: Option<seq<(string, PortInfo)>>) returns (devices: seq<Device>)
      modifies this
      ensures available.None? ==> devices == [] && State() == old(State()).(errors := old(errors) + 1)
      ensures available.Some? ==> devices == DevicesOf(available.value) && State() == old(State())
    {
      if available.None? {
        errors := errors + 1;
        return [];
      }
      devices := EntriesToDevices(available.value);
    }

    /** `getCompatibleDevices`: the listed devices that pass the filter, in listing order. */
    method GetCompatibleDevices(available: Option<seq<(string, PortInfo)>>) returns (devices: seq<Device>)
      modifies this
      ensures available.None? ==> devices == [] && State() == old(State()).(errors := old(errors) + 1)
      ensures available.Some? ==> devices == CompatibleDevices(DevicesOf(available.value)) && State() == old(State())
    {
      var all := ListAllDevices(available);
      devices := CompatibleDevices(all);
    }
  }
}
