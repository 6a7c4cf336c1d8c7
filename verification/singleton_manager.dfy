/**
 * The singleton serial port manager of serial/serial_dev.js, the one the server uses.
 *
 * Objects have identity here: `World.objects[r]` is the state of the manager object with reference
 * `r`, and `World.instance` is the class-wide `instance` slot. An object stays reachable after the
 * slot is cleared, and its events still reach it.
 */
module SingletonManager {
  import opened Common
  import PacedWriter

  const DefaultBaudRate: int := 115200

  /** One manager object. */
  datatype Port = Port(portName: string, baudRate: int, isOpen: bool)

  /** A reference to a manager object. */
  type Ref = nat

  datatype World = World(objects: seq<Port>, instance: Option<Ref>)

  /** The slot, when set, names an existing object. */
  predicate Valid(w: World) {
    w.instance.Some? ==> w.instance.value < |w.objects|
  }

  /** Calls the manager makes on the transport and on its event emitter. */
  datatype Effect =
    | CreateTransport(path: string, baudRate: int) // the SerialPort object, 8N1, with the library's default auto-open
    | OpenCall                                     // serialPort.open(callback)
    | CloseCall                                    // serialPort.close(callback)
    | EmitData(line: string)                       // eventEmitter.emit('data', line)

  /** What the transport delivers to one object. */
  datatype TransportEvent =
    | Opened                  // 'open'
    | Errored                 // 'error'
    | Closed                  // 'close'
    | LineParsed(line: string) // the line parser's 'data'

  datatype Delivery = Delivery(target: Ref, event: TransportEvent)

  datatype Transition = Transition(world: World, effects: seq<Effect>)

  /** The result of `new SerialPortManager(...)` or `getInstance(...)`. */
  datatype Created = Created(world: World, obj: Ref, effects: seq<Effect>)

  /** How the promise returned by openPort settles. */
  datatype Settled = Resolved | Rejected

  datatype Opening = Opening(calls: seq<Effect>, settled: Settled)

  /** Every object other than `r` is as it was. */
  predicate OthersUnchanged(w: World, w': World, r: Ref) {
    |w'.objects| == |w.objects| && forall k :: 0 <= k < |w.objects| && k != r ==> w'.objects[k] == w.objects[k]
  }

  /** An object after _init, with the calls _init made. */
  datatype Initialised = Initialised(port: Port, effects: seq<Effect>)

  /** _init(): creates the transport and marks the object open before any open event arrives. */
  function Init(p: Port): (r: Initialised)
    ensures r.port.isOpen
    ensures r.port.portName == p.portName && r.port.baudRate == p.baudRate
    ensures r.effects == [CreateTransport(p.portName, p.baudRate)]
  {
    Initialised(p.(isOpen := true), [CreateTransport(p.portName, p.baudRate)])
  }

  /** The constructor: hands back the existing instance if there is one, otherwise a new, initialised object. */
  function Construct(w: World, portName: string, baudRate: Option<int>): (c: Created)
    ensures Valid(w) ==> Valid(c.world)
    ensures c.world.instance == Some(c.obj)
    // an existing instance is returned as it is: its port name and baud rate are kept
    ensures w.instance.Some? ==> c == Created(w, w.instance.value, [])
    // otherwise a new object is allocated, set up from the arguments, and put in the slot
    ensures w.instance.None? ==>
      && c.obj == |w.objects|
      && c.world.objects == w.objects + [Port(portName, baudRate.GetOr(115200), true)]
      && c.effects == [CreateTransport(portName, baudRate.GetOr(115200))]
  {
    match w.instance
    case Some(existing) => Created(w, existing, [])
    case None =>
      var init := Init(Port(portName, baudRate.GetOr(DefaultBaudRate), false));
      var r := |w.objects|;
      Created(World(w.objects + [init.port], Some(r)), r, init.effects)
  }

  /** getInstance(): create the instance if the slot is empty, then return the slot. */
  function GetInstance(w: World, portName: string, baudRate: Option<int>): (c: Created)
    ensures Valid(w) ==> Valid(c.world)
    ensures c.world.instance == Some(c.obj)
    ensures w.instance.Some? ==> c == Created(w, w.instance.value, [])
    // an empty slot gets a new object, whose construction creates its transport
    ensures w.instance.None? ==>
      && c.obj == |w.objects|
      && c.world.objects == w.objects + [Port(portName, baudRate.GetOr(115200), true)]
      && c.effects == [CreateTransport(portName, baudRate.GetOr(115200))]
  {
    if w.instance.None? then
      var made := Construct(w, portName, baudRate);
      Created(made.world, made.world.instance.value, made.effects)
    else
      Created(w, w.instance.value, [])
  }

  /** Once an instance exists, asking again, with any arguments, returns it and changes nothing. */
  lemma GetInstanceIdempotent(w: World, portName: string, baudRate: Option<int>,
                              otherName: string, otherBaudRate: Option<int>)
    ensures var first := GetInstance(w, portName, baudRate);
      GetInstance(first.world, otherName, otherBaudRate) == Created(first.world, first.obj, [])
  {
  }

  /** openPort(): resolves at once when open; otherwise as the transport's open reports. */
  function OpenPort(p: Port, transportOk: bool): (o: Opening)
    ensures p.isOpen ==> o == Opening([], Resolved)
    ensures !p.isOpen ==> o.calls == [OpenCall]
    ensures !p.isOpen ==> (o.settled == Resolved <==> transportOk)
  {
    if p.isOpen then Opening([], Resolved)
    else Opening([OpenCall], if transportOk then Resolved else Rejected)
  }

  /**
   * openPort follows the flag the events keep: a freshly built instance, already marked open by
   * _init, resolves without ever calling the transport; after an open event the same holds; after
   * an error or close event it issues exactly one transport open.
   */
  lemma OpenPortFollowsEvents(w: World, portName: string, baudRate: Option<int>, r: Ref,
                              e: TransportEvent, transportOk: bool)
    requires r < |w.objects|
    ensures w.instance.None? ==>
      var c := Construct(w, portName, baudRate);
      OpenPort(c.world.objects[c.obj], transportOk) == Opening([], Resolved)
    ensures e.Opened? ==> OpenPort(Handle(w, r, e).world.objects[r], transportOk) == Opening([], Resolved)
    ensures e.Errored? || e.Closed? ==> OpenPort(Handle(w, r, e).world.objects[r], transportOk).calls == [OpenCall]
  {
  }

  /** The reaction of object `r` to one transport event. */
  function Handle(w: World, r: Ref, e: TransportEvent): (t: Transition)
    requires r < |w.objects|
    // no event touches the slot or any other object
    ensures t.world.instance == w.instance
    ensures OthersUnchanged(w, t.world, r)
    ensures t.world.objects[r].portName == w.objects[r].portName
    ensures t.world.objects[r].baudRate == w.objects[r].baudRate
    ensures e.Opened? ==> t.world.objects[r].isOpen
    // errors and closes drop the flag and attempt no reconnect
    ensures e.Errored? || e.Closed? ==> !t.world.objects[r].isOpen
    ensures !e.LineParsed? ==> t.effects == []
    // a parsed line is re-emitted once, as it came
    ensures e.LineParsed? ==> t.world == w && t.effects == [EmitData(e.line)]
  {
    match e
    case Opened => Transition(w.(objects := w.objects[r := w.objects[r].(isOpen := true)]), [])
    case Errored => Transition(w.(objects := w.objects[r := w.objects[r].(isOpen := false)]), [])
    case Closed => Transition(w.(objects := w.objects[r := w.objects[r].(isOpen := false)]), [])
    case LineParsed(line) => Transition(w, [EmitData(line)])
  }

  predicate Targets(w: World, ds: seq<Delivery>) {
    forall i :: 0 <= i < |ds| ==> ds[i].target < |w.objects|
  }

  /** A sequence of transport events delivered in order. */
  function Deliver(w: World, ds: seq<Delivery>): (t: Transition)
    requires Targets(w, ds)
    ensures t.world.instance == w.instance
    ensures |t.world.objects| == |w.objects|
    ensures forall k :: 0 <= k < |w.objects| ==>
      t.world.objects[k].portName == w.objects[k].portName && t.world.objects[k].baudRate == w.objects[k].baudRate
    decreases |ds|
  {
    if |ds| == 0 then Transition(w, [])
    else
      var first := Handle(w, ds[0].target, ds[0].event);
      var rest := Deliver(first.world, ds[1..]);
      Transition(rest.world, first.effects + rest.effects)
  }

  /** The lines among some deliveries, in order. */
  function LinesOf(ds: seq<Delivery>): seq<string> {
    if |ds| == 0 then []
    else (if ds[0].event.LineParsed? then [ds[0].event.line] else []) + LinesOf(ds[1..])
  }

  /** One 'data' emission per line. */
  function Emissions(lines: seq<string>): (es: seq<Effect>)
    ensures |es| == |lines|
    ensures forall i :: 0 <= i < |lines| ==> es[i] == EmitData(lines[i])
  {
    if |lines| == 0 then [] else [EmitData(lines[0])] + Emissions(lines[1..])
  }

  /**
   * Transport events never make the manager call the transport: every parsed line is re-emitted
   * exactly once, unchanged and in order, and nothing else is emitted.
   */
  lemma {:induction false} DeliverForwardsLines(w: World, ds: seq<Delivery>)
    requires Targets(w, ds)
    ensures Deliver(w, ds).effects == Emissions(LinesOf(ds))
    decreases |ds|
  {
    if |ds| > 0 {
      var first := Handle(w, ds[0].target, ds[0].event);
      DeliverForwardsLines(first.world, ds[1..]);
      var head := if ds[0].event.LineParsed? then [ds[0].event.line] else [];
      assert LinesOf(ds) == head + LinesOf(ds[1..]);
      EmissionsOfConcat(head, LinesOf(ds[1..]));
    }
  }

  lemma EmissionsOfConcat(a: seq<string>, b: seq<string>)
    ensures Emissions(a + b) == Emissions(a) + Emissions(b)
  {
  }

  /** closePort(): the transport is closed only when open; otherwise the slot is cleared at once. */
  function ClosePort(w: World, r: Ref): (t: Transition)
    requires r < |w.objects|
    ensures Valid(w) ==> Valid(t.world)
    ensures t.world.objects == w.objects
    ensures w.objects[r].isOpen ==> t == Transition(w, [CloseCall])
    ensures !w.objects[r].isOpen ==> t.world.instance == None && t.effects == []
  {
    if w.objects[r].isOpen then Transition(w, [CloseCall])
    else Transition(w.(instance := None), [])
  }

  /**
   * The callback of the transport close issued by closePort. Success marks the object closed and
   * clears the slot (whichever object it holds); an error leaves everything as it was.
   */
  function CloseFinished(w: World, r: Ref, ok: bool): (t: Transition)
    requires r < |w.objects|
    ensures Valid(w) ==> Valid(t.world)
    ensures t.effects == []
    ensures OthersUnchanged(w, t.world, r)
    ensures ok ==> !t.world.objects[r].isOpen && t.world.instance == None
    ensures ok ==> t.world.objects[r].portName == w.objects[r].portName && t.world.objects[r].baudRate == w.objects[r].baudRate
    ensures !ok ==> t.world == w
  {
    if ok then Transition(World(w.objects[r := w.objects[r].(isOpen := false)], None), [])
    else Transition(w, [])
  }

  /** After the slot is cleared, getInstance builds a fresh object rather than reviving the old one. */
  lemma ClosedSlotGivesFreshObject(w: World, r: Ref, portName: string, baudRate: Option<int>)
    requires r < |w.objects| && !w.objects[r].isOpen
    ensures var c := GetInstance(ClosePort(w, r).world, portName, baudRate);
      c.obj == |w.objects| && c.obj != r && c.world.objects[c.obj].isOpen
  {
  }

  /** sendData(message): refused unless open, otherwise byte by byte; it changes no field. */
  function SendData(p: Port, message: string, outcomes: seq<bool>): (r: PacedWriter.Report)
    ensures !p.isOpen ==> r.written == [] && r.status == PacedWriter.NotOpen
    ensures p.isOpen ==> r.status != PacedWriter.NotOpen
    ensures r.written <= PacedWriter.AsciiBytes(message)
    ensures p.isOpen ==>
      (r.status == PacedWriter.Completed <==> PacedWriter.AllAcknowledged(PacedWriter.AsciiBytes(message), outcomes))
    ensures r.status == PacedWriter.Completed ==> r.written == PacedWriter.AsciiBytes(message)
    ensures r.status == PacedWriter.InFlight ==> |r.written| == |outcomes| + 1
    // a write is only issued after every earlier one succeeded, and an error ends the send
    ensures |r.written| <= |outcomes| + 1
    ensures forall i :: 0 <= i < |r.written| - 1 ==> outcomes[i]
    ensures r.status == PacedWriter.Aborted ==> 0 < |r.written| <= |outcomes| && !outcomes[|r.written| - 1]
  {
    PacedWriter.Send(p.isOpen, message, outcomes)
  }
}
