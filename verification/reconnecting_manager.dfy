/**
 * The reconnecting serial port manager of serial/serial.js as an event-driven state machine.
 *
 * The transport (the serialport library) and the timers are outside the model: what they deliver
 * back to the manager is an `Event`, and every call the manager makes on them is an `Effect`.
 */
module ReconnectingManager {
  import opened Common
  import PacedWriter

  const DefaultBaudRate: int := 115200
  const DefaultDelay: int := 50
  const DefaultMaxTries: int := 5
  /** The fixed pause before a reconnect attempt, in milliseconds. */
  const RetryDelayMs: int := 5000

  datatype Manager = Manager(
    portName: string,
    baudRate: int,
    delay: int,        // pause between bytes, in milliseconds
    maxTries: int,     // reconnect attempts allowed
    currentTries: int, // reconnect attempts made since the last reset
    isOpen: bool)

  /** Calls the manager makes on the transport and the timers. */
  datatype Effect =
    | CreateTransport(path: string, baudRate: int) // the SerialPort object, 8N1, not opened automatically
    | OpenCall                                     // serialPort.open(callback)
    | CloseCall                                    // serialPort.close(callback)
    | ScheduleOpen(afterMs: int)                   // a timer that will call openPort

  /** What the transport, the timers and the caller deliver to the manager. */
  datatype Event =
    | Opened                    // the transport's 'open' event
    | Errored                   // the transport's 'error' event
    | Closed                    // the transport's 'close' event
    | OpenFinished(ok: bool)    // the callback of serialPort.open; ok means no error
    | RetryDue                  // a timer scheduled by reconnect fires
    | CloseRequested            // a caller invokes close()
    | CloseFinished(ok: bool)   // the callback of serialPort.close; ok means no error
    | LineReceived(line: string)// the line parser's 'data' event

  datatype Transition = Transition(next: Manager, effects: seq<Effect>)

  /** The construction-time settings, which no event changes. */
  predicate SameSettings(a: Manager, b: Manager) {
    a.portName == b.portName && a.baudRate == b.baudRate && a.delay == b.delay && a.maxTries == b.maxTries
  }

  /** The attempt counter stays between 0 and the attempt limit (0 when the limit is negative). */
  predicate TriesBounded(m: Manager) {
    0 <= m.currentTries <= Max(m.maxTries, 0)
  }

  /** The constructor: defaults for arguments left undefined, then init(), which ends in openPort(). */
  function New(portName: string, baudRate: Option<int>, delay: Option<int>, maxTries: Option<int>): (t: Transition)
    ensures t.next.portName == portName
    ensures baudRate.None? ==> t.next.baudRate == 115200
    ensures delay.None? ==> t.next.delay == 50
    ensures maxTries.None? ==> t.next.maxTries == 5
    ensures baudRate.Some? ==> t.next.baudRate == baudRate.value
    ensures delay.Some? ==> t.next.delay == delay.value
    ensures maxTries.Some? ==> t.next.maxTries == maxTries.value
    ensures t.next.currentTries == 0 && !t.next.isOpen && TriesBounded(t.next)
    // the transport is created for this port and then opened exactly once
    ensures t.effects == [CreateTransport(portName, t.next.baudRate), OpenCall]
  {
    var m := Manager(portName, baudRate.GetOr(DefaultBaudRate), delay.GetOr(DefaultDelay),
                     maxTries.GetOr(DefaultMaxTries), 0, false);
    Transition(m, [CreateTransport(m.portName, m.baudRate), OpenCall])
  }

  /** reconnect(): one more attempt, five seconds from now, unless the attempts are used up. */
  function Reconnect(m: Manager): (t: Transition)
    // only the attempt counter can change
    ensures t.next.(currentTries := m.currentTries) == m
    // a retry is scheduled exactly when attempts remain, and then exactly one
    ensures t.effects != [] <==> m.currentTries < m.maxTries
    ensures t.effects != [] ==> t.effects == [ScheduleOpen(5000)]
    // the counter counts the retries scheduled
    ensures t.next.currentTries == m.currentTries + |t.effects|
    ensures TriesBounded(m) ==> TriesBounded(t.next)
  {
    if m.currentTries >= m.maxTries then Transition(m, [])
    else Transition(m.(currentTries := m.currentTries + 1), [ScheduleOpen(RetryDelayMs)])
  }

  /** The manager's reaction to one event. */
  function Handle(m: Manager, e: Event): (t: Transition)
    ensures SameSettings(m, t.next)
    ensures TriesBounded(m) ==> TriesBounded(t.next)
    // a successful open resets the attempt counter
    ensures e.Opened? ==> t.next.isOpen && t.next.currentTries == 0 && t.effects == []
    // an error or a failed open drops the connection and falls back on reconnect
    ensures e.Errored? ==> !t.next.isOpen
    ensures e == OpenFinished(false) ==> t.next.isOpen == m.isOpen
    ensures e.Errored? || e == OpenFinished(false) ==>
      && (t.effects == [ScheduleOpen(RetryDelayMs)] <==> m.currentTries < m.maxTries)
      && (m.currentTries >= m.maxTries ==> t.next == m.(isOpen := t.next.isOpen) && t.effects == [])
      && t.next.currentTries == m.currentTries + |t.effects|
    // a close event resets the counter before reconnecting, so it always has an attempt left
    ensures e.Closed? ==> !t.next.isOpen
    ensures e.Closed? && m.maxTries >= 1 ==> t.next.currentTries == 1 && t.effects == [ScheduleOpen(RetryDelayMs)]
    ensures e.Closed? && m.maxTries < 1 ==> t.next.currentTries == 0 && t.effects == []
    // a due retry opens the port again, whatever the state
    ensures e.RetryDue? ==> t.next == m && t.effects == [OpenCall]
    // close() reaches the transport only when the port is open
    ensures e.CloseRequested? ==> t.next == m && (t.effects == [CloseCall] <==> m.isOpen) && (!m.isOpen ==> t.effects == [])
    ensures e.CloseFinished? ==> t.effects == [] && t.next.currentTries == m.currentTries
    ensures e == CloseFinished(true) ==> !t.next.isOpen
    ensures e == CloseFinished(false) ==> t.next == m
    // a successful open callback and a received line change nothing
    ensures e == OpenFinished(true) || e.LineReceived? ==> t == Transition(m, [])
  {
    match e
    case Opened => Transition(m.(isOpen := true, currentTries := 0), [])
    case Errored => Reconnect(m.(isOpen := false))
    case Closed => Reconnect(m.(isOpen := false, currentTries := 0))
    case OpenFinished(ok) => if ok then Transition(m, []) else Reconnect(m)
    case RetryDue => Transition(m, [OpenCall])
    case CloseRequested => if m.isOpen then Transition(m, [CloseCall]) else Transition(m, [])
    case CloseFinished(ok) => if ok then Transition(m.(isOpen := false), []) else Transition(m, [])
    case LineReceived(_) => Transition(m, [])
  }

  /** A sequence of events handled in order, with every effect they cause. */
  function Run(m: Manager, events: seq<Event>): (t: Transition)
    ensures SameSettings(m, t.next)
    decreases |events|
  {
    if |events| == 0 then Transition(m, [])
    else
      var first := Handle(m, events[0]);
      var rest := Run(first.next, events[1..]);
      Transition(rest.next, first.effects + rest.effects)
  }

  /** The number of reconnect attempts scheduled among some effects. */
  function Retries(effects: seq<Effect>): nat {
    if |effects| == 0 then 0
    else (if effects[0].ScheduleOpen? then 1 else 0) + Retries(effects[1..])
  }

  lemma {:induction false} RetriesOfConcat(a: seq<Effect>, b: seq<Effect>)
    ensures Retries(a + b) == Retries(a) + Retries(b)
    decreases |a|
  {
    if |a| == 0 {
      assert a + b == b;
    } else {
      RetriesOfConcat(a[1..], b);
      assert (a + b)[1..] == a[1..] + b;
    }
  }

  /** The attempt counter can never pass its limit, whatever the events. */
  lemma {:induction false} RunKeepsTriesBounded(m: Manager, events: seq<Event>)
    requires TriesBounded(m)
    ensures TriesBounded(Run(m, events).next)
    decreases |events|
  {
    if |events| > 0 {
      RunKeepsTriesBounded(Handle(m, events[0]).next, events[1..]);
    }
  }

  /** Every state a freshly constructed manager can reach keeps its counter within the limit. */
  lemma ReachableTriesBounded(portName: string, baudRate: Option<int>, delay: Option<int>,
                              maxTries: Option<int>, events: seq<Event>)
    ensures var m := Run(New(portName, baudRate, delay, maxTries).next, events).next;
      0 <= m.currentTries <= Max(m.maxTries, 0)
  {
    RunKeepsTriesBounded(New(portName, baudRate, delay, maxTries).next, events);
  }

  /**
   * While no open or close event resets the counter, every retry scheduled is paid for by the
   * counter: the retries scheduled are exactly the counter's increase.
   */
  lemma {:induction false} RetriesFollowCounter(m: Manager, events: seq<Event>)
    requires forall i :: 0 <= i < |events| ==> !events[i].Opened? && !events[i].Closed?
    ensures Retries(Run(m, events).effects) == Run(m, events).next.currentTries - m.currentTries
    decreases |events|
  {
    if |events| > 0 {
      var first := Handle(m, events[0]);
      RetriesFollowCounter(first.next, events[1..]);
      RetriesOfConcat(first.effects, Run(first.next, events[1..]).effects);
    }
  }

  /** Hence, between resets, at most the remaining attempts are ever scheduled. */
  lemma RetriesBounded(m: Manager, events: seq<Event>)
    requires TriesBounded(m)
    requires forall i :: 0 <= i < |events| ==> !events[i].Opened? && !events[i].Closed?
    ensures Retries(Run(m, events).effects) <= Max(m.maxTries, 0) - m.currentTries
  {
    RetriesFollowCounter(m, events);
    RunKeepsTriesBounded(m, events);
  }

  /**
   * Port "COM3" with two attempts allowed, whose every open fails: two retries are scheduled, the
   * counter stops at 2, and the third failure schedules nothing. There is no terminal state: the
   * manager simply stops scheduling.
   */
  lemma TwoAttemptsThenSilence()
    ensures var start := New("COM3", None, None, Some(2));
      var t := Run(start.next, [OpenFinished(false), RetryDue, OpenFinished(false), RetryDue, OpenFinished(false)]);
      && t.next.currentTries == 2
      && start.effects + t.effects
         == [CreateTransport("COM3", 115200), OpenCall,
             ScheduleOpen(5000), OpenCall, ScheduleOpen(5000), OpenCall]
  {
  }

  /**
   * Nothing stops two retry timers from being pending at once: an error followed by a failed
   * open schedules two retries with no retry firing in between.
   */
  lemma RetriesCanOverlap(m: Manager)
    requires m.currentTries == 0 && m.maxTries >= 2
    ensures Run(m, [Errored, OpenFinished(false)]).effects == [ScheduleOpen(5000), ScheduleOpen(5000)]
  {
  }

  /**
   * An explicit close() is not final: once it succeeds, the transport's close event that follows
   * resets the counter and schedules a reconnect.
   */
  lemma CloseIsFollowedByReconnect(m: Manager)
    requires m.isOpen && m.maxTries >= 1
    ensures var t := Run(m, [CloseRequested, CloseFinished(true), Closed]);
      t.effects == [CloseCall, ScheduleOpen(5000)] && !t.next.isOpen && t.next.currentTries == 1
  {
  }

  /** sendBytes(message): refused unless open, otherwise byte by byte; it changes no field. */
  function SendBytes(m: Manager, message: string, outcomes: seq<bool>): (r: PacedWriter.Report)
    ensures !m.isOpen ==> r.written == [] && r.status == PacedWriter.NotOpen
    ensures m.isOpen ==> r.status != PacedWriter.NotOpen
    ensures r.written <= PacedWriter.AsciiBytes(message)
    ensures m.isOpen ==>
      (r.status == PacedWriter.Completed <==> PacedWriter.AllAcknowledged(PacedWriter.AsciiBytes(message), outcomes))
    ensures r.status == PacedWriter.Completed ==> r.written == PacedWriter.AsciiBytes(message)
    ensures r.status == PacedWriter.InFlight ==> |r.written| == |outcomes| + 1
    // a write is only issued after every earlier one succeeded, and an error ends the send
    ensures |r.written| <= |outcomes| + 1
    ensures forall i :: 0 <= i < |r.written| - 1 ==> outcomes[i]
    ensures r.status == PacedWriter.Aborted ==> 0 < |r.written| <= |outcomes| && !outcomes[|r.written| - 1]
  {
    PacedWriter.Send(m.isOpen, message, outcomes)
  }
}
