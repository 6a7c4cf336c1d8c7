/**
 * The byte-at-a-time writer that both serial managers use (`sendBytes` in serial/serial.js,
 * `sendData` in serial/serial_dev.js).
 *
 * The writer issues one transport write per byte and only moves on once that write's callback
 * has reported success; a failed write ends the message. The pause between bytes is a timer and
 * is not modelled: the environment is described by the sequence of callback results, where
 * `outcomes[k]` is what the callback of the k-th write reported (`true` for no error). When the
 * outcomes run out before the message does, the last write issued is still awaiting its callback.
 */
module PacedWriter {
  import opened Common

  /** How a send ended. */
  datatype Status =
    | NotOpen    // refused up front because the port was not open: nothing is written
    | Completed  // every byte was written and acknowledged
    | Aborted    // the callback of the last write reported an error: the rest of the message is dropped
    | InFlight   // the last write issued has not reported back yet

  /** The bytes handed to the transport, one write call each, in the order they were issued. */
  datatype Report = Report(written: seq<Byte>, status: Status)

  /** `Buffer.from(message, 'ascii')`: one byte per character, its low eight bits. */
  function AsciiBytes(message: string): (bytes: seq<Byte>)
    ensures |bytes| == |message|
    // like latin1: a code below 256 is kept, a larger one keeps its low eight bits
    ensures forall i :: 0 <= i < |message| && (message[i] as int) < 256 ==> bytes[i] == message[i] as int
    ensures forall i :: 0 <= i < |message| ==> (message[i] as int - bytes[i]) % 256 == 0
  {
    seq(|message|, i requires 0 <= i < |message| => (message[i] as int) % 256)
  }

  /** Every byte of the message gets a successful callback. */
  predicate AllAcknowledged(bytes: seq<Byte>, outcomes: seq<bool>) {
    |bytes| <= |outcomes| && forall i :: 0 <= i < |bytes| ==> outcomes[i]
  }

  /**
   * The chain of `sendNextByte` callbacks, unrolled: write the first byte, stop if its callback
   * reports an error, otherwise carry on with the rest.
   */
  function Transmit(bytes: seq<Byte>, outcomes: seq<bool>): Report
    decreases |bytes|
  {
    if |bytes| == 0 then Report([], Completed)
    else if |outcomes| == 0 then Report([bytes[0]], InFlight)
    else if !outcomes[0] then Report([bytes[0]], Aborted)
    else
      var rest := Transmit(bytes[1..], outcomes[1..]);
      Report([bytes[0]] + rest.written, rest.status)
  }

  /** What a transmission does, for every message and every sequence of callback results. */
  lemma {:induction false} TransmitMeaning(bytes: seq<Byte>, outcomes: seq<bool>)
    ensures var r := Transmit(bytes, outcomes);
      // the bytes written are the message's own bytes, in order
      && r.written <= bytes
      && r.status != NotOpen
      // a write is only issued after every earlier one succeeded
      && (forall i :: 0 <= i < |r.written| - 1 ==> i < |outcomes| && outcomes[i])
      && (r.status == Completed <==> AllAcknowledged(bytes, outcomes))
      && (r.status == Completed ==> r.written == bytes)
      // an error stops the message right after the write that failed
      && (r.status == Aborted ==> 0 < |r.written| <= |outcomes| && !outcomes[|r.written| - 1])
      && (r.status == InFlight ==> |r.written| == |outcomes| + 1)
    decreases |bytes|
  {
    if |bytes| > 0 && |outcomes| > 0 && outcomes[0] {
      TransmitMeaning(bytes[1..], outcomes[1..]);
      var rest := Transmit(bytes[1..], outcomes[1..]);
      assert Transmit(bytes, outcomes) == Report([bytes[0]] + rest.written, rest.status);
      assert AllAcknowledged(bytes, outcomes) <==> AllAcknowledged(bytes[1..], outcomes[1..]);
    }
  }

  lemma ConcatAssociative<T>(a: seq<T>, b: seq<T>, c: seq<T>)
    ensures a + (b + c) == (a + b) + c
  {
  }

  /** One acknowledged write: what follows is the transmission of the rest. */
  lemma TransmitAcknowledgedHead(bytes: seq<Byte>, outcomes: seq<bool>)
    requires 0 < |bytes| && 0 < |outcomes| && outcomes[0]
    ensures Transmit(bytes, outcomes)
         == Report([bytes[0]] + Transmit(bytes[1..], outcomes[1..]).written, Transmit(bytes[1..], outcomes[1..]).status)
  {
  }

  /** Skipping a run of acknowledged writes: what follows is the transmission of the remainder. */
  lemma {:induction false} TransmitAfterAcknowledged(bytes: seq<Byte>, outcomes: seq<bool>, k: nat)
    requires k <= |bytes| && k <= |outcomes|
    requires forall i :: 0 <= i < k ==> outcomes[i]
    ensures Transmit(bytes, outcomes)
         == Report(bytes[..k] + Transmit(bytes[k..], outcomes[k..]).written, Transmit(bytes[k..], outcomes[k..]).status)
    decreases k
  {
    if k == 0 {
      assert bytes[..0] == [] && bytes[0..] == bytes && outcomes[0..] == outcomes;
    } else {
      TransmitAcknowledgedHead(bytes, outcomes);
      var bs, os := bytes[1..], outcomes[1..];
      assert forall i :: 0 <= i < k - 1 ==> os[i] == outcomes[i + 1];
      TransmitAfterAcknowledged(bs, os, k - 1);
      assert bs[k - 1..] == bytes[k..];
      assert os[k - 1..] == outcomes[k..];
      var rest := Transmit(bytes[k..], outcomes[k..]);
      assert Transmit(bs, os).written == bs[..k - 1] + rest.written;
      ConcatAssociative([bytes[0]], bs[..k - 1], rest.written);
      assert [bytes[0]] + bs[..k - 1] == bytes[..k];
    }
  }

  /**
   * The same writer as a loop over `index`, the way `sendNextByte` advances it: it agrees with
   * the recursive description on every message and every sequence of callback results.
   */
  method SendLoop(bytes: seq<Byte>, outcomes: seq<bool>) returns (written: seq<Byte>, status: Status)
    ensures Report(written, status) == Transmit(bytes, outcomes)
  {
    var index := 0;
    written := [];
    while index < |bytes| && index < |outcomes| && outcomes[index]
      invariant index <= |bytes| && index <= |outcomes|
      invariant written == bytes[..index]
      invariant forall i :: 0 <= i < index ==> outcomes[i]
    {
      written := written + [bytes[index]];
      index := index + 1;
    }
    TransmitAfterAcknowledged(bytes, outcomes, index);
    if index == |bytes| {
      status := Completed;
      assert bytes[..index] == bytes;
    } else {
      written := written + [bytes[index]];
      status := if index == |outcomes| then InFlight else Aborted;
      assert bytes[..index] + [bytes[index]] == bytes[..index + 1];
    }
  }

  /** A send request: refused unless the port is open, otherwise the message goes out byte by byte. */
  function Send(isOpen: bool, message: string, outcomes: seq<bool>): (r: Report)
    ensures r.status == NotOpen <==> !isOpen
    ensures !isOpen ==> r.written == []
    ensures r.written <= AsciiBytes(message)
    ensures r.status == Completed ==> r.written == AsciiBytes(message)
    ensures isOpen ==> (r.status == Completed <==> AllAcknowledged(AsciiBytes(message), outcomes))
    ensures r.status == InFlight ==> |r.written| == |outcomes| + 1
    // a write is only issued after every earlier one succeeded, and an error ends the send
    ensures |r.written| <= |outcomes| + 1
    ensures forall i :: 0 <= i < |r.written| - 1 ==> outcomes[i]
    ensures r.status == Aborted ==> 0 < |r.written| <= |outcomes| && !outcomes[|r.written| - 1]
  {
    if !isOpen then Report([], NotOpen)
    else
      TransmitMeaning(AsciiBytes(message), outcomes);
      Transmit(AsciiBytes(message), outcomes)
  }

  /**
   * The longest prefix up to and including the first failed write: when write j is the first to
   * fail, an open port writes exactly the first j + 1 bytes and the send is aborted.
   */
  lemma FirstFailureAborts(message: string, outcomes: seq<bool>, j: nat)
    requires j < |message| && j < |outcomes| && !outcomes[j]
    requires forall i :: 0 <= i < j ==> outcomes[i]
    ensures Send(true, message, outcomes) == Report(AsciiBytes(message)[..j + 1], Aborted)
  {
    var r := Send(true, message, outcomes);
    assert !AllAcknowledged(AsciiBytes(message), outcomes);
    assert r.status == Aborted;
  }
}
