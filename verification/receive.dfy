/** `runReceiveMessage` of kahla/websocket.go as a fold over the results of
    successive `ReadMessage` calls: decoded events go out in frame order, and
    the first read error or decode error ends the loop. */
module Receive {
  import opened Wrappers
  import Events

  /** One `conn.ReadMessage()` call. */
  datatype ReadResult = ReadOk(frame: Events.Frame) | ReadFailed(cause: Cause)

  /** What the loop sends on `errChan` before it exits. */
  datatype LoopError = ReadError(cause: Cause) | DecodeFailure(err: Events.DecodeError)

  /** The values sent on the `Event` channel, and the error sent on `errChan`
      (None while the loop is still reading). */
  datatype ReceiveRun = ReceiveRun(emitted: seq<Events.Value>, stop: Option<LoopError>)

  /** A read that delivers an event and lets the loop go on. */
  predicate Delivers(r: ReadResult) {
    r.ReadOk? && Events.DecodeWebSocketEvent(r.frame).err.None?
  }

  /** The event a delivering read puts on the channel. */
  function EventOf(r: ReadResult): Events.Value
    requires Delivers(r)
  {
    Events.DecodeWebSocketEvent(r.frame).value
  }

  /** The error a read that does not deliver sends on `errChan`. */
  function ErrorOf(r: ReadResult): LoopError
    requires !Delivers(r)
  {
    match r
    case ReadFailed(c) => ReadError(c)
    case ReadOk(f) => DecodeFailure(Events.DecodeWebSocketEvent(f).err.value)
  }

  function RunReceiveMessage(rs: seq<ReadResult>): (r: ReceiveRun)
    // the loop runs through every read, or stops at one that does not deliver, with its error
    ensures |r.emitted| <= |rs|
    ensures r.stop.None? <==> |r.emitted| == |rs|
    ensures r.stop.Some? ==> !Delivers(rs[|r.emitted|]) && r.stop.value == ErrorOf(rs[|r.emitted|])
  {
    if |rs| == 0 then ReceiveRun([], None)
    else if !Delivers(rs[0]) then ReceiveRun([], Some(ErrorOf(rs[0])))
    else
      var rest := RunReceiveMessage(rs[1..]);
      ReceiveRun([EventOf(rs[0])] + rest.emitted, rest.stop)
  }

  /** The loop emits, in frame order, the event of every read before the
      first one that does not deliver, and stops there with that read's error. */
  lemma {:induction false} ReceiveStopsAtFirstFailure(rs: seq<ReadResult>)
    ensures var r := RunReceiveMessage(rs);
      && |r.emitted| <= |rs|
      && (forall j :: 0 <= j < |r.emitted| ==> Delivers(rs[j]) && r.emitted[j] == EventOf(rs[j]))
      && (r.stop.None? <==> |r.emitted| == |rs|)
      && (r.stop.Some? ==> !Delivers(rs[|r.emitted|]) && r.stop.value == ErrorOf(rs[|r.emitted|]))
  {
    if |rs| > 0 && Delivers(rs[0]) {
      ReceiveStopsAtFirstFailure(rs[1..]);
    }
  }

  /** Every value the loop emits is one of the four event structs with its own type. */
  lemma EmittedAreWellTyped(rs: seq<ReadResult>)
    ensures forall j :: 0 <= j < |RunReceiveMessage(rs).emitted| ==>
      Events.WellTyped(RunReceiveMessage(rs).emitted[j])
  {
    ReceiveStopsAtFirstFailure(rs);
  }

  /** Once the loop has stopped, nothing read afterwards is decoded or emitted. */
  lemma {:induction false} NothingAfterStop(rs: seq<ReadResult>, later: seq<ReadResult>)
    requires RunReceiveMessage(rs).stop.Some?
    ensures RunReceiveMessage(rs + later) == RunReceiveMessage(rs)
  {
    assert |rs| > 0;
    assert (rs + later)[0] == rs[0];
    if Delivers(rs[0]) {
      assert (rs + later)[1..] == rs[1..] + later;
      NothingAfterStop(rs[1..], later);
    }
  }

  /** While the loop keeps going, reading more frames only appends events. */
  lemma {:induction false} ReadingMoreAppends(rs: seq<ReadResult>, later: seq<ReadResult>)
    requires RunReceiveMessage(rs).stop.None?
    ensures RunReceiveMessage(rs + later).emitted
            == RunReceiveMessage(rs).emitted + RunReceiveMessage(later).emitted
    ensures RunReceiveMessage(rs + later).stop == RunReceiveMessage(later).stop
  {
    if |rs| == 0 {
      assert rs + later == later;
    } else {
      Unfold(rs);
      ReadingMoreAppends(rs[1..], later);
      UnfoldDelivering(rs, later);
      var e, tail, rest := EventOf(rs[0]), RunReceiveMessage(rs[1..]).emitted, RunReceiveMessage(later).emitted;
      assert [e] + (tail + rest) == ([e] + tail) + rest;
    }
  }

  /** One step of the fold past the first read of a loop that has not stopped. */
  lemma Unfold(rs: seq<ReadResult>)
    requires |rs| > 0 && RunReceiveMessage(rs).stop.None?
    ensures Delivers(rs[0])
    ensures RunReceiveMessage(rs).emitted == [EventOf(rs[0])] + RunReceiveMessage(rs[1..]).emitted
    ensures RunReceiveMessage(rs[1..]).stop.None?
  {
  }

  /** One step of the fold past a read that delivers. */
  lemma UnfoldDelivering(rs: seq<ReadResult>, later: seq<ReadResult>)
    requires |rs| > 0 && Delivers(rs[0])
    ensures RunReceiveMessage(rs + later).emitted == [EventOf(rs[0])] + RunReceiveMessage(rs[1..] + later).emitted
    ensures RunReceiveMessage(rs + later).stop == RunReceiveMessage(rs[1..] + later).stop
  {
    var all := rs + later;
    assert all[0] == rs[0];
    assert all[1..] == rs[1..] + later;
  }
}
