/** The session side of kahla/websocket.go: the four socket states,
    `changeState` with its lossy notification, and `Connect` as a transition
    function over an abstract trace of what its `select` loop observes.
    Goroutines, channels, the 45-second ticker and the one-second close
    grace period appear only as the order of events in that trace. */
module Session {
  import opened Wrappers
  import Receive

  /** `WebSocketStateNew` .. `WebSocketStateClosed`. */
  datatype SocketState = New | Connected | Disconnected | Closed {
    /** The `iota` value of the state constant. */
    function Code(): int {
      match this
      case New => 0
      case Connected => 1
      case Disconnected => 2
      case Closed => 3
    }
  }

  /** The state constant an `int` stands for, if any. */
  function StateOfCode(code: int): (r: Option<SocketState>)
    ensures r.Some? <==> 0 <= code <= 3
    ensures r.Some? ==> r.value.Code() == code
  {
    if code == 0 then Some(New)
    else if code == 1 then Some(Connected)
    else if code == 2 then Some(Disconnected)
    else if code == 3 then Some(Closed)
    else None
  }

  /** Each state has its own constant. */
  lemma StateCodeRoundTrip(s: SocketState)
    ensures StateOfCode(s.Code()) == Some(s)
  {
  }

  // ---------------------------------------------------------------------------
  // changeState and the StateChanged channel
  // ---------------------------------------------------------------------------

  /** The socket as an observer sees it: the `State` field, and the states
      that were actually received from the unbuffered `StateChanged` channel. */
  datatype WebSocket = WebSocket(state: SocketState, observed: seq<SocketState>)

  /** `changeState`: `State` is always set; the notification reaches the
      channel only if a receiver is waiting at that moment, else it is dropped. */
  function ChangeState(w: WebSocket, s: SocketState, receiverWaiting: bool): (w': WebSocket)
    ensures w'.state == s
    ensures receiverWaiting ==> w'.observed == w.observed + [s]
    ensures !receiverWaiting ==> w'.observed == w.observed
  {
    WebSocket(s, if receiverWaiting then w.observed + [s] else w.observed)
  }

  /** `NewWebSocket`: the channel has just been made, so nobody receives the first change. */
  function NewWebSocket(): (w: WebSocket)
    ensures w.state == New && w.observed == []
  {
    ChangeState(WebSocket(New, []), New, false)
  }

  /** Applies a sequence of state changes, the i-th finding a receiver iff `waiting[i]`. */
  function Broadcast(w: WebSocket, changes: seq<SocketState>, waiting: seq<bool>): WebSocket
    requires |waiting| == |changes|
    decreases |changes|
  {
    if |changes| == 0 then w
    else Broadcast(ChangeState(w, changes[0], waiting[0]), changes[1..], waiting[1..])
  }

  /** The changes that found a receiver, in the order they were made. */
  function Heard(changes: seq<SocketState>, waiting: seq<bool>): seq<SocketState>
    requires |waiting| == |changes|
  {
    if |changes| == 0 then []
    else (if waiting[0] then [changes[0]] else []) + Heard(changes[1..], waiting[1..])
  }

  /** Observers receive exactly the changes that found a receiver, in order. */
  lemma {:induction false} BroadcastObservesHeard(w: WebSocket, changes: seq<SocketState>, waiting: seq<bool>)
    requires |waiting| == |changes|
    ensures Broadcast(w, changes, waiting).observed == w.observed + Heard(changes, waiting)
    decreases |changes|
  {
    if |changes| > 0 {
      var w1 := ChangeState(w, changes[0], waiting[0]);
      BroadcastObservesHeard(w1, changes[1..], waiting[1..]);
      var h := if waiting[0] then [changes[0]] else [];
      assert w1.observed == w.observed + h;
      assert w.observed + h + Heard(changes[1..], waiting[1..]) == w.observed + Heard(changes, waiting);
    }
  }

  /** However many notifications are lost, the state is the last one set, and
      every observed value was really set. */
  lemma {:induction false} BroadcastKeepsLastState(w: WebSocket, changes: seq<SocketState>, waiting: seq<bool>)
    requires |waiting| == |changes|
    ensures var w' := Broadcast(w, changes, waiting);
      && w'.state == (if |changes| == 0 then w.state else changes[|changes| - 1])
      && w.observed <= w'.observed
      && |w'.observed| <= |w.observed| + |changes|
      && (forall i :: |w.observed| <= i < |w'.observed| ==> w'.observed[i] in changes)
      && ((forall b :: b in waiting ==> b) ==> w'.observed == w.observed + changes)
    decreases |changes|
  {
    if |changes| > 0 {
      var w1 := ChangeState(w, changes[0], waiting[0]);
      BroadcastKeepsLastState(w1, changes[1..], waiting[1..]);
      var w' := Broadcast(w1, changes[1..], waiting[1..]);
      forall i | |w.observed| <= i < |w'.observed|
        ensures w'.observed[i] in changes
      {
        if i < |w1.observed| {
          assert w1.observed == w.observed + [changes[0]];
          assert w'.observed[i] == w1.observed[i];
          assert w'.observed[i] == changes[0];
        } else {
          var x := w'.observed[i];
          assert x in changes[1..];
          var k :| 0 <= k < |changes[1..]| && changes[1..][k] == x;
          assert changes[k + 1] == x;
        }
      }
      if forall b :: b in waiting ==> b {
        assert waiting[0] in waiting;
        forall b | b in waiting[1..] ensures b { assert b in waiting; }
        assert w1.observed == w.observed + [changes[0]];
        assert w.observed + [changes[0]] + changes[1..] == w.observed + changes;
      }
    }
  }

  // ---------------------------------------------------------------------------
  // Frames written by Connect
  // ---------------------------------------------------------------------------

  /** Status code "normal closure", section 7.4.1 of RFC 6455. */
  const CloseNormalClosure := 1000
  /** Status code 1005, which section 7.4.1 of RFC 6455 forbids putting in a close frame. */
  const CloseNoStatusReceived := 1005

  /** A frame `Connect` hands to `WriteMessage`. */
  datatype OutFrame = TextMessage(payload: seq<byte>) | CloseMessage(payload: seq<byte>)

  /** The empty text frame sent as a heartbeat. */
  const Heartbeat := TextMessage([])

  /** The close frame body of section 5.5.1 of RFC 6455: the status code as
      two bytes in network order, then the reason; empty for 1005. */
  function FormatCloseMessage(code: nat, reason: seq<byte>): (p: seq<byte>)
    requires code < 0x1_0000
    ensures code == CloseNoStatusReceived ==> p == []
    ensures code != CloseNoStatusReceived ==> |p| == 2 + |reason| && p[2..] == reason
    ensures code != CloseNoStatusReceived ==> p[0] as int * 256 + p[1] as int == code
  {
    if code == CloseNoStatusReceived then []
    else [(code / 256) as byte, (code % 256) as byte] + reason
  }

  /** Reads a close frame body back into its status code and reason. */
  function ParseCloseMessage(p: seq<byte>): Option<(nat, seq<byte>)> {
    if |p| < 2 then None else Some(((p[0] as int) * 256 + p[1] as int, p[2..]))
  }

  lemma CloseMessageRoundTrip(code: nat, reason: seq<byte>)
    requires code < 0x1_0000 && code != CloseNoStatusReceived
    ensures ParseCloseMessage(FormatCloseMessage(code, reason)) == Some((code, reason))
  {
  }

  /** The frame the interrupt path sends: normal closure with no reason. */
  const NormalCloseFrame := CloseMessage(FormatCloseMessage(CloseNormalClosure, []))

  // ---------------------------------------------------------------------------
  // Connect
  // ---------------------------------------------------------------------------

  datatype DialOutcome = DialOk | DialFailed(cause: Cause)
  datatype WriteOutcome = WriteOk | WriteFailed(cause: Cause)

  /** What the `select` loop of `Connect` picks up, in the order it does. */
  datatype ControlEvent =
    | ReadLoopDone                               // `done` closed
    | ReadLoopFailed(err: Receive.LoopError)     // a value on `errChan`
    | HeartbeatTick(write: WriteOutcome)         // the ticker fired; how the heartbeat write went
    | Interrupt(write: WriteOutcome)             // `interrupt`; how the close-frame write went

  /** The errors `Connect` can return. */
  datatype ConnectError =
    | DialError(cause: Cause)
    | ReadLoopError(err: Receive.LoopError)
    | WriteError(cause: Cause)

  /** Whether `Connect` has returned (and with which error) or still waits in `select`. */
  datatype Outcome = Waiting | Returned(err: Option<ConnectError>)

  /** One `Connect` call: the final `State`, every state it set in order, the
      frames it tried to write, and how many trace events it consumed. */
  datatype ConnectRun = ConnectRun(
    state: SocketState,
    changes: seq<SocketState>,
    written: seq<OutFrame>,
    consumed: nat,
    outcome: Outcome)

  /** The only event after which the loop keeps going. */
  predicate KeepsGoing(e: ControlEvent) {
    e == HeartbeatTick(WriteOk)
  }

  /** The frame an event makes `Connect` write, if any. */
  function WriteFor(e: ControlEvent): seq<OutFrame> {
    match e
    case HeartbeatTick(_) => [Heartbeat]
    case Interrupt(_) => [NormalCloseFrame]
    case _ => []
  }

  /** The state `Connect` ends in and the error it returns when `e` makes it return. */
  function Finish(e: ControlEvent): (r: (SocketState, Option<ConnectError>))
    requires !KeepsGoing(e)
    ensures r.0 == (if e.Interrupt? then Closed else Disconnected)
  {
    match e
    case ReadLoopDone => (Disconnected, None)
    case ReadLoopFailed(err) => (Disconnected, Some(ReadLoopError(err)))
    case HeartbeatTick(w) => (Disconnected, Some(WriteError(w.cause)))
    case Interrupt(WriteOk) => (Closed, None)
    case Interrupt(WriteFailed(c)) => (Closed, Some(WriteError(c)))
  }

  /** n heartbeat frames. */
  function Heartbeats(n: nat): (s: seq<OutFrame>)
    ensures |s| == n
  {
    if n == 0 then [] else [Heartbeat] + Heartbeats(n - 1)
  }

  /** A strictly forward path through New, Connected, Disconnected/Closed. */
  predicate MovesForward(changes: seq<SocketState>) {
    forall i, j :: 0 <= i < j < |changes| ==> changes[i].Code() < changes[j].Code()
  }

  /** The `for { select { ... } }` loop, entered in state `Connected`. */
  function SelectLoop(trace: seq<ControlEvent>): (r: ConnectRun)
    ensures 1 <= |r.changes| <= 2 && r.changes[0] == Connected
    ensures r.consumed <= |trace|
    // while it waits nothing has changed; once it returns it has set exactly one terminal state
    ensures r.outcome.Waiting? ==> r.changes == [Connected] && r.state == Connected
    ensures r.outcome.Returned? ==>
      1 <= r.consumed && r.changes == [Connected, r.state] && r.state in {Disconnected, Closed}
    decreases |trace|
  {
    if |trace| == 0 then ConnectRun(Connected, [Connected], [], 0, Waiting)
    else if KeepsGoing(trace[0]) then
      var rest := SelectLoop(trace[1..]);
      ConnectRun(rest.state, rest.changes, [Heartbeat] + rest.written, rest.consumed + 1, rest.outcome)
    else
      var (s, err) := Finish(trace[0]);
      ConnectRun(s, [Connected, s], WriteFor(trace[0]), 1, Returned(err))
  }

  /** Only successful heartbeats keep the loop going, each writing one empty
      text frame; the first other event decides the end state, the error
      returned and the last frame written. */
  lemma {:induction false} SelectLoopDecidedByFirstOtherEvent(trace: seq<ControlEvent>)
    ensures var r := SelectLoop(trace);
      && (forall i :: 0 <= i < r.consumed - 1 ==> KeepsGoing(trace[i]))
      && (r.outcome.Waiting? ==>
            && r.consumed == |trace|
            && (|trace| > 0 ==> KeepsGoing(trace[|trace| - 1]))
            && r.written == Heartbeats(|trace|))
      && (r.outcome.Returned? ==>
            var e := trace[r.consumed - 1];
            && !KeepsGoing(e)
            && (r.state, r.outcome.err) == Finish(e)
            && r.written == Heartbeats(r.consumed - 1) + WriteFor(e))
    decreases |trace|
  {
    if |trace| > 0 && KeepsGoing(trace[0]) {
      SelectLoopDecidedByFirstOtherEvent(trace[1..]);
      var rest := SelectLoop(trace[1..]);
      assert forall i :: 0 <= i < rest.consumed ==> trace[1..][i] == trace[i + 1];
    }
  }

  /** `Connect` on a socket whose `State` is `state`. */
  function Connect(state: SocketState, dial: DialOutcome, trace: seq<ControlEvent>): (r: ConnectRun)
    // a failed dial returns its error and changes nothing
    ensures dial.DialFailed? ==>
      r == ConnectRun(state, [], [], 0, Returned(Some(DialError(dial.cause))))
    // a successful dial goes to Connected first and only ever moves forward
    ensures dial.DialOk? ==> |r.changes| >= 1 && r.changes[0] == Connected && MovesForward(r.changes)
    ensures dial.DialOk? ==> forall i :: 0 < i < |r.changes| ==> r.changes[i] in {Disconnected, Closed}
    // the state left behind is the one last set; Connect only returns from Disconnected or Closed
    ensures dial.DialOk? ==> r.state == r.changes[|r.changes| - 1]
    ensures dial.DialOk? && r.outcome.Returned? ==> r.state in {Disconnected, Closed}
    ensures dial.DialOk? && r.outcome.Waiting? ==> r.state == Connected
    // what it returns after a successful dial is decided event by event by the select loop
    ensures dial.DialOk? ==> r == SelectLoop(trace)
  {
    match dial
    case DialFailed(c) => ConnectRun(state, [], [], 0, Returned(Some(DialError(c))))
    case DialOk => SelectLoop(trace)
  }

  /** Events after the one that made `Connect` return are never looked at. */
  lemma {:induction false} NothingAfterReturn(trace: seq<ControlEvent>, later: seq<ControlEvent>)
    requires SelectLoop(trace).outcome.Returned?
    ensures SelectLoop(trace + later) == SelectLoop(trace)
    decreases |trace|
  {
    assert (trace + later)[0] == trace[0];
    if KeepsGoing(trace[0]) {
      assert (trace + later)[1..] == trace[1..] + later;
      NothingAfterReturn(trace[1..], later);
    }
  }

  /** After n successful heartbeats, the next event decides how `Connect` ends. */
  lemma HeartbeatsThen(n: nat, e: ControlEvent)
    ensures var r := SelectLoop(seq(n, _ => HeartbeatTick(WriteOk)) + [e]);
      && (e == HeartbeatTick(WriteOk) ==> r.outcome == Waiting && r.state == Connected)
      && (e.HeartbeatTick? && e.write.WriteFailed? ==>
            r.state == Disconnected && r.outcome == Returned(Some(WriteError(e.write.cause))))
      && (e == ReadLoopDone ==> r.state == Disconnected && r.outcome == Returned(None))
      && (e.ReadLoopFailed? ==> r.state == Disconnected && r.outcome == Returned(Some(ReadLoopError(e.err))))
      && (e.Interrupt? ==> r.state == Closed && r.written[|r.written| - 1] == NormalCloseFrame)
      && (e == Interrupt(WriteOk) ==> r.outcome == Returned(None))
      && (e.Interrupt? && e.write.WriteFailed? ==> r.outcome == Returned(Some(WriteError(e.write.cause))))
  {
    var t := seq(n, _ => HeartbeatTick(WriteOk)) + [e];
    SelectLoopDecidedByFirstOtherEvent(t);
    var r := SelectLoop(t);
    if r.outcome.Returned? {
      assert !KeepsGoing(t[r.consumed - 1]);
      assert r.consumed - 1 == n;
    }
  }

  /** A state set by `Connect` survives however many notifications are lost. */
  lemma StateSurvivesLostNotifications(w: WebSocket, dial: DialOutcome, trace: seq<ControlEvent>, waiting: seq<bool>)
    requires |waiting| == |Connect(w.state, dial, trace).changes|
    ensures Broadcast(w, Connect(w.state, dial, trace).changes, waiting).state
            == Connect(w.state, dial, trace).state
  {
    BroadcastKeepsLastState(w, Connect(w.state, dial, trace).changes, waiting);
  }
}
