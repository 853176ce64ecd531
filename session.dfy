/**
  The meaning of one client session of `handle_client`, as a function of the
  outcomes the outside world produces. Each pass of the `while True` loop is a
  `Round`: the client read, then (under the lock) the slot as other sessions
  left it, what opening a connection would do, the remote write, the remote
  read and the client write. Outcomes a pass never reaches are ignored.
*/
module Session {
  import opened Wrappers
  import opened Bytes
  import opened RemoteConnection
  import ResponseTransform

  /** `MAX_TIMEOUTS`: remote timeouts in a row after which the connection is dropped. */
  const MAX_TIMEOUTS: nat := 5

  /** Which `except` clause an exception lands in: `ConnectionError`, or any other. */
  datatype Fault = ConnectionFault | OtherFault

  /** What a `read(BUFFER_SIZE)` under `wait_for` does; `Received([])` is the end of the stream. */
  datatype ReadOutcome = TimedOut | ReadFailed(fault: Fault) | Received(bytes: seq<Byte>)

  /** What a `write` does. */
  datatype WriteOutcome = Written | WriteFailed(fault: Fault)

  /** What other sessions did to the shared slot while this one waited for the lock. */
  datatype Interference = Quiet | SlotSetTo(slot: Option<Connection>)

  /** The outcomes the world produces during one pass of the loop. */
  datatype Round = Round(
    clientRead: ReadOutcome,
    others: Interference,
    open: OpenOutcome,
    remoteWrite: WriteOutcome,
    remoteRead: ReadOutcome,
    clientWrite: WriteOutcome)

  /** `return_reason`: `'unknown'`, or the cause the session gives when it returns. */
  datatype Reason =
    | Unknown
    | NoClientData
    | ClientReadError
    | RemoteWriteError(fault: Fault)
    | RemoteReadError(fault: Fault)
    | TooManyTimeouts(count: nat)
    | ClientWriteError(fault: Fault)

  /** A record of the bytes the session moved, in order. */
  datatype Event =
    | FromClient(bytes: seq<Byte>)
    | ToRemote(bytes: seq<Byte>)
    | FromRemote(bytes: seq<Byte>)
    | ToClient(bytes: seq<Byte>)

  /**
    What a session carries from pass to pass: the shared slot, the remote
    writers closed so far, `timeout_count`, `return_reason`, and the record of
    the bytes moved.
  */
  datatype State = State(
    slot: Option<Connection>,
    closed: seq<Handle>,
    timeouts: nat,
    reason: Reason,
    trace: seq<Event>)

  /**
    How the `try` block is left: a `return`, the `break` out of the loop, an
    exception that propagates, or not at all (the script of outcomes ran out
    while the session was still waiting on its client).
  */
  datatype Exit = Returned | BrokeOut | Raised | Suspended

  /** The result of one pass: go round again, or leave with an exit. */
  datatype Step = Again(st: State) | Leave(exit: Exit, st: State)

  /** A whole session: how it ended, its last state, and how often the client writer was closed. */
  datatype Outcome = Outcome(exit: Exit, st: State, clientCloses: nat)

  /** The slot when this session takes the lock. */
  function Entered(slot: Option<Connection>, others: Interference): Option<Connection>
  {
    match others
      case Quiet => slot
      case SlotSetTo(s) => s
  }

  /**
    Set `return_reason` and call `close_remote_server_connection`: it returns
    when the slot holds a pair and raises when it is empty.
  */
  function Teardown(st: State, reason: Reason): (s: Step)
    ensures s.Leave? && s.st.slot.None? && s.st.reason == reason
    ensures s.exit == (if st.slot.Some? then Returned else Raised)
    ensures s.st.closed == st.closed + Release(st.slot).closed
  {
    var r := Release(st.slot);
    Leave(if st.slot.Some? then Returned else Raised,
          st.(reason := reason, slot := r.slot, closed := st.closed + r.closed))
  }

  /** The remote read and what follows it, once the request has been sent. */
  function AfterSend(st: State, rd: Round): Step
  {
    match rd.remoteRead
      case TimedOut =>
        var count := st.timeouts + 1;
        if count >= MAX_TIMEOUTS then Teardown(st.(timeouts := count), TooManyTimeouts(count))
        else Leave(BrokeOut, st.(timeouts := count))
      case ReadFailed(f) => Teardown(st, RemoteReadError(f))
      case Received(response) =>
        if response == [] then Leave(BrokeOut, st)
        else
          var st1 := st.(timeouts := 0, trace := st.trace + [FromRemote(response)]);
          var swapped := ResponseTransform.SwapLastTwo(response);
          match rd.clientWrite
            case Written => Again(st1.(trace := st1.trace + [ToClient(swapped)]))
            case WriteFailed(f) => Leave(Returned, st1.(reason := ClientWriteError(f)))
  }

  /**
    The part of a pass under `remote_server_lock`: take the connection (a
    `None` fails the unpacking, which the `except Exception` clause treats as
    a failed write), send the data, read and relay the response.
  */
  function UnderLock(st: State, data: seq<Byte>, rd: Round): Step
  {
    var a := Acquire(Entered(st.slot, rd.others), rd.open);
    var st1 := st.(slot := a.slot);
    if a.result.None? then Teardown(st1, RemoteWriteError(OtherFault))
    else match rd.remoteWrite
      case WriteFailed(f) => Teardown(st1, RemoteWriteError(f))
      case Written => AfterSend(st1.(trace := st1.trace + [ToRemote(data)]), rd)
  }

  /** One pass of the `while True` loop of `handle_client`. */
  function RoundStep(st: State, rd: Round): Step
  {
    match rd.clientRead
      case TimedOut => Again(st)
      case ReadFailed(ConnectionFault) => Leave(Returned, st.(reason := ClientReadError))
      case ReadFailed(OtherFault) => Leave(Raised, st)
      case Received(data) =>
        if data == [] then Leave(Returned, st.(reason := NoClientData))
        else UnderLock(st.(trace := st.trace + [FromClient(data)]), data, rd)
  }

  /** The loop from state `st` over the remaining outcomes; the `finally` closes the client writer once the loop is left. */
  function Run(st: State, script: seq<Round>): Outcome
    decreases |script|
  {
    if script == [] then Outcome(Suspended, st, 0)
    else match RoundStep(st, script[0])
      case Again(next) => Run(next, script[1..])
      case Leave(exit, last) => Outcome(exit, last, 1)
  }

  /** The state a session starts its loop in: no timeouts, reason `'unknown'`, nothing moved. */
  function Start(slot: Option<Connection>, closed: seq<Handle>): State
  {
    State(slot, closed, 0, Unknown, [])
  }

  /**
    `handle_client`: the first request for the connection (a `None` fails the
    unpacking and the exception leaves through the `finally`), then the loop.
  */
  function HandleClientSpec(slot: Option<Connection>, closed: seq<Handle>, open: OpenOutcome, script: seq<Round>): Outcome
  {
    var a := Acquire(slot, open);
    if a.result.None? then Outcome(Raised, Start(a.slot, closed), 1)
    else Run(Start(a.slot, closed), script)
  }

  // ---------------------------------------------------------------------
  // Forwarding integrity
  // ---------------------------------------------------------------------

  /**
    Every byte string sent to the remote is the client chunk read just before
    it; every response read follows a request sent; every byte string written
    to the client is the swap of the response read just before it. No read that
    is recorded is empty.
  */
  predicate Relayed(t: seq<Event>)
  {
    forall i :: 0 <= i < |t| ==> RelayedAt(t, i)
  }

  /** Event `i` of the record follows from the one before it. */
  predicate RelayedAt(t: seq<Event>, i: nat)
    requires i < |t|
  {
      && (t[i].FromClient? ==> t[i].bytes != [])
      && (t[i].ToRemote? ==> 0 < i && t[i - 1] == FromClient(t[i].bytes))
      && (t[i].FromRemote? ==> 0 < i && t[i - 1].ToRemote? && t[i].bytes != [])
      && (t[i].ToClient? ==> 0 < i && t[i - 1].FromRemote? && t[i].bytes == ResponseTransform.SwapLastTwo(t[i - 1].bytes))
  }

  /** Appending an event that follows its predecessor keeps the record relayed. */
  lemma RelayedSnoc(t: seq<Event>, e: Event)
    requires Relayed(t)
    requires e.FromClient? ==> e.bytes != []
    requires e.ToRemote? ==> |t| > 0 && t[|t| - 1] == FromClient(e.bytes)
    requires e.FromRemote? ==> |t| > 0 && t[|t| - 1].ToRemote? && e.bytes != []
    requires e.ToClient? ==> |t| > 0 && t[|t| - 1].FromRemote? && e.bytes == ResponseTransform.SwapLastTwo(t[|t| - 1].bytes)
    ensures Relayed(t + [e])
  {
    var u := t + [e];
    forall i | 0 <= i < |u|
      ensures RelayedAt(u, i)
    {
      if i < |t| {
        assert RelayedAt(t, i);
        assert u[i] == t[i];
        if 0 < i {
          assert u[i - 1] == t[i - 1];
        }
      } else {
        assert u[i] == e;
      }
    }
  }

  /** One pass keeps the record relayed and only appends to it. */
  lemma RoundRelayed(st: State, rd: Round)
    requires Relayed(st.trace)
    ensures var s := RoundStep(st, rd); Relayed(s.st.trace) && st.trace <= s.st.trace
  {
    match rd.clientRead
      case Received(data) =>
        if data != [] {
          var t0 := st.trace + [FromClient(data)];
          RelayedSnoc(st.trace, FromClient(data));
          RelayedSnoc(t0, ToRemote(data));
          var t1 := t0 + [ToRemote(data)];
          match rd.remoteRead
            case Received(response) =>
              if response != [] {
                RelayedSnoc(t1, FromRemote(response));
                var t2 := t1 + [FromRemote(response)];
                RelayedSnoc(t2, ToClient(ResponseTransform.SwapLastTwo(response)));
              }
            case _ =>
        }
      case _ =>
  }

  /** The whole loop keeps the record relayed and only appends to it. */
  lemma {:induction false} RunRelayed(st: State, script: seq<Round>)
    requires Relayed(st.trace)
    ensures Relayed(Run(st, script).st.trace) && st.trace <= Run(st, script).st.trace
    decreases |script|
  {
    if script != [] {
      RoundRelayed(st, script[0]);
      var s := RoundStep(st, script[0]);
      if s.Again? {
        RunRelayed(s.st, script[1..]);
      }
    }
  }

  /** What reaches the remote is exactly what the client sent, and what reaches the client is the swapped response. */
  lemma SessionRelayed(slot: Option<Connection>, closed: seq<Handle>, open: OpenOutcome, script: seq<Round>)
    ensures Relayed(HandleClientSpec(slot, closed, open, script).st.trace)
  {
    var a := Acquire(slot, open);
    if a.result.Some? {
      RunRelayed(Start(a.slot, closed), script);
    }
  }

  // ---------------------------------------------------------------------
  // What each outcome of a pass leads to
  // ---------------------------------------------------------------------

  /**
    The client read, before the lock: a `ConnectionError` returns with its
    reason, any other error propagates, an empty read returns; nothing else changes.
  */
  lemma RoundClientOutcomes(st: State, rd: Round)
    ensures rd.clientRead == ReadFailed(ConnectionFault) ==> RoundStep(st, rd) == Leave(Returned, st.(reason := ClientReadError))
    ensures rd.clientRead == ReadFailed(OtherFault) ==> RoundStep(st, rd) == Leave(Raised, st)
    ensures rd.clientRead == Received([]) ==> RoundStep(st, rd) == Leave(Returned, st.(reason := NoClientData))
  {
  }

  /**
    The request. With no connection to hand out, the unpacking fails and the
    teardown raises on the empty slot; a failed write drops the connection,
    closes its writer and returns.
  */
  lemma RoundSendOutcomes(st: State, rd: Round, data: seq<Byte>)
    requires rd.clientRead == Received(data) && data != []
    ensures var a := Acquire(Entered(st.slot, rd.others), rd.open);
      var read := st.(trace := st.trace + [FromClient(data)]);
      && (a.result.None? ==>
            RoundStep(st, rd) == Leave(Raised, read.(slot := None, reason := RemoteWriteError(OtherFault))))
      && (a.result.Some? && rd.remoteWrite.WriteFailed? ==>
            RoundStep(st, rd) == Leave(Returned, read.(slot := None, closed := st.closed + [a.result.value.writer],
                                                       reason := RemoteWriteError(rd.remoteWrite.fault))))
  {
  }

  /**
    The response, once the request is sent. A timeout adds one to
    `timeout_count` and leaves the loop by the `break` (from the count
    `MAX_TIMEOUTS` on, it drops the connection and returns instead); a read
    error drops the connection and returns; an empty response leaves the loop
    by the `break` with the connection kept and the count as it was.
  */
  lemma RoundResponseOutcomes(st: State, rd: Round, data: seq<Byte>)
    requires rd.clientRead == Received(data) && data != []
    requires Acquire(Entered(st.slot, rd.others), rd.open).result.Some? && rd.remoteWrite == Written
    ensures var c := Acquire(Entered(st.slot, rd.others), rd.open).result.value;
      var sent := st.(slot := Some(c), trace := st.trace + [FromClient(data), ToRemote(data)]);
      var s := RoundStep(st, rd);
      && (rd.remoteRead == TimedOut && st.timeouts + 1 < MAX_TIMEOUTS ==>
            s == Leave(BrokeOut, sent.(timeouts := st.timeouts + 1)))
      && (rd.remoteRead == TimedOut && st.timeouts + 1 >= MAX_TIMEOUTS ==>
            s == Leave(Returned, sent.(slot := None, closed := st.closed + [c.writer], timeouts := st.timeouts + 1,
                                       reason := TooManyTimeouts(st.timeouts + 1))))
      && (rd.remoteRead.ReadFailed? ==>
            s == Leave(Returned, sent.(slot := None, closed := st.closed + [c.writer],
                                       reason := RemoteReadError(rd.remoteRead.fault))))
      && (rd.remoteRead == Received([]) ==> s == Leave(BrokeOut, sent))
  {
    assert st.trace + [FromClient(data)] + [ToRemote(data)] == st.trace + [FromClient(data), ToRemote(data)];
  }

  /**
    A full round trip: the client's chunk goes to the remote, the response
    comes back, its last two bytes are swapped and it goes to the client; the
    count is reset and the loop goes round again. A failed client write
    returns instead, with the connection kept.
  */
  lemma RoundForwards(st: State, rd: Round, data: seq<Byte>, response: seq<Byte>)
    requires rd.clientRead == Received(data) && data != []
    requires Acquire(Entered(st.slot, rd.others), rd.open).result.Some? && rd.remoteWrite == Written
    requires rd.remoteRead == Received(response) && response != []
    ensures var c := Acquire(Entered(st.slot, rd.others), rd.open).result.value;
      var relayed := st.(slot := Some(c), timeouts := 0,
                         trace := st.trace + [FromClient(data), ToRemote(data), FromRemote(response)]);
      && (rd.clientWrite == Written ==>
            RoundStep(st, rd) == Again(relayed.(trace := relayed.trace + [ToClient(ResponseTransform.SwapLastTwo(response))])))
      && (rd.clientWrite.WriteFailed? ==>
            RoundStep(st, rd) == Leave(Returned, relayed.(reason := ClientWriteError(rd.clientWrite.fault))))
  {
    assert st.trace + [FromClient(data)] + [ToRemote(data)] + [FromRemote(response)]
        == st.trace + [FromClient(data), ToRemote(data), FromRemote(response)];
  }

  // ---------------------------------------------------------------------
  // The loop, pass by pass
  // ---------------------------------------------------------------------

  /** How many passes of the loop a session makes over the outcomes. */
  function Passes(st: State, script: seq<Round>): (n: nat)
    ensures n <= |script|
    decreases |script|
  {
    if script == [] then 0
    else match RoundStep(st, script[0])
      case Again(next) => 1 + Passes(next, script[1..])
      case Leave(_, _) => 1
  }

  /**
    A loop that runs out of outcomes has used all of them; a loop that is
    left goes round again on every pass but its last, and that last pass
    gives the exit and the final state.
  */
  lemma {:induction false} RunLastPass(st: State, script: seq<Round>)
    ensures var o := Run(st, script); var n := Passes(st, script);
      && (o.exit == Suspended ==> n == |script|)
      && (o.exit != Suspended ==>
            && 1 <= n
            && Run(st, script[..n - 1]).exit == Suspended
            && RoundStep(Run(st, script[..n - 1]).st, script[n - 1]) == Leave(o.exit, o.st))
    decreases |script|
  {
    if script != [] {
      match RoundStep(st, script[0])
        case Leave(_, _) =>
          assert script[..0] == [];
        case Again(next) =>
          RunLastPass(next, script[1..]);
          var n' := Passes(next, script[1..]);
          if n' >= 1 {
            assert script[..n'][1..] == script[1..][..n' - 1];
            assert script[n'] == script[1..][n' - 1];
          }
    }
  }

  /** The chunks of the record read from the client, in order. */
  function ClientChunks(t: seq<Event>): seq<seq<Byte>>
  {
    if t == [] then []
    else (if t[0].FromClient? then [t[0].bytes] else []) + ClientChunks(t[1..])
  }

  /** The non-empty client reads of a script of outcomes, in order. */
  function ClientData(rounds: seq<Round>): seq<seq<Byte>>
  {
    if rounds == [] then []
    else (if rounds[0].clientRead.Received? && rounds[0].clientRead.bytes != [] then [rounds[0].clientRead.bytes] else [])
         + ClientData(rounds[1..])
  }

  /** Appending an event adds its chunk when it is a client read, and nothing otherwise. */
  lemma {:induction false} ChunksSnoc(t: seq<Event>, e: Event)
    ensures ClientChunks(t + [e]) == ClientChunks(t) + (if e.FromClient? then [e.bytes] else [])
  {
    if t == [] {
      assert ([] + [e])[1..] == [];
    } else {
      assert (t + [e])[1..] == t[1..] + [e];
      ChunksSnoc(t[1..], e);
    }
  }

  /** A pass records exactly the client chunk it read, when it read a non-empty one. */
  lemma RoundChunks(st: State, rd: Round)
    ensures ClientChunks(RoundStep(st, rd).st.trace) == ClientChunks(st.trace) + ClientData([rd])
  {
    match rd.clientRead
      case Received(data) =>
        if data != [] {
          var t0 := st.trace + [FromClient(data)];
          ChunksSnoc(st.trace, FromClient(data));
          ChunksSnoc(t0, ToRemote(data));
          var t1 := t0 + [ToRemote(data)];
          match rd.remoteRead
            case Received(response) =>
              if response != [] {
                ChunksSnoc(t1, FromRemote(response));
                var t2 := t1 + [FromRemote(response)];
                ChunksSnoc(t2, ToClient(ResponseTransform.SwapLastTwo(response)));
              }
            case _ =>
        }
      case _ =>
  }

  /** The loop records exactly the non-empty client reads of the passes it makes, in order. */
  lemma {:induction false} RunChunks(st: State, script: seq<Round>)
    ensures ClientChunks(Run(st, script).st.trace) == ClientChunks(st.trace) + ClientData(script[..Passes(st, script)])
    decreases |script|
  {
    if script == [] {
      assert script[..0] == [];
    } else {
      RoundChunks(st, script[0]);
      match RoundStep(st, script[0])
        case Leave(_, _) =>
          assert script[..1] == [script[0]];
        case Again(next) =>
          RunChunks(next, script[1..]);
          var n' := Passes(next, script[1..]);
          assert script[..n' + 1][0] == script[0];
          assert script[..n' + 1][1..] == script[1..][..n'];
    }
  }

  /**
    The chunks a session reads from its client, and so (by `SessionRelayed`)
    the chunks it sends to the remote, are the non-empty client reads of the
    passes it makes, in order; a session whose first request for a connection
    fails moves nothing.
  */
  lemma SessionChunks(slot: Option<Connection>, closed: seq<Handle>, open: OpenOutcome, script: seq<Round>)
    ensures var a := Acquire(slot, open); var o := HandleClientSpec(slot, closed, open, script);
      && (a.result.None? ==> o.st.trace == [])
      && (a.result.Some? ==> ClientChunks(o.st.trace) == ClientData(script[..Passes(Start(a.slot, closed), script)]))
  {
    var a := Acquire(slot, open);
    if a.result.Some? {
      RunChunks(Start(a.slot, closed), script);
    }
  }

  // ---------------------------------------------------------------------
  // Timeouts
  // ---------------------------------------------------------------------

  /** A client read that times out repeats the read and changes nothing. */
  lemma ClientTimeoutRetries(st: State, rd: Round)
    requires rd.clientRead.TimedOut?
    ensures RoundStep(st, rd) == Again(st)
  {
  }

  /**
    A pass that goes round again has relayed a response and reset the count;
    a remote timeout adds one to it and leaves the loop (or, from the count
    four, drops the connection).
  */
  lemma RoundTimeouts(st: State, rd: Round)
    requires !st.reason.TooManyTimeouts?
    ensures var s := RoundStep(st, rd);
      && (s.Again? && s.st != st ==> s.st.timeouts == 0)
      && (s.Leave? ==> s.st.timeouts == st.timeouts || s.st.timeouts == 0 || s.st.timeouts == st.timeouts + 1)
      && (s.Leave? && s.st.timeouts == st.timeouts + 1 ==> s.exit == BrokeOut || s.st.reason == TooManyTimeouts(st.timeouts + 1))
      && (s.st.reason.TooManyTimeouts? ==> st.timeouts + 1 >= MAX_TIMEOUTS)
  {
  }

  /** Starting from no timeouts, the count is never more than one, so the teardown after five never happens. */
  lemma {:induction false} RunTimeouts(st: State, script: seq<Round>)
    requires st.timeouts == 0 && !st.reason.TooManyTimeouts?
    ensures Run(st, script).st.timeouts <= 1
    ensures !Run(st, script).st.reason.TooManyTimeouts?
    decreases |script|
  {
    if script != [] {
      RoundTimeouts(st, script[0]);
      var s := RoundStep(st, script[0]);
      if s.Again? {
        RunTimeouts(s.st, script[1..]);
      }
    }
  }

  /** In a session `timeout_count` ends at most at one and the `MAX_TIMEOUTS` teardown is never taken. */
  lemma SessionTimeouts(slot: Option<Connection>, closed: seq<Handle>, open: OpenOutcome, script: seq<Round>)
    ensures var o := HandleClientSpec(slot, closed, open, script);
      o.st.timeouts <= 1 && !o.st.reason.TooManyTimeouts?
  {
    var a := Acquire(slot, open);
    if a.result.Some? {
      RunTimeouts(Start(a.slot, closed), script);
    }
  }

  // ---------------------------------------------------------------------
  // Exits, reasons and the client writer
  // ---------------------------------------------------------------------

  /**
    Every way of leaving a pass: a `return` always names a reason; the
    `break`s leave `return_reason` as it was; an exception keeps it or names a
    failure on the remote side.
  */
  lemma RoundExit(st: State, rd: Round)
    ensures var s := RoundStep(st, rd);
      && (s.Leave? && s.exit == Returned ==> s.st.reason != Unknown)
      && (s.Leave? && s.exit == BrokeOut ==> s.st.reason == st.reason)
      && (s.Leave? && s.exit == Raised ==> s.st.reason == st.reason || s.st.reason.RemoteWriteError? || s.st.reason.RemoteReadError?)
      && (s.Again? ==> s.st.reason == st.reason)
      && (s.Leave? ==> s.exit != Suspended)
  {
  }

  /** The loop ends on a `return` with a reason, on a `break` or with the outcomes exhausted with `'unknown'`. */
  lemma {:induction false} RunExit(st: State, script: seq<Round>)
    requires st.reason == Unknown
    ensures var o := Run(st, script);
      && (o.exit == Returned ==> o.st.reason != Unknown)
      && (o.exit == BrokeOut || o.exit == Suspended ==> o.st.reason == Unknown)
      && o.clientCloses == (if o.exit == Suspended then 0 else 1)
    decreases |script|
  {
    if script != [] {
      RoundExit(st, script[0]);
      var s := RoundStep(st, script[0]);
      if s.Again? {
        RunExit(s.st, script[1..]);
      }
    }
  }

  /**
    However the session ends — a `return`, the `break` or an exception — the
    `finally` closes the client writer exactly once; `return_reason` is still
    `'unknown'` after a `break` and when the first request for a connection fails.
  */
  lemma SessionExit(slot: Option<Connection>, closed: seq<Handle>, open: OpenOutcome, script: seq<Round>)
    ensures var o := HandleClientSpec(slot, closed, open, script);
      && o.clientCloses == (if o.exit == Suspended then 0 else 1)
      && (o.exit == Returned ==> o.st.reason != Unknown)
      && (o.exit == BrokeOut ==> o.st.reason == Unknown)
      && (Acquire(slot, open).result.None? ==> o.exit == Raised && o.st.reason == Unknown && o.st.trace == [])
  {
    var a := Acquire(slot, open);
    if a.result.Some? {
      RunExit(Start(a.slot, closed), script);
    }
  }

  // ---------------------------------------------------------------------
  // Which failures touch the shared connection
  // ---------------------------------------------------------------------

  /** The reasons that come with `close_remote_server_connection`. */
  predicate RemoteFailure(r: Reason)
  {
    r.RemoteWriteError? || r.RemoteReadError? || r.TooManyTimeouts?
  }

  /**
    A failure on the remote side empties the slot and closes the remote writer
    once (when the slot held a pair); every other pass closes nothing; the
    `break`s and a failed client write leave the connection in place.
  */
  lemma RoundSlot(st: State, rd: Round)
    requires st.reason == Unknown
    ensures var s := RoundStep(st, rd);
      && (RemoteFailure(s.st.reason) ==>
            && s.Leave? && s.st.slot.None? && st.closed <= s.st.closed
            && |s.st.closed| == |st.closed| + (if s.exit == Returned then 1 else 0))
      && (!RemoteFailure(s.st.reason) ==> s.st.closed == st.closed)
      && (s.Leave? && (s.exit == BrokeOut || s.st.reason.ClientWriteError?) ==> s.st.slot.Some?)
      && (s.Leave? && (s.st.reason == NoClientData || s.st.reason == ClientReadError) ==> s.st.slot == st.slot)
  {
  }

  /** The effect of the whole loop on the shared connection, pass by pass. */
  lemma {:induction false} RunSlot(st: State, script: seq<Round>)
    requires st.reason == Unknown
    ensures var o := Run(st, script);
      && (RemoteFailure(o.st.reason) ==>
            && o.st.slot.None? && st.closed <= o.st.closed
            && |o.st.closed| == |st.closed| + (if o.exit == Returned then 1 else 0))
      && (!RemoteFailure(o.st.reason) ==> o.st.closed == st.closed)
      && (o.exit == BrokeOut || o.st.reason.ClientWriteError? ==> o.st.slot.Some?)
    decreases |script|
  {
    if script != [] {
      RoundSlot(st, script[0]);
      RoundExit(st, script[0]);
      var s := RoundStep(st, script[0]);
      if s.Again? {
        RunSlot(s.st, script[1..]);
      }
    }
  }

  /**
    Remote write and read errors drop the shared connection (closing its
    writer when there is one); an empty or failed client read, an empty remote
    response and a failed client write leave it untouched.
  */
  lemma SessionSlot(slot: Option<Connection>, closed: seq<Handle>, open: OpenOutcome, script: seq<Round>)
    ensures var o := HandleClientSpec(slot, closed, open, script);
      && (RemoteFailure(o.st.reason) ==>
            && o.st.slot.None? && closed <= o.st.closed
            && |o.st.closed| == |closed| + (if o.exit == Returned then 1 else 0))
      && (!RemoteFailure(o.st.reason) ==> o.st.closed == closed)
      && (o.exit == BrokeOut || o.st.reason.ClientWriteError? ==> o.st.slot.Some?)
  {
    var a := Acquire(slot, open);
    if a.result.Some? {
      RunSlot(Start(a.slot, closed), script);
    }
  }

  // ---------------------------------------------------------------------
  // Buffer bound
  // ---------------------------------------------------------------------

  /** Both reads of a pass deliver at most `BUFFER_SIZE` bytes. */
  predicate RoundWithinBuffer(rd: Round)
  {
    && (rd.clientRead.Received? ==> |rd.clientRead.bytes| <= BUFFER_SIZE)
    && (rd.remoteRead.Received? ==> |rd.remoteRead.bytes| <= BUFFER_SIZE)
  }

  /** Every byte string in the record fits the buffer. */
  predicate Bounded(t: seq<Event>)
  {
    forall i :: 0 <= i < |t| ==> |t[i].bytes| <= BUFFER_SIZE
  }

  /** A pass whose reads fit the buffer sends on nothing larger. */
  lemma RoundBounded(st: State, rd: Round)
    requires Bounded(st.trace) && RoundWithinBuffer(rd)
    ensures Bounded(RoundStep(st, rd).st.trace)
  {
    match rd.clientRead
      case Received(data) =>
        if data != [] {
          var t1 := st.trace + [FromClient(data)] + [ToRemote(data)];
          assert Bounded(t1);
          match rd.remoteRead
            case Received(response) =>
              if response != [] {
                var t2 := t1 + [FromRemote(response)];
                assert Bounded(t2);
                assert Bounded(t2 + [ToClient(ResponseTransform.SwapLastTwo(response))]);
              }
            case _ =>
        }
      case _ =>
  }

  /** When every read fits `BUFFER_SIZE`, so does every byte string the session sends on. */
  lemma {:induction false} RunBounded(st: State, script: seq<Round>)
    requires Bounded(st.trace)
    requires forall i :: 0 <= i < |script| ==> RoundWithinBuffer(script[i])
    ensures Bounded(Run(st, script).st.trace)
    decreases |script|
  {
    if script != [] {
      RoundBounded(st, script[0]);
      var s := RoundStep(st, script[0]);
      if s.Again? {
        RunBounded(s.st, script[1..]);
      }
    }
  }

  // ---------------------------------------------------------------------
  // A session, concretely
  // ---------------------------------------------------------------------

  /**
    The client sends 01 02 03 04, the remote answers AA BB CC DD, the client
    receives AA BB DD CC; then the client closes its end and the session
    returns with the connection kept for the next client.
  */
  lemma ExampleSession(c: Connection)
    ensures var request := Round(Received([1, 2, 3, 4]), Quiet, Refused, Written, Received([0xAA, 0xBB, 0xCC, 0xDD]), Written);
      var hangUp := Round(Received([]), Quiet, Refused, Written, TimedOut, Written);
      var o := HandleClientSpec(Some(c), [], Refused, [request, hangUp]);
      && o.exit == Returned && o.st.reason == NoClientData && o.clientCloses == 1
      && o.st.slot == Some(c) && o.st.closed == []
      && o.st.trace == [FromClient([1, 2, 3, 4]), ToRemote([1, 2, 3, 4]),
                        FromRemote([0xAA, 0xBB, 0xCC, 0xDD]), ToClient([0xAA, 0xBB, 0xDD, 0xCC])]
  {
    ResponseTransform.SwapExample();
  }
}
