/**
  The shared connection to the remote server: one slot that is either empty or
  holds a (reader, writer) pair. `get_remote_server_connection` fills it on
  demand; `close_remote_server_connection` empties it and closes the writer.
  This module gives the meaning of both as functions of the slot; the class
  in module Proxy performs them on its `conn` field.
*/
module RemoteConnection {
  import opened Wrappers

  /** A stream (a reader or a writer), known only by its identity. */
  type Handle = nat

  /** The pair `(remote_reader, remote_writer)` that `asyncio.open_connection` returns. */
  datatype Connection = Connection(reader: Handle, writer: Handle)

  /**
    What `asyncio.open_connection` does when asked: a new pair, or a failure.
    A `ConnectionError` or `TimeoutError` is caught and hands out `None`; any
    other exception propagates from the call. At the two calls in
    `handle_client` that can open a connection (lines 66 and 90) that other
    exception ends the session exactly as `None` does, so `Refused` stands for both.
  */
  datatype OpenOutcome = Opened(conn: Connection) | Refused

  /** A connection request: what it hands out, and the slot it leaves. */
  datatype Acquired = Acquired(result: Option<Connection>, slot: Option<Connection>)

  /** The effect of `get_remote_server_connection` on the slot, given what opening would do. */
  function Acquire(slot: Option<Connection>, open: OpenOutcome): (a: Acquired)
    ensures a.result == a.slot
    ensures slot.Some? ==> a.slot == slot
    ensures a.slot.Some? && a.slot != slot ==> slot.None? && open == Opened(a.slot.value)
    ensures a.slot.None? <==> slot.None? && open.Refused?
  {
    if slot.Some? then Acquired(slot, slot)
    else match open
      case Opened(c) => Acquired(Some(c), Some(c))
      case Refused => Acquired(None, None)
  }

  /** A release: the pair it hands back, the slot it leaves and the writers it closes. */
  datatype Released = Released(result: Option<Connection>, slot: Option<Connection>, closed: seq<Handle>)

  /**
    The effect of `close_remote_server_connection`. An empty slot makes the
    unpacking fail before anything changes; then nothing is handed back and
    nothing is closed.
  */
  function Release(slot: Option<Connection>): (r: Released)
    ensures r.slot.None?
    ensures r.result == slot
    ensures |r.closed| <= 1
    ensures forall i :: 0 <= i < |r.closed| ==> slot.Some? && r.closed[i] == slot.value.writer
    ensures slot.Some? ==> |r.closed| == 1
  {
    match slot
      case Some(c) => Released(Some(c), None, [c.writer])
      case None => Released(None, None, [])
  }

  /**
    Once a request has succeeded, asking again changes nothing and opens
    nothing, whatever opening would do: the second request gets what the first did.
  */
  lemma AcquireIdempotent(slot: Option<Connection>, open: OpenOutcome, again: OpenOutcome)
    requires Acquire(slot, open).result.Some?
    ensures Acquire(Acquire(slot, open).slot, again) == Acquire(slot, open)
  {
  }

  /** Release hands back exactly the pair that acquire handed out, and closes its writer. */
  lemma ReleaseReturnsAcquired(slot: Option<Connection>, open: OpenOutcome)
    ensures var a := Acquire(slot, open); var r := Release(a.slot);
      && r.result == a.result
      && (a.result.Some? ==> r.closed == [a.result.value.writer])
  {
  }

  /** After a release the next request opens a fresh connection. */
  lemma AcquireAfterRelease(slot: Option<Connection>, open: OpenOutcome)
    ensures var a := Acquire(Release(slot).slot, open);
      a.result == (if open.Opened? then Some(open.conn) else None)
  {
  }
}
