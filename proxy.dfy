/**
  The proxy's shared state and the code that works on it in place: the
  global `remote_server_connection`, the functions that fill and empty it,
  and `handle_client`, the loop that serves one client.
*/
module Proxy {
  import opened Wrappers
  import opened Bytes
  import opened RemoteConnection
  import opened Session
  import ResponseTransform

  /** The local variables the loop of `handle_client` updates from pass to pass. */
  datatype Locals = Locals(timeoutCount: nat, returnReason: Reason, trace: seq<Event>)

  /** The module-level state of the proxy. */
  class Server {
    /** `remote_server_connection`: the shared (reader, writer) pair, if any. */
    var conn: Option<Connection>
    /** The remote writers `close_remote_server_connection` has closed in this session, oldest first. */
    var closedWriters: seq<Handle>

    /** At start-up there is no connection: `remote_server_connection = None`. */
    constructor ()
      ensures conn.None? && closedWriters == []
    {
      conn := None;
      closedWriters := [];
    }

    /**
      `get_remote_server_connection`: hand out the connection, opening one
      first when there is none. A failed open hands out `None` and leaves the
      slot empty.
    */
    method Acquire(open: OpenOutcome) returns (result: Option<Connection>)
      modifies this`conn
      ensures result == RemoteConnection.Acquire(old(conn), open).result
      ensures conn == RemoteConnection.Acquire(old(conn), open).slot
      ensures old(conn).Some? ==> result == old(conn) && conn == old(conn)
      ensures old(conn).None? ==> match open
        case Opened(c) => result == Some(c) && conn == Some(c)
        case Refused => result.None? && conn.None?
    {
      if conn.None? {
        match open
        case Opened(c) =>
          conn := Some(c);
        case Refused =>
          return None;
      }
      result := conn;
    }

    /**
      `close_remote_server_connection`: empty the slot, close the writer and
      hand back the old pair. With an empty slot the unpacking fails before
      anything changes; the caller sees `None`.
    */
    method Release() returns (result: Option<Connection>)
      modifies this
      ensures result == old(conn) && conn.None?
      ensures closedWriters == old(closedWriters) + RemoteConnection.Release(old(conn)).closed
      ensures old(conn).Some? ==> closedWriters == old(closedWriters) + [old(conn).value.writer]
      ensures old(conn).None? ==> closedWriters == old(closedWriters)
    {
      if conn.None? {
        return None;
      }
      var c := conn.value;
      conn := None;
      closedWriters := closedWriters + [c.writer];
      result := Some(c);
    }

    /** The session state as the loop of `handle_client` holds it. */
    function Current(loc: Locals): State
      reads this
    {
      State(conn, closedWriters, loc.timeoutCount, loc.returnReason, loc.trace)
    }

    /** A pass of the loop as the step it makes: go round again, or leave with `exit`. */
    function Stepped(loc: Locals, exit: Option<Exit>): Step
      reads this
    {
      if exit.None? then Again(Current(loc)) else Leave(exit.value, Current(loc))
    }

    /**
      The block under `async with remote_server_lock`: take the connection,
      send the client's data, read the response, swap its last two bytes and
      write it to the client. `exit` tells whether and how the block leaves the loop.
    */
    method UnderLock(data: seq<Byte>, rd: Round, loc0: Locals) returns (loc: Locals, exit: Option<Exit>)
      modifies this
      ensures Stepped(loc, exit) == Session.UnderLock(old(Current(loc0)), data, rd)
      ensures exit != Some(Suspended)
    {
      loc := loc0;
      exit := None;
      // other sessions may have changed the slot while this one waited for the lock
      conn := Entered(conn, rd.others);
      var forWrite := Acquire(rd.open);
      if forWrite.None? {
        // unpacking `None` raises; `except Exception` tears the connection down
        loc := loc.(returnReason := RemoteWriteError(OtherFault));
        var released := Release();
        exit := Some(if released.Some? then Returned else Raised);
        return;
      }
      match rd.remoteWrite {
        case WriteFailed(f) =>
          loc := loc.(returnReason := RemoteWriteError(f));
          var released := Release();
          exit := Some(if released.Some? then Returned else Raised);
          return;
        case Written =>
          loc := loc.(trace := loc.trace + [ToRemote(data)]);
      }

      var forRead := Acquire(rd.open);
      var remoteReader := forRead.value.reader;
      var response: seq<Byte>;
      match rd.remoteRead {
        case TimedOut =>
          loc := loc.(timeoutCount := loc.timeoutCount + 1);
          if loc.timeoutCount >= MAX_TIMEOUTS {
            loc := loc.(returnReason := TooManyTimeouts(loc.timeoutCount));
            var released := Release();
            exit := Some(if released.Some? then Returned else Raised);
            return;
          }
          exit := Some(BrokeOut);
          return;
        case ReadFailed(f) =>
          loc := loc.(returnReason := RemoteReadError(f));
          var released := Release();
          exit := Some(if released.Some? then Returned else Raised);
          return;
        case Received(r) =>
          response := r;
      }
      if response == [] {
        exit := Some(BrokeOut);
        return;
      }
      loc := loc.(timeoutCount := 0, trace := loc.trace + [FromRemote(response)]);
      if |response| >= 2 {
        response := ResponseTransform.SwapLastTwo(response);
      }

      match rd.clientWrite {
        case Written =>
          loc := loc.(trace := loc.trace + [ToClient(response)]);
        case WriteFailed(f) =>
          loc := loc.(returnReason := ClientWriteError(f));
          exit := Some(Returned);
          return;
      }
    }

    /**
      `handle_client` for one client, given what opening a connection does at
      the start and the outcomes of each pass of the loop. The result is the
      session's meaning, `HandleClientSpec`; the lemmas of module Session state
      what that meaning guarantees.
    */
    method HandleClient(open: OpenOutcome, script: seq<Round>) returns (outcome: Outcome)
      modifies this
      ensures outcome == HandleClientSpec(old(conn), old(closedWriters), open, script)
      ensures conn == outcome.st.slot && closedWriters == outcome.st.closed
    {
      var loc := Locals(0, Unknown, []);
      var clientCloses := 0;
      var exit := Suspended;
      var first := Acquire(open);
      if first.None? {
        // unpacking `None` at `remote_reader, remote_writer = ...` raises
        exit := Raised;
      } else {
        ghost var target := Run(Current(loc), script);
        var i := 0;
        while i < |script|
          invariant 0 <= i <= |script|
          invariant exit == Suspended
          invariant Run(Current(loc), script[i..]) == target
        {
          var rd := script[i];
          assert script[i..][0] == rd && script[i..][1..] == script[i + 1..];
          i := i + 1;

          var data: seq<Byte>;
          match rd.clientRead {
            case TimedOut =>
              continue;
            case ReadFailed(f) =>
              if f == ConnectionFault {
                loc := loc.(returnReason := ClientReadError);
                exit := Returned;
              } else {
                exit := Raised;
              }
              break;
            case Received(d) =>
              data := d;
          }
          if data == [] {
            loc := loc.(returnReason := NoClientData);
            exit := Returned;
            break;
          }
          loc := loc.(trace := loc.trace + [FromClient(data)]);

          var next, leave := UnderLock(data, rd, loc);
          loc := next;
          if leave.Some? {
            exit := leave.value;
            break;
          }
        }
      }
      // finally: writer.close()
      if exit != Suspended {
        clientCloses := clientCloses + 1;
      }
      outcome := Outcome(exit, Current(loc), clientCloses);
    }
  }
}
