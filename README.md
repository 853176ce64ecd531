# async-tcp-proxy, modelled in Dafny

`async-tcp-proxy` is a small asyncio TCP proxy. It accepts clients and relays
each client request to a single remote server. It then reads the server's
response, swaps the last two bytes of that response and writes it back to the
client. All clients share one remote connection, kept in a module-level slot
and guarded by a lock. This project models the sequential logic of
`async-tcp-proxy/src/async-tcp-proxy.py` and proves what that logic
guarantees.

The project has seven modules:

- `ResponseTransform` (`response_transform.dfy`): the swap of the last two
  bytes of a response.
- `HexDump` (`hex_dump.dfy`): the debug formatter `hex_dump`.
  - The method `HexDump` runs the loop over offsets.
  - The functions beside it give the meaning of Python's `%X`, `%0*X`,
    `%-*s` and `str.join`, and describe the rows.
  - The lemmas state the layout of a row and of the whole dump.
- `RemoteConnection` (`remote_connection.dfy`): the shared connection slot.
  - The functions `Acquire` and `Release` give the effect of
    `get_remote_server_connection` and `close_remote_server_connection` on
    the slot.
- `Session` (`session.dfy`): the meaning of one run of `handle_client`, as a
  function of the outcomes that the outside world produces.
  - A `Round` holds the outcomes of one pass of the `while True` loop: the
    client read, what other sessions left in the slot, what opening a
    connection would do, the remote write, the remote read and the client
    write.
  - `HandleClientSpec` folds the session over a script of rounds.
  - The lemmas state forwarding integrity, the behaviour of the timeout
    counter, every exit path and `return_reason`, which failures drop the
    shared connection, and a buffer bound.
- `Proxy` (`proxy.dfy`): the class `Server`, which holds the module-level
  state. It has two fields: `conn` (the `remote_server_connection` slot) and
  `closedWriters` (the remote writers this session has closed so far).
  - Its methods `Acquire`, `Release`, `UnderLock` and `HandleClient` update
    these fields in place, as the Python code does.
  - `HandleClient` is the `while True` loop, with `continue`, `break` and
    early exits. It is proved to compute exactly `HandleClientSpec`.
- `Wrappers` and `Bytes`: `Option`, bytes as integers below 256, and
  `BUFFER_SIZE`.

The model follows the code. A remote-read timeout runs `timeout_count += 1`
and then `break` (lines 122-127). That leaves the loop, so the session ends
after its first remote timeout (`Session.RoundResponseOutcomes`). The counter,
its reset after each response (line 109) and the threshold `MAX_TIMEOUTS = 5`
(lines 57 and 122-126) suggest that the loop was meant to continue after a
timeout and to drop the connection after five timeouts in a row. The model
does what the code does. As a consequence, `Session.SessionTimeouts` proves
that the count is at most one when the session ends, and the `MAX_TIMEOUTS`
teardown at lines 123-126 can never be taken.

Each pass of the loop is modelled as one step.
- The part under `remote_server_lock` is atomic, as the lock makes it.
- Other sessions can change the slot only while this session waits outside
  the lock. `Round.others` shows that change once, at the moment the lock is
  taken.
- An exception that leaves `handle_client` is the exit `Raised`. The steps
  where the code raises are:
  - unpacking `None` at line 66, when the first request for a connection
    fails;
  - unpacking `None` at line 39, when `close_remote_server_connection` is
    called with an empty slot. The call at line 101 does this after the
    unpacking at line 90 failed: that TypeError itself is caught by the
    `except Exception` at line 98;
  - any client-read error other than `ConnectionError`.
- The unpacking at line 105 cannot fail: the lock is still held, and line 90
  left a pair in the slot.
- If the script of outcomes runs out while the session still waits on its
  client, the exit is `Suspended`.

## Model

| member | source | states |
|---|---|---|
| ResponseTransform.SwapLastTwo | async-tcp-proxy/src/async-tcp-proxy.py:111-114 | The swap keeps the length and every byte before index n-2. It puts `r[n-1]` at n-2 and `r[n-2]` at n-1. A response shorter than two bytes is unchanged. |
| ResponseTransform.SwapInvolution | async-tcp-proxy/src/async-tcp-proxy.py:112-114 | Swapping twice gives back the original response. |
| ResponseTransform.SwapExample | async-tcp-proxy/src/async-tcp-proxy.py:112-114 | `AA BB CC DD` becomes `AA BB DD CC`. |
| HexDump.DigitRoundTrip | async-tcp-proxy/src/async-tcp-proxy.py:50 | Reading back an upper-case hex digit gives the value it was made from. |
| HexDump.Hex | async-tcp-proxy/src/async-tcp-proxy.py:52 | `%X` is a non-empty string of upper-case hex digits with no leading zero (except for the number 0). |
| HexDump.HexRoundTrip | async-tcp-proxy/src/async-tcp-proxy.py:52 | The numeral `%X` produces denotes the number it formats. |
| HexDump.LeadingZeros | async-tcp-proxy/src/async-tcp-proxy.py:50 | Padding a numeral on the left with zeros keeps its value. |
| HexDump.FormatHex | async-tcp-proxy/src/async-tcp-proxy.py:50 | `%0*X` is all hex digits, and its length is the width or the unpadded length, whichever is larger. |
| HexDump.FormatHexRoundTrip | async-tcp-proxy/src/async-tcp-proxy.py:50 | `%0*X` denotes the number it formats, whatever the width. |
| HexDump.ByteHexFormat | async-tcp-proxy/src/async-tcp-proxy.py:50 | `%02X` of a byte is its high digit, then its low digit, and it denotes the byte. |
| HexDump.SplitJoin | async-tcp-proxy/src/async-tcp-proxy.py:53 | Splitting at the separator undoes `sep.join(parts)` when no part contains the separator. |
| HexDump.JoinNoNewline | async-tcp-proxy/src/async-tcp-proxy.py:50 | A join contains no newline when neither the separator nor any part contains one. |
| HexDump.NumRows | async-tcp-proxy/src/async-tcp-proxy.py:48 | `range(0, n, 16)` has the least count of rows whose 16-byte slots cover n bytes. |
| HexDump.NumRowsCeiling | async-tcp-proxy/src/async-tcp-proxy.py:48 | The row count equals ceil(n / 16), that is `(n + 15) / 16`. |
| HexDump.ByteHex | async-tcp-proxy/src/async-tcp-proxy.py:50 | Definition of `'%0*X' % (digits, x)` for one byte with `digits = 2`: the high digit, then the low digit. `ByteHexFormat` proves it equals `%02X` and denotes the byte. |
| HexDump.HexBytes | async-tcp-proxy/src/async-tcp-proxy.py:50 | Definition of the list `['%0*X' % (digits, x) for x in s]`. `HexBytesAt` proves it has one `%02X` string per byte, in order. |
| HexDump.Join | async-tcp-proxy/src/async-tcp-proxy.py:50-53 | Definition of `sep.join(parts)`. `SplitJoin` proves that splitting undoes it, and `JoinNoNewline` that it adds no newline. |
| HexDump.HexColumn | async-tcp-proxy/src/async-tcp-proxy.py:50 | Definition of `hexa`, the byte strings joined by single spaces. `HexColumnLayout` states its length and each character. |
| HexDump.Printable | async-tcp-proxy/src/async-tcp-proxy.py:51 | Definition of `chr(x) if 0x20 <= x < 0x7F else '.'`. `TextColumnLayout` states it for every byte of a chunk. |
| HexDump.TextColumn | async-tcp-proxy/src/async-tcp-proxy.py:51 | Definition of `text`, one printable character per byte. `TextColumnLayout` states its length and each character. |
| HexDump.LeftJustified | async-tcp-proxy/src/async-tcp-proxy.py:52 | Definition of `%-*s`: the string, padded on the right with spaces to the width. `PaddedHexColumn` states the padded hex column. |
| HexDump.Row | async-tcp-proxy/src/async-tcp-proxy.py:52 | Definition of `"%04X   %-*s   %s" % (i, 48, hexa, text)`. `RowFields`, `RowLayout` and `RowNoNewline` state its layout. |
| HexDump.Chunk | async-tcp-proxy/src/async-tcp-proxy.py:49 | Definition of `data[i:i + length]`, clamped to the end of the data as Python clamps it. `HexDumpLines` states which bytes each row gets. |
| HexDump.Rows | async-tcp-proxy/src/async-tcp-proxy.py:48-52 | There is one row per offset `16 * j` below the data length. Row j formats the chunk at that offset. |
| HexDump.HexDump | async-tcp-proxy/src/async-tcp-proxy.py:45-53 | The loop's result list is exactly `Rows(data)`, and the dump is those rows joined by `"\n"`. Empty input gives `""`. |
| HexDump.HexColumnLayout | async-tcp-proxy/src/async-tcp-proxy.py:50 | The hex column has length `3 * len - 1`. Byte j sits at positions 3j and 3j+1 as its two digits, with a single space after it except after the last byte. |
| HexDump.HexBytesAt | async-tcp-proxy/src/async-tcp-proxy.py:50 | The list being joined has one `%02X` string per byte, in order. |
| HexDump.PaddedHexColumn | async-tcp-proxy/src/async-tcp-proxy.py:52 | `%-48s` of the hex column is 48 characters long: the hex column, then spaces. |
| HexDump.TextColumnLayout | async-tcp-proxy/src/async-tcp-proxy.py:51 | The text column has one character per byte. It is `chr(b)` when 0x20 <= b < 0x7F, else `.`. |
| HexDump.RowFields | async-tcp-proxy/src/async-tcp-proxy.py:52 | A row is the offset field, three spaces, the padded hex column, three spaces and the text column, each one at its own position. |
| HexDump.RowLayout | async-tcp-proxy/src/async-tcp-proxy.py:52 | A row is the offset in at least four hex digits (denoting the offset), then three spaces, then each byte's two digits with single spaces between them, padded to 48 characters, then three spaces, then one text character per byte. The row's total length follows from these fields. |
| HexDump.RowNoNewline | async-tcp-proxy/src/async-tcp-proxy.py:50-52 | No row contains a newline. |
| HexDump.HexDumpLines | async-tcp-proxy/src/async-tcp-proxy.py:45-53 | For non-empty data there are ceil(n/16) rows, and splitting the dump at newlines gives them back. Row j formats the bytes `data[16j ..]`: sixteen of them, or the remainder of the data in the last row. |
| RemoteConnection.Acquire | async-tcp-proxy/src/async-tcp-proxy.py:25-34 | The result is what the slot holds afterwards. A present connection is kept and returned, and no open is attempted. A new pair can only come from a successful open into an empty slot. Only a failed open into an empty slot gives `None`. |
| RemoteConnection.Release | async-tcp-proxy/src/async-tcp-proxy.py:36-42 | Release empties the slot and hands back the old pair. It closes the old writer and nothing else. With an empty slot it closes nothing. |
| RemoteConnection.AcquireIdempotent | async-tcp-proxy/src/async-tcp-proxy.py:27-34 | After a successful acquire, a second one changes nothing and returns the same pair, whatever opening would do. |
| RemoteConnection.ReleaseReturnsAcquired | async-tcp-proxy/src/async-tcp-proxy.py:36-42 | Release hands back the pair that acquire handed out and closes that pair's writer. |
| RemoteConnection.AcquireAfterRelease | async-tcp-proxy/src/async-tcp-proxy.py:27-30 | After a release, acquiring opens a fresh connection. |
| Proxy.Server.constructor | async-tcp-proxy/src/async-tcp-proxy.py:23 | The proxy starts with no connection and nothing closed. |
| Proxy.Server.Acquire | async-tcp-proxy/src/async-tcp-proxy.py:25-34 | With a present slot it returns the slot and changes nothing. With an empty slot and a successful open, both the slot and the result hold the new pair. With an empty slot and a failed open, it returns `None` and the slot stays empty. |
| Proxy.Server.Release | async-tcp-proxy/src/async-tcp-proxy.py:36-42 | It returns the old slot and leaves the slot empty. It appends the old writer to the closed writers, or appends nothing when the slot was empty (the unpacking fails). |
| Proxy.Server.UnderLock | async-tcp-proxy/src/async-tcp-proxy.py:87-147 | The locked block changes the slot, the closed writers and the loop's locals exactly as `Session.UnderLock` says. It never reports the exit `Suspended`. |
| Proxy.Server.HandleClient | async-tcp-proxy/src/async-tcp-proxy.py:55-150 | The loop's final exit, slot, closed writers, `timeout_count`, `return_reason`, the record of bytes moved and the client-writer closes are exactly `HandleClientSpec` of the old state. |
| Session.Entered | async-tcp-proxy/src/async-tcp-proxy.py:87 | Definition of the slot this session finds when it takes the lock: what other sessions left in it, or the slot as it was. |
| Session.AfterSend | async-tcp-proxy/src/async-tcp-proxy.py:104-147 | Definition of the remote read and what follows it. `RoundResponseOutcomes` and `RoundForwards` state it outcome by outcome. |
| Session.UnderLock | async-tcp-proxy/src/async-tcp-proxy.py:87-147 | Definition of the block under `remote_server_lock`. `RoundSendOutcomes`, `RoundResponseOutcomes` and `RoundForwards` state it outcome by outcome. |
| Session.RoundStep | async-tcp-proxy/src/async-tcp-proxy.py:68-147 | Definition of one pass of the `while True` loop. The `Round…Outcomes` lemmas and `RoundForwards` state, for each combination of outcomes, the exact step it makes. |
| Session.Run | async-tcp-proxy/src/async-tcp-proxy.py:68-150 | Definition of the loop over a script of outcomes, with the `finally` closing the client writer once. `RunLastPass` states how it ends. |
| Session.HandleClientSpec | async-tcp-proxy/src/async-tcp-proxy.py:55-150 | Definition of `handle_client`: the first request for a connection, then the loop. `Proxy.Server.HandleClient` computes exactly this, and the `Session…` lemmas state what it guarantees. |
| Session.Teardown | async-tcp-proxy/src/async-tcp-proxy.py:93-102 | Setting the reason and closing the remote connection empties the slot and closes its writer. It returns when a pair was present and raises otherwise. |
| Session.RoundRelayed | async-tcp-proxy/src/async-tcp-proxy.py:71-140 | One pass only appends to the record of bytes moved, and keeps it relayed: each `ToRemote` entry equals the `FromClient` entry before it, and each `ToClient` entry is the swap of the `FromRemote` entry before it. Which bytes those entries hold is stated by `RoundForwards` and `RoundChunks`. |
| Session.RunRelayed | async-tcp-proxy/src/async-tcp-proxy.py:68-147 | The whole loop only appends to the record and keeps it relayed. |
| Session.SessionRelayed | async-tcp-proxy/src/async-tcp-proxy.py:71-140 | In the record of a whole session, every write to the remote carries the client chunk recorded just before it (lines 71, 91), and every write to the client carries the swap of the response recorded just before it (lines 106, 112-114, 140). `SessionChunks` ties the recorded client chunks to the script's reads. |
| Session.RoundClientOutcomes | async-tcp-proxy/src/async-tcp-proxy.py:71-85 | A client-read `ConnectionError` returns with its reason, any other read error propagates, and an empty read returns with the no-data reason. The state is otherwise unchanged. |
| Session.RoundSendOutcomes | async-tcp-proxy/src/async-tcp-proxy.py:87-102 | After a non-empty client read: when no connection can be handed out, the teardown on the empty slot raises (lines 90, 98-101, 39); when the remote write fails, the connection is dropped, its writer closed and the session returns with the remote-write reason (lines 93-102). |
| Session.RoundResponseOutcomes | async-tcp-proxy/src/async-tcp-proxy.py:104-137 | Once the request is sent: a remote timeout adds one to `timeout_count` and leaves by the `break`, or from `MAX_TIMEOUTS` on drops the connection and returns; a read error drops the connection and returns; an empty response leaves by the `break` with the connection and the count kept. |
| Session.RoundForwards | async-tcp-proxy/src/async-tcp-proxy.py:71-147 | A full round trip: the client's chunk is recorded and sent to the remote, the response is recorded, and its swap is written to the client; the count is reset and the loop goes round again. A failed client write returns with the connection kept. |
| Session.RunLastPass | async-tcp-proxy/src/async-tcp-proxy.py:68-150 | A loop that runs out of outcomes has used them all. A loop that is left went round again on every earlier pass, and its last pass gives the exit and the final state. |
| Session.RoundChunks | async-tcp-proxy/src/async-tcp-proxy.py:71-91 | A pass records exactly the client chunk it read when it was non-empty, and no other client chunk. |
| Session.RunChunks | async-tcp-proxy/src/async-tcp-proxy.py:68-147 | The client chunks the loop records are exactly the non-empty client reads of the passes it makes, in order. |
| Session.SessionChunks | async-tcp-proxy/src/async-tcp-proxy.py:55-150 | The chunks a session reads from its client, and so the chunks it sends to the remote, are the non-empty client reads of its passes, in order. A session whose first request for a connection fails moves nothing. |
| Session.ClientTimeoutRetries | async-tcp-proxy/src/async-tcp-proxy.py:79-81 | A client-read timeout repeats the read and changes no state. |
| Session.RoundTimeouts | async-tcp-proxy/src/async-tcp-proxy.py:109-127 | The invariant `RunTimeouts` needs: a pass that goes round again and changes the state has reset the count to 0; a pass that leaves keeps the count, resets it or adds one, and adding one comes with the `break` or the `MAX_TIMEOUTS` teardown. Which outcome does what is stated by `RoundResponseOutcomes`. |
| Session.RunTimeouts | async-tcp-proxy/src/async-tcp-proxy.py:58-127 | Starting from 0, the count ends at most at 1 and the `MAX_TIMEOUTS` teardown never happens. |
| Session.SessionTimeouts | async-tcp-proxy/src/async-tcp-proxy.py:119-127 | In every session, `timeout_count` ends at most at 1 and the reason is never the too-many-timeouts one. |
| Session.RoundExit | async-tcp-proxy/src/async-tcp-proxy.py:76-147 | A `return` always names a reason, a `break` leaves the reason unchanged, and an exception keeps it or names a remote failure. |
| Session.RunExit | async-tcp-proxy/src/async-tcp-proxy.py:68-150 | A loop that starts at `'unknown'` ends on a `return` with a reason, or on a `break` (or exhaustion) still at `'unknown'`. The client writer is closed once unless the session is suspended. |
| Session.SessionExit | async-tcp-proxy/src/async-tcp-proxy.py:55-150 | On every exit path (return, break or exception) the `finally` closes the client writer exactly once. `return_reason` is `'unknown'` after a `break`. A failed first acquire raises with reason `'unknown'` and nothing relayed. |
| Session.RoundSlot | async-tcp-proxy/src/async-tcp-proxy.py:72-147 | Stated by the reason a pass leaves with: a remote-failure reason comes with an empty slot and at most one writer closed; every other reason closes nothing; a `break` or a failed client write leaves a connection in place; an empty or failed client read leaves the slot as it was. The outcomes that produce each reason are stated by `RoundSendOutcomes` and `RoundResponseOutcomes`. |
| Session.RunSlot | async-tcp-proxy/src/async-tcp-proxy.py:68-147 | The same facts as `RoundSlot`, for the whole loop. |
| Session.SessionSlot | async-tcp-proxy/src/async-tcp-proxy.py:93-137 | Stated by the reason a session ends with: a remote-write, remote-read or timeout reason comes with an empty slot and the writer closed when there was one; every other reason leaves the closed writers unchanged; the `break`s and client-write errors keep the connection. `RunLastPass` gives the pass that ended the session, and the `Round…Outcomes` lemmas the outcomes behind each reason. |
| Session.RoundBounded | async-tcp-proxy/src/async-tcp-proxy.py:17 | A pass whose reads fit `BUFFER_SIZE` sends nothing larger. |
| Session.RunBounded | async-tcp-proxy/src/async-tcp-proxy.py:71-106 | When every read returns at most `BUFFER_SIZE` bytes, every byte string the session relays fits the buffer. |
| Session.ExampleSession | async-tcp-proxy/src/async-tcp-proxy.py:71-140 | The client sends 01 02 03 04, the remote answers AA BB CC DD, and the client receives AA BB DD CC. A following empty client read returns with the connection kept. |

## Left out

- The `asyncio.Lock` and the interleaving of concurrent sessions (lines 20, 65, 87). The model covers one session. Each locked block is atomic, and other sessions show up only as `Round.others`, the slot value at lock entry.
- `asyncio.open_connection`, `reader.read`, `writer.write` and `asyncio.wait_for`. These are foreign I/O. Their outcomes are the fields of `Round` and `OpenOutcome`. Reads are not limited to `BUFFER_SIZE` bytes; `Session.RunBounded` takes that limit as a hypothesis.
- The floating-point timeouts `MAX_CLIENT_TIMEOUT` (line 14) and `--server-timeout` (line 157). They appear only as the `TimedOut` outcome.
- `main`, argparse, `start_server`, `serve_forever` and the critical-error handler (lines 152-176). These are process plumbing. `--client-timeout` (line 158) is never used by the code.
- Logging and the exact log text, including the peer-name lookup at lines 61-63. The `hex_dump` calls at lines 74, 115, 118 and 121 only feed debug logging, so the session model does not call `HexDump`.
- `return_reason` strings and exception messages. They are replaced by the enumeration `Reason`, with a `Fault` telling `ConnectionError` apart from other exceptions.
- Python's exception machinery. A TypeError from unpacking `None` that leaves `handle_client` (lines 66 and 39) becomes the exit `Raised`; in `Release` it is the result `None`.
- The kind of exception `asyncio.open_connection` raises. A `ConnectionError` or `TimeoutError` is caught at line 31; any other (an `OSError`, a `gaierror`) propagates from line 29. At lines 66 and 90 both end the session the same way, so `OpenOutcome.Refused` stands for all of them.
- The unused `client_in_session` flag (lines 69, 88).
- The `length` parameter of `hex_dump`. It is fixed at its default of 16, the only value any caller uses.
- Whether a failed `writer.write` delivered any bytes. The model records a write only when it succeeds.
