# libnekit routing rule and TCP transport, in Dafny

This project models two parts of the libnekit proxy engine and proves properties of them.

- **GeoRule** (`src/rule/geo_rule.cc`) is a routing rule. It matches a session on the country of its destination address. `Match` reads the session's integer cache under the fixed key `"NECO"`. On a miss it consults the geo-IP database and stores the code under that key. The database is consulted on the session's address, or on the first address of its resolved domain. `Match` returns `Match`, `NotMatch` or `ResolveNeeded`. A domain whose resolution failed gives `NotMatch`. A domain still pending gives `ResolveNeeded`, with no lookup and no cache write. Once a code is known, the verdict is the XNOR `(code == code_) == match_`.
- **TcpSocket** (`src/transport/tcp_socket.cc`) is the TCP transport. The model covers:
  - the classification of Boost.Asio errors into the ten-member `ErrorCode` taxonomy, and the text of each code;
  - the half-duplex close flags;
  - the Read and Write completion handlers. On cancellation no handler is called. On end of file the read half is closed before the handler runs. On any other error the handler gets the classified code. The bytes Asio receives are written at the start of the read buffer, and a successful read trims the buffer's usable region to exactly those bytes. The in-flight buffer and handler slots are cleared on every path. The model clears them before the handler runs, which is the intended order; the source clears them after (see Findings).

Files:
- `wrappers.dfy`: `Option`.
- `utils.dfy` (module `Utils`): addresses, domain resolution states, the `Session` class (destination and integer cache), and `Buffer` (usable region and reserved back).
- `geo_rule.dfy` (module `Rule`): `GeoRule`, its specification function `Evaluate`, and lemmas about it.
- `tcp_socket.dfy` (module `Transport`): the error taxonomy, `ConvertBoostError`, `Message`, and the `TcpSocket` class.

`GeoRule.Match` is a method on a `Session` object. It is proved equal to the pure function `GeoRule.Evaluate`. `Evaluate` returns the verdict, the new cache, and the address looked up, if any. The properties of `Match` are proved as lemmas about `Evaluate`. These include repeated evaluation through `Replay`. The geo-IP database is a total function parameter. The source asserts that the lookup never fails (`geo_rule.cc:73`). Each completion handler is a method that takes Asio's outcome, `(ec, bytes_transferred)`, as input. The read completion also takes the bytes Asio wrote into the buffer. It returns the handler call it makes, if any, as an `Invocation`: the handler, the buffer handed back, and the error code.

## Model

| member | source | states |
|---|---|---|
| `Rule.GeoRule.constructor` | src/rule/geo_rule.cc:32-35 | The rule keeps its target code and its match-if-equal toggle. |
| `Rule.GeoRule.Decide` | src/rule/geo_rule.cc:57-61 | Once a code is known, the decision is `Match` or `NotMatch`, never `ResolveNeeded`. |
| `Rule.GeoRule.Evaluate` | src/rule/geo_rule.cc:37-62 | Specification of `Match`. With no lookup, the cache is unchanged. A lookup happens only when the key is absent, and it changes only the `"NECO"` entry, setting it to the looked-up code. If the cache holds a code afterwards, the verdict is the decision on that code. The cache lacks a code afterwards exactly when the domain has failed (`NotMatch`) or is pending (`ResolveNeeded`). |
| `Rule.GeoRule.Replay` | src/rule/geo_rule.cc:37-62 | `n` successive evaluations on one destination. There are exactly `n`. The first is an evaluation on the given cache, and each later one is an evaluation on the cache the previous one left. |
| `Rule.GeoRule.LookupAndCache` | src/rule/geo_rule.cc:69-77 | Returns the database's code for the address, and reports that address as the one the database was called on. The new cache is the old one with `"NECO"` set to that code. |
| `Rule.GeoRule.Match` | src/rule/geo_rule.cc:37-62 | The verdict, the new session cache, and the address looked up are exactly those that `Evaluate` gives for the session's destination and old cache. The destination is not changed. The address looked up is the one `LookupAndCache` reports, and `None` when it was not called. |
| `Rule.MatchFreshSessionTwice` | src/rule/geo_rule.cc:37-62 | On a new session with an empty cache, the first match gives the verdict `Evaluate` gives on the empty cache. For an address session, that is the decision on the address's country. A second match on the same session gives the same verdict. |
| `Rule.CacheHitDecides` | src/rule/geo_rule.cc:40-42 | When `"NECO"` is cached, the verdict is the decision on the cached code, with no lookup and the cache unchanged. This holds for any destination, a failed or pending domain included. |
| `Rule.FailedDomainNotMatch` | src/rule/geo_rule.cc:47-49 | A failed domain with nothing cached gives `NotMatch`, with no lookup and no cache write. |
| `Rule.PendingDomainSuspends` | src/rule/geo_rule.cc:50-52 | A domain that has neither failed nor resolved, with nothing cached, gives `ResolveNeeded`, with no lookup and no cache write. |
| `Rule.AddressMissLooksUp` | src/rule/geo_rule.cc:44-45 | An address session with nothing cached is looked up on its address. Afterwards `"NECO"` holds that code. The keys are the old keys plus `"NECO"`, and every old entry keeps its value. The verdict is the decision on the looked-up code. |
| `Rule.ResolvedDomainUsesFirstAddress` | src/rule/geo_rule.cc:53 | A resolved domain with nothing cached is looked up on its first resolved address only. The cache gains that code, and the verdict is the decision on it. |
| `Rule.DecisionTable` | src/rule/geo_rule.cc:57-61 | With the toggle set, the rule matches exactly the target code. With it cleared, it matches exactly the other codes. The decision is always `Match` or `NotMatch`. |
| `Rule.EvaluateIdempotent` | src/rule/geo_rule.cc:40-42 | A second evaluation on the cache left by the first does no lookup. It gives the same verdict and leaves the same cache. |
| `Rule.ReplayAtFixedPoint` | src/rule/geo_rule.cc:40-52 | If an evaluation leaves the cache as it found it, every evaluation in a replay from that cache repeats it exactly. |
| `Rule.ReplayLooksUpAtMostOnce` | src/rule/geo_rule.cc:40-76 | However many times the rule is evaluated on one destination, only the first evaluation can consult the database. All evaluations give the same verdict and leave the same cache. |
| `Rule.ResumeAfterResolution` | src/rule/geo_rule.cc:50-53 | A pending domain first gives `ResolveNeeded` with the cache untouched. Once the domain resolves, the next evaluation looks up exactly the first resolved address and decides on its code. |
| `Utils.Buffer.Receive` | src/transport/tcp_socket.cc:16-17 | Writing `k` received bytes through the buffer pointer handed to `async_read_some` puts them at the start of the usable region. The capacity is unchanged, and the storage past those bytes is as it was. |
| `Utils.Buffer.ReserveBack` | src/transport/tcp_socket.cc:39-40 | Reserving `n` bytes at the back shrinks the usable region by `n` and keeps the storage as it was. |
| `Transport.ConvertBoostError` | src/transport/tcp_socket.cc:123-148 | The result is never `NoError`. Any result other than `UnknownError` is produced only by that member's recognised Boost error: a system-category basic error, or misc-category `eof` for `EndOfFile`. |
| `Transport.ConvertRecognised` | src/transport/tcp_socket.cc:125-147 | For every member except `UnknownError`, a Boost error converts to it if and only if it is that member's recognised error. So `connection_aborted`→`ConnectionAborted`, …, `timed_out`→`TimedOut` and `eof`→`EndOfFile`. Everything else gives `UnknownError`. |
| `Transport.OperationAbortedIsUnknown` | src/transport/tcp_socket.cc:125-141 | A system-category `operation_aborted` is not a recognised error. It classifies as `UnknownError`. |
| `Transport.Message` | src/transport/tcp_socket.cc:160-183 | Every one of the ten codes has a non-empty message. |
| `Transport.MessageInjective` | src/transport/tcp_socket.cc:160-183 | Distinct codes have distinct messages. |
| `Transport.AsioRegionAsWrittenIsNullDereference` | src/transport/tcp_socket.cc:14-17 | As written, building the Asio buffer goes through the moved-from parameter. For every buffer, that is a null dereference (see Findings). |
| `Transport.WriteAssertAsWrittenRejectsReset` | src/transport/tcp_socket.cc:55 | A connection reset after 1 of 4 bytes on a live socket is a report Asio can make. The assertion as written fails on it, and the success-only form accepts it (see Findings). |
| `Transport.WriteAssertIntendedAcceptsReports` | src/transport/tcp_socket.cc:55 | Every report Asio can make satisfies the success-only assertion. On a non-empty buffer, every error report fails the assertion as written. |
| `Transport.RearmLostAsWritten` | src/transport/tcp_socket.cc:21-41 | As written, the scope guard clears the slots after the handler has run. An operation the handler starts from inside itself is then left with empty slots (see Findings). |
| `Transport.RearmKeptIntended` | src/transport/tcp_socket.cc:21-41 | With the guard run before the handler, an operation the handler starts keeps its buffer and handler. With no such operation, the slots end empty. |
| `Transport.TcpSocket.constructor` | src/transport/tcp_socket.cc:9-10 | A new socket has both halves open and no outstanding read or write. |
| `Transport.TcpSocket.IsReadClosed` | src/transport/tcp_socket.cc:103 | Reports whether the read half is closed. |
| `Transport.TcpSocket.IsWriteClosed` | src/transport/tcp_socket.cc:105 | Reports whether the write half is closed. |
| `Transport.TcpSocket.IsClosed` | src/transport/tcp_socket.cc:107 | In every state, the socket is closed exactly when both halves are closed. |
| `Transport.TcpSocket.CloseRead` | src/transport/tcp_socket.cc:78-87 | Afterwards the read half is closed, whether or not it was closed before. Only `readClosed` may change, so `writeClosed` is untouched. `IsClosed()` then equals `writeClosed`. |
| `Transport.TcpSocket.CloseWrite` | src/transport/tcp_socket.cc:89-96 | Afterwards the write half is closed. Only `writeClosed` may change. `IsClosed()` then equals `readClosed`. |
| `Transport.TcpSocket.Close` | src/transport/tcp_socket.cc:98-107 | Both halves are closed and `IsClosed()` holds. |
| `Transport.TcpSocket.Read` | src/transport/tcp_socket.cc:12-17 | The buffer and handler move into the read slots. The region handed to Asio is the buffer's capacity, taken from the slot. |
| `Transport.TcpSocket.OnReadComplete` | src/transport/tcp_socket.cc:18-43 | The read slots are cleared on every path. On cancellation, no handler is called and `readClosed` is unchanged. On another error, the handler gets the buffer with the received bytes written at its start, and the classified code, and `readClosed` is set exactly when that code is `EndOfFile`. On success, the handler gets `NoError` and a buffer whose usable region is exactly the bytes received. Its storage is those bytes followed by the old storage past them, so the rest of the old region is reserved at the back. The handler call is returned for the caller to run after the slots are cleared, which is the intended order (see Findings). |
| `Transport.TcpSocket.Write` | src/transport/tcp_socket.cc:46-52 | The buffer and handler move into the write slots. The region handed to Asio is the buffer's capacity, taken from the slot. |
| `Transport.TcpSocket.OnWriteComplete` | src/transport/tcp_socket.cc:53-75 | The write slots are cleared on every path. On cancellation, no handler is called. Otherwise the handler is called once, with the unchanged buffer and either the classified code or `NoError`. The close flags are untouched. The handler call is returned for the caller to run after the slots are cleared (see Findings). |

## Left out

- Boost.Asio scheduling is not modelled: issuing `async_read_some` and `async_write`, and the order in which the event loop runs completions. The completion bodies are methods that take Asio's outcome as input. Handlers are returned, not run.
- The `shutdown` system calls in `CloseRead` and `CloseWrite`, and their asserted-away errors, are not modelled. Neither are `localEndpoint` and `remoteEndpoint`. These are socket system calls whose errors the source only asserts against.
- The geo-IP database (`utils::Maxmind::Lookup`) is a total function parameter. Its error branch is excluded, as the assertion at `geo_rule.cc:73` requires.
- `GeoRule::GetAdapter` is not modelled. It only delegates to the adapter factory, which is not part of this model.
- The `std::error_category` registration, its `name()` and `make_error_code` are not modelled.
- `Transport.Message` is defined on `ErrorCode`. The source's `message(int)` falls off the end of its switch for an integer outside the enum, which is undefined behaviour. That case is not modelled.
- `src/utils/tcp_socket_interface.cc` (connect-request getters and its own error category) is not part of this model.
- The one-outstanding-operation-per-direction rule is not enforced. `Read` and `Write` overwrite their slots unchecked, as the source does, and the rule stays the caller's obligation.
- Boost error values are the Linux errno numbers (`ECANCELED` = 125, and so on), and misc `eof` is 2. On other platforms the numbers differ, but the distinctness the model relies on does not.
- The classes `Session`, `Domain` and `Buffer` (`nekit/utils/*.h`) are not part of this model. They are reduced to what GeoRule and TcpSocket use: a destination, an integer cache, the resolution state with its address list, capacity, `ReserveBack`, and the bytes written through the raw storage pointer (`Receive`). A resolved domain must have at least one address, because the source reads `addresses()->front()`. The domain-resolution machinery that updates a destination is not modelled.
- The cast between `CountryIsoCode` and `int` in the cache is the identity.
- `Transport.TcpSocket.OnReadComplete`, `Transport.TcpSocket.OnWriteComplete`: the slots are cleared before the returned handler call runs. In the source, the `Auto` guard (`tcp_socket.cc:21-22`, `57-58`) clears them after the handler has returned. So a `Read` or `Write` started from inside the handler loses its buffer and handler, and its own completion then dereferences a null buffer or calls an empty handler. These methods do not capture that. It is modelled separately in `Transport.SlotsAfterCompletionAsWritten` (see Findings).
- `Transport.TcpSocket.OnReadComplete`, `Transport.TcpSocket.OnWriteComplete`: assume the socket is still alive when Asio runs the completion. The lambdas capture a raw `this`, and nothing in this file cancels the socket. `Close()` only shuts the halves down. So `operation_aborted` arrives only after the `TcpSocket` has been destroyed. On that path the source reads `write_buffer_` (line 55), and its guard writes into a freed object. The model's "no handler call, slots cleared" on cancellation describes a live socket, not that undefined behaviour.
- `Transport.TcpSocket.OnWriteComplete`: requires the success-only form of the assertion at `tcp_socket.cc:55`, not the form as written (see Findings).

## Findings

| source | as written | input that shows it | evidently intended | confidence | as-written member | corrected member |
|---|---|---|---|---|---|---|
| src/transport/tcp_socket.cc:14-17 | `read_buffer_ = std::move(buffer)` leaves the parameter null. The next statement then builds the Asio buffer from `buffer->buffer()` and `buffer->capacity()`. `Write` does the same at lines 48-52. | any call `Read(b, h)` or `Write(b, h)` | build the Asio buffer from the stored slot `read_buffer_` / `write_buffer_` | high; not executed | `Transport.AsioRegionAsWritten`, `Transport.AsioRegionAsWrittenIsNullDereference` | `Transport.TcpSocket.Read`, `Transport.TcpSocket.Write` |
| src/transport/tcp_socket.cc:55 | `assert(bytes_transferred == write_buffer_->capacity())` runs on every completion, before the error test. Asio reports fewer bytes when a write fails. | a write of a 4-byte buffer on a live socket whose peer resets the connection after 1 byte (`connection_reset`, 1 byte). This error should reach the handler, but the assertion aborts first. | assert a full transfer only when `ec` is success | medium (debug builds only); not executed | `Transport.WriteAssertAsWritten`, `Transport.WriteAssertAsWrittenRejectsReset` | `Transport.WriteAssertIntended`, `Transport.TcpSocket.OnWriteComplete` |
| src/transport/tcp_socket.cc:21-41 | The `Auto` guard clears `read_buffer_` and `read_handler_` when the lambda exits, after the handler call at line 35 or 41. `Write` does the same at lines 57-73. While it runs, the handler is the object held in `read_handler_`. | a handler that starts the next `Read(b2, h2)` from inside itself, which is the usual read loop. Its buffer and handler are stored (lines 14-15) and then nulled by the guard. Assigning `read_handler_` also replaces the running handler. | clear the slots before calling the handler, moving the handler out first | medium; not executed | `Transport.SlotsAfterCompletionAsWritten`, `Transport.RearmLostAsWritten` | `Transport.SlotsAfterCompletionIntended`, `Transport.RearmKeptIntended`, `Transport.TcpSocket.OnReadComplete`, `Transport.TcpSocket.OnWriteComplete` |
