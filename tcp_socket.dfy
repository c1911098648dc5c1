/**
 * `nekit::transport::TcpSocket`: a TCP stream behind the asynchronous
 * transport contract. Modelled here: the classification of Boost.Asio errors
 * into the transport's error taxonomy, the half-duplex close flags, and what
 * the Read and Write completion handlers do with the outcome Asio reports.
 */
module Transport {
  import opened Wrappers
  import opened Utils

  /** The transport's error taxonomy. */
  datatype ErrorCode =
    | NoError
    | ConnectionAborted
    | ConnectionReset
    | HostUnreachable
    | NetworkDown
    | NetworkReset
    | NetworkUnreachable
    | TimedOut
    | EndOfFile
    | UnknownError

  /** The Boost error categories the socket tells apart. */
  datatype ErrorCategory = SystemCategory | MiscCategory | OtherCategory(name: string)

  /** A `boost::system::error_code`: a category and a value; value 0 means success. */
  datatype BoostError = BoostError(category: ErrorCategory, value: int)
  {
    /** The error code's conversion to `bool`. */
    predicate IsError() { value != 0 }

    /** The operation was cancelled because the socket was torn down. */
    predicate IsOperationAborted() { category == SystemCategory && value == OperationAbortedValue }
  }

  // `boost::asio::error::basic_errors` (the errno values of Linux)
  const OperationAbortedValue: int := 125     // ECANCELED
  const ConnectionAbortedValue: int := 103    // ECONNABORTED
  const ConnectionResetValue: int := 104      // ECONNRESET
  const HostUnreachableValue: int := 113      // EHOSTUNREACH
  const NetworkDownValue: int := 100          // ENETDOWN
  const NetworkResetValue: int := 102         // ENETRESET
  const NetworkUnreachableValue: int := 101   // ENETUNREACH
  const TimedOutValue: int := 110             // ETIMEDOUT
  // `boost::asio::error::misc_errors`
  const EofValue: int := 2

  /**
   * The one Boost error that the socket classifies as `e`, for every member
   * it recognises; `None` for `NoError` and `UnknownError`.
   */
  function RecognisedError(e: ErrorCode): Option<BoostError>
  {
    match e
    case ConnectionAborted => Some(BoostError(SystemCategory, ConnectionAbortedValue))
    case ConnectionReset => Some(BoostError(SystemCategory, ConnectionResetValue))
    case HostUnreachable => Some(BoostError(SystemCategory, HostUnreachableValue))
    case NetworkDown => Some(BoostError(SystemCategory, NetworkDownValue))
    case NetworkReset => Some(BoostError(SystemCategory, NetworkResetValue))
    case NetworkUnreachable => Some(BoostError(SystemCategory, NetworkUnreachableValue))
    case TimedOut => Some(BoostError(SystemCategory, TimedOutValue))
    case EndOfFile => Some(BoostError(MiscCategory, EofValue))
    case NoError => None
    case UnknownError => None
  }

  /** Classifies a Boost error; anything not recognised is `UnknownError`. */
  function ConvertBoostError(ec: BoostError): (r: ErrorCode)
    ensures r != NoError
    ensures r != UnknownError ==> RecognisedError(r) == Some(ec)
  {
    if ec.category == SystemCategory then
      if ec.value == ConnectionAbortedValue then ConnectionAborted
      else if ec.value == ConnectionResetValue then ConnectionReset
      else if ec.value == HostUnreachableValue then HostUnreachable
      else if ec.value == NetworkDownValue then NetworkDown
      else if ec.value == NetworkResetValue then NetworkReset
      else if ec.value == NetworkUnreachableValue then NetworkUnreachable
      else if ec.value == TimedOutValue then TimedOut
      else UnknownError
    else if ec.category == MiscCategory && ec.value == EofValue then
      EndOfFile
    else
      UnknownError
  }

  /**
   * Each recognised Boost error converts to its member, and only it does:
   * a Boost error converts to a member other than `UnknownError` exactly when
   * it is that member's recognised error.
   */
  lemma ConvertRecognised(ec: BoostError, e: ErrorCode)
    requires e != UnknownError
    ensures ConvertBoostError(ec) == e <==> RecognisedError(e) == Some(ec)
  {
  }

  /** A system-category cancellation is not among the recognised errors. */
  lemma OperationAbortedIsUnknown(ec: BoostError)
    requires ec.IsOperationAborted()
    ensures ConvertBoostError(ec) == UnknownError
  {
  }

  /** The human-readable text of an error code. */
  function Message(e: ErrorCode): (s: string)
    ensures |s| > 0
  {
    match e
    case NoError => "no error"
    case ConnectionAborted => "connection aborted"
    case ConnectionReset => "connection reset"
    case HostUnreachable => "host unreachable"
    case NetworkDown => "network down"
    case NetworkReset => "network reset"
    case NetworkUnreachable => "network unreachable"
    case TimedOut => "timeout"
    case EndOfFile => "end of file"
    case UnknownError => "unknown error"
  }

  /** Distinct error codes have distinct messages, so a message names its code. */
  lemma MessageInjective(a: ErrorCode, b: ErrorCode)
    requires Message(a) == Message(b)
    ensures a == b
  {
  }

  /** The completion handler a caller passes to `Read` or `Write`; opaque here. */
  datatype Handler = Handler(id: nat)

  /** One call of a completion handler: the buffer handed back and the error reported. */
  datatype Invocation = Invocation(handler: Handler, buffer: Buffer, error: ErrorCode)

  /** A `std::unique_ptr<Buffer>`; `None` is the null pointer. */
  type BufferPtr = Option<Buffer>

  /** `dst = std::move(src)`: the result is (new dst, new src); the source is left null. */
  function MoveAssign(src: BufferPtr): (BufferPtr, BufferPtr)
  {
    (src, None)
  }

  /**
   * The size of the region that `Read` and `Write` hand to Asio, as written:
   * the caller's pointer is moved into the slot and then dereferenced.
   * `None` stands for the dereference of a null pointer.
   */
  function AsioRegionAsWritten(buffer: Buffer): Option<nat>
  {
    var param := MoveAssign(Some(buffer)).1;
    if param.Some? then Some(param.value.Capacity()) else None
  }

  /** As written, every `Read` and `Write` dereferences the moved-from (null) parameter. */
  lemma AsioRegionAsWrittenIsNullDereference(buffer: Buffer)
    ensures AsioRegionAsWritten(buffer) == None
  {
  }

  /** What Boost.Asio's `async_write` reports: all bytes on success, at most all and fewer on error. */
  predicate AsioWriteReport(ec: BoostError, bytesTransferred: nat, capacity: nat)
  {
    if ec.IsError() then bytesTransferred < capacity || bytesTransferred == capacity == 0
    else bytesTransferred == capacity
  }

  /** The assertion of the Write completion as written: checked before the error test. */
  predicate WriteAssertAsWritten(bytesTransferred: nat, capacity: nat)
  {
    bytesTransferred == capacity
  }

  /** The assertion as intended: only a successful write must have transferred the whole buffer. */
  predicate WriteAssertIntended(ec: BoostError, bytesTransferred: nat, capacity: nat)
  {
    !ec.IsError() ==> bytesTransferred == capacity
  }

  /**
   * As written, the assertion fails on a live socket whose peer resets the
   * connection after 1 of 4 bytes: a reportable error aborts instead.
   */
  lemma WriteAssertAsWrittenRejectsReset()
    ensures var reset := BoostError(SystemCategory, ConnectionResetValue);
      AsioWriteReport(reset, 1, 4) && !WriteAssertAsWritten(1, 4) && WriteAssertIntended(reset, 1, 4)
  {
  }

  /** Every report Asio can make on a non-empty buffer satisfies the intended assertion. */
  lemma WriteAssertIntendedAcceptsReports(ec: BoostError, bytesTransferred: nat, capacity: nat)
    requires AsioWriteReport(ec, bytesTransferred, capacity)
    ensures WriteAssertIntended(ec, bytesTransferred, capacity)
    ensures ec.IsError() && capacity > 0 ==> !WriteAssertAsWritten(bytesTransferred, capacity)
  {
  }

  /** The in-flight buffer and handler slots of one direction. */
  datatype Slots = Slots(buffer: BufferPtr, handler: Option<Handler>)

  /** The scope guard of a completion: it nulls both slots, whatever they hold. */
  function Guard(s: Slots): Slots
  {
    Slots(None, None)
  }

  /**
   * The slots after the completion handler has run; `rearm` is the operation
   * of the same direction the handler starts from inside itself, if any.
   */
  function RunHandler(s: Slots, rearm: Option<(Buffer, Handler)>): Slots
  {
    match rearm
    case None => s
    case Some((buffer, handler)) => Slots(Some(buffer), Some(handler))
  }

  /** The slots after a completion as written: the handler runs, then the guard clears. */
  function SlotsAfterCompletionAsWritten(s: Slots, rearm: Option<(Buffer, Handler)>): Slots
  {
    Guard(RunHandler(s, rearm))
  }

  /** The slots after a completion as intended: the guard clears, then the handler runs. */
  function SlotsAfterCompletionIntended(s: Slots, rearm: Option<(Buffer, Handler)>): Slots
  {
    RunHandler(Guard(s), rearm)
  }

  /** As written, an operation the handler starts from inside itself loses its buffer and handler. */
  lemma RearmLostAsWritten(s: Slots, buffer: Buffer, handler: Handler)
    ensures RunHandler(s, Some((buffer, handler))) == Slots(Some(buffer), Some(handler))
    ensures SlotsAfterCompletionAsWritten(s, Some((buffer, handler))) == Slots(None, None)
  {
  }

  /** As intended, such an operation stays outstanding, and with no such operation the slots end cleared. */
  lemma RearmKeptIntended(s: Slots, rearm: Option<(Buffer, Handler)>)
    ensures SlotsAfterCompletionIntended(s, rearm) ==
      if rearm.Some? then Slots(Some(rearm.value.0), Some(rearm.value.1)) else Slots(None, None)
  {
  }

  class TcpSocket {
    var readClosed: bool
    var writeClosed: bool
    /** The buffer and handler of the outstanding read, if any. */
    var readBuffer: BufferPtr
    var readHandler: Option<Handler>
    /** The buffer and handler of the outstanding write, if any. */
    var writeBuffer: BufferPtr
    var writeHandler: Option<Handler>

    /** A freshly connected socket: both directions open, nothing outstanding. */
    constructor ()
      ensures !readClosed && !writeClosed
      ensures readBuffer == None && readHandler == None
      ensures writeBuffer == None && writeHandler == None
    {
      readClosed, writeClosed := false, false;
      readBuffer, readHandler := None, None;
      writeBuffer, writeHandler := None, None;
    }

    function IsReadClosed(): (r: bool)
      reads this
      ensures r == readClosed
    {
      readClosed
    }

    function IsWriteClosed(): (r: bool)
      reads this
      ensures r == writeClosed
    {
      writeClosed
    }

    /** Closed means both halves are closed, in every state. */
    function IsClosed(): (r: bool)
      reads this
      ensures r <==> readClosed && writeClosed
    {
      IsReadClosed() && IsWriteClosed()
    }

    /** Shuts down the receiving half; a no-op when it is already closed. */
    method CloseRead()
      modifies this`readClosed
      ensures readClosed
      ensures IsClosed() == writeClosed
    {
      if readClosed {
        return;
      }
      readClosed := true;
    }

    /** Shuts down the sending half; a no-op when it is already closed. */
    method CloseWrite()
      modifies this`writeClosed
      ensures writeClosed
      ensures IsClosed() == readClosed
    {
      if writeClosed {
        return;
      }
      writeClosed := true;
    }

    /** Shuts down both halves. */
    method Close()
      modifies this`readClosed, this`writeClosed
      ensures readClosed && writeClosed && IsClosed()
    {
      CloseRead();
      CloseWrite();
    }

    /**
     * Starts a read: the socket takes the buffer and handler into its read
     * slots and hands Asio the buffer's usable region, read from the slot.
     */
    method Read(buffer: Buffer, handler: Handler) returns (region: nat)
      modifies this`readBuffer, this`readHandler
      ensures readBuffer == Some(buffer) && readHandler == Some(handler)
      ensures region == buffer.Capacity()
    {
      readBuffer := Some(buffer);
      readHandler := Some(handler);
      region := readBuffer.value.Capacity();
    }

    /**
     * The read completion for the outcome `ec`, `bytesTransferred`, where
     * `received` is what Asio wrote at the start of the slot's buffer through
     * the pointer it was given. Returns the handler call it makes, if any,
     * for the caller to run afterwards: `readClosed` is already set, and the
     * read slots are cleared on every path before the handler runs (the
     * intended order, see `SlotsAfterCompletionIntended`), so a read the
     * handler starts keeps its slots. The socket is assumed to outlive the
     * completion.
     */
    method OnReadComplete(ec: BoostError, bytesTransferred: nat, received: seq<byte>) returns (call: Option<Invocation>)
      requires readBuffer.Some? && readHandler.Some?
      requires bytesTransferred <= readBuffer.value.Capacity()
      requires |received| == bytesTransferred
      modifies this`readBuffer, this`readHandler, this`readClosed
      ensures readBuffer == None && readHandler == None
      // cancelled: the handler is not called
      ensures ec.IsOperationAborted() ==> call == None && readClosed == old(readClosed)
      // failed: the handler gets the buffer Asio wrote into, with the classified error; end of file closes the read half
      ensures ec.IsError() && !ec.IsOperationAborted() ==>
        call == Some(Invocation(old(readHandler.value), old(readBuffer.value).Receive(received), ConvertBoostError(ec))) &&
        readClosed == (old(readClosed) || ConvertBoostError(ec) == EndOfFile)
      // succeeded: the usable region is exactly the bytes received, and the storage past them is kept
      ensures !ec.IsError() ==>
        call.Some? && call.value.handler == old(readHandler.value) && call.value.error == NoError &&
        call.value.buffer.region == received &&
        call.value.buffer.Storage() == received + old(readBuffer.value).Storage()[bytesTransferred..] &&
        readClosed == old(readClosed)
    {
      // Asio has written the received bytes into the slot's buffer before the completion runs.
      readBuffer := Some(readBuffer.value.Receive(received));
      var buffer, handler := readBuffer.value, readHandler.value;
      readBuffer, readHandler := None, None;
      if ec.IsError() {
        if ec.category == SystemCategory && ec.value == OperationAbortedValue {
          return None;
        }
        var error := ConvertBoostError(ec);
        if error == EndOfFile {
          readClosed := true;
        }
        return Some(Invocation(handler, buffer, error));
      }
      buffer := buffer.ReserveBack(buffer.Capacity() - bytesTransferred);
      return Some(Invocation(handler, buffer, NoError));
    }

    /**
     * Starts a write: the socket takes the buffer and handler into its write
     * slots and hands Asio the buffer's usable region, read from the slot.
     */
    method Write(buffer: Buffer, handler: Handler) returns (region: nat)
      modifies this`writeBuffer, this`writeHandler
      ensures writeBuffer == Some(buffer) && writeHandler == Some(handler)
      ensures region == buffer.Capacity()
    {
      writeBuffer := Some(buffer);
      writeHandler := Some(handler);
      region := writeBuffer.value.Capacity();
    }

    /**
     * The write completion for the outcome `ec`, `bytesTransferred`.
     * Returns the handler call it makes, if any, for the caller to run
     * afterwards; the buffer goes back unchanged. The write slots are
     * cleared on every path before the handler runs (the intended order, see
     * `SlotsAfterCompletionIntended`). The socket is assumed to outlive the
     * completion.
     */
    method OnWriteComplete(ec: BoostError, bytesTransferred: nat) returns (call: Option<Invocation>)
      requires writeBuffer.Some? && writeHandler.Some?
      requires WriteAssertIntended(ec, bytesTransferred, writeBuffer.value.Capacity())
      modifies this`writeBuffer, this`writeHandler
      ensures writeBuffer == None && writeHandler == None
      // cancelled: the handler is not called
      ensures ec.IsOperationAborted() ==> call == None
      // otherwise the handler is called once, with the unchanged buffer
      ensures !ec.IsOperationAborted() ==>
        call == Some(Invocation(old(writeHandler.value), old(writeBuffer.value),
                                if ec.IsError() then ConvertBoostError(ec) else NoError))
    {
      var buffer, handler := writeBuffer.value, writeHandler.value;
      writeBuffer, writeHandler := None, None;
      if ec.IsError() {
        if ec.category == SystemCategory && ec.value == OperationAbortedValue {
          return None;
        }
        return Some(Invocation(handler, buffer, ConvertBoostError(ec)));
      }
      return Some(Invocation(handler, buffer, NoError));
    }
  }
}
