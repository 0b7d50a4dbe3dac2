/**
  The serial link's error types and the conversion of UART errors into I/O
  errors (`uart_err_to_io` and the read-mode length of `UartWrapper::read`).
 */
module Link {
  import opened Machine
  import opened Wrappers

  /** The kinds of `std::io::Error` the conversion chooses; all others are `SystemKind`. */
  datatype ErrorKind = InvalidInput | Other | SystemKind(code: int)

  /** An I/O error: one from the operating system, or one wrapping a library error. */
  datatype IoError =
    | OsError(osKind: ErrorKind, code: int)
    | Custom(customKind: ErrorKind, payload: Payload)

  /** The library error an `io::Error::new` wraps. */
  datatype Payload = GpioPayload(gpio: GpioError) | UartPayload(uart: UartError)

  /** `gpio::Error`: an I/O error, or one of the library's own failures. */
  datatype GpioError = GpioIo(io: IoError) | GpioOther(tag: nat)

  /** `uart::Error`. */
  datatype UartError = UartIo(io: IoError) | UartGpio(gpio: GpioError) | InvalidValue

  function Kind(e: IoError): ErrorKind {
    match e
    case OsError(k, _) => k
    case Custom(k, _) => k
  }

  /** A UART error whose conversion hands back an I/O error it already carries. */
  predicate PassesThrough(e: UartError) {
    e.UartIo? || (e.UartGpio? && e.gpio.GpioIo?)
  }

  /** `uart_err_to_io`. */
  function UartErrToIo(e: UartError): (r: IoError)
    ensures e.InvalidValue? ==> Kind(r) == InvalidInput
    ensures e.UartGpio? && !e.gpio.GpioIo? ==> Kind(r) == Other
    ensures !PassesThrough(e) ==> r.Custom?
  {
    match e
    case UartIo(io) => io
    case UartGpio(GpioIo(io)) => io
    case UartGpio(g) => Custom(Other, GpioPayload(g))
    case InvalidValue => Custom(InvalidInput, UartPayload(e))
  }

  /** The UART error a wrapping conversion started from, read back from the I/O error. */
  function WrappedUartError(r: IoError): Option<UartError> {
    match r
    case Custom(Other, GpioPayload(g)) => Some(UartGpio(g))
    case Custom(InvalidInput, UartPayload(u)) => Some(u)
    case _ => None
  }

  /** An I/O error already inside the UART error is passed on unchanged. */
  lemma UartErrToIoPassesThrough(e: UartError)
    requires PassesThrough(e)
    ensures e.UartIo? ==> UartErrToIo(e) == e.io
    ensures e.UartGpio? ==> UartErrToIo(e) == e.gpio.io
  {
  }

  /** Every other UART error is recoverable from the I/O error it becomes. */
  lemma UartErrToIoWrapsLosslessly(e: UartError)
    requires !PassesThrough(e)
    ensures WrappedUartError(UartErrToIo(e)) == Some(e)
  {
  }

  /** A UART-level and a GPIO-level I/O error convert to the same result. */
  lemma UartErrToIoMergesIoLevels(io: IoError)
    ensures UartErrToIo(UartIo(io)) == UartErrToIo(UartGpio(GpioIo(io)))
  {
  }

  /**
    The minimum byte count set before each UART read: the buffer length,
    saturated to `u8::MAX` when it does not fit in a `u8`.
   */
  function ReadModeMinLength(bufferLength: nat): (r: u8)
    ensures r as int <= bufferLength
    ensures r as int == bufferLength || r == U8Max
  {
    if bufferLength <= U8Max as int then bufferLength as u8 else U8Max
  }
}
