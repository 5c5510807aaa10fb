/** The safe wrapper around the LAME MP3 encoder: translation of the native
    return codes, the guarded `usize` to `c_int` conversion, the argument checks
    of `encode`/`flush`, and ownership of the native handle. The native library
    itself is foreign code; its return code is an input here. */
module LameEncoder {
  import opened Common
  import opened Text

  /** Errors of LAME's configuration calls. */
  datatype Error = Ok | GenericError | NoMem | BadBitRate | BadSampleFreq | InternalError | Unknown(code: int)

  /** The native codes that have a named `Error` variant. */
  predicate IsNamedErrorCode(c: int) {
    c == 0 || c == -1 || c == -10 || c == -11 || c == -12 || c == -13
  }

  /** `From<c_int> for Error`. */
  function ErrorFromCode(errcode: int): (e: Error)
    ensures e.Ok? <==> errcode == 0
    ensures e.Unknown? <==> !IsNamedErrorCode(errcode)
    ensures e.Unknown? ==> e.code == errcode
  {
    match errcode
    case 0 => Error.Ok
    case -1 => GenericError
    case -10 => Error.NoMem
    case -11 => BadBitRate
    case -12 => BadSampleFreq
    case -13 => InternalError
    case _ => Error.Unknown(errcode)
  }

  /** The native code each error stands for (the inverse of `ErrorFromCode`). */
  function ErrorCode(e: Error): int {
    match e
    case Ok => 0
    case GenericError => -1
    case NoMem => -10
    case BadBitRate => -11
    case BadSampleFreq => -12
    case InternalError => -13
    case Unknown(c) => c
  }

  /** The translation loses nothing: every code is recovered from its error. */
  lemma ErrorFromCodeInjective(errcode: int)
    ensures ErrorCode(ErrorFromCode(errcode)) == errcode
  {
  }

  /** ... and every error that the translation can produce is recovered from its
      code. */
  lemma ErrorCodeRoundTrip(e: Error)
    requires e.Unknown? ==> !IsNamedErrorCode(e.code)
    ensures ErrorFromCode(ErrorCode(e)) == e
  {
  }

  /** `handle_simple_error`: success exactly for code 0, otherwise the
      translated error (never `Error::Ok`). */
  function HandleSimpleError(retn: int): (r: Result<(), Error>)
    ensures r.Ok? <==> retn == 0
    ensures r.Err? ==> r.error == ErrorFromCode(retn) && !r.error.Ok?
  {
    match ErrorFromCode(retn)
    case Ok => Result.Ok(())
    case err => Err(err)
  }

  /** `int_size`: a `usize` passed to C as `c_int`; larger sizes panic. */
  function IntSize(sz: nat): (r: Outcome<int>)
    ensures r.Returned? <==> sz <= I32Max
    ensures r.Returned? ==> r.value == sz
  {
    if sz > I32Max then Panicked("converting " + NatToDecimal(sz) + " to c_int would overflow")
    else Returned(sz)
  }

  /** Errors of `encode` and `flush`. */
  datatype EncodeError = OutputBufferTooSmall | NoMem | InitParamsNotCalled | PsychoAcousticError | Unknown(code: int)

  /** The result mapping shared by `encode` and `flush`: a non-negative code is
      a byte count, the codes -1 to -4 are named, other negatives are unknown. */
  function EncodeResult(retn: int): (r: Result<nat, EncodeError>)
    ensures r.Ok? <==> retn >= 0
    ensures r.Ok? ==> r.value == retn
    ensures r.Err? && r.error.Unknown? <==> retn < -4
    ensures r.Err? && r.error.Unknown? ==> r.error.code == retn
  {
    match retn
    case -1 => Err(OutputBufferTooSmall)
    case -2 => Err(EncodeError.NoMem)
    case -3 => Err(InitParamsNotCalled)
    case -4 => Err(PsychoAcousticError)
    case _ => if retn < 0 then Err(EncodeError.Unknown(retn)) else Result.Ok(retn)
  }

  /** The native code an encode result stands for. */
  function EncodeResultCode(r: Result<nat, EncodeError>): int {
    match r
    case Ok(n) => n
    case Err(OutputBufferTooSmall) => -1
    case Err(NoMem) => -2
    case Err(InitParamsNotCalled) => -3
    case Err(PsychoAcousticError) => -4
    case Err(Unknown(c)) => c
  }

  /** The encode/flush mapping loses nothing. */
  lemma EncodeResultInjective(retn: int)
    ensures EncodeResultCode(EncodeResult(retn)) == retn
  {
  }

  /** `Lame::encode`: panics unless both channels have the same number of
      samples and both sizes fit a `c_int`; otherwise the native return code
      `retn` (an input: the library is foreign code) is translated. */
  function Encode(left: seq<int>, right: seq<int>, bufferLen: nat, retn: int): (r: Outcome<Result<nat, EncodeError>>)
    ensures r.Returned? <==> |left| == |right| && |left| <= I32Max && bufferLen <= I32Max
    ensures r.Returned? ==> r.value == EncodeResult(retn)
    ensures |left| != |right| ==> r == Panicked("left and right channels must have same number of samples!")
  {
    if |left| != |right| then Panicked("left and right channels must have same number of samples!")
    else
      match IntSize(|left|)
      case Panicked(m) => Panicked(m)
      case Returned(_) =>
        match IntSize(bufferLen)
        case Panicked(m) => Panicked(m)
        case Returned(_) => Returned(EncodeResult(retn))
  }

  /** `Lame::flush`: panics only when the output buffer size does not fit a
      `c_int`. */
  function Flush(bufferLen: nat, retn: int): (r: Outcome<Result<nat, EncodeError>>)
    ensures r.Returned? <==> bufferLen <= I32Max
    ensures r.Returned? ==> r.value == EncodeResult(retn)
  {
    match IntSize(bufferLen)
    case Panicked(m) => Panicked(m)
    case Returned(_) => Returned(EncodeResult(retn))
  }

  /** An encoder context: the native handle, closed exactly once when the
      owner drops it. */
  class Lame {
    const handle: int
    var closed: bool

    constructor Wrap(ctx: int)
      requires ctx != 0
      ensures handle == ctx && !closed
    {
      handle := ctx;
      closed := false;
    }

    /** `Lame::new`: `ctx` is what `lame_init` returned (0 for null). */
    static method New(ctx: int) returns (r: Option<Lame>)
      ensures r.None? <==> ctx == 0
      ensures r.Some? ==> fresh(r.value) && r.value.handle == ctx && !r.value.closed
    {
      if ctx == 0 {
        r := None;
      } else {
        var lame := new Lame.Wrap(ctx);
        r := Some(lame);
      }
    }

    /** `Drop for Lame`: `lame_close`, which a live handle gets once. */
    method Drop()
      requires !closed
      modifies this
      ensures closed
    {
      closed := true;
    }
  }
}
