/** Modbus slave register callback over a two-register context (commanded
    speed percentage, on/off). The Modbus library calls it with an access
    check query first and, only when the check reports no exception, with
    the read or write query itself. Register classes and exception codes
    follow sections 4.3 and 7 of the Modbus Application Protocol
    Specification V1.1b3. */
module Minion {
  import opened Ints
  import opened Optional
  import DigitalControl

  /** Registers admitted by the access check, for every register class. */
  const REG_COUNT: nat := 3

  datatype Query = ReadCheck | WriteCheck | Read | Write

  /** The four register classes of the Modbus data model. */
  datatype RegisterType = HoldingRegister | InputRegister | Coil | DiscreteInput

  datatype ExceptionCode = NoException | IllegalFunction | IllegalAddress

  /** Exception codes on the wire: 01 illegal function, 02 illegal data address. */
  function Code(e: ExceptionCode): (c: u8)
    ensures c == 0 <==> e == NoException
  {
    match e
    case NoException => 0
    case IllegalFunction => 1
    case IllegalAddress => 2
  }

  /** Library status returned by a callback. */
  datatype ModbusError = ModbusOk | ModbusFailure(code: nat)

  datatype Context = Context(speedPerc: u16, speedOn: u16)

  datatype Args = Args(query: Query, regType: RegisterType, index: u16, value: u16)

  /** What the callback leaves behind: its return status, the exception code
      and the value it set in the result (None where it sets nothing), and
      the context. */
  datatype CallbackResult = CallbackResult(
    status: ModbusError,
    exception: Option<ExceptionCode>,
    value: Option<u16>,
    context: Context)

  /** The holding registers, in index order. */
  function Holding(ctx: Context): (regs: seq<u16>)
    ensures |regs| == 2
  {
    [ctx.speedPerc, ctx.speedOn]
  }

  /** Store `v` in holding register `index`. */
  function WriteHolding(ctx: Context, index: nat, v: u16): (r: Context)
    requires index < |Holding(ctx)|
    ensures Holding(r) == Holding(ctx)[index := v]
  {
    if index == 0 then ctx.(speedPerc := v) else ctx.(speedOn := v)
  }

  /** A read or write of a holding register stays inside the two-element
      register array. */
  predicate InBounds(a: Args) {
    (a.query == Read || a.query == Write) && a.regType == HoldingRegister ==> a.index < 2
  }

  /** The access check as written: the illegal-function code set for input
      registers is overwritten at once by the index check. */
  function AccessCheck(t: RegisterType, index: u16): (e: ExceptionCode)
    ensures e == NoException <==> index < REG_COUNT
    ensures e != NoException ==> e == IllegalAddress
  {
    var first := if t == InputRegister then IllegalFunction else NoException;
    var second := if index < REG_COUNT then NoException else IllegalAddress;
    second
  }

  /** The register callback as written. */
  function RegisterCallback(ctx: Context, a: Args, adc: DigitalControl.Sampler): (r: CallbackResult)
    requires InBounds(a)
    requires DigitalControl.Valid(adc)
    ensures r.status == ModbusOk
    ensures (a.query == ReadCheck || a.query == WriteCheck) ==>
              && r.exception == Some(AccessCheck(a.regType, a.index))
              && r.value == None && r.context == ctx
    ensures a.query == Read ==> r.exception == None && r.context == ctx
    ensures a.query == Read && a.regType == HoldingRegister ==>
              r.value == Some(if a.index == 0 then ctx.speedPerc else ctx.speedOn)
    ensures a.query == Read && a.regType == InputRegister ==>
              r.value == Some(DigitalControl.AnalogSpeed(adc))
    ensures a.query == Read && (a.regType == Coil || a.regType == DiscreteInput) ==> r.value == None
    ensures a.query == Write ==> r.exception == None && r.value == None
    ensures a.query == Write && a.regType == HoldingRegister ==>
              && (a.index == 0 ==> r.context == ctx.(speedPerc := a.value))
              && (a.index == 1 ==> r.context == ctx.(speedOn := a.value))
    ensures a.query == Write && a.regType != HoldingRegister ==> r.context == ctx
  {
    match a.query
    case ReadCheck | WriteCheck =>
      CallbackResult(ModbusOk, Some(AccessCheck(a.regType, a.index)), None, ctx)
    case Read =>
      var value :=
        match a.regType
        case HoldingRegister => Some(Holding(ctx)[a.index])
        case InputRegister => Some(DigitalControl.AnalogSpeed(adc))
        case Coil => None
        case DiscreteInput => None;
      CallbackResult(ModbusOk, None, value, ctx)
    case Write =>
      var next := if a.regType == HoldingRegister then WriteHolding(ctx, a.index, a.value) else ctx;
      CallbackResult(ModbusOk, None, None, next)
  }

  /** The exception callback only reports; it always returns success. */
  function ExceptionCallback(functionCode: u8, code: ExceptionCode): (status: ModbusError)
    ensures status.ModbusOk?
  {
    ModbusOk
  }

  /** The access check treats input registers like every other class. */
  lemma InputRegisterRejectionLost(index: u16)
    ensures AccessCheck(InputRegister, index) == AccessCheck(HoldingRegister, index)
    ensures index < REG_COUNT ==> AccessCheck(InputRegister, index) == NoException
  {
  }

  // ---------------------------------------------------------------------
  // Finding: index 2 passes the check but is outside the register array

  /** Index 2 passes the access check for holding registers, yet the read or
      write that follows indexes past the two-element register array: the
      callback's bounds precondition cannot be met for it. */
  lemma IndexTwoOverruns(v: u16)
    ensures AccessCheck(HoldingRegister, 2) == NoException
    ensures !InBounds(Args(Read, HoldingRegister, 2, v))
    ensures !InBounds(Args(Write, HoldingRegister, 2, v))
  {
  }

  /** Corrected access check: holding registers admit only the indices of
      the register array; other classes keep the source's bound. */
  function AccessCheckFixed(t: RegisterType, index: u16): (e: ExceptionCode)
    ensures e == NoException <==> index < (if t == HoldingRegister then 2 else REG_COUNT)
    ensures e != NoException ==> e == IllegalAddress
  {
    if t == HoldingRegister then
      (if index < 2 then NoException else IllegalAddress)
    else
      AccessCheck(t, index)
  }

  /** Every access the corrected check admits stays in bounds. */
  lemma FixedCheckGuardsAccess(q: Query, t: RegisterType, index: u16, v: u16)
    requires AccessCheckFixed(t, index) == NoException
    ensures InBounds(Args(q, t, index, v))
  {
  }

  /** What the master gets back for one register access. */
  datatype Reply = Exception(code: ExceptionCode) | ReadValue(value: Option<u16>) | Written

  /** One register access as the library performs it: the access check,
      then (only if it passed) the read or write. Uses the corrected check. */
  function Serve(ctx: Context, write: bool, t: RegisterType, index: u16, value: u16, adc: DigitalControl.Sampler)
    : (r: (Context, Reply))
    requires DigitalControl.Valid(adc)
    ensures r.1.Exception? <==> AccessCheckFixed(t, index) != NoException
    ensures r.1.Exception? ==> r.1.code == IllegalAddress && r.0 == ctx
    ensures !write ==> r.0 == ctx
    ensures write && !r.1.Exception? ==> r.1 == Written
    ensures !write && !r.1.Exception? ==> r.1.ReadValue?
    ensures write && !r.1.Exception? && t == HoldingRegister ==> Holding(r.0) == Holding(ctx)[index := value]
    ensures write && t != HoldingRegister ==> r.0 == ctx
    ensures !write && !r.1.Exception? && t == HoldingRegister ==> r.1 == ReadValue(Some(Holding(ctx)[index]))
    ensures !write && !r.1.Exception? && t == InputRegister ==>
              r.1 == ReadValue(Some(DigitalControl.AnalogSpeed(adc)))
    ensures !write && !r.1.Exception? && (t == Coil || t == DiscreteInput) ==> r.1 == ReadValue(None)
  {
    var check := AccessCheckFixed(t, index);
    if check != NoException then (ctx, Exception(check))
    else
      FixedCheckGuardsAccess(if write then Write else Read, t, index, value);
      var res := RegisterCallback(ctx, Args(if write then Write else Read, t, index, value), adc);
      if write then (res.context, Written) else (ctx, ReadValue(res.value))
  }

  /** A holding-register write followed by a read returns the value written
      and leaves the other register as it was. */
  lemma WriteThenRead(ctx: Context, index: u16, v: u16, adc: DigitalControl.Sampler)
    requires DigitalControl.Valid(adc) && index < 2
    ensures var after := Serve(ctx, true, HoldingRegister, index, v, adc).0;
            && Serve(after, false, HoldingRegister, index, 0, adc).1 == ReadValue(Some(v))
            && Holding(after)[1 - index] == Holding(ctx)[1 - index]
  {
  }

  /** A rejected access reaches the master as exception code 02, illegal
      data address; an admitted one carries no exception code. */
  lemma ServeRejectionCode(ctx: Context, write: bool, t: RegisterType, index: u16, value: u16, adc: DigitalControl.Sampler)
    requires DigitalControl.Valid(adc)
    ensures var reply := Serve(ctx, write, t, index, value, adc).1;
            (reply.Exception? ==> Code(reply.code) == 2)
            && (reply.Exception? <==> (t == HoldingRegister && index >= 2) || index >= REG_COUNT)
  {
  }

  // ---------------------------------------------------------------------
  // Frame handling

  /** Outcome of the library's frame parser. */
  datatype Parse = Parsed(responseLength: nat) | ParseFailed(addressMismatch: bool)

  /** Bytes written back to the bus for one polling round: `received` is the
      UART read result (negative on error). */
  function ResponseWritten(received: int, parse: Parse): (w: Option<nat>)
    ensures w.Some? <==> received > 0 && parse.Parsed? && parse.responseLength > 0
    ensures w.Some? ==> w.value == parse.responseLength
  {
    if received > 0 then
      match parse
      case Parsed(n) => if n > 0 then Some(n) else None
      case ParseFailed(_) => None
    else None
  }
}
