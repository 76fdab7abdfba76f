/** The public vocabulary of the crash handler: the install flags, the
    exception-type codes and the exception-information record that every
    fault hook fills in before asking for a report, together with the
    platform records (exception record, CPU context) they point at.
 */
module CrashRpt {
  import opened Wrappers

  // ---------------------------------------------------------------------
  // Install flags (a DWORD bit mask)

  const CR_INST_STRUCTURED_EXCEPTION_HANDLER: bv32 := 0x1
  const CR_INST_SEH_EXCEPTION_HANDLER: bv32 := 0x1
  const CR_INST_TERMINATE_HANDLER: bv32 := 0x2
  const CR_INST_UNEXPECTED_HANDLER: bv32 := 0x4
  const CR_INST_PURE_CALL_HANDLER: bv32 := 0x8
  const CR_INST_NEW_OPERATOR_ERROR_HANDLER: bv32 := 0x10
  const CR_INST_SECURITY_ERROR_HANDLER: bv32 := 0x20
  const CR_INST_INVALID_PARAMETER_HANDLER: bv32 := 0x40
  const CR_INST_SIGABRT_HANDLER: bv32 := 0x80
  const CR_INST_SIGFPE_HANDLER: bv32 := 0x100
  const CR_INST_SIGILL_HANDLER: bv32 := 0x200
  const CR_INST_SIGINT_HANDLER: bv32 := 0x400
  const CR_INST_SIGSEGV_HANDLER: bv32 := 0x800
  const CR_INST_SIGTERM_HANDLER: bv32 := 0x1000

  /** Documented as "install all possible handlers", but its value is 0. */
  const CR_INST_ALL_POSSIBLE_HANDLERS: bv32 := 0
  const CR_INST_CRT_EXCEPTION_HANDLERS: bv32 := 0x1FFE

  /** The thirteen distinct install flags, SEH first. */
  const InstallFlags: seq<bv32> := [
    CR_INST_SEH_EXCEPTION_HANDLER, CR_INST_TERMINATE_HANDLER, CR_INST_UNEXPECTED_HANDLER,
    CR_INST_PURE_CALL_HANDLER, CR_INST_NEW_OPERATOR_ERROR_HANDLER,
    CR_INST_SECURITY_ERROR_HANDLER, CR_INST_INVALID_PARAMETER_HANDLER,
    CR_INST_SIGABRT_HANDLER, CR_INST_SIGFPE_HANDLER, CR_INST_SIGILL_HANDLER,
    CR_INST_SIGINT_HANDLER, CR_INST_SIGSEGV_HANDLER, CR_INST_SIGTERM_HANDLER]

  predicate SingleBit(x: bv32) {
    x != 0 && x & (x - 1) == 0
  }

  /** Bitwise OR of flags[from..]. */
  function OrFrom(flags: seq<bv32>, from: nat): bv32
    decreases |flags| - from
  {
    if from >= |flags| then 0 else flags[from] | OrFrom(flags, from + 1)
  }

  lemma InstallFlagsAreDistinctSingleBits()
    ensures |InstallFlags| == 13
    ensures forall i :: 0 <= i < |InstallFlags| ==> SingleBit(InstallFlags[i])
    ensures forall i, j :: 0 <= i < j < |InstallFlags| ==> InstallFlags[i] & InstallFlags[j] == 0
    ensures CR_INST_STRUCTURED_EXCEPTION_HANDLER == CR_INST_SEH_EXCEPTION_HANDLER
  {
  }

  /** The CRT mask is the OR of every flag except the SEH one (index 0),
      and excludes the SEH bit. */
  lemma CrtHandlersAreEveryFlagButSeh()
    ensures CR_INST_CRT_EXCEPTION_HANDLERS == OrFrom(InstallFlags, 1)
    ensures CR_INST_CRT_EXCEPTION_HANDLERS & CR_INST_SEH_EXCEPTION_HANDLER == 0
    ensures OrFrom(InstallFlags, 0) == CR_INST_CRT_EXCEPTION_HANDLERS | CR_INST_SEH_EXCEPTION_HANDLER
  {
    assert OrFrom(InstallFlags, 13) == 0;
    assert OrFrom(InstallFlags, 12) == 0x1000;
    assert OrFrom(InstallFlags, 11) == 0x1800;
    assert OrFrom(InstallFlags, 10) == 0x1C00;
    assert OrFrom(InstallFlags, 9) == 0x1E00;
    assert OrFrom(InstallFlags, 8) == 0x1F00;
    assert OrFrom(InstallFlags, 7) == 0x1F80;
    assert OrFrom(InstallFlags, 6) == 0x1FC0;
    assert OrFrom(InstallFlags, 5) == 0x1FE0;
    assert OrFrom(InstallFlags, 4) == 0x1FF0;
    assert OrFrom(InstallFlags, 3) == 0x1FF8;
    assert OrFrom(InstallFlags, 2) == 0x1FFC;
    assert OrFrom(InstallFlags, 1) == 0x1FFE;
    assert OrFrom(InstallFlags, 0) == 0x1FFF;
  }

  /** Because the "all" constant is 0, masking with it never selects
      anything and or-ing it in never changes a mask. */
  lemma AllPossibleHandlersIsNeutral(m: bv32)
    ensures m & CR_INST_ALL_POSSIBLE_HANDLERS == 0
    ensures m | CR_INST_ALL_POSSIBLE_HANDLERS == m
  {
  }

  // ---------------------------------------------------------------------
  // Exception types

  const CR_WIN32_STRUCTURED_EXCEPTION: int := 0
  const CR_SEH_EXCEPTION: int := 0
  const CR_CPP_TERMINATE_CALL: int := 1
  const CR_CPP_UNEXPECTED_CALL: int := 2
  const CR_CPP_PURE_CALL: int := 3
  const CR_CPP_NEW_OPERATOR_ERROR: int := 4
  const CR_CPP_SECURITY_ERROR: int := 5
  const CR_CPP_INVALID_PARAMETER: int := 6
  const CR_CPP_SIGABRT: int := 7
  const CR_CPP_SIGFPE: int := 8
  const CR_CPP_SIGILL: int := 9
  const CR_CPP_SIGINT: int := 10
  const CR_CPP_SIGSEGV: int := 11
  const CR_CPP_SIGTERM: int := 12

  /** Synthetic kinds used only by the fault-emulation API. */
  const CR_NONCONTINUABLE_EXCEPTION: int := 32
  const CR_THROW: int := 33

  const ExceptionTypes: seq<int> := [
    CR_SEH_EXCEPTION, CR_CPP_TERMINATE_CALL, CR_CPP_UNEXPECTED_CALL, CR_CPP_PURE_CALL,
    CR_CPP_NEW_OPERATOR_ERROR, CR_CPP_SECURITY_ERROR, CR_CPP_INVALID_PARAMETER,
    CR_CPP_SIGABRT, CR_CPP_SIGFPE, CR_CPP_SIGILL, CR_CPP_SIGINT, CR_CPP_SIGSEGV,
    CR_CPP_SIGTERM]

  /** The thirteen hook kinds are numbered 0..12 in order (hence distinct),
      the deprecated SEH name is an alias, and the synthetic kinds lie
      outside that range. */
  lemma ExceptionTypeNumbering()
    ensures |ExceptionTypes| == 13
    ensures forall i :: 0 <= i < |ExceptionTypes| ==> ExceptionTypes[i] == i
    ensures forall i, j :: 0 <= i < j < |ExceptionTypes| ==> ExceptionTypes[i] != ExceptionTypes[j]
    ensures CR_WIN32_STRUCTURED_EXCEPTION == CR_SEH_EXCEPTION
    ensures CR_NONCONTINUABLE_EXCEPTION !in ExceptionTypes && CR_THROW !in ExceptionTypes
    ensures CR_NONCONTINUABLE_EXCEPTION != CR_THROW
  {
  }

  // ---------------------------------------------------------------------
  // Platform records that the exception information points at

  /** A DWORD, and any address or pointer-sized value of the 32-bit build. */
  type u32 = x: nat | x < 0x1_0000_0000

  /** The part of an EXCEPTION_RECORD the model reads: the code, the faulting
      address and the first two ExceptionInformation slots (for an access
      violation: the read/write indicator and the faulted address). */
  datatype ExceptionRecord = ExceptionRecord(code: u32, address: u32, info0: u32, info1: u32)

  /** The part of a CONTEXT the stack walk starts from. */
  datatype Context = Context(pc: u32, sp: u32, fp: u32)

  /** EXCEPTION_POINTERS; the record pointer may be null. */
  datatype ExceptionPointers = ExceptionPointers(record: Option<ExceptionRecord>, context: Context)

  /** sizeof(CR_EXCEPTION_INFO) for the 32-bit layout. */
  const EXCEPTION_INFO_SIZE: nat := 44

  /** CR_EXCEPTION_INFO. Null pointers are None. */
  datatype ExceptionInfo = ExceptionInfo(
    cb: nat,
    pexcptrs: Option<ExceptionPointers>,
    exctype: int,
    code: u32,
    fpeSubcode: u32,
    expression: Option<string>,
    functionName: Option<string>,
    file: Option<string>,
    line: u32,
    manual: bool)

  /** The zero-initialised record (`= {}`) with only the size and type set. */
  function BlankInfo(exctype: int): (ei: ExceptionInfo)
    ensures ei.cb == EXCEPTION_INFO_SIZE && ei.exctype == exctype
    ensures ei.pexcptrs.None? && ei.code == 0 && ei.fpeSubcode == 0 && ei.line == 0
    ensures ei.expression.None? && ei.functionName.None? && ei.file.None? && !ei.manual
  {
    ExceptionInfo(EXCEPTION_INFO_SIZE, None, exctype, 0, 0, None, None, None, 0, false)
  }
}
