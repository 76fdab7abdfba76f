/** The crash report as a whole: the exception names, the exception summary
    and the order of the report's sections. The operating-system probes
    (module of the faulting address, thread id, time, system information)
    and the debugging library are inputs.
 */
module Report {
  import opened Wrappers
  import opened Text
  import opened Memory
  import opened TypeDump
  import opened ReportLog
  import opened CrashRpt
  import opened Walk

  // ---------------------------------------------------------------------
  // Exception names

  const EXCEPTION_ACCESS_VIOLATION: u32 := 0xC0000005
  const EXCEPTION_DATATYPE_MISALIGNMENT: u32 := 0x80000002
  const EXCEPTION_BREAKPOINT: u32 := 0x80000003
  const EXCEPTION_SINGLE_STEP: u32 := 0x80000004
  const EXCEPTION_ARRAY_BOUNDS_EXCEEDED: u32 := 0xC000008C
  const EXCEPTION_FLT_DENORMAL_OPERAND: u32 := 0xC000008D
  const EXCEPTION_FLT_DIVIDE_BY_ZERO: u32 := 0xC000008E
  const EXCEPTION_FLT_INEXACT_RESULT: u32 := 0xC000008F
  const EXCEPTION_FLT_INVALID_OPERATION: u32 := 0xC0000090
  const EXCEPTION_FLT_OVERFLOW: u32 := 0xC0000091
  const EXCEPTION_FLT_STACK_CHECK: u32 := 0xC0000092
  const EXCEPTION_FLT_UNDERFLOW: u32 := 0xC0000093
  const EXCEPTION_INT_DIVIDE_BY_ZERO: u32 := 0xC0000094
  const EXCEPTION_INT_OVERFLOW: u32 := 0xC0000095
  const EXCEPTION_PRIV_INSTRUCTION: u32 := 0xC0000096
  const EXCEPTION_IN_PAGE_ERROR: u32 := 0xC0000006
  const EXCEPTION_ILLEGAL_INSTRUCTION: u32 := 0xC000001D
  const EXCEPTION_NONCONTINUABLE_EXCEPTION: u32 := 0xC0000025
  const EXCEPTION_STACK_OVERFLOW: u32 := 0xC00000FD
  const EXCEPTION_INVALID_DISPOSITION: u32 := 0xC0000026
  const EXCEPTION_GUARD_PAGE: u32 := 0x80000001
  const EXCEPTION_INVALID_HANDLE: u32 := 0xC0000008

  /** The codes the switch knows, each with the constant's name less its
      EXCEPTION_ prefix, in the order of the switch. */
  const KnownExceptions: seq<(u32, string)> := [
    (EXCEPTION_ACCESS_VIOLATION, "ACCESS_VIOLATION"),
    (EXCEPTION_DATATYPE_MISALIGNMENT, "DATATYPE_MISALIGNMENT"),
    (EXCEPTION_BREAKPOINT, "BREAKPOINT"),
    (EXCEPTION_SINGLE_STEP, "SINGLE_STEP"),
    (EXCEPTION_ARRAY_BOUNDS_EXCEEDED, "ARRAY_BOUNDS_EXCEEDED"),
    (EXCEPTION_FLT_DENORMAL_OPERAND, "FLT_DENORMAL_OPERAND"),
    (EXCEPTION_FLT_DIVIDE_BY_ZERO, "FLT_DIVIDE_BY_ZERO"),
    (EXCEPTION_FLT_INEXACT_RESULT, "FLT_INEXACT_RESULT"),
    (EXCEPTION_FLT_INVALID_OPERATION, "FLT_INVALID_OPERATION"),
    (EXCEPTION_FLT_OVERFLOW, "FLT_OVERFLOW"),
    (EXCEPTION_FLT_STACK_CHECK, "FLT_STACK_CHECK"),
    (EXCEPTION_FLT_UNDERFLOW, "FLT_UNDERFLOW"),
    (EXCEPTION_INT_DIVIDE_BY_ZERO, "INT_DIVIDE_BY_ZERO"),
    (EXCEPTION_INT_OVERFLOW, "INT_OVERFLOW"),
    (EXCEPTION_PRIV_INSTRUCTION, "PRIV_INSTRUCTION"),
    (EXCEPTION_IN_PAGE_ERROR, "IN_PAGE_ERROR"),
    (EXCEPTION_ILLEGAL_INSTRUCTION, "ILLEGAL_INSTRUCTION"),
    (EXCEPTION_NONCONTINUABLE_EXCEPTION, "NONCONTINUABLE_EXCEPTION"),
    (EXCEPTION_STACK_OVERFLOW, "STACK_OVERFLOW"),
    (EXCEPTION_INVALID_DISPOSITION, "INVALID_DISPOSITION"),
    (EXCEPTION_GUARD_PAGE, "GUARD_PAGE"),
    (EXCEPTION_INVALID_HANDLE, "INVALID_HANDLE")]

  /** The name the switch returns for a code it knows. */
  function ExceptionName(code: u32): (r: Option<string>) {
    if code == EXCEPTION_ACCESS_VIOLATION then Some("ACCESS_VIOLATION")
    else if code == EXCEPTION_DATATYPE_MISALIGNMENT then Some("DATATYPE_MISALIGNMENT")
    else if code == EXCEPTION_BREAKPOINT then Some("BREAKPOINT")
    else if code == EXCEPTION_SINGLE_STEP then Some("SINGLE_STEP")
    else if code == EXCEPTION_ARRAY_BOUNDS_EXCEEDED then Some("ARRAY_BOUNDS_EXCEEDED")
    else if code == EXCEPTION_FLT_DENORMAL_OPERAND then Some("FLT_DENORMAL_OPERAND")
    else if code == EXCEPTION_FLT_DIVIDE_BY_ZERO then Some("FLT_DIVIDE_BY_ZERO")
    else if code == EXCEPTION_FLT_INEXACT_RESULT then Some("FLT_INEXACT_RESULT")
    else if code == EXCEPTION_FLT_INVALID_OPERATION then Some("FLT_INVALID_OPERATION")
    else if code == EXCEPTION_FLT_OVERFLOW then Some("FLT_OVERFLOW")
    else if code == EXCEPTION_FLT_STACK_CHECK then Some("FLT_STACK_CHECK")
    else if code == EXCEPTION_FLT_UNDERFLOW then Some("FLT_UNDERFLOW")
    else if code == EXCEPTION_INT_DIVIDE_BY_ZERO then Some("INT_DIVIDE_BY_ZERO")
    else if code == EXCEPTION_INT_OVERFLOW then Some("INT_OVERFLOW")
    else if code == EXCEPTION_PRIV_INSTRUCTION then Some("PRIV_INSTRUCTION")
    else if code == EXCEPTION_IN_PAGE_ERROR then Some("IN_PAGE_ERROR")
    else if code == EXCEPTION_ILLEGAL_INSTRUCTION then Some("ILLEGAL_INSTRUCTION")
    else if code == EXCEPTION_NONCONTINUABLE_EXCEPTION then Some("NONCONTINUABLE_EXCEPTION")
    else if code == EXCEPTION_STACK_OVERFLOW then Some("STACK_OVERFLOW")
    else if code == EXCEPTION_INVALID_DISPOSITION then Some("INVALID_DISPOSITION")
    else if code == EXCEPTION_GUARD_PAGE then Some("GUARD_PAGE")
    else if code == EXCEPTION_INVALID_HANDLE then Some("INVALID_HANDLE")
    else None
  }

  /** The switch agrees with the table in both directions: a code has a name
      exactly when the table lists it, and the name is the table's. The
      table's codes are distinct, so no code has two names. */
  lemma ExceptionNameMatchesTable(code: u32)
    ensures |KnownExceptions| == 22
    ensures forall i, j :: 0 <= i < j < |KnownExceptions| ==> KnownExceptions[i].0 != KnownExceptions[j].0
    ensures ExceptionName(code).Some? <==> exists i :: 0 <= i < |KnownExceptions| && KnownExceptions[i].0 == code
    ensures forall i :: 0 <= i < |KnownExceptions| && KnownExceptions[i].0 == code ==>
              ExceptionName(code) == Some(KnownExceptions[i].1)
  {
    if ExceptionName(code).Some? {
      var i := TableIndex(code);
      assert KnownExceptions[i].0 == code;
    }
  }

  function TableIndex(code: u32): (i: nat)
    requires ExceptionName(code).Some?
    ensures i < |KnownExceptions| && KnownExceptions[i].0 == code
  {
    if code == EXCEPTION_ACCESS_VIOLATION then 0
    else if code == EXCEPTION_DATATYPE_MISALIGNMENT then 1
    else if code == EXCEPTION_BREAKPOINT then 2
    else if code == EXCEPTION_SINGLE_STEP then 3
    else if code == EXCEPTION_ARRAY_BOUNDS_EXCEEDED then 4
    else if code == EXCEPTION_FLT_DENORMAL_OPERAND then 5
    else if code == EXCEPTION_FLT_DIVIDE_BY_ZERO then 6
    else if code == EXCEPTION_FLT_INEXACT_RESULT then 7
    else if code == EXCEPTION_FLT_INVALID_OPERATION then 8
    else if code == EXCEPTION_FLT_OVERFLOW then 9
    else if code == EXCEPTION_FLT_STACK_CHECK then 10
    else if code == EXCEPTION_FLT_UNDERFLOW then 11
    else if code == EXCEPTION_INT_DIVIDE_BY_ZERO then 12
    else if code == EXCEPTION_INT_OVERFLOW then 13
    else if code == EXCEPTION_PRIV_INSTRUCTION then 14
    else if code == EXCEPTION_IN_PAGE_ERROR then 15
    else if code == EXCEPTION_ILLEGAL_INSTRUCTION then 16
    else if code == EXCEPTION_NONCONTINUABLE_EXCEPTION then 17
    else if code == EXCEPTION_STACK_OVERFLOW then 18
    else if code == EXCEPTION_INVALID_DISPOSITION then 19
    else if code == EXCEPTION_GUARD_PAGE then 20
    else 21
  }

  /** What the message table of the system library says for a code the
      switch does not know. */
  type MessageTable = u32 -> string

  /** GetExceptionString: the switch's name, else the message-table text. */
  function GetExceptionString(code: u32, ntdll: MessageTable): (r: string)
    ensures ExceptionName(code).Some? ==> r == ExceptionName(code).value
    ensures ExceptionName(code).None? ==> r == ntdll(code)
  {
    match ExceptionName(code)
    case Some(name) => name
    case None => ntdll(code)
  }

  // ---------------------------------------------------------------------
  // The exception summary

  /** The operating system and debugging library as the report sees them. */
  datatype ReportEnv = ReportEnv(
    /** ctime() of the report time, with its trailing newline. */
    timeText: string,
    /** The file of the module holding the faulting address, when both
        VirtualQuery and GetModuleFileName succeed. */
    moduleFile: Option<string>,
    threadId: u32,
    ntdll: MessageTable,
    symInitOk: bool,
    dbg: Debugger,
    mem: Memory,
    floatText: FloatText,
    /** The messages of the system-information section. */
    systemInfo: seq<string>,
    /** Where the "write" and "read" literals of the access line lie in the
        image; the access line as written prints one of these addresses. */
    writeLiteral: u32,
    readLiteral: u32)

  /** A report that either ran to its end or stopped on a fault inside the
      report code itself (which the caller does not catch). */
  datatype Outcome = Outcome(log: Report, fault: Option<Fault>)

  /** The word for the access recorded in ExceptionInformation[0]. */
  function AccessWord(info0: u32): (w: string)
    ensures w == "write" <==> info0 != 0
    ensures w == "read" <==> info0 == 0
  {
    if info0 != 0 then "write" else "read"
  }

  /** The lines of PrintExceptInfo: header, module (when known), fault
      address and thread, the access for an access violation, and the code
      with its name. `access` renders the "Failed to" line. */
  function SummaryLines(rec: ExceptionRecord, env: ReportEnv, access: string): seq<string> {
    ["\r\n*** Exception ***\r\n"]
    + (if env.moduleFile.Some? then ["Module: " + env.moduleFile.value + "\r\n"] else [])
    + ["Fault address: 0x" + Hex8(rec.address) + ", Thread ID: " + SignedDecimal32(env.threadId) + "\r\n"]
    + (if rec.code == EXCEPTION_ACCESS_VIOLATION then [access] else [])
    + [CodeLine(rec.code, env.ntdll)]
  }

  /** "Exception code: 0x%08x %s\r\n\r\n": the code and its name. */
  function CodeLine(code: u32, ntdll: MessageTable): string {
    "Exception code: 0x" + Hex8(code) + CodeLineTail(code, ntdll)
  }

  function CodeLineTail(code: u32, ntdll: MessageTable): string {
    " " + GetExceptionString(code, ntdll) + "\r\n\r\n"
  }

  /** "Failed to %s address 0x%08x\r\n": the access word and the address. */
  function AccessLine(rec: ExceptionRecord): string {
    "Failed to " + AccessWord(rec.info0) + " address 0x" + Hex8(rec.info1) + "\r\n"
  }

  /** PrintExceptInfo with the access word printed as a string. Reading the
      exception record through a null pointer faults at address 0. */
  function PrintExceptInfo(ep: ExceptionPointers, env: ReportEnv, log: Report): (o: Outcome)
    ensures ep.record.None? ==> o == Outcome(AddToReport(log, "\r\n*** Exception ***\r\n"), Some(AccessViolation(0)))
    ensures ep.record.Some? ==> o.fault.None?
  {
    match ep.record
    case None => Outcome(AddToReport(log, "\r\n*** Exception ***\r\n"), Some(AccessViolation(0)))
    case Some(rec) => Outcome(AddAll(log, SummaryLines(rec, env, AccessLine(rec))), None)
  }

  /** The "Failed to" line as written: the format says %d where the access
      word is passed, so printf prints the address of the "write" or "read"
      literal (given here as `writeAt` and `readAt`) as a signed int. */
  function AccessLineAsWritten(rec: ExceptionRecord, writeAt: u32, readAt: u32): string {
    "Failed to " + SignedDecimal32(if rec.info0 != 0 then writeAt else readAt)
      + " address 0x" + Hex8(rec.info1) + "\r\n"
  }

  /** PrintExceptInfo as written, with the %d access line. */
  function PrintExceptInfoAsWritten(ep: ExceptionPointers, env: ReportEnv, log: Report): (o: Outcome)
    ensures ep.record.None? ==> o.fault == Some(AccessViolation(0))
    ensures ep.record.Some? && ep.record.value.code != EXCEPTION_ACCESS_VIOLATION ==>
              o == PrintExceptInfo(ep, env, log)
  {
    match ep.record
    case None => Outcome(AddToReport(log, "\r\n*** Exception ***\r\n"), Some(AccessViolation(0)))
    case Some(rec) => Outcome(AddAll(log, SummaryLines(rec, env, AccessLineAsWritten(rec, env.writeLiteral, env.readLiteral))), None)
  }

  /** Whatever the literals' addresses, the line as written never names the
      access: where "write" or "read" belongs it holds a digit or a minus
      sign, so it differs from the intended line for every access violation. */
  lemma AccessLineAsWrittenLosesWord(rec: ExceptionRecord, writeAt: u32, readAt: u32)
    ensures var w := AccessLineAsWritten(rec, writeAt, readAt);
            |w| > 10 && (w[10] == '-' || '0' <= w[10] <= '9')
            && w != AccessLine(rec)
  {
    var v := if rec.info0 != 0 then writeAt else readAt;
    var d := SignedDecimal32(v);
    var w := AccessLineAsWritten(rec, writeAt, readAt);
    assert w[10] == d[0];
    if v < TWO_POW_31 {
      assert IsDigitOf(d[0], 10);
    }
    assert AccessLine(rec)[10] == AccessWord(rec.info0)[0];
  }

  /** For an access violation the summary states the access and the address
      it touched, and the access is "write" exactly when
      ExceptionInformation[0] is non-zero; for any other code there is no
      such line. */
  lemma AccessViolationSummary(rec: ExceptionRecord, env: ReportEnv)
    ensures var ls := SummaryLines(rec, env, AccessLine(rec));
            var k := if env.moduleFile.Some? then 3 else 2;
            (rec.code == EXCEPTION_ACCESS_VIOLATION ==>
               |ls| == k + 2 && ls[k] == "Failed to " + AccessWord(rec.info0) + " address 0x" + Hex8(rec.info1) + "\r\n"
               && ls[k + 1][..18] == "Exception code: 0x")
            && (rec.code != EXCEPTION_ACCESS_VIOLATION ==>
               |ls| == k + 1 && ls[k][..18] == "Exception code: 0x")
  {
  }

  /** The summary ends with the code line, which reads back as the code and
      carries the code's name. */
  lemma SummaryCodeReadsBack(rec: ExceptionRecord, env: ReportEnv, access: string)
    ensures var ls := SummaryLines(rec, env, access);
            var last := ls[|ls| - 1];
            |last| >= 26 && last[..18] == "Exception code: 0x"
            && ParseDigits(last[18..26], 16) == rec.code
            && last[26..] == " " + GetExceptionString(rec.code, env.ntdll) + "\r\n\r\n"
  {
    var ls := SummaryLines(rec, env, access);
    assert ls[|ls| - 1] == CodeLine(rec.code, env.ntdll);
    Hex8Width(rec.code);
    Hex8RoundTrip(rec.code);
    CodeLineSlices(Hex8(rec.code), CodeLineTail(rec.code, env.ntdll));
  }

  lemma CodeLineSlices(hx: string, tail: string)
    requires |hx| == 8
    ensures var s := "Exception code: 0x" + hx + tail;
            |s| >= 26 && s[..18] == "Exception code: 0x" && s[18..26] == hx && s[26..] == tail
  {
    var a := "Exception code: 0x" + hx;
    assert (a + tail)[..26] == a;
  }

  // ---------------------------------------------------------------------
  // Report sections

  const REPORT_HEADER: string := "\nException report created at "
  const CALL_STACK_HEADER: string := "\r\nCall stack:\r\n---------------------------\r\n"
  const CALL_STACK_COLUMNS: string := "Level   Address   Function\t    SourceFile\r\n"

  /** The report shows every frame the walk visits. */
  const REPORT_WALK_SKIP: nat := 0

  /** The call-stack section: its two header lines, then the walk of at
      most MAX_DUMP_DEPTH frames from the exception's context, skipping
      none. The symbol handler has just been initialised, so no scope is
      set when the walk starts. */
  function CallStackSection(ctx: Context, env: ReportEnv, log: Report): Report {
    var frames := env.dbg.unwind(ctx);
    var stackStart := AddAll(log, [CALL_STACK_HEADER, CALL_STACK_COLUMNS]);
    EmitFrames(WalkState(stackStart, None), frames, REPORT_WALK_SKIP, WalkedFrames(frames, MAX_DUMP_DEPTH),
               ShowWith(env.dbg, env.mem, env.floatText)).log
  }

  /** CreateReport: the time line and the exception summary (with the access
      line as written, which prints a literal's address); then, only when
      the symbol handler initialises, the call-stack section and the system
      information. A fault in the summary ends the report where it is. */
  method CreateReport(ep: ExceptionPointers, env: ReportEnv, log: Report) returns (o: Outcome)
    ensures var summary := PrintExceptInfoAsWritten(ep, env, AddToReport(log, REPORT_HEADER + env.timeText));
            if summary.fault.Some? then o == summary
            else if !env.symInitOk then o == Outcome(summary.log, None)
            else o == Outcome(AddAll(CallStackSection(ep.context, env, summary.log), env.systemInfo), None)
  {
    var timed := AddToReport(log, REPORT_HEADER + env.timeText);
    var summary := PrintExceptInfoAsWritten(ep, env, timed);
    if summary.fault.Some? {
      return summary;
    }
    if !env.symInitOk {
      return Outcome(summary.log, None);
    }
    var r := AddToReport(summary.log, CALL_STACK_HEADER);
    r := AddToReport(r, CALL_STACK_COLUMNS);
    AddAllFitting(summary.log, [CALL_STACK_HEADER, CALL_STACK_COLUMNS]);
    assert r == summary.log + [CALL_STACK_HEADER, CALL_STACK_COLUMNS];
    var walked, unwinds := WalkStack(ep.context, REPORT_WALK_SKIP, MAX_DUMP_DEPTH, env.dbg, env.mem, env.floatText,
                                     WalkState(r, None));
    r := AddAll(walked.log, env.systemInfo);
    return Outcome(r, None);
  }

  /** The report begins with the time line and the exception header, in that
      order, whatever else happens; without the symbol handler it ends after
      the summary. */
  lemma ReportStartsWithTimeAndSummary(ep: ExceptionPointers, env: ReportEnv)
    requires ep.record.Some?
    requires 0 < |REPORT_HEADER + env.timeText| <= MAX_BUF_SIZE
    ensures var timed := AddToReport([], REPORT_HEADER + env.timeText);
            var s := PrintExceptInfoAsWritten(ep, env, timed).log;
            |s| >= 2 && s[0] == REPORT_HEADER + env.timeText && s[1] == "\r\n*** Exception ***\r\n"
  {
    var timed := AddToReport([], REPORT_HEADER + env.timeText);
    var rec := ep.record.value;
    var ls := SummaryLines(rec, env, AccessLineAsWritten(rec, env.writeLiteral, env.readLiteral));
    AddAllKeepsWholeMessages(timed, ls);
    var s := AddAll(timed, ls);
    assert ls[0] == "\r\n*** Exception ***\r\n";
    AddAllFirst(timed, ls);
  }

  /** The first message of a batch lands right after the report so far when
      it fits the buffer. */
  lemma AddAllFirst(log: Report, msgs: seq<string>)
    requires |msgs| > 0 && 0 < |msgs[0]| <= MAX_BUF_SIZE
    ensures var r := AddAll(log, msgs);
            |r| > |log| && r[|log|] == msgs[0] && r[..|log|] == log
  {
    var next := log + [msgs[0]];
    AddAllKeepsWholeMessages(next, msgs[1..]);
    var r := AddAll(next, msgs[1..]);
    assert r[..|next|][|log|] == msgs[0];
    assert r[..|log|] == r[..|next|][..|log|];
  }
}
