/** The process-wide fault hooks: which hooks a flag word installs, the
    fixed sequence every hook runs when it fires, and the report generation
    it triggers, with its one-shot recursion guard and the minidump it
    writes. Windows and CRT calls are events appended to a trace of a
    sequential process state; threads and the critical section become
    events of that trace.
 */
module Handler {
  import opened Wrappers
  import opened CrashRpt
  import opened DatedNames
  import Report

  // ---------------------------------------------------------------------
  // Installation

  /** Signal numbers of the Microsoft C runtime. */
  const SIGINT: int := 2
  const SIGILL: int := 4
  const SIGFPE: int := 8
  const SIGSEGV: int := 11
  const SIGTERM: int := 15
  const SIGABRT: int := 22

  /** One registration call made while installing the hooks. */
  datatype Registration =
    | SehFilter             // SetUnhandledExceptionFilter(SehHandler)
    | ErrorModeStderr       // _set_error_mode(_OUT_TO_STDERR)
    | PureCallHook          // _set_purecall_handler
    | NewModeMalloc         // _set_new_mode(1): malloc failures reach the new handler
    | NewHook               // _set_new_handler
    | InvalidParameterHook  // _set_invalid_parameter_handler
    | SecurityErrorHook     // _set_security_error_handler
    | AbortReportFault      // _set_abort_behavior(_CALL_REPORTFAULT, _CALL_REPORTFAULT)
    | Signal(sig: int)      // signal(sig, ...)
    | TerminateHook         // set_terminate
    | UnexpectedHook        // set_unexpected

  /** The calls made, in order, and the value returned. */
  datatype Installed = Installed(calls: seq<Registration>, result: int)

  predicate Has(flags: bv32, bit: bv32) {
    flags & bit != 0
  }

  function When(c: bool, calls: seq<Registration>): seq<Registration> {
    if c then calls else []
  }

  /** The hook requests a flag word carries: one field per bit the
      installation checks. The SIGTERM bit has no field: it is never read. */
  datatype Requested = Requested(
    seh: bool, terminate: bool, unexpected: bool, pureCall: bool, newOperator: bool,
    security: bool, invalidParameter: bool, sigabrt: bool, sigfpe: bool, sigill: bool,
    sigint: bool, sigsegv: bool)

  function Requests(flags: bv32): Requested {
    Requested(
      Has(flags, CR_INST_SEH_EXCEPTION_HANDLER), Has(flags, CR_INST_TERMINATE_HANDLER),
      Has(flags, CR_INST_UNEXPECTED_HANDLER), Has(flags, CR_INST_PURE_CALL_HANDLER),
      Has(flags, CR_INST_NEW_OPERATOR_ERROR_HANDLER), Has(flags, CR_INST_SECURITY_ERROR_HANDLER),
      Has(flags, CR_INST_INVALID_PARAMETER_HANDLER), Has(flags, CR_INST_SIGABRT_HANDLER),
      Has(flags, CR_INST_SIGFPE_HANDLER), Has(flags, CR_INST_SIGILL_HANDLER),
      Has(flags, CR_INST_SIGINT_HANDLER), Has(flags, CR_INST_SIGSEGV_HANDLER))
  }

  /** Which registrations the requests select for a compiler version
      `msc` (_MSC_VER): a table stated call by call, independently of the
      order in which the calls are made. SIGTERM follows the terminate
      request. */
  predicate Selected(reg: Registration, q: Requested, msc: nat) {
    match reg
    case SehFilter => q.seh
    case ErrorModeStderr => true
    case PureCallHook => msc >= 1300 && q.pureCall
    case NewModeMalloc => msc >= 1300 && q.newOperator
    case NewHook => msc >= 1300 && q.newOperator
    case InvalidParameterHook => msc >= 1400 && q.invalidParameter
    case SecurityErrorHook => 1300 <= msc < 1400 && q.security
    case AbortReportFault => msc >= 1400 && q.sigabrt
    case Signal(sig) =>
      (sig == SIGABRT && q.sigabrt) || (sig == SIGINT && q.sigint) || (sig == SIGTERM && q.terminate)
      || (sig == SIGFPE && q.sigfpe) || (sig == SIGILL && q.sigill) || (sig == SIGSEGV && q.sigsegv)
    case TerminateHook => q.terminate
    case UnexpectedHook => q.unexpected
  }

  /** SetProcessExceptionHanlders. The "0 means all" step or-s in a constant
      whose value is 0, so it changes nothing. The calls are made in the
      order SEH filter, error mode, C runtime hooks, signals, C++ hooks. */
  function SetProcessExceptionHandlers(dwFlags: bv32, msc: nat): (r: Installed)
    ensures r.result == 1
  {
    var flags := if dwFlags & CR_INST_ALL_POSSIBLE_HANDLERS == 0
                 then dwFlags | CR_INST_ALL_POSSIBLE_HANDLERS else dwFlags;
    Installed(InstallCalls(Requests(flags), msc), 1)
  }

  function InstallCalls(q: Requested, msc: nat): seq<Registration> {
    When(q.seh, [SehFilter]) + ([ErrorModeStderr]
    + (RuntimeHookCalls(q, msc) + (SignalCalls(q, msc) + CppHookCalls(q))))
  }

  /** The C runtime hooks, each only where the compiler's runtime has it. */
  function RuntimeHookCalls(q: Requested, msc: nat): seq<Registration> {
    When(msc >= 1300 && q.pureCall, [PureCallHook])
    + (When(msc >= 1300 && q.newOperator, [NewModeMalloc, NewHook])
    + (When(msc >= 1400 && q.invalidParameter, [InvalidParameterHook])
    + When(1300 <= msc < 1400 && q.security, [SecurityErrorHook])))
  }

  /** The signal hooks; SIGTERM is keyed on the terminate request. */
  function SignalCalls(q: Requested, msc: nat): seq<Registration> {
    When(q.sigabrt, When(msc >= 1400, [AbortReportFault]) + [Signal(SIGABRT)])
    + (When(q.sigint, [Signal(SIGINT)])
    + (When(q.terminate, [Signal(SIGTERM)])
    + (When(q.sigfpe, [Signal(SIGFPE)])
    + (When(q.sigill, [Signal(SIGILL)])
    + When(q.sigsegv, [Signal(SIGSEGV)])))))
  }

  /** The per-thread C++ hooks. */
  function CppHookCalls(q: Requested): seq<Registration> {
    When(q.terminate, [TerminateHook]) + When(q.unexpected, [UnexpectedHook])
  }

  /** Every call the installation can make, in the order it makes them:
      SEH filter and error mode (0..2), C runtime hooks (2..7), signals
      (7..14), C++ hooks (14..16). */
  const CallOrder: seq<Registration> := [
    SehFilter, ErrorModeStderr,
    PureCallHook, NewModeMalloc, NewHook, InvalidParameterHook, SecurityErrorHook,
    AbortReportFault, Signal(SIGABRT), Signal(SIGINT), Signal(SIGTERM), Signal(SIGFPE),
    Signal(SIGILL), Signal(SIGSEGV),
    TerminateHook, UnexpectedHook]

  /** The calls of CallOrder[i..j] that the table selects, in their order. */
  function SelectedRange(q: Requested, msc: nat, i: nat, j: nat): seq<Registration>
    requires i <= j <= |CallOrder|
    decreases j - i
  {
    if i == j then [] else When(Selected(CallOrder[i], q, msc), [CallOrder[i]]) + SelectedRange(q, msc, i + 1, j)
  }

  /** No element occurs twice. */
  predicate NoRepeats(s: seq<Registration>) {
    forall i, j :: 0 <= i < j < |s| ==> s[i] != s[j]
  }

  lemma {:induction false} SelectedRangeSplit(q: Requested, msc: nat, i: nat, j: nat, k: nat)
    requires i <= j <= k <= |CallOrder|
    ensures SelectedRange(q, msc, i, k) == SelectedRange(q, msc, i, j) + SelectedRange(q, msc, j, k)
    decreases j - i
  {
    if i < j {
      SelectedRangeSplit(q, msc, i + 1, j, k);
      var w := When(Selected(CallOrder[i], q, msc), [CallOrder[i]]);
      var a := SelectedRange(q, msc, i + 1, j);
      var b := SelectedRange(q, msc, j, k);
      assert w + (a + b) == (w + a) + b;
    }
  }

  lemma {:induction false} SelectedRangeMembers(q: Requested, msc: nat, i: nat, j: nat)
    requires i <= j <= |CallOrder|
    ensures forall x :: x in SelectedRange(q, msc, i, j)
                        <==> Selected(x, q, msc) && exists k :: i <= k < j && CallOrder[k] == x
    decreases j - i
  {
    if i < j {
      SelectedRangeMembers(q, msc, i + 1, j);
    }
  }

  lemma CallOrderComplete(reg: Registration, q: Requested, msc: nat)
    ensures NoRepeats(CallOrder)
    ensures Selected(reg, q, msc) ==> reg in CallOrder
  {
  }

  lemma {:induction false} SelectedRangeNoRepeats(q: Requested, msc: nat, i: nat, j: nat)
    requires i <= j <= |CallOrder|
    ensures NoRepeats(SelectedRange(q, msc, i, j))
    decreases j - i
  {
    if i < j {
      CallOrderComplete(SehFilter, q, msc);
      SelectedRangeNoRepeats(q, msc, i + 1, j);
      SelectedRangeMembers(q, msc, i + 1, j);
      var rest := SelectedRange(q, msc, i + 1, j);
      var r := SelectedRange(q, msc, i, j);
      if Selected(CallOrder[i], q, msc) {
        assert r == [CallOrder[i]] + rest;
        forall b | 0 < b < |r| ensures r[0] != r[b] {
          assert r[b] == rest[b - 1] && rest[b - 1] in rest;
        }
        forall a, b | 0 < a < b < |r| ensures r[a] != r[b] {
          assert r[a] == rest[a - 1] && r[b] == rest[b - 1];
        }
      } else {
        assert r == rest;
      }
    }
  }

  lemma WhenPair(c: bool, a: Registration, b: Registration, rest: seq<Registration>)
    ensures When(c, [a, b]) + rest == When(c, [a]) + (When(c, [b]) + rest)
  {
    if c {
      assert [a, b] + rest == [a] + ([b] + rest);
    }
  }

  lemma WhenNested(c: bool, d: bool, a: Registration, b: Registration, rest: seq<Registration>)
    ensures When(c, When(d, [a]) + [b]) + rest == When(d && c, [a]) + (When(c, [b]) + rest)
  {
    if c && d {
      assert [a] + [b] + rest == [a] + ([b] + rest);
    } else if c {
      assert When(d, [a]) + [b] == [b];
    }
  }

  lemma {:induction false} HeadSegment(q: Requested, msc: nat, rest: seq<Registration>)
    ensures When(q.seh, [SehFilter]) + ([ErrorModeStderr] + rest)
            == SelectedRange(q, msc, 0, 2) + rest
  {
    assert SelectedRange(q, msc, 1, 2) == [ErrorModeStderr];
    var w := When(q.seh, [SehFilter]);
    assert SelectedRange(q, msc, 0, 2) == w + [ErrorModeStderr];
    assert w + ([ErrorModeStderr] + rest) == (w + [ErrorModeStderr]) + rest;
  }

  lemma {:induction false} RuntimeSegment(q: Requested, msc: nat)
    ensures RuntimeHookCalls(q, msc) == SelectedRange(q, msc, 2, 7)
  {
    var sec := SelectedRange(q, msc, 6, 7);
    assert sec == When(1300 <= msc < 1400 && q.security, [SecurityErrorHook]);
    var inv := SelectedRange(q, msc, 5, 7);
    assert inv == When(msc >= 1400 && q.invalidParameter, [InvalidParameterHook]) + sec;
    var nh := SelectedRange(q, msc, 4, 7);
    assert nh == When(msc >= 1300 && q.newOperator, [NewHook]) + inv;
    var nm := SelectedRange(q, msc, 3, 7);
    assert nm == When(msc >= 1300 && q.newOperator, [NewModeMalloc]) + nh;
    assert SelectedRange(q, msc, 2, 7) == When(msc >= 1300 && q.pureCall, [PureCallHook]) + nm;
    WhenPair(msc >= 1300 && q.newOperator, NewModeMalloc, NewHook, inv);
  }

  lemma {:induction false} SignalSegmentTail(q: Requested, msc: nat)
    ensures SelectedRange(q, msc, 10, 14)
            == When(q.terminate, [Signal(SIGTERM)]) + (When(q.sigfpe, [Signal(SIGFPE)])
               + (When(q.sigill, [Signal(SIGILL)]) + When(q.sigsegv, [Signal(SIGSEGV)])))
  {
    var segv := SelectedRange(q, msc, 13, 14);
    assert segv == When(q.sigsegv, [Signal(SIGSEGV)]);
    var ill := SelectedRange(q, msc, 12, 14);
    assert ill == When(q.sigill, [Signal(SIGILL)]) + segv;
    var fpe := SelectedRange(q, msc, 11, 14);
    assert fpe == When(q.sigfpe, [Signal(SIGFPE)]) + ill;
    assert SelectedRange(q, msc, 10, 14) == When(q.terminate, [Signal(SIGTERM)]) + fpe;
  }

  lemma {:induction false} SignalSegment(q: Requested, msc: nat)
    ensures SignalCalls(q, msc) == SelectedRange(q, msc, 7, 14)
  {
    var tail := SelectedRange(q, msc, 10, 14);
    SignalSegmentTail(q, msc);
    var sigint := SelectedRange(q, msc, 9, 14);
    assert sigint == When(q.sigint, [Signal(SIGINT)]) + tail;
    var abrt := SelectedRange(q, msc, 8, 14);
    assert abrt == When(q.sigabrt, [Signal(SIGABRT)]) + sigint;
    assert SelectedRange(q, msc, 7, 14) == When(msc >= 1400 && q.sigabrt, [AbortReportFault]) + abrt;
    WhenNested(q.sigabrt, msc >= 1400, AbortReportFault, Signal(SIGABRT), sigint);
  }

  lemma {:induction false} CppSegment(q: Requested, msc: nat)
    ensures CppHookCalls(q) == SelectedRange(q, msc, 14, 16)
  {
    assert SelectedRange(q, msc, 15, 16) == When(q.unexpected, [UnexpectedHook]);
  }

  /** The calls made are exactly the selected ones, in the fixed order. */
  lemma {:induction false} InstallFollowsCallOrder(dwFlags: bv32, msc: nat)
    ensures SetProcessExceptionHandlers(dwFlags, msc).calls == SelectedRange(Requests(dwFlags), msc, 0, 16)
  {
    AllPossibleHandlersIsNeutral(dwFlags);
    var q := Requests(dwFlags);
    assert SetProcessExceptionHandlers(dwFlags, msc).calls == InstallCalls(q, msc);
    RuntimeSegment(q, msc);
    SignalSegment(q, msc);
    CppSegment(q, msc);
    var rt := SelectedRange(q, msc, 2, 7);
    var sg := SelectedRange(q, msc, 7, 14);
    var cp := SelectedRange(q, msc, 14, 16);
    HeadSegment(q, msc, rt + (sg + cp));
    SelectedRangeSplit(q, msc, 7, 14, 16);
    SelectedRangeSplit(q, msc, 2, 7, 16);
    SelectedRangeSplit(q, msc, 0, 2, 16);
  }

  /** A call is made exactly when the table selects it for the requests the
      flag word carries, and none is made twice. */
  lemma {:induction false} InstallMatchesTable(dwFlags: bv32, msc: nat)
    ensures forall reg :: reg in SetProcessExceptionHandlers(dwFlags, msc).calls
                          <==> Selected(reg, Requests(dwFlags), msc)
    ensures NoRepeats(SetProcessExceptionHandlers(dwFlags, msc).calls)
  {
    var q := Requests(dwFlags);
    InstallFollowsCallOrder(dwFlags, msc);
    SelectedRangeMembers(q, msc, 0, 16);
    forall reg | Selected(reg, q, msc) ensures reg in CallOrder {
      CallOrderComplete(reg, q, msc);
    }
    SelectedRangeNoRepeats(q, msc, 0, 16);
  }

  /** Mask 0 registers no hook at all: only the error mode is set. */
  lemma InstallNothingForZero(msc: nat)
    ensures SetProcessExceptionHandlers(0, msc).calls == [ErrorModeStderr]
  {
  }

  /** The SIGTERM bit is never checked: setting it changes nothing. */
  lemma InstallIgnoresSigtermBit(dwFlags: bv32, msc: nat)
    ensures SetProcessExceptionHandlers(dwFlags | CR_INST_SIGTERM_HANDLER, msc)
            == SetProcessExceptionHandlers(dwFlags & !CR_INST_SIGTERM_HANDLER, msc)
  {
    var a := dwFlags | CR_INST_SIGTERM_HANDLER;
    var b := dwFlags & !CR_INST_SIGTERM_HANDLER;
    AllPossibleHandlersIsNeutral(a);
    AllPossibleHandlersIsNeutral(b);
    assert Requests(a) == Requests(b);
  }

  /** With a version-8 or later compiler the abort behaviour is set right
      before the SIGABRT hook. */
  lemma {:induction false} SignalRangeOpensWithAbort(q: Requested, msc: nat)
    requires msc >= 1400 && q.sigabrt
    ensures var sg := SelectedRange(q, msc, 7, 16);
            |sg| >= 2 && sg[0] == AbortReportFault && sg[1] == Signal(SIGABRT)
  {
    assert SelectedRange(q, msc, 8, 16) == [Signal(SIGABRT)] + SelectedRange(q, msc, 9, 16);
    assert SelectedRange(q, msc, 7, 16) == [AbortReportFault] + SelectedRange(q, msc, 8, 16);
  }

  lemma InstallAbortBehaviourPrecedesSigabrt(dwFlags: bv32, msc: nat)
    requires msc >= 1400 && Has(dwFlags, CR_INST_SIGABRT_HANDLER)
    ensures var calls := SetProcessExceptionHandlers(dwFlags, msc).calls;
            exists i :: 0 <= i < |calls| - 1 && calls[i] == AbortReportFault && calls[i + 1] == Signal(SIGABRT)
  {
    var q := Requests(dwFlags);
    InstallFollowsCallOrder(dwFlags, msc);
    SelectedRangeSplit(q, msc, 0, 7, 16);
    SignalRangeOpensWithAbort(q, msc);
    var before := SelectedRange(q, msc, 0, 7);
    var sg := SelectedRange(q, msc, 7, 16);
    var calls := SetProcessExceptionHandlers(dwFlags, msc).calls;
    assert calls == before + sg;
    var i := |before|;
    assert calls[i] == sg[0] && calls[i + 1] == sg[1];
  }

  // ---------------------------------------------------------------------
  // Hooks and the information they fill in

  /** Which hook fired, with what it receives. The pointers of the SEH hook
      are the filter's argument (None when null); those of the SIGFPE and
      SIGSEGV hooks are the runtime's `_pxcptinfoptrs`. */
  datatype Hook =
    | SehHook(pointers: Option<ExceptionPointers>)
    | TerminateCall
    | UnexpectedCall
    | PureCall
    | NewOperatorError
    | SecurityError
    | InvalidParameter(expression: Option<string>, functionName: Option<string>,
                       file: Option<string>, line: u32)
    | Sigabrt
    | Sigfpe(subcode: int, pointers: Option<ExceptionPointers>)
    | Sigill
    | Sigint
    | Sigsegv(pointers: Option<ExceptionPointers>)
    | Sigterm

  /** The hook with its arguments forgotten. */
  function Kind(h: Hook): Hook {
    match h
    case SehHook(_) => SehHook(None)
    case InvalidParameter(_, _, _, _) => InvalidParameter(None, None, None, 0)
    case Sigfpe(_, _) => Sigfpe(0, None)
    case Sigsegv(_) => Sigsegv(None)
    case _ => h
  }

  /** The CR_EXCEPTION_INFO each hook fills in before generating a report:
      zero-initialised, then its own type and arguments. The SIGFPE
      subcode, an int, is stored in an unsigned field. */
  function HookInfo(h: Hook): (ei: ExceptionInfo)
    ensures ei.cb == EXCEPTION_INFO_SIZE && ei.code == 0 && !ei.manual
    ensures ei.exctype in ExceptionTypes
  {
    var blank := BlankInfo(HookType(h));
    match h
    case SehHook(ptrs) => blank.(pexcptrs := ptrs)
    case InvalidParameter(expression, functionName, file, line) =>
      blank.(expression := expression, functionName := functionName, file := file, line := line)
    case Sigfpe(subcode, ptrs) => blank.(pexcptrs := ptrs, fpeSubcode := subcode % 0x1_0000_0000)
    case Sigsegv(ptrs) => blank.(pexcptrs := ptrs)
    case _ => blank
  }

  function HookType(h: Hook): int {
    match h
    case SehHook(_) => CR_SEH_EXCEPTION
    case TerminateCall => CR_CPP_TERMINATE_CALL
    case UnexpectedCall => CR_CPP_UNEXPECTED_CALL
    case PureCall => CR_CPP_PURE_CALL
    case NewOperatorError => CR_CPP_NEW_OPERATOR_ERROR
    case SecurityError => CR_CPP_SECURITY_ERROR
    case InvalidParameter(_, _, _, _) => CR_CPP_INVALID_PARAMETER
    case Sigabrt => CR_CPP_SIGABRT
    case Sigfpe(_, _) => CR_CPP_SIGFPE
    case Sigill => CR_CPP_SIGILL
    case Sigint => CR_CPP_SIGINT
    case Sigsegv(_) => CR_CPP_SIGSEGV
    case Sigterm => CR_CPP_SIGTERM
  }

  /** The exception type names the hook: two hooks fill in the same type
      exactly when they are the same kind of hook. */
  lemma HookTypeIdentifiesHook(h1: Hook, h2: Hook)
    ensures HookInfo(h1).exctype == HookInfo(h2).exctype <==> Kind(h1) == Kind(h2)
  {
  }

  /** The documented field usage holds for every hook: the subcode is set
      only by SIGFPE, the assertion fields only by the invalid-parameter
      hook, the pointers only by the SEH, SIGFPE and SIGSEGV hooks, and the
      SEH code is never set (it stays 0). */
  lemma HookInfoFieldUsage(h: Hook)
    ensures var ei := HookInfo(h);
            (ei.fpeSubcode != 0 ==> ei.exctype == CR_CPP_SIGFPE)
            && (ei.expression.Some? || ei.functionName.Some? || ei.file.Some? || ei.line != 0
                ==> ei.exctype == CR_CPP_INVALID_PARAMETER)
            && (ei.pexcptrs.Some?
                ==> ei.exctype in {CR_SEH_EXCEPTION, CR_CPP_SIGFPE, CR_CPP_SIGSEGV})
            && ei.code == 0
    ensures h.Sigfpe? ==> HookInfo(h).fpeSubcode == h.subcode % 0x1_0000_0000
    ensures h.InvalidParameter? ==>
              HookInfo(h).expression == h.expression && HookInfo(h).functionName == h.functionName
              && HookInfo(h).file == h.file && HookInfo(h).line == h.line
  {
  }

  // ---------------------------------------------------------------------
  // Report generation

  /** Where GetExceptionPointers runs: its return address, the address of
      the stack slot holding it, and the caller's saved frame pointer.
      Register capture itself is outside the model. */
  datatype CallSite = CallSite(returnAddress: u32, returnSlot: u32, savedFrame: u32)

  /** The pointers GetExceptionPointers builds for a hook that has none: a
      zeroed record with the given code, faulting at the return address,
      and a context that resumes there. */
  function SynthesisedPointers(code: u32, site: CallSite): ExceptionPointers {
    ExceptionPointers(Some(ExceptionRecord(code, site.returnAddress, 0, 0)),
                      Context(site.returnAddress, site.returnSlot, site.savedFrame))
  }

  /** The EXCEPTION_POINTERS handed to the dump writer and the report: its
      records are filled in, or are stack memory never written. */
  datatype Handed = Filled(ep: ExceptionPointers) | Uninitialised

  /** One attempt to write a minidump: the file name it tried and whether
      the file opened (and the writer therefore ran). */
  datatype DumpAttempt = DumpAttempt(fileName: string, fileOpened: bool)

  /** What the environment decides during a generation. */
  datatype GenerateEnv = GenerateEnv(site: CallSite, app: string, now: Tm, dumpFileOpens: bool)

  /** An observable step of the process. */
  datatype Event =
    | Lock
    | ClearContinue
    | Generate(info: ExceptionInfo)
    | WriteDump(attempt: DumpAttempt, handed: Handed)
    | WriteReport(handed: Handed)
    | Terminate(exitCode: int)
    | Unlock
    | StartWorker
    | WaitWorker
    | CloseWorker

  /** The process-wide state: the static recursion counter, the continue
      flag, the exit code once the process terminated, and the trace. */
  datatype Process = Process(chance: int, continueExecution: bool, exitCode: Option<int>, trace: seq<Event>)

  /** The state right after the hooks are installed. */
  function Start(): Process {
    Process(0, false, None, [])
  }

  /** CreateMiniDump: the dump is named after the application and the
      local time, the writer runs exactly when the file opened, and the
      result reports whether it opened; what the writer returns is
      ignored. */
  function CreateMiniDump(app: string, now: Tm, fileOpens: bool): (r: (DumpAttempt, bool))
    ensures r.0.fileOpened == fileOpens && r.1 == fileOpens
  {
    (DumpAttempt(DumpFileName(app, now), fileOpens), fileOpens)
  }

  /** The dump name carries the application name and the time of the
      crash, each recoverable from it. */
  lemma CreateMiniDumpName(app: string, now: Tm, fileOpens: bool)
    requires ValidTm(now)
    ensures var name := CreateMiniDump(app, now, fileOpens).0.fileName;
            |name| == |app| + 20
            && ParseDumpFileName(name)
               == DatedName(app, now.tmYear + 1900, now.tmMon + 1, now.tmMday, now.tmHour, now.tmMin, now.tmSec)
  {
    DumpFileNameRoundTrip(app, now);
  }

  /** The outcome of one GenerateErrorReport call: the new state, the
      information record as the caller sees it afterwards, and the result. */
  datatype Generated = Generated(process: Process, info: ExceptionInfo, result: int)

  /** Which GenerateErrorReport a hook calls: the code as written, which
      always hands on its own stack records, or the corrected one, which
      hands on the caller's pointers when it gave some. */
  datatype Build = AsWritten | Corrected

  /** The pointers a generation hands on: the caller's, or synthesised from
      the caller's code when it gave none. */
  function PointersFor(ei: ExceptionInfo, site: CallSite): ExceptionPointers {
    if ei.pexcptrs.Some? then ei.pexcptrs.value else SynthesisedPointers(ei.code, site)
  }

  /** What the dump writer and the report receive. As written, the local
      records are filled in only when the caller gave no pointers. */
  function HandedFor(b: Build, ei: ExceptionInfo, site: CallSite): Handed {
    match b
    case Corrected => Filled(PointersFor(ei, site))
    case AsWritten => if ei.pexcptrs.None? then Filled(SynthesisedPointers(ei.code, site)) else Uninitialised
  }

  /** The events one GenerateErrorReport call appends: the call itself,
      then, unless the guard suppresses it, the dump and the report, both
      given the same records. */
  function GenerationEvents(b: Build, chance: int, ei: ExceptionInfo, env: GenerateEnv): seq<Event> {
    if chance == 1 then [Generate(ei)]
    else
      var handed := HandedFor(b, ei, env.site);
      [Generate(ei), WriteDump(CreateMiniDump(env.app, env.now, env.dumpFileOpens).0, handed), WriteReport(handed)]
  }

  /** One GenerateErrorReport call in either build. The static counter is
      incremented on every call and only the call that brings it to 2 is
      suppressed; a caller without pointers gets synthesised ones written
      back into its record. */
  function Generation(b: Build, p: Process, ei: ExceptionInfo, env: GenerateEnv): (g: Generated)
    ensures g.process == p.(chance := p.chance + 1, trace := p.trace + GenerationEvents(b, p.chance, ei, env))
    ensures g.result == 1 <==> p.chance == 1
    ensures g.result == 1 || g.result == 0
  {
    var chance := p.chance + 1;
    var called := p.trace + [Generate(ei)];
    if chance == 2 then
      Generated(p.(chance := chance, trace := called), ei, 1)
    else
      var handed := HandedFor(b, ei, env.site);
      var info := if ei.pexcptrs.None? then ei.(pexcptrs := Some(SynthesisedPointers(ei.code, env.site))) else ei;
      var dump := CreateMiniDump(env.app, env.now, env.dumpFileOpens);
      Generated(p.(chance := chance, trace := called + [WriteDump(dump.0, handed), WriteReport(handed)]), info, 0)
  }

  /** GenerateErrorReport with the pointers handed on as the documentation
      of CR_EXCEPTION_INFO describes: the caller's, else synthesised ones. */
  function GenerateErrorReport(p: Process, ei: ExceptionInfo, env: GenerateEnv): (g: Generated)
    ensures g.process.chance == p.chance + 1
    ensures g.process.continueExecution == p.continueExecution && g.process.exitCode == p.exitCode
    ensures g.result == 1 <==> p.chance == 1
    ensures g.result == 1 || g.result == 0
    ensures g.result == 1 ==> g.process.trace == p.trace + [Generate(ei)] && g.info == ei
    ensures g.result == 0 ==>
              |g.process.trace| == |p.trace| + 3 && g.process.trace[..|p.trace| + 1] == p.trace + [Generate(ei)]
              && g.process.trace[|p.trace| + 1].WriteDump?
              && g.process.trace[|p.trace| + 1].attempt.fileName == DumpFileName(env.app, env.now)
              && g.process.trace[|p.trace| + 2] == WriteReport(g.process.trace[|p.trace| + 1].handed)
              && g.process.trace[|p.trace| + 2].handed.Filled?
              && g.info.pexcptrs == Some(g.process.trace[|p.trace| + 2].handed.ep)
    ensures g.result == 0 && ei.pexcptrs.Some? ==> g.process.trace[|p.trace| + 2] == WriteReport(Filled(ei.pexcptrs.value))
    ensures g.result == 0 && ei.pexcptrs.None? ==>
              g.process.trace[|p.trace| + 2] == WriteReport(Filled(SynthesisedPointers(ei.code, env.site)))
  {
    Generation(Corrected, p, ei, env)
  }

  /** GenerateErrorReport as written: the local EXCEPTION_POINTERS is
      handed on in every case, and only filled in when the caller gave no
      pointers; the caller's own pointers never reach the dump or the
      report. */
  function GenerateErrorReportAsWritten(p: Process, ei: ExceptionInfo, env: GenerateEnv): (g: Generated)
    ensures g.process.chance == p.chance + 1
    ensures g.process.continueExecution == p.continueExecution && g.process.exitCode == p.exitCode
    ensures g.result == 1 <==> p.chance == 1
    ensures g.result == 1 || g.result == 0
    ensures g.result == 1 ==> g.process.trace == p.trace + [Generate(ei)] && g.info == ei
    ensures g.result == 0 ==>
              |g.process.trace| == |p.trace| + 3 && g.process.trace[..|p.trace| + 1] == p.trace + [Generate(ei)]
              && g.process.trace[|p.trace| + 1].WriteDump?
              && g.process.trace[|p.trace| + 1].attempt.fileName == DumpFileName(env.app, env.now)
              && g.process.trace[|p.trace| + 2] == WriteReport(g.process.trace[|p.trace| + 1].handed)
              && (g.process.trace[|p.trace| + 2].handed == Uninitialised <==> ei.pexcptrs.Some?)
    ensures g.result == 0 && ei.pexcptrs.None? ==>
              g.process.trace[|p.trace| + 2] == WriteReport(Filled(SynthesisedPointers(ei.code, env.site)))
              && g.info.pexcptrs == Some(SynthesisedPointers(ei.code, env.site))
    ensures ei.pexcptrs.Some? ==> g.info == ei
  {
    Generation(AsWritten, p, ei, env)
  }

  /** Without caller pointers the two agree; with them, the code as written
      hands uninitialised records to the dump writer and the report, where
      the corrected one hands the caller's. */
  lemma AsWrittenIgnoresCallerPointers(p: Process, ei: ExceptionInfo, env: GenerateEnv)
    ensures ei.pexcptrs.None? ==> GenerateErrorReportAsWritten(p, ei, env) == GenerateErrorReport(p, ei, env)
    ensures ei.pexcptrs.Some? && p.chance != 1 ==>
              var w := GenerateErrorReportAsWritten(p, ei, env).process.trace;
              var c := GenerateErrorReport(p, ei, env).process.trace;
              |w| == |c| == |p.trace| + 3
              && w[|p.trace| + 2] == WriteReport(Uninitialised)
              && c[|p.trace| + 2] == WriteReport(Filled(ei.pexcptrs.value))
  {
  }

  /** A run of generations, in order. */
  function GenerateAll(b: Build, p: Process, infos: seq<ExceptionInfo>, env: GenerateEnv): Process
    decreases |infos|
  {
    if |infos| == 0 then p else GenerateAll(b, Generation(b, p, infos[0], env).process, infos[1..], env)
  }

  /** The number of reports written. */
  function Reports(trace: seq<Event>): nat
    decreases |trace|
  {
    if |trace| == 0 then 0 else (if trace[0].WriteReport? then 1 else 0) + Reports(trace[1..])
  }

  lemma {:induction false} ReportsAppend(a: seq<Event>, b: seq<Event>)
    ensures Reports(a + b) == Reports(a) + Reports(b)
    decreases |a|
  {
    if |a| == 0 {
      assert a + b == b;
    } else {
      assert (a + b)[1..] == a[1..] + b;
      ReportsAppend(a[1..], b);
    }
  }

  lemma ReportsOfGeneration(b: Build, chance: int, ei: ExceptionInfo, env: GenerateEnv)
    ensures Reports(GenerationEvents(b, chance, ei, env)) == if chance == 1 then 0 else 1
  {
    var t := GenerationEvents(b, chance, ei, env);
    if chance == 1 {
      assert t[1..] == [];
    } else {
      var r := t[1..][1..];
      assert r[1..] == [];
      assert r[0].WriteReport? && Reports(r) == 1;
      assert !t[1..][0].WriteReport?;
      assert Reports(t[1..]) == Reports(r);
    }
  }

  /** The recursion guard counts calls over the life of the process: of the
      calls made after `p`, exactly the one that is the second call ever
      writes nothing, and every other call writes one report. */
  lemma {:induction false} OnlySecondCallSuppressed(b: Build, p: Process, infos: seq<ExceptionInfo>, env: GenerateEnv)
    requires p.chance >= 0
    ensures var q := GenerateAll(b, p, infos, env);
            q.chance == p.chance + |infos|
            && Reports(q.trace) == Reports(p.trace) + |infos|
                                   - (if p.chance < 2 <= p.chance + |infos| then 1 else 0)
    decreases |infos|
  {
    if |infos| > 0 {
      var g := Generation(b, p, infos[0], env);
      var added := GenerationEvents(b, p.chance, infos[0], env);
      assert g.process.trace == p.trace + added;
      ReportsAppend(p.trace, added);
      ReportsOfGeneration(b, p.chance, infos[0], env);
      OnlySecondCallSuppressed(b, g.process, infos[1..], env);
    }
  }

  // ---------------------------------------------------------------------
  // The hook sequence

  /** What every hook body does: lock, clear the continue flag, fill in
      the information and generate a report, then terminate with exit
      code 1 unless the flag was set again, in which case it unlocks. A
      terminated process runs nothing. */
  function RunHook(b: Build, p: Process, ei: ExceptionInfo, env: GenerateEnv): (q: Process)
    ensures p.exitCode.Some? ==> q == p
    ensures p.exitCode.None? ==>
              q.exitCode == Some(1) && q.chance == p.chance + 1
              && |q.trace| > |p.trace| + 2 && q.trace[..|p.trace| + 2] == p.trace + [Lock, ClearContinue]
  {
    if p.exitCode.Some? then p
    else
      var cleared := p.(continueExecution := false, trace := p.trace + [Lock, ClearContinue]);
      var g := Generation(b, cleared, ei, env).process;
      if !g.continueExecution then g.(exitCode := Some(1), trace := g.trace + [Terminate(1)])
      else g.(trace := g.trace + [Unlock])
  }

  /** EXCEPTION_EXECUTE_HANDLER, what the SEH filter returns. */
  const EXCEPTION_EXECUTE_HANDLER: int := 1

  predicate IsStackOverflow(ptrs: Option<ExceptionPointers>) {
    ptrs.Some? && ptrs.value.record.Some? && ptrs.value.record.value.code == Report.EXCEPTION_STACK_OVERFLOW
  }

  /** SehHandler: a stack overflow is reported from a worker thread
      (StackOverflowThreadFunction) that the filter waits for before
      terminating the process; any other exception is reported inline.
      The second component is the filter's return value, None when the
      process terminated before returning. */
  function SehHandler(b: Build, p: Process, ptrs: Option<ExceptionPointers>, env: GenerateEnv)
    : (r: (Process, Option<int>))
    ensures p.exitCode.Some? ==> r == (p, None)
    ensures p.exitCode.None? ==> r.0.exitCode == Some(1) && r.1 == None && r.0.chance == p.chance + 1
    ensures p.exitCode.None? ==>
              |r.0.trace| > |p.trace| && r.0.trace[..|p.trace|] == p.trace
              && r.0.trace[|p.trace|] == (if IsStackOverflow(ptrs) then StartWorker else Lock)
  {
    if p.exitCode.Some? then (p, None)
    else if IsStackOverflow(ptrs) then
      var worker := RunHook(b, p.(trace := p.trace + [StartWorker]), HookInfo(SehHook(ptrs)), env);
      if worker.exitCode.Some? then (worker, None)
      else (worker.(exitCode := Some(1), trace := worker.trace + [WaitWorker, CloseWorker, Terminate(1)]), None)
    else
      var q := RunHook(b, p, HookInfo(SehHook(ptrs)), env);
      (q, if q.exitCode.Some? then None else Some(EXCEPTION_EXECUTE_HANDLER))
  }

  /** A hook firing in a live or terminated process. */
  function Fire(b: Build, p: Process, h: Hook, env: GenerateEnv): Process {
    match h
    case SehHook(ptrs) => SehHandler(b, p, ptrs, env).0
    case _ => RunHook(b, p, HookInfo(h), env)
  }

  /** The hook body always terminates: the continue flag it clears is not
      set again before the test, so the unlock is never reached. */
  lemma RunHookTerminates(b: Build, p: Process, ei: ExceptionInfo, env: GenerateEnv)
    requires p.exitCode.None?
    ensures var q := RunHook(b, p, ei, env);
            q.exitCode == Some(1) && !q.continueExecution && q.chance == p.chance + 1
            && q.trace == p.trace + [Lock, ClearContinue] + GenerationEvents(b, p.chance, ei, env) + [Terminate(1)]
  {
  }

  /** What a hook does before generating: start the worker thread for a
      stack overflow, then lock and clear the continue flag. */
  function Prologue(h: Hook): seq<Event> {
    if h.SehHook? && IsStackOverflow(h.pointers) then [StartWorker, Lock, ClearContinue] else [Lock, ClearContinue]
  }

  /** Every hook that fires in a live process runs the fixed sequence and
      ends the process with exit code 1, so the SEH filter never returns.
      A stack overflow adds only the worker's start in front: the wait for
      the worker is never reached. */
  lemma FireTerminates(b: Build, p: Process, h: Hook, env: GenerateEnv)
    requires p.exitCode.None?
    ensures var q := Fire(b, p, h, env);
            q.exitCode == Some(1) && !q.continueExecution && q.chance == p.chance + 1
            && q.trace == p.trace + Prologue(h) + GenerationEvents(b, p.chance, HookInfo(h), env) + [Terminate(1)]
    ensures h.SehHook? ==> SehHandler(b, p, h.pointers, env).1 == None
  {
    if h.SehHook? && IsStackOverflow(h.pointers) {
      RunHookTerminates(b, p.(trace := p.trace + [StartWorker]), HookInfo(h), env);
      assert p.trace + [StartWorker] + [Lock, ClearContinue] == p.trace + Prologue(h);
    } else {
      RunHookTerminates(b, p, HookInfo(h), env);
    }
  }

  /** A terminated process runs no hook. */
  lemma FireAfterExit(b: Build, p: Process, h: Hook, env: GenerateEnv)
    requires p.exitCode.Some?
    ensures Fire(b, p, h, env) == p
  {
  }

  /** A hook run that was not suppressed writes one report. */
  lemma {:induction false} HookRunReports(b: Build, front: seq<Event>, ei: ExceptionInfo, env: GenerateEnv)
    ensures Reports(front + GenerationEvents(b, 0, ei, env) + [Terminate(1)]) == Reports(front) + 1
  {
    var gen := GenerationEvents(b, 0, ei, env);
    ReportsAppend(front + gen, [Terminate(1)]);
    ReportsAppend(front, gen);
    ReportsOfGeneration(b, 0, ei, env);
    assert Reports([Terminate(1)]) == 0 by {
      assert [Terminate(1)][1..] == [];
    }
  }

  lemma PrologueWritesNoReport(h: Hook)
    ensures Reports(Prologue(h)) == 0 && Unlock !in Prologue(h)
  {
    var tail := [Lock, ClearContinue];
    assert tail[1..][1..] == [] && Reports(tail[1..]) == 0;
    if h.SehHook? && IsStackOverflow(h.pointers) {
      assert Prologue(h)[1..] == tail;
    }
  }

  lemma OneReportNoUnlock(b: Build, trace: seq<Event>, front: seq<Event>, ei: ExceptionInfo, env: GenerateEnv)
    requires trace == front + GenerationEvents(b, 0, ei, env) + [Terminate(1)]
    requires Reports(front) == 0 && Unlock !in front
    ensures Reports(trace) == 1 && Unlock !in trace
  {
    HookRunReports(b, front, ei, env);
  }

  /** The whole life of a process that installed its hooks: whatever fires
      first ends it with exactly one report written and nothing unlocked,
      and anything firing afterwards changes nothing. */
  lemma FirstHookEndsProcess(b: Build, h: Hook, later: Hook, env: GenerateEnv)
    ensures var q := Fire(b, Start(), h, env);
            q.exitCode == Some(1) && Reports(q.trace) == 1 && Unlock !in q.trace
            && Fire(b, q, later, env) == q
  {
    FireTerminates(b, Start(), h, env);
    var q := Fire(b, Start(), h, env);
    FireAfterExit(b, q, later, env);
    PrologueWritesNoReport(h);
    assert [] + Prologue(h) == Prologue(h);
    OneReportNoUnlock(b, q.trace, Prologue(h), HookInfo(h), env);
  }

  /** The hooks as written: the first SEH, SIGFPE or SIGSEGV hook that
      receives pointers writes its report from uninitialised records, and
      the report never sees the pointers the hook received; every other
      hook's report gets records synthesised at the call site. */
  lemma FirstHookReportRecords(h: Hook, env: GenerateEnv)
    ensures var t := Fire(AsWritten, Start(), h, env).trace;
            var ei := HookInfo(h);
            |t| >= 2 && t[|t| - 2].WriteReport?
            && (ei.pexcptrs.Some? ==> t[|t| - 2] == WriteReport(Uninitialised))
            && (ei.pexcptrs.None? ==> t[|t| - 2] == WriteReport(Filled(SynthesisedPointers(0, env.site))))
  {
    FireTerminates(AsWritten, Start(), h, env);
  }
}
