# calmdump crash handler — a Dafny model

calmdump is a CrashRpt-derived crash handler for 32-bit Windows programs.
It installs process-wide fault hooks: the SEH filter, the C runtime and C++ hooks, and the signal handlers.
When any hook fires, it runs one fixed sequence:

1. take the lock;
2. clear the continue flag;
3. fill in a `CR_EXCEPTION_INFO`;
4. generate a minidump and a text report, under a one-shot recursion guard;
5. terminate the process.

The text report is a sequence of log writes:

- a time line;
- an exception summary;
- the call stack, with each frame's parameters and locals dumped through the debug type information;
- the system information.

This project models that core as pure functions over immutable data:

- **Windows, the C runtime and the debugging library** are oracle inputs.
  - The stack unwinder is a function from a context to the frames that successive `StackWalk` calls yield.
  - Symbol, line and scope lookups are maps.
  - A type tree is a finite algebraic datatype.
  - The crashed process's memory is a partial byte map, where reading an unmapped byte is an access fault.
  - The clock is a `Tm` value, and float rendering is a function parameter.
- **Integers and strings.**
  - The 32-bit build is modelled explicitly: DWORD and pointer arithmetic wraps at 2^32, and `find_last_of`'s `npos + 1` wraps to 0.
  - printf conversions (`%d`, `%u`, `%X`, `%08x`, `%02d`, `%4d`) are written out in the `Text` module, together with their parsers.
- **Threads, the lock and process termination** become events in the trace of a sequential `Process` state.

| file | module | models |
|---|---|---|
| wrappers.dfy | Wrappers | `Option`, `Result` and the access fault |
| text.dfy | Text | printf integer conversions and their parsers |
| crashrpt.dfy | CrashRpt | install flags, exception types, `CR_EXCEPTION_INFO` (src/CrashRpt.h) |
| utility.dfy | Utility | `GetModuleName`, `GetAppName`, `FileSizeToStr` (src/Utility.cpp) |
| datednames.dfy | DatedNames | the daily log name and the minidump name, with readers |
| memory.dfy | Memory | loads from the crashed process, `IsBadStringPtr`, `%.31s` |
| typedump.dfy | TypeDump | `rgBaseType`, `GetBasicType`, `FormatOutputValue`, `DumpTypeIndex` |
| reportlog.dfy | ReportLog | `AddToReport` and the limits of src/Report.h |
| symbols.dfy | Symbols | `FormatSymbolValue`, `EnumSymbolsProcCallback`, scope enumeration |
| walk.dfy | Walk | `DumpSymbolName`, `DumpSymbolParam`, `WalkStack` |
| report.dfy | Report | `GetExceptionString`, `PrintExceptInfo`, `CreateReport` |
| handler.dfy | Handler | hook installation, hook bodies, `GenerateErrorReport`, `CreateMiniDump` |

## Where the code and its own comments differ

The model follows the code in each case:

- **Mask 0.** The comment at src/CrashHandler.cpp:534-535 and the documentation of `CR_INST_ALL_POSSIBLE_HANDLERS` (src/CrashRpt.h:140) say that 0 installs every handler. The constant is 0, so the step at src/CrashHandler.cpp:536-539 or-s in nothing. Mask 0 installs no hook and only sets the error mode (`Handler.InstallNothingForZero`).
- **The SIGTERM bit.** src/CrashRpt.h:138 documents 0x1000 as the flag that installs the SIGTERM handler. src/CrashHandler.cpp:601-605 installs that handler under the terminate bit 0x2 instead, and 0x1000 is never checked (`Handler.InstallIgnoresSigtermBit`).
- **Recursion guard.** The comment at src/CrashHandler.cpp:502 says only the first-chance exception is handled. The static counter at lines 503-507 suppresses only the call that brings it to 2. The first call and every third-or-later call run in full (`Handler.OnlySecondCallSuppressed`).
- **Unlock.** The comments at src/CrashHandler.cpp:67, 113 and 141 say the handler does not unlock. Each is followed by `UNLOCK_HANDLER()`. That call is never reached, because the continue flag tested just before is always false (`Handler.RunHookTerminates`).
- **Stack overflow.** src/CrashHandler.cpp:85-90 waits for the worker thread and then terminates the process. The worker runs the whole hook body, including `TerminateProcess` (lines 44-71), so the wait never completes (`Handler.FireTerminates`).
- **Type dump depth.** src/Report.h:14-16 says `MAX_DUMP_DEPTH` limits the levels of embedded fields. Its only use, src/Report.cpp:258, caps the stack walk. `DumpTypeIndex` (src/Report.cpp:402-492) has no depth bound. The model's type tree is finite, so the recursion terminates.
- **Type dump offsets.** The comment at src/Report.cpp:466 calls a member's offset relative to its parent. The recursive call at line 459-461 passes the unchanged base offset down, and line 482 adds only the member's own offset. So a nested member is read at the base offset plus its own offset, without its parent's (`TypeDump.LeafAddresses`).

## Model

| member | source | states |
|---|---|---|
| CrashRpt.InstallFlagsAreDistinctSingleBits | src/CrashRpt.h:124-138 | The thirteen install flags are single bits and pairwise disjoint. The deprecated STRUCTURED name is the SEH bit 0x1. |
| CrashRpt.CrtHandlersAreEveryFlagButSeh | src/CrashRpt.h:125-141 | `CR_INST_CRT_EXCEPTION_HANDLERS` (0x1FFE) is the OR of every flag except SEH and excludes the SEH bit. With SEH added it is the OR of all flags. |
| CrashRpt.AllPossibleHandlersIsNeutral | src/CrashRpt.h:140 | For every mask m, `m & CR_INST_ALL_POSSIBLE_HANDLERS == 0` and `m \| CR_INST_ALL_POSSIBLE_HANDLERS == m`. |
| CrashRpt.ExceptionTypeNumbering | src/CrashRpt.h:455-468 | The thirteen hook types are numbered 0..12 in order and so are distinct. The deprecated Win32 name aliases SEH (0). The synthetic kinds 32 and 33 lie outside that range and differ from each other. |
| Utility.FindLastOf | src/Utility.cpp:100 | The result is npos exactly when the character is absent. Otherwise it holds the character and no later index does. |
| Utility.ModuleName | src/Utility.cpp:95-102 | The result is a suffix of the path and contains no backslash. When shorter than the path it is preceded by a backslash. A path without a backslash is kept whole. |
| Utility.AppName | src/Utility.cpp:105-110 | The result is a prefix of the name. If the name has a dot, the result is followed by a dot and no later dot exists. Without a dot the name is kept whole. |
| Utility.GetAppName | src/Utility.cpp:105-110 | The application name has no backslash. For an image path without a dot it is the module name. |
| Utility.FileSizeToStr | src/Utility.cpp:114-136 | 0 gives "0 KB". Below 1024 it is the one-decimal KB text. From 1024 below 2^20 it is the decimal of n/1024 followed by " KB", which reads back as n/1024. From 2^20 on it is the one-decimal MB text. |
| Utility.FileSizeUnit | src/Utility.cpp:114-136 | The text ends in " MB" exactly when n ≥ 2^20, and in " KB" exactly otherwise. |
| Utility.FileSizeBoundaries | src/Utility.cpp:117-134 | 1024 gives "1 KB" and 1048575 gives "1023 KB". 1023 takes the fractional KB branch and 1048576 takes the MB branch. |
| DatedNames.LogFileNameRoundTrip | src/Utility.cpp:151-157 | The log name is the module name plus 15 characters. Reading it back yields the module name, tm_year+1900, tm_mon+1 and tm_mday. |
| DatedNames.DumpFileNameRoundTrip | src/CrashHandler.cpp:474-480 | The dump name is the application name plus 20 characters. Reading it back yields the application name and every calendar field, with year = tm_year+1900 and month = tm_mon+1. |
| DatedNames.DumpFileNameInjective | src/CrashHandler.cpp:474-480 | Two different valid times never give the same dump name. |
| Text.SignedDecimal32 | src/Report.cpp:222 | `%d` of a DWORD: below 2^31 the digits read back as the value; otherwise a minus sign followed by digits that read back as 2^32 − v. |
| Memory.LoadSucceedsIffMapped | src/Report.cpp:359-392 | A read of n bytes succeeds exactly when every byte it covers is mapped. |
| Memory.LoadStore | src/Report.cpp:359-392 | Reading back n bytes stored little-endian gives the value modulo 256^n. |
| Memory.CStringContents | src/Report.cpp:369-373 | `%.31s` of a readable pointer prints the bytes at the pointer, none of them NUL. It stops early only at a NUL. |
| TypeDump.BaseTypeLabelTable | src/Report.h:23-57 | `rgBaseType` has 32 entries. Each entry is framed by spaces and contains no '%', so printing it as a format prints it verbatim. Entry 0 is " <user defined> ". |
| TypeDump.GetBasicType | src/Report.cpp:494-516 | The type's own base type wins; else the base type of its type id; else btNoType. |
| TypeDump.UnknownTypeIsUserDefined | src/Report.cpp:494-516 | When both base-type queries fail, the label printed is " <user defined> ". |
| TypeDump.FormatOutputValue | src/Report.cpp:356-396 | Widths other than 1, 2, 4 and 8 append nothing. The other widths append text starting " = ". The call faults exactly when a width-1/2/4/8 read touches an unmapped byte. |
| TypeDump.IntegerValueRoundTrip | src/Report.cpp:359-394 | A non-float, non-char value of width 1, 2, 4 or 8 prints as " = " plus `%X`, which reads back as the stored value modulo the width. |
| TypeDump.CharPointerValue | src/Report.cpp:366-378 | A 4-byte char pointer that `IsBadStringPtr(p, 32)` accepts prints as the quoted text at p, at most 31 characters. Otherwise it prints as `%X` of the pointer. |
| TypeDump.DumpTypeIndex | src/Report.cpp:402-492 | `bHandled` is true exactly when the children count is positive and the child list is fetched. Otherwise the dump is just the type name. |
| TypeDump.DumpMembers | src/Report.cpp:446-488 | When a child remains, the dump starts with nestingLevel + 2 tabs. A fault names an unmapped byte. |
| TypeDump.MemberEntryShape | src/Report.cpp:449-487 | A child's entry is nestingLevel + 2 tabs, its base-type label and its name. An aggregate child then has CRLF and its own members' entries, dumped at the same base offset. Any other child has its value, read at (base offset + its member offset) mod 2^32, then CRLF. The entry faults exactly when that part faults. |
| TypeDump.DumpMembersIsEntries | src/Report.cpp:446-488 | The member dump is the join of the children's entries, in order. The first entry that faults ends it with that fault. |
| TypeDump.NestedEntryIndent | src/Report.cpp:449-461 | In an aggregate child's entry, the head is followed by CRLF and then nestingLevel + 3 tabs: its own children are indented one tab deeper. |
| TypeDump.DumpFaultsIffLeafFaults | src/Report.cpp:402-492 | The dump of a type faults exactly when reading one of its leaf values faults. The nesting level plays no part. |
| TypeDump.LeafAddresses | src/Report.cpp:464-483 | Every leaf value, however deep, is read at (base offset + that member's own offset) mod 2^32. The base offset is the caller's, unchanged. |
| ReportLog.AddToReport | src/Report.cpp:29-42 | An empty message and one longer than `MAX_BUF_SIZE` are dropped. Any other message is appended whole, and nothing else changes. |
| ReportLog.AddAllFitting | src/Report.cpp:29-42 | Messages that fit the buffer are appended in order. |
| ReportLog.AddAllKeepsWholeMessages | src/Report.cpp:29-42 | A batch of writes only appends. Every new entry is one of the messages written, whole and within the buffer size. |
| Symbols.VariableAddress | src/Report.cpp:311-329 | A register-relative symbol is at (frame + Address) mod 2^32. A register symbol has no address. Any other symbol is at its Address truncated to 32 bits. |
| Symbols.FormatSymbolValue | src/Report.cpp:297-354 | Returns false (None) exactly for a function symbol or a register variable. Otherwise the text starts with the kind prefix: "Parameter " when the parameter flag is set, else "Local " when the local flag is set, else nothing. A fault names an unmapped address. |
| Symbols.RegRelVariableValue | src/Report.cpp:313-352 | A register-relative variable of a plain type prints as its kind prefix, its label, its quoted name and `%X` of the bytes at (frame + offset) mod 2^32. The hex digits read back as the stored value modulo the width. |
| Symbols.GlobalIgnoresFrame | src/Report.cpp:325-328 | A global is read at its own address, whatever the frame. |
| Symbols.EnumSymbolsProcCallback | src/Report.cpp:269-291 | Always continues the enumeration. It writes a line exactly for a parameter or local that formats without a fault, and the line is a tab, the text and CRLF. |
| Symbols.EnumerateScope | src/Report.cpp:134-143 | Enumerating a scope only appends to the report, at most one line per symbol. |
| Symbols.EnumerateScopeIsScopeLines | src/Report.cpp:134-143 | Enumerating a scope is `AddToReport` over the scope's variable lines, in order. |
| Symbols.ScopeLinesShape | src/Report.cpp:274-290 | A scope gives at most one line per symbol, each tab-indented and CRLF-terminated. |
| Walk.StoredName | src/Report.cpp:90-93 | The stored name is shorter than `MAX_NAME_LEN` and is a prefix of the symbol's name. A short name is kept whole. |
| Walk.LevelTextRoundTrip | src/Report.cpp:114 | `%02d` of the level is at least two characters. It reads back as the level below 2^31 and starts with '-' above. |
| Walk.DumpSymbolName | src/Report.cpp:87-117 | Nothing is written unless both the symbol lookup and the line lookup succeed. When both succeed, the formatted line is written exactly when it fits the 4096-byte buffer, and nothing is written otherwise. A file name of at most `MAX_PATH` always gives a line that fits. |
| Walk.SymbolLineFits | src/Report.cpp:114-115 | With a file name of at most `MAX_PATH`, the symbol line is non-empty and fits the 4096-byte buffer. |
| Walk.SymbolLineHead | src/Report.cpp:114-115 | For a level below 100 and a 32-bit symbol address, the line starts with two level digits, ". (0x", eight hex digits that read back as the symbol address, and ") ". |
| Walk.DumpSymbolParam | src/Report.cpp:119-144 | `SymSetContext` fails, and nothing is written, when the frame's PC is the context already set or has no scope. Then the walk's state is unchanged. Otherwise the scope's variable lines are written and that PC becomes the current context. |
| Walk.WalkedFrames | src/Report.cpp:176-194 | The walk visits the run of frames with a non-zero frame pointer, cut at maxDepth and at the end of the unwind. It stops at the first zero frame pointer. |
| Walk.WalkStopsAt | src/Report.cpp:176-194 | The stopping point is unique: the first index that is at a bound or holds a zero frame pointer. |
| Walk.WalkStack | src/Report.cpp:146-204 | The loop makes k + 1 `StackWalk` calls when it stops before maxDepth and maxDepth calls otherwise. It emits frames i ≥ skip of the visited run at level i − skip. |
| Walk.EmitFramesNumbersFromZero | src/Report.cpp:196-201 | Frames below `skip` print nothing. The shown frames are frames[skip..k], numbered consecutively from 0. |
| Walk.FrameReportEndsWithNewline | src/Report.cpp:196-201 | Each shown frame only appends to the report and ends with its own "\n" entry. |
| Walk.ShownContext | src/Report.cpp:124-131 | After any run of shown frames, the context the library holds is the PC of the last of them that has a scope, or the earlier context when none has. |
| Walk.RepeatedPcWritesNoVariables | src/Report.cpp:124-133 | A frame with the same PC as the frame shown just before it, as in a recursion, gets only its symbol line and its blank line, with no variable lines. |
| Report.ExceptionNameMatchesTable | src/Report.cpp:47-74 | The switch knows 22 distinct codes. A code has a name exactly when the table lists it, and the name is the constant's name without EXCEPTION_. |
| Report.GetExceptionString | src/Report.cpp:47-85 | A known code gives its name. Any other code gives the message-table text. |
| Report.AccessWord | src/Report.cpp:226 | "write" exactly when `ExceptionInformation[0]` is non-zero, "read" exactly when it is zero. |
| Report.PrintExceptInfo | src/Report.cpp:206-230 | A null exception record faults at address 0 after the header. A present record writes the summary without a fault. |
| Report.AccessViolationSummary | src/Report.cpp:211-229 | For an access violation, the line before the code line names the access and the address touched. Any other code has no such line. |
| Report.SummaryCodeReadsBack | src/Report.cpp:229 | The summary ends with a code line whose eight hex digits read back as the code, followed by the code's name. |
| Report.PrintExceptInfoAsWritten | src/Report.cpp:206-230 | The as-written summary faults like the corrected one on a null record. For every code other than an access violation it equals the corrected one. |
| Report.AccessLineAsWrittenLosesWord | src/Report.cpp:227 | With `%d`, the access line holds a digit or '-' where the word belongs, so it never equals the intended line. |
| Report.CreateReport | src/Report.cpp:233-266 | The time line, then the as-written summary, whose access line prints the string literal's address with `%d`. A fault in the summary ends the report there. A failed `SymInitialize` ends it after the summary. Otherwise come the two call-stack headers, the walk of at most `MAX_DUMP_DEPTH` frames from the exception's context with skip 0, then the system information. |
| Report.ReportStartsWithTimeAndSummary | src/Report.cpp:237-241 | With an exception record present and a time line that fits the buffer, the report's first entry is the time line and its second is the exception header. The summary entries follow. |
| Handler.InstallFollowsCallOrder | src/CrashHandler.cpp:536-648 | The calls made are exactly the selected ones, in the fixed order: SEH filter, error mode, runtime hooks, signals, C++ hooks. |
| Handler.InstallMatchesTable | src/CrashHandler.cpp:536-648 | A registration is made exactly when its bit and the compiler version select it, and none is made twice. |
| Handler.SetProcessExceptionHandlers | src/CrashHandler.cpp:530-649 | Always returns TRUE. |
| Handler.InstallNothingForZero | src/CrashHandler.cpp:536-547 | Mask 0 makes only the `_set_error_mode` call. |
| Handler.InstallIgnoresSigtermBit | src/CrashHandler.cpp:586-646 | Setting or clearing bit 0x1000 changes nothing. |
| Handler.InstallAbortBehaviourPrecedesSigabrt | src/CrashHandler.cpp:586-593 | With `_MSC_VER` ≥ 1400 and the SIGABRT bit, `_set_abort_behavior` is called immediately before `signal(SIGABRT)`. |
| Handler.HookInfo | src/CrashHandler.cpp:121-461 | Every hook fills in a zero-initialised record: size 44, no SEH code, not manual, a type in 0..12. |
| Handler.HookTypeIdentifiesHook | src/CrashHandler.cpp:121-461 | Two hooks fill in the same exception type exactly when they are the same kind of hook. |
| Handler.HookInfoFieldUsage | src/CrashRpt.h:503-518 | The subcode is set only by SIGFPE, as the int subcode mod 2^32. The assertion fields are set only by the invalid-parameter hook, as passed. The pointers are set only by the SEH, SIGFPE and SIGSEGV hooks. |
| Handler.CreateMiniDump | src/CrashHandler.cpp:466-497 | The writer runs exactly when the file opened, and the result is whether it opened. What the writer returns plays no part. |
| Handler.CreateMiniDumpName | src/CrashHandler.cpp:474-480 | The file name reads back as the application name and the time of the crash. |
| Handler.GenerateErrorReport | src/CrashHandler.cpp:500-527 | The corrected version. The counter goes up by one, and the result is 1 exactly when the counter was 1. A suppressed call writes nothing. Otherwise the dump, named after app and time, then the report, both with the same filled-in pointers: the caller's, or ones synthesised from `code`. The result is 0. |
| Handler.GenerateErrorReportAsWritten | src/CrashHandler.cpp:500-527 | The code as written. The counter goes up by one, and the result is 1 exactly when the counter was 1. A suppressed call writes nothing. Otherwise the dump, named after app and time, then the report, both handed the same records. Those records are uninitialised exactly when the caller gave pointers. Without caller pointers they are synthesised from `code` and written back into the caller's record. |
| Handler.AsWrittenIgnoresCallerPointers | src/CrashHandler.cpp:509-524 | Without caller pointers the two versions agree. With them, the as-written code hands uninitialised records to the report, where the corrected one hands the caller's. |
| Handler.OnlySecondCallSuppressed | src/CrashHandler.cpp:503-507 | In either build, over any run of calls the counter grows by their number. Exactly one report fewer than calls is written when the run contains the second call ever; otherwise one report per call. |
| Handler.RunHook | src/CrashHandler.cpp:121-143 | Parameterised by the build: `AsWritten` calls the code as written. A terminated process runs nothing. A live one begins with lock and clear, counts one generation and ends with exit code 1. |
| Handler.RunHookTerminates | src/CrashHandler.cpp:121-143 | In either build, the hook body is lock, clear, that build's generation events, then `TerminateProcess(1)`. The unlock is never reached. |
| Handler.SehHandler | src/CrashHandler.cpp:74-117 | In either build, in a live process the filter ends the process with exit code 1 and never returns. A stack overflow first starts the worker; any other code locks inline. |
| Handler.FireTerminates | src/CrashHandler.cpp:44-117 | In either build, every hook, including both SEH paths, runs its prologue, one generation of that build and `Terminate(1)`. The wait for the worker is never reached. |
| Handler.FirstHookEndsProcess | src/CrashHandler.cpp:121-143 | In either build, from a freshly installed state, the first hook to fire writes exactly one report, never unlocks and ends the process. Any later hook changes nothing. |
| Handler.FirstHookReportRecords | src/CrashHandler.cpp:509-524 | As written, the first hook to fire hands its report uninitialised records exactly when the hook's information carries pointers, which only the SEH, SIGFPE and SIGSEGV hooks set. Every other report gets records synthesised at the call site with code 0. |

## Left out

- Win32 and debugging-library calls are not modelled as code. They appear only as inputs: `StackWalk`, `SymFromAddr`, `SymGetLineFromAddr`, `SymSetContext`, `SymGetTypeInfo`, `VirtualQuery`, `GetModuleFileName`, `CreateFile`, `MiniDumpWriteDump`, `time`/`localtime`/`ctime` and `GetCurrentThreadId`.
- Threads and the critical section: the stack-overflow worker, the lock and `WaitForSingleObject` are events in a sequential trace. A second thread blocking on the lock is not modelled.
- Floating point: `%f`, `%lf` and `%0.1f` digits are a function parameter. Only the branch and the unit are modelled.
- `GetExceptionString`'s NTDLL message-table fallback is a function parameter, foreign code.
- `GetExceptionPointers` is inline assembly. Its register capture is a `CallSite` input.
- `PrintSystemInfo`, `GetWindowsVersion` and `GetProcessorName` are OS probes. The system-information section is an input list of messages.
- `SymCleanup` and the `LOG_LAST_ERROR`/`LogLastError` calls write only to the error log, not to the report.
- The daily log file itself (`LogModuleFile`) is not part of this model. The report is the sequence of messages `AddToReport` accepts.
- `crUninstall` and restoring previous handlers: the previous handlers are kept only in a local of the install function, and no uninstall is implemented.
- src/DbgHlp.cpp and src/Dbghlp.h are the dynamic-loading shim of the debugging library. `StringAppendV` and `StringPrintf` are general formatting helpers. `GetErrorMessage` is foreign code.
- 64-bit builds: the model is the x86 build, whose pointers and `DWORD_PTR` are 32 bits wide.
- Buffer overflows are outside the model:
  - `sprintf_s` into `MAX_PATH` for a long name;
  - `FormatSymbolValue` writing past its 2048-byte buffer;
  - `DumpTypeIndex` with more than 1025 children.
  Buffers are treated as large enough.
- ReportLog.AddToReport: a message of exactly 4096 characters is kept. The C code's buffer would then lack its terminator.
- Failed `TI_GET_OFFSET`, `TI_GET_TYPEID` and `TI_GET_LENGTH` queries leave locals uninitialised in the source. The model gives each child a defined offset and length.
- A failed `SymEnumSymbols` after a successful `SymSetContext` is not distinguished from an empty scope.
- Walk.DumpSymbolParam: the context held right after `SymInitialize` is taken to be none. A `SymSetContext` call that fails for a PC without a scope is taken to leave the current context unchanged.
- TypeDump.BasicType: base-type codes of 32 or more are not modelled. The source indexes `rgBaseType` with them unchecked (src/Report.cpp:344 and 457), which reads past the table.
- Memory.Load: an address range that wraps past 2^32 is read from unbounded addresses.
- Handler.GenerateErrorReport:
  - the static counter is an unbounded integer, so its `int` overflow after 2^31 calls is not modelled;
  - a null `pExceptionInfo`, which the source dereferences, is not modelled;
  - the dump and report events record the pointers handed on, not the report text, which is `Report.CreateReport` of those pointers.
- Handler.RunHook: a fault inside the report code that re-enters a hook is modelled only through the counter (`Handler.OnlySecondCallSuppressed`), not as a nested trace.
- Handler.SetProcessExceptionHandlers: its own contract states only the result. The calls it makes are stated by `Handler.InstallFollowsCallOrder` and `Handler.InstallMatchesTable`.
- The exception type the hooks fill in never reaches the report in the source. The model carries it only in the `Generate` event.

## Findings

| source | as written | input that shows it | evidently intended | confidence | as-written member | corrected member |
|---|---|---|---|---|---|---|
| src/CrashHandler.cpp:509-524 | `CreateMiniDump(&excptr)` and `CreateReport(&excptr)` always get the local `excptr`. Its records are filled only when the caller gave no pointers. | Any hook that passes its own pointers (SEH filter, SIGFPE, SIGSEGV) on the first call: the dump and report read uninitialised stack records. | The caller's `pexcptrs` is handed on when given, as the `CR_EXCEPTION_INFO` documentation says. | not executed | Handler.GenerateErrorReportAsWritten | Handler.GenerateErrorReport |
| src/Report.cpp:227 | `"Failed to %d address 0x%08x"` is passed the string "write"/"read". | Any `EXCEPTION_ACCESS_VIOLATION`: the line prints the literal's address as a decimal number. | `%s`, printing "write" or "read". | not executed | Report.AccessLineAsWritten | Report.AccessLine |
