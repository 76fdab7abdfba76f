/** The call-stack section of the report: the unwinder and the symbol, line
    and scope lookups of the debugging library are oracle inputs, and the
    walk turns the frames they yield into one name line, the variable lines
    and a blank line per shown frame.
 */
module Walk {
  import opened Wrappers
  import opened Text
  import opened Memory
  import opened TypeDump
  import opened ReportLog
  import opened Symbols
  import opened CrashRpt

  type u64 = x: nat | x < 0x1_0000_0000_0000_0000

  /** Longest path a file-name buffer holds. */
  const MAX_PATH: nat := 260

  /** The offsets of a STACKFRAME that the report reads (32-bit build). */
  datatype Frame = Frame(pc: u32, stack: u32, frameAddr: u32)

  /** What the symbol lookup gives for an address: the symbol's start
      address and its name. */
  datatype SymbolRecord = SymbolRecord(address: u64, name: string)

  /** What the line lookup gives for an address. */
  datatype LineRecord = LineRecord(fileName: string, lineNumber: u32)

  /** The debugging library as the walk sees it. `unwind` lists the frames
      that successive StackWalk calls yield from a context; the call after
      the last one fails. A missing key is a failed lookup, and a PC without
      a scope is a failed SymSetContext. */
  datatype Debugger = Debugger(
    unwind: Context -> seq<Frame>,
    symbols: map<u32, SymbolRecord>,
    lines: map<u32, LineRecord>,
    scopes: map<u32, seq<SymbolInfo>>)

  /** The name as it lands in a buffer of MAX_NAME_LEN characters, which
      keeps room for the terminating NUL. */
  function StoredName(name: string): (r: string)
    ensures |r| < MAX_NAME_LEN
    ensures |name| < MAX_NAME_LEN ==> r == name
    ensures r == name[..|r|]
  {
    if |name| < MAX_NAME_LEN then name else name[..MAX_NAME_LEN - 1]
  }

  /** %02d of the DWORD level: two digits at least for values that are
      non-negative as an int, a minus sign for the others. */
  function LevelText(level: u32): (r: string)
    ensures level < 100 ==> |r| == 2 && ParseDigits(r, 10) == level
  {
    if level < TWO_POW_31 then
      ZeroPaddedRoundTrip(level, 2);
      ZeroPadded(level, 2)
    else SignedDecimal32(level)
  }

  lemma LevelTextRoundTrip(level: u32)
    ensures |LevelText(level)| >= 2
    ensures level < TWO_POW_31 ==> ParseDigits(LevelText(level), 10) == level && AllDigits(LevelText(level), 10)
    ensures TWO_POW_31 <= level ==> LevelText(level)[0] == '-'
  {
    if level < TWO_POW_31 {
      ZeroPaddedRoundTrip(level, 2);
      assert AllDigits(Decimal(level), 10) by { DecimalRoundTrip(level); }
      AllDigitsPadded(Decimal(level), 2);
    } else {
      var s := SignedDecimal32(level);
      assert s[1..] == Decimal(TWO_POW_32 - level);
    }
  }

  lemma AllDigitsPadded(s: string, width: nat)
    requires AllDigits(s, 10)
    ensures AllDigits(PadLeft(s, width, '0'), 10)
  {
    if |s| < width {
      var z := Fill('0', width - |s|);
      FillIsAll('0', width - |s|);
      assert PadLeft(s, width, '0') == z + s;
    }
  }

  lemma {:induction false} FillIsAll(c: char, n: nat)
    ensures forall i :: 0 <= i < n ==> Fill(c, n)[i] == c
    decreases n
  {
    if n > 0 {
      FillIsAll(c, n - 1);
    }
  }

  /** The line DumpSymbolName writes for a frame whose lookups succeeded:
      "%02d. (0x%08I64x) %s()  %s [%u]\n". */
  function SymbolLine(level: u32, sym: SymbolRecord, line: LineRecord): string {
    LevelText(level) + ". (0x" + Hex8(sym.address) + ") " + SymbolLineTail(sym, line)
  }

  /** "%s()  %s [%u]\n": name, source file and line number. */
  function SymbolLineTail(sym: SymbolRecord, line: LineRecord): string {
    StoredName(sym.name) + "()  " + line.fileName + " [" + Decimal(line.lineNumber) + "]\n"
  }

  /** DumpSymbolName: a line only when both the symbol and the line lookups
      succeed for the frame's PC, and nothing otherwise. A line too long for
      the formatting buffer (a very long source file name) is dropped by
      AddToReport like any other. */
  function DumpSymbolName(log: Report, level: u32, frame: Frame, dbg: Debugger): (r: Report)
    ensures frame.pc !in dbg.symbols || frame.pc !in dbg.lines ==> r == log
    ensures frame.pc in dbg.symbols && frame.pc in dbg.lines
            && |dbg.lines[frame.pc].fileName| <= MAX_PATH ==>
              r == log + [SymbolLine(level, dbg.symbols[frame.pc], dbg.lines[frame.pc])]
    ensures frame.pc in dbg.symbols && frame.pc in dbg.lines ==>
              var text := SymbolLine(level, dbg.symbols[frame.pc], dbg.lines[frame.pc]);
              (|text| <= MAX_BUF_SIZE ==> r == log + [text]) && (|text| > MAX_BUF_SIZE ==> r == log)
  {
    if frame.pc !in dbg.symbols then log
    else if frame.pc !in dbg.lines then log
    else
      var sym := dbg.symbols[frame.pc];
      var line := dbg.lines[frame.pc];
      SymbolLineFits(level, sym, line);
      AddToReport(log, SymbolLine(level, sym, line))
  }

  /** With a file name no longer than a path, the line is far below the
      buffer size (at most 11 + 5 + 16 + 2 + 1023 + 4 + 260 + 2 + 10 + 2
      characters) and never empty. */
  lemma SymbolLineFits(level: u32, sym: SymbolRecord, line: LineRecord)
    ensures |line.fileName| <= MAX_PATH ==> 0 < |SymbolLine(level, sym, line)| <= MAX_BUF_SIZE
  {
    assert Power(10, 11) > TWO_POW_32;
    DigitsBound(level, 10, false, 10);
    DigitsBound(TWO_POW_32 - level, 10, false, 10);
    DigitsBound(line.lineNumber, 10, false, 10);
    assert Power(16, 8) == TWO_POW_32;
    PowerAdd(16, 8, 8);
    DigitsBound(sym.address, 16, false, 16);
  }

  /** The fixed-width head of a symbol line reads back: for a level below
      100 and a 32-bit symbol address, two level digits, ". (0x", eight
      hexadecimal digits of the address and ") ". */
  lemma SymbolLineHead(level: u32, sym: SymbolRecord, line: LineRecord)
    requires level < 100 && sym.address < TWO_POW_32
    ensures var s := SymbolLine(level, sym, line);
            |s| >= 17 && ParseDigits(s[..2], 10) == level && s[2..7] == ". (0x"
            && ParseDigits(s[7..15], 16) == sym.address && s[15..17] == ") "
  {
    Hex8Width(sym.address);
    Hex8RoundTrip(sym.address);
    HeadSlices(LevelText(level), Hex8(sym.address), SymbolLineTail(sym, line));
  }

  lemma HeadSlices(lt: string, hx: string, rest: string)
    requires |lt| == 2 && |hx| == 8
    ensures var s := lt + ". (0x" + hx + ") " + rest;
            |s| >= 17 && s[..2] == lt && s[2..7] == ". (0x" && s[7..15] == hx && s[15..17] == ") "
  {
    var a := lt + ". (0x";
    var b := a + hx;
    var c := b + ") ";
    var s := c + rest;
    assert s[..17] == c;
    assert c[..15] == b && b[..7] == a;
    assert s[..2] == a[..2] == lt;
    assert s[2..7] == a[2..7] == ". (0x";
    assert s[7..15] == b[7..15] == hx;
    assert s[15..17] == c[15..17] == ") ";
  }

  /** The walk between frames: the report so far and the instruction offset
      of the scope the debugging library holds, which SymSetContext keeps
      from one call to the next; None while no scope has been set. */
  datatype WalkState = WalkState(log: Report, context: Option<u32>)

  /** SymSetContext with a stack frame whose only non-zero field is the
      instruction offset fails when that offset is the one already set (the
      library refuses to set an unchanged context) and when there is no
      scope for it. A failed call leaves the context as it was. */
  predicate SetContextFails(context: Option<u32>, pc: u32, dbg: Debugger) {
    context == Some(pc) || pc !in dbg.scopes
  }

  /** DumpSymbolParam: the variable lines of the frame's scope, or nothing
      when the scope cannot be set; a scope that is set becomes the current
      one. */
  function DumpSymbolParam(st: WalkState, frame: Frame, dbg: Debugger, mem: Memory, floatText: FloatText)
    : (r: WalkState)
    ensures SetContextFails(st.context, frame.pc, dbg) ==> r == st
    ensures !SetContextFails(st.context, frame.pc, dbg) ==>
              r.context == Some(frame.pc)
              && r.log == AddAll(st.log, ScopeLines(dbg.scopes[frame.pc], frame.frameAddr, mem, floatText))
  {
    if SetContextFails(st.context, frame.pc, dbg) then st
    else
      var syms := dbg.scopes[frame.pc];
      EnumerateScopeIsScopeLines(st.log, syms, frame.frameAddr, mem, floatText);
      WalkState(EnumerateScope(st.log, syms, frame.frameAddr, mem, floatText), Some(frame.pc))
  }

  /** The report of one shown frame. */
  function FrameReport(st: WalkState, frame: Frame, level: u32, dbg: Debugger, mem: Memory, floatText: FloatText)
    : WalkState
  {
    var p := DumpSymbolParam(st.(log := DumpSymbolName(st.log, level, frame, dbg)), frame, dbg, mem, floatText);
    p.(log := AddToReport(p.log, "\n"))
  }

  /** What the walk does with a frame it shows, given the walk so far and
      the level printed for the frame. */
  type FrameShow = (WalkState, Frame, u32) -> WalkState

  /** The per-frame output of the stack walk: DumpSymbolName, DumpSymbolParam
      and a blank line. */
  function ShowWith(dbg: Debugger, mem: Memory, floatText: FloatText): FrameShow {
    (st: WalkState, frame: Frame, level: u32) => FrameReport(st, frame, level, dbg, mem, floatText)
  }

  /** How many frames the walk shows or skips before it stops: the length of
      the run of frames with a non-zero frame pointer, cut at maxDepth and at
      the end of the unwind. */
  function WalkedFrames(frames: seq<Frame>, maxDepth: nat): (k: nat)
    ensures k <= maxDepth && k <= |frames|
    ensures forall j :: 0 <= j < k ==> frames[j].frameAddr != 0
    ensures k < maxDepth && k < |frames| ==> frames[k].frameAddr == 0
  {
    WalkedFrom(frames, maxDepth, 0)
  }

  function WalkedFrom(frames: seq<Frame>, maxDepth: nat, j: nat): (k: nat)
    requires j <= maxDepth && j <= |frames|
    requires forall i :: 0 <= i < j ==> frames[i].frameAddr != 0
    ensures j <= k <= maxDepth && k <= |frames|
    ensures forall i :: 0 <= i < k ==> frames[i].frameAddr != 0
    ensures k < maxDepth && k < |frames| ==> frames[k].frameAddr == 0
    decreases maxDepth - j
  {
    if j == maxDepth || j == |frames| || frames[j].frameAddr == 0 then j
    else WalkedFrom(frames, maxDepth, j + 1)
  }

  /** The stopping point is unique: the first index that is at a bound or
      holds a zero frame pointer. */
  lemma WalkStopsAt(frames: seq<Frame>, maxDepth: nat, n: nat)
    requires n <= maxDepth && n <= |frames|
    requires forall j :: 0 <= j < n ==> frames[j].frameAddr != 0
    requires n == maxDepth || n == |frames| || frames[n].frameAddr == 0
    ensures WalkedFrames(frames, maxDepth) == n
  {
  }

  /** The loop's view of the call-stack text: frames[..k] in order, frame i
      shown at level i - skip when i >= skip and left out otherwise. */
  function EmitFrames(st: WalkState, frames: seq<Frame>, skip: nat, k: nat, show: FrameShow): WalkState
    requires k <= |frames| && k <= TWO_POW_32
  {
    if k == 0 then st
    else
      var prev := EmitFrames(st, frames, skip, k - 1, show);
      if k - 1 >= skip then show(prev, frames[k - 1], k - 1 - skip) else prev
  }

  /** The body of the walk for a frame it shows: the symbol line, the
      parameters and locals, and a blank line. */
  method ShowFrame(st: WalkState, sf: Frame, level: u32, dbg: Debugger, mem: Memory, floatText: FloatText)
    returns (r: WalkState)
    ensures r == ShowWith(dbg, mem, floatText)(st, sf, level)
  {
    r := st.(log := DumpSymbolName(st.log, level, sf, dbg));
    r := DumpSymbolParam(r, sf, dbg, mem, floatText);
    r := r.(log := AddToReport(r.log, "\n"));
  }

  /** WalkStack: up to maxDepth StackWalk calls; the walk stops at the first
      failed call or at the first frame with a zero frame pointer, which is
      not shown. `unwinds` counts the StackWalk calls. */
  method WalkStack(ctx: Context, skip: nat, maxDepth: nat, dbg: Debugger, mem: Memory, floatText: FloatText, st: WalkState)
    returns (r: WalkState, unwinds: nat)
    requires maxDepth < TWO_POW_32
    ensures var frames := dbg.unwind(ctx);
            var k := WalkedFrames(frames, maxDepth);
            unwinds == (if k < maxDepth then k + 1 else maxDepth)
            && r == EmitFrames(st, frames, skip, k, ShowWith(dbg, mem, floatText))
  {
    var frames := dbg.unwind(ctx);
    ghost var show := ShowWith(dbg, mem, floatText);
    r := st;
    unwinds := 0;
    var nLevel := 0;
    while nLevel < maxDepth
      invariant nLevel <= maxDepth && nLevel <= |frames|
      invariant forall j :: 0 <= j < nLevel ==> frames[j].frameAddr != 0
      invariant unwinds == nLevel
      invariant r == EmitFrames(st, frames, skip, nLevel, show)
    {
      unwinds := unwinds + 1;
      // StackWalk fails after the last frame; a zero frame pointer marks an
      // invalid frame.
      if nLevel == |frames| || frames[nLevel].frameAddr == 0 {
        WalkStopsAt(frames, maxDepth, nLevel);
        break;
      }
      var sf := frames[nLevel];
      if nLevel >= skip {
        r := ShowFrame(r, sf, nLevel - skip, dbg, mem, floatText);
      }
      nLevel := nLevel + 1;
    }
    if nLevel == maxDepth {
      WalkStopsAt(frames, maxDepth, nLevel);
    }
  }

  /** The shown frames one after the other, numbered from 0. */
  function ShowFrames(st: WalkState, shown: seq<Frame>, show: FrameShow): WalkState
    requires |shown| <= TWO_POW_32
  {
    if |shown| == 0 then st
    else
      var n := |shown| - 1;
      show(ShowFrames(st, shown[..n], show), shown[n], n)
  }

  /** The walk shows exactly frames[skip..k], numbered consecutively from 0:
      the frames below `skip` print nothing and use up no number. */
  lemma {:induction false} EmitFramesNumbersFromZero(st: WalkState, frames: seq<Frame>, skip: nat, k: nat, show: FrameShow)
    requires k <= |frames| && k <= TWO_POW_32
    ensures k <= skip ==> EmitFrames(st, frames, skip, k, show) == st
    ensures skip < k ==> EmitFrames(st, frames, skip, k, show) == ShowFrames(st, frames[skip..k], show)
    decreases k
  {
    if k > 0 {
      EmitFramesNumbersFromZero(st, frames, skip, k - 1, show);
      if skip < k {
        var shown := frames[skip..k];
        assert shown[..|shown| - 1] == frames[skip..k - 1];
        assert shown[|shown| - 1] == frames[k - 1];
      }
    }
  }

  /** Each shown frame ends with a blank line of its own: the report of a
      frame grows by at least that "\n". */
  lemma FrameReportEndsWithNewline(st: WalkState, frame: Frame, level: u32, dbg: Debugger, mem: Memory, floatText: FloatText)
    ensures var r := FrameReport(st, frame, level, dbg, mem, floatText).log;
            |r| > |st.log| && r[|r| - 1] == "\n" && r[..|st.log|] == st.log
  {
    var log := st.log;
    var mid := DumpSymbolName(log, level, frame, dbg);
    var mid2 := DumpSymbolParam(st.(log := mid), frame, dbg, mem, floatText).log;
    assert |mid| >= |log| && mid[..|log|] == log;
    if !SetContextFails(st.context, frame.pc, dbg) {
      AddAllKeepsWholeMessages(mid, ScopeLines(dbg.scopes[frame.pc], frame.frameAddr, mem, floatText));
    }
    var r := FrameReport(st, frame, level, dbg, mem, floatText).log;
    assert r == mid2 + ["\n"];
    assert r[..|log|] == mid2[..|mid|][..|log|];
  }

  /** Reference definition of the scope the library holds after a run of
      shown frames: the PC of the last of them that has a scope, or the
      context from before the run when none has. */
  function LastScoped(context: Option<u32>, shown: seq<Frame>, dbg: Debugger): Option<u32>
    decreases |shown|
  {
    if |shown| == 0 then context
    else
      var f := shown[|shown| - 1];
      if f.pc in dbg.scopes then Some(f.pc) else LastScoped(context, shown[..|shown| - 1], dbg)
  }

  /** After the walk has shown some frames, the library holds the scope of
      the last shown frame that has one. */
  lemma {:induction false} ShownContext(st: WalkState, shown: seq<Frame>, dbg: Debugger, mem: Memory, floatText: FloatText)
    requires |shown| <= TWO_POW_32
    ensures ShowFrames(st, shown, ShowWith(dbg, mem, floatText)).context == LastScoped(st.context, shown, dbg)
    decreases |shown|
  {
    if |shown| > 0 {
      var n := |shown| - 1;
      ShownContext(st, shown[..n], dbg, mem, floatText);
    }
  }

  /** A frame whose PC is that of the frame shown just before it (two
      frames of a recursion that share a return address) gets its symbol
      line and its blank line but no variable lines: its scope is already
      the current one, so SymSetContext fails. */
  lemma RepeatedPcWritesNoVariables(st: WalkState, f: Frame, g: Frame, level1: u32, level2: u32, dbg: Debugger,
                                    mem: Memory, floatText: FloatText)
    requires f.pc == g.pc
    ensures var s1 := FrameReport(st, f, level1, dbg, mem, floatText);
            FrameReport(s1, g, level2, dbg, mem, floatText)
            == s1.(log := AddToReport(DumpSymbolName(s1.log, level2, g, dbg), "\n"))
  {
    var s1 := FrameReport(st, f, level1, dbg, mem, floatText);
    assert f.pc in dbg.scopes ==> s1.context == Some(f.pc);
    assert SetContextFails(s1.context, g.pc, dbg);
  }
}
