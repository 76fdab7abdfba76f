/** The per-frame variable lines of the report: the formatting of one
    parameter, local or global from its symbol record, and the enumeration
    callback that keeps parameters and locals and swallows access faults.
 */
module Symbols {
  import opened Wrappers
  import opened Text
  import opened Memory
  import opened TypeDump
  import opened ReportLog

  // Symbol flags of the debugging library.
  const SYMFLAG_REGISTER: bv32 := 0x8
  const SYMFLAG_REGREL: bv32 := 0x10
  const SYMFLAG_PARAMETER: bv32 := 0x40
  const SYMFLAG_LOCAL: bv32 := 0x80

  /** The symbol tag of a function (SymTagFunction). */
  const SYM_TAG_FUNCTION: nat := 5

  /** The fields of a SYMBOL_INFO the report reads. `address` is the 64-bit
      Address field: a frame-relative offset for a register-relative symbol,
      an absolute address for a global. `typeInfo` is what the type queries
      answer for its TypeIndex. */
  datatype SymbolInfo = SymbolInfo(
    name: string,
    flags: bv32,
    tag: nat,
    address: nat,
    size: nat,
    typeInfo: TypeNode)

  predicate IsParameter(s: SymbolInfo) { s.flags & SYMFLAG_PARAMETER != 0 }
  predicate IsLocal(s: SymbolInfo) { s.flags & SYMFLAG_LOCAL != 0 }

  /** The word written before the variable: the parameter flag wins over the
      local flag. */
  function KindPrefix(s: SymbolInfo): (r: string)
    ensures IsParameter(s) ==> r == "Parameter "
    ensures !IsParameter(s) && IsLocal(s) ==> r == "Local "
    ensures !IsParameter(s) && !IsLocal(s) ==> r == ""
  {
    if IsParameter(s) then "Parameter " else if IsLocal(s) then "Local " else ""
  }

  /** Where the variable lives. A register-relative symbol is at the frame
      address plus its offset, a register symbol is not reported, any other
      symbol is a global at its own address; both sums are DWORD_PTR
      arithmetic and wrap at 2^32. */
  function VariableAddress(s: SymbolInfo, frameAddr: nat): (r: Option<nat>)
    ensures r.Some? ==> r.value < PTR_MODULUS
    ensures r.None? <==> s.flags & SYMFLAG_REGREL == 0 && s.flags & SYMFLAG_REGISTER != 0
  {
    if s.flags & SYMFLAG_REGREL != 0 then
      Some((frameAddr + s.address % PTR_MODULUS) % PTR_MODULUS)
    else if s.flags & SYMFLAG_REGISTER != 0 then None
    else Some(s.address % PTR_MODULUS)
  }

  /** FormatSymbolValue. None is the `false` return: a function symbol or a
      register variable, whose partial text is never printed. Otherwise the
      text is the kind prefix and the type dump, and for a type that is not
      handled as a user-defined aggregate, the base-type label, the quoted
      name and the value read at the variable's address. A read of an
      unmapped byte is the fault the caller's handler catches. */
  function FormatSymbolValue(s: SymbolInfo, frameAddr: nat, mem: Memory, floatText: FloatText)
    : (r: Result<Option<string>>)
    ensures s.tag == SYM_TAG_FUNCTION ==> r == Ok(None)
    ensures r == Ok(None) <==> s.tag == SYM_TAG_FUNCTION || VariableAddress(s, frameAddr).None?
    ensures r.Ok? && r.value.Some? ==>
              var p := KindPrefix(s);
              |r.value.value| >= |p| && r.value.value[..|p|] == p
    ensures r.Err? ==> r.fault.address !in mem
  {
    if s.tag == SYM_TAG_FUNCTION then Ok(None)
    else
      match VariableAddress(s, frameAddr)
      case None => Ok(None)
      case Some(addr) =>
        var prefix := KindPrefix(s);
        var dump := DumpTypeIndex(s.typeInfo, 0, addr, mem, floatText);
        if dump.Err? then Err(dump.fault)
        else if dump.value.1 then Ok(Some(prefix + dump.value.0))
        else
          var bt := GetBasicType(s.typeInfo);
          var value :- FormatOutputValue(bt, s.size, addr, mem, floatText);
          Ok(Some(prefix + dump.value.0 + Label(bt) + "'" + s.name + "'" + value))
  }

  /** A register-relative variable of a plain base type (not float, not
      char, no type name) of width 1, 2, 4 or 8 prints as its kind prefix,
      its label, its quoted name and the hexadecimal of the bytes at frame
      address plus offset, which read back as the stored value. */
  lemma RegRelVariableValue(s: SymbolInfo, frameAddr: nat, mem: Memory, v: nat, floatText: FloatText)
    requires s.tag != SYM_TAG_FUNCTION
    requires s.flags & SYMFLAG_REGREL != 0
    requires s.typeInfo.symName.None? && !IsAggregate(s.typeInfo)
    requires GetBasicType(s.typeInfo) != btFloat && GetBasicType(s.typeInfo) != btChar
    requires s.size in {1, 2, 4, 8}
    ensures var addr := (frameAddr + s.address % PTR_MODULUS) % PTR_MODULUS;
            var width := Pow256(s.size);
            var r := FormatSymbolValue(s, frameAddr, Store(mem, addr, v, s.size), floatText);
            r == Ok(Some(KindPrefix(s) + Label(GetBasicType(s.typeInfo)) + "'" + s.name + "'" + " = " + HexUpper(v % width)))
            && ParseDigits(r.value.value[|r.value.value| - |HexUpper(v % width)|..], 16) == v % width
  {
    var addr := (frameAddr + s.address % PTR_MODULUS) % PTR_MODULUS;
    var m := Store(mem, addr, v, s.size);
    var bt := GetBasicType(s.typeInfo);
    assert VariableAddress(s, frameAddr) == Some(addr);
    IntegerValueRoundTrip(bt, s.size, addr, mem, v, floatText);
    var hex := HexUpper(v % Pow256(s.size));
    var value := " = " + hex;
    PlainVariableText(s, frameAddr, addr, m, value, floatText);
    assert KindPrefix(s) + SymNameText(s.typeInfo) == KindPrefix(s);
    var head := KindPrefix(s) + Label(bt) + "'" + s.name + "'";
    assert head + value == head + " = " + hex;
    var t := head + " = " + hex;
    assert t[|t| - |hex|..] == hex;
    HexUpperRoundTrip(v % Pow256(s.size));
  }

  /** The text of a variable whose type is not an aggregate. */
  lemma PlainVariableText(s: SymbolInfo, frameAddr: nat, addr: nat, mem: Memory, value: string, floatText: FloatText)
    requires s.tag != SYM_TAG_FUNCTION && VariableAddress(s, frameAddr) == Some(addr)
    requires !IsAggregate(s.typeInfo)
    requires FormatOutputValue(GetBasicType(s.typeInfo), s.size, addr, mem, floatText) == Ok(value)
    ensures FormatSymbolValue(s, frameAddr, mem, floatText)
         == Ok(Some(KindPrefix(s) + SymNameText(s.typeInfo) + Label(GetBasicType(s.typeInfo)) + "'" + s.name + "'" + value))
  {
  }

  /** A global (neither register-relative nor register) is read at its own
      address truncated to 32 bits, whatever frame it is enumerated in. */
  lemma GlobalIgnoresFrame(s: SymbolInfo, f1: nat, f2: nat, mem: Memory, floatText: FloatText)
    requires s.flags & SYMFLAG_REGREL == 0 && s.flags & SYMFLAG_REGISTER == 0
    ensures VariableAddress(s, f1) == Some(s.address % PTR_MODULUS)
    ensures FormatSymbolValue(s, f1, mem, floatText) == FormatSymbolValue(s, f2, mem, floatText)
  {
  }

  /** The EnumSymbolsProcCallback result: always TRUE (keep enumerating), and
      the line it writes, if any. */
  datatype CallbackResult = CallbackResult(continueEnum: bool, line: Option<string>)

  /** EnumSymbolsProcCallback. Only parameters and locals are formatted; a
      formatted value is written as a tab, the text and CRLF; a fault while
      formatting is caught and the symbol is skipped. */
  function EnumSymbolsProcCallback(s: SymbolInfo, frameAddr: nat, mem: Memory, floatText: FloatText)
    : (r: CallbackResult)
    ensures r.continueEnum
    ensures r.line.Some? <==>
              (IsParameter(s) || IsLocal(s)) && FormatSymbolValue(s, frameAddr, mem, floatText).Ok?
              && FormatSymbolValue(s, frameAddr, mem, floatText).value.Some?
    ensures r.line.Some? ==>
              r.line.value == "\t" + FormatSymbolValue(s, frameAddr, mem, floatText).value.value + "\r\n"
  {
    var line :=
      if IsParameter(s) || IsLocal(s) then
        match FormatSymbolValue(s, frameAddr, mem, floatText)
        case Ok(Some(text)) => Some("\t" + text + "\r\n")
        case Ok(None) => None
        case Err(_) => None
      else None;
    CallbackResult(true, line)
  }

  /** The report after the callback has run for each symbol of a scope in
      enumeration order (the callback never stops the enumeration). */
  function EnumerateScope(log: Report, syms: seq<SymbolInfo>, frameAddr: nat, mem: Memory, floatText: FloatText)
    : (r: Report)
    ensures |log| <= |r| <= |log| + |syms| && r[..|log|] == log
    decreases |syms|
  {
    if |syms| == 0 then log
    else
      var cb := EnumSymbolsProcCallback(syms[0], frameAddr, mem, floatText);
      var next := if cb.line.Some? then AddToReport(log, cb.line.value) else log;
      var r := EnumerateScope(next, syms[1..], frameAddr, mem, floatText);
      assert r[..|log|] == r[..|next|][..|log|];
      r
  }

  /** The lines a scope contributes: those of the parameters and locals that
      format without a fault, in order; everything else (functions, register
      variables, globals, faulting variables) contributes nothing. */
  function ScopeLines(syms: seq<SymbolInfo>, frameAddr: nat, mem: Memory, floatText: FloatText): seq<string>
    decreases |syms|
  {
    if |syms| == 0 then []
    else
      var cb := EnumSymbolsProcCallback(syms[0], frameAddr, mem, floatText);
      (if cb.line.Some? then [cb.line.value] else []) + ScopeLines(syms[1..], frameAddr, mem, floatText)
  }

  /** Enumerating a scope is AddToReport over its variable lines. */
  lemma {:induction false} EnumerateScopeIsScopeLines(log: Report, syms: seq<SymbolInfo>, frameAddr: nat, mem: Memory, floatText: FloatText)
    ensures EnumerateScope(log, syms, frameAddr, mem, floatText) == AddAll(log, ScopeLines(syms, frameAddr, mem, floatText))
    decreases |syms|
  {
    if |syms| > 0 {
      var cb := EnumSymbolsProcCallback(syms[0], frameAddr, mem, floatText);
      var next := if cb.line.Some? then AddToReport(log, cb.line.value) else log;
      EnumerateScopeIsScopeLines(next, syms[1..], frameAddr, mem, floatText);
      var rest := ScopeLines(syms[1..], frameAddr, mem, floatText);
      if cb.line.Some? {
        assert ([cb.line.value] + rest)[1..] == rest;
      } else {
        assert [] + rest == rest;
      }
    }
  }

  /** Every line a scope contributes is a tab-indented, CRLF-terminated
      parameter or local. */
  lemma {:induction false} ScopeLinesShape(syms: seq<SymbolInfo>, frameAddr: nat, mem: Memory, floatText: FloatText)
    ensures var ls := ScopeLines(syms, frameAddr, mem, floatText);
            |ls| <= |syms|
            && forall k :: 0 <= k < |ls| ==>
                 |ls[k]| >= 3 && ls[k][0] == '\t' && ls[k][|ls[k]| - 2..] == "\r\n"
    decreases |syms|
  {
    if |syms| > 0 {
      ScopeLinesShape(syms[1..], frameAddr, mem, floatText);
      var cb := EnumSymbolsProcCallback(syms[0], frameAddr, mem, floatText);
      var rest := ScopeLines(syms[1..], frameAddr, mem, floatText);
      var ls := ScopeLines(syms, frameAddr, mem, floatText);
      if cb.line.Some? {
        var l := cb.line.value;
        CallbackLineShape(syms[0], frameAddr, mem, floatText);
        assert ls == [l] + rest;
        forall k | 0 <= k < |ls|
          ensures |ls[k]| >= 3 && ls[k][0] == '\t' && ls[k][|ls[k]| - 2..] == "\r\n"
        {
          if k > 0 { assert ls[k] == rest[k - 1]; }
        }
      } else {
        assert ls == rest;
      }
    }
  }

  lemma CallbackLineShape(s: SymbolInfo, frameAddr: nat, mem: Memory, floatText: FloatText)
    ensures var cb := EnumSymbolsProcCallback(s, frameAddr, mem, floatText);
            cb.line.Some? ==>
              var l := cb.line.value;
              |l| >= 3 && l[0] == '\t' && l[|l| - 2..] == "\r\n"
  {
    var cb := EnumSymbolsProcCallback(s, frameAddr, mem, floatText);
    if cb.line.Some? {
      var l := cb.line.value;
      assert l[|l| - 2..] == "\r\n";
    }
  }
}
