/** Rendering of one local variable or parameter of a stack frame: the type
    labels, the base-type query, the raw value printer (by byte width) and
    the recursive walk over the members of a user-defined type. The symbol
    and type queries of the debugging library are an algebraic type tree
    given as input; the memory of the process is a byte map.
 */
module TypeDump {
  import opened Wrappers
  import opened Text
  import opened Memory

  /** Pointers and DWORD_PTR of the 32-bit build. */
  const PTR_MODULUS: nat := TWO_POW_32

  /** A base-type code from the debug information; the label table has an
      entry for each of 0..31 and is indexed without a check. */
  type BasicType = b: nat | b < 32

  const btNoType: BasicType := 0
  const btChar: BasicType := 2
  const btFloat: BasicType := 8

  /** The text printf's "%f" / "%lf" gives for the raw bits of a 4- or
      8-byte floating-point value; floating point is outside the model. */
  type FloatText = (nat, nat) -> string

  /** rgBaseType: the label written before a variable, indexed by base type,
      given as four rows of eight. */
  const BaseTypeLabels: seq<string> := LabelsRow0 + LabelsRow1 + LabelsRow2 + LabelsRow3
  const LabelsRow0: seq<string> := [
    " <user defined> ", " void ", " char* ", " wchar_t* ", " signed char ",
    " unsigned char ", " int ", " unsigned int "]
  const LabelsRow1: seq<string> := [
    " float ", " <BCD> ", " bool ", " short ", " unsigned short ", " long ",
    " unsigned long ", " __int8 "]
  const LabelsRow2: seq<string> := [
    " __int16 ", " __int32 ", " __int64 ", " __int128 ", " unsigned __int8 ",
    " unsigned __int16 ", " unsigned __int32 ", " unsigned __int64 "]
  const LabelsRow3: seq<string> := [
    " unsigned __int128 ", " <currency> ", " <date> ", " VARIANT ", " <complex> ",
    " <bit> ", " BSTR ", " HRESULT "]

  /** Framed by spaces and free of '%', so printf prints it verbatim. */
  predicate Framed(s: string) {
    |s| >= 3 && s[0] == ' ' && s[|s| - 1] == ' ' && '%' !in s
  }

  lemma Row0Framed()
    ensures forall s :: s in LabelsRow0 ==> Framed(s)
  {
  }

  lemma Row1Framed()
    ensures forall s :: s in LabelsRow1 ==> Framed(s)
  {
  }

  lemma Row2Framed()
    ensures forall s :: s in LabelsRow2 ==> Framed(s)
  {
  }

  lemma Row3Framed()
    ensures forall s :: s in LabelsRow3 ==> Framed(s)
  {
  }

  /** The table covers every base type and each label is framed. */
  lemma BaseTypeLabelTable()
    ensures |BaseTypeLabels| == 32
    ensures forall b :: 0 <= b < |BaseTypeLabels| ==> Framed(BaseTypeLabels[b])
    ensures BaseTypeLabels[btNoType] == " <user defined> "
    ensures BaseTypeLabels[btChar] == " char* " && BaseTypeLabels[btFloat] == " float "
  {
    Row0Framed();
    Row1Framed();
    Row2Framed();
    Row3Framed();
    forall b | 0 <= b < |BaseTypeLabels| ensures Framed(BaseTypeLabels[b]) {
      assert BaseTypeLabels[b] in BaseTypeLabels;
    }
  }

  function Label(bt: BasicType): string {
    BaseTypeLabels[bt]
  }

  // ---------------------------------------------------------------------
  // Type information

  /** What the type queries answer for one type index.
      - symName: TI_GET_SYMNAME (a type name, or a member name for a child)
      - baseType: TI_GET_BASETYPE of the index itself
      - typeIdBaseType: TI_GET_BASETYPE of the index named by TI_GET_TYPEID,
        None when either query fails
      - memberOffset: TI_GET_OFFSET, the member's offset in its parent
      - length: TI_GET_LENGTH of the TI_GET_TYPEID index
      - members: TI_GET_CHILDRENCOUNT and TI_FINDCHILDREN */
  datatype TypeNode = TypeNode(
    symName: Option<string>,
    baseType: Option<BasicType>,
    typeIdBaseType: Option<BasicType>,
    memberOffset: nat,
    length: nat,
    members: Members)

  /** The children query: none (a count of 0, or the count query failed), a
      positive count whose listing failed, or the listed children. */
  datatype Members = NoMembers | ListingFailed(count: nat) | Listed(kids: seq<TypeNode>)

  /** DumpTypeIndex reports a type as handled (a user-defined type whose
      members it printed) exactly when it has a listed, non-empty child set. */
  predicate IsAggregate(n: TypeNode) {
    n.members.Listed? && |n.members.kids| > 0
  }

  /** GetBasicType: the index's own base type, else the base type of its
      type id, else btNoType. */
  function GetBasicType(n: TypeNode): (bt: BasicType)
    ensures n.baseType.Some? ==> bt == n.baseType.value
    ensures n.baseType.None? && n.typeIdBaseType.Some? ==> bt == n.typeIdBaseType.value
    ensures n.baseType.None? && n.typeIdBaseType.None? ==> bt == btNoType
  {
    match n.baseType
    case Some(b) => b
    case None => n.typeIdBaseType.GetOr(btNoType)
  }

  /** When both queries fail the label printed is the user-defined one. */
  lemma UnknownTypeIsUserDefined(n: TypeNode)
    requires n.baseType.None? && n.typeIdBaseType.None?
    ensures Label(GetBasicType(n)) == " <user defined> "
  {
  }

  // ---------------------------------------------------------------------
  // Values

  /** FormatOutputValue: " = <value>" for widths 1, 2, 4 and 8, nothing for
      any other width. Integers print as %X; a 4-byte char* prints the quoted
      string (at most 31 characters) when IsBadStringPtr(p, 32) says it is
      readable and as %X otherwise; floats go through `floatText`. */
  function FormatOutputValue(bt: BasicType, length: nat, addr: nat, mem: Memory, floatText: FloatText)
    : (r: Result<string>)
    ensures length !in {1, 2, 4, 8} ==> r == Ok("")
    ensures r.Ok? && length in {1, 2, 4, 8} ==> |r.value| >= 3 && r.value[..3] == " = "
    ensures r.Err? <==> length in {1, 2, 4, 8} && Load(mem, addr, length).Err?
    ensures r.Err? ==> r.fault.address !in mem
  {
    if length == 1 || length == 2 then
      var v :- Load(mem, addr, length);
      Ok(" = " + HexUpper(v))
    else if length == 4 then
      var v :- Load(mem, addr, 4);
      if bt == btFloat then Ok(" = " + floatText(v, 4))
      else if bt == btChar && Readable(mem, v, 32) then
        ReadableShorter(mem, v, 31);
        Ok(" = \"" + CString(mem, v, 31) + "\"")
      else Ok(" = " + HexUpper(v))
    else if length == 8 then
      var v :- Load(mem, addr, 8);
      if bt == btFloat then Ok(" = " + floatText(v, 8)) else Ok(" = " + HexUpper(v))
    else Ok("")
  }

  /** A non-float, non-string integer of width 1, 2, 4 or 8 prints as the
      upper-case hexadecimal of the bytes stored there, which reads back as
      the stored value modulo the width. */
  lemma IntegerValueRoundTrip(bt: BasicType, length: nat, addr: nat, mem: Memory, v: nat, floatText: FloatText)
    requires length in {1, 2, 4, 8}
    requires bt != btFloat && bt != btChar
    ensures var r := FormatOutputValue(bt, length, addr, Store(mem, addr, v, length), floatText);
            r.Ok? && r.value == " = " + HexUpper(v % Pow256(length))
            && ParseDigits(r.value[3..], 16) == v % Pow256(length)
  {
    LoadStore(mem, addr, v, length);
    var r := FormatOutputValue(bt, length, addr, Store(mem, addr, v, length), floatText);
    assert r.value[3..] == HexUpper(v % Pow256(length));
    HexUpperRoundTrip(v % Pow256(length));
  }

  /** A 4-byte char* whose target is readable prints as the quoted text at
      the pointer, cut at the first NUL or after 31 characters; an unreadable
      target prints the pointer in hexadecimal instead. */
  lemma CharPointerValue(addr: nat, mem: Memory, floatText: FloatText)
    requires Load(mem, addr, 4).Ok?
    ensures var p := Load(mem, addr, 4).value;
            var r := FormatOutputValue(btChar, 4, addr, mem, floatText);
            r.Ok?
            && (Readable(mem, p, 32) ==>
                  Readable(mem, p, 31) && r.value == " = \"" + CString(mem, p, 31) + "\"")
            && (!Readable(mem, p, 32) ==> r.value == " = " + HexUpper(p))
  {
    var p := Load(mem, addr, 4).value;
    if Readable(mem, p, 32) {
      ReadableShorter(mem, p, 31);
    }
  }

  // ---------------------------------------------------------------------
  // User-defined types

  /** DumpTypeIndex: " <symName>" when the name query succeeds; then, for a
      type with listed children, "\r\n" and the entries of its children.
      The boolean is the `bHandled` flag. A fault names an unmapped byte:
      the only reads a dump performs are loads. */
  function DumpTypeIndex(n: TypeNode, nesting: nat, offset: nat, mem: Memory, floatText: FloatText)
    : (r: Result<(string, bool)>)
    ensures r.Ok? ==> r.value.1 == IsAggregate(n)
    ensures !IsAggregate(n) ==> r == Ok((SymNameText(n), false))
    ensures r.Err? ==> r.fault.address !in mem
    decreases n, 2
  {
    var head := SymNameText(n);
    if !IsAggregate(n) then Ok((head, false))
    else
      var body :- DumpMembers(n, 0, nesting, offset, mem, floatText);
      Ok((head + "\r\n" + body, true))
  }

  function SymNameText(n: TypeNode): string {
    match n.symName
    case Some(name) => " " + name
    case None => ""
  }

  /** The entries of the children from index i on, one after the other. */
  function DumpMembers(n: TypeNode, i: nat, nesting: nat, offset: nat, mem: Memory, floatText: FloatText)
    : (r: Result<string>)
    requires n.members.Listed? && i <= |n.members.kids|
    ensures r.Ok? && i < |n.members.kids| ==>
              |r.value| >= nesting + 2 && r.value[..nesting + 2] == Fill('\t', nesting + 2)
    ensures r.Err? ==> r.fault.address !in mem
    decreases n, 1, |n.members.kids| - i
  {
    var kids := n.members.kids;
    if i == |kids| then Ok("")
    else
      var kid := kids[i];
      assert kid in kids;
      var entry :- MemberEntry(kid, nesting, offset, mem, floatText);
      var rest :- DumpMembers(n, i + 1, nesting, offset, mem, floatText);
      assert (entry + rest)[..nesting + 2] == entry[..nesting + 2];
      Ok(entry + rest)
  }

  /** The first characters of a child's entry: nestingLevel + 2 tabs, the
      label of its base type and its own name. */
  function EntryHead(kid: TypeNode, nesting: nat): string {
    Fill('\t', nesting + 2) + Label(GetBasicType(kid)) + SymNameText(kid)
  }

  /** The entry of one child: its head (see EntryHead), then what
      DumpTypeIndex adds one level deeper and, unless that reports the child
      as handled, the child's value and CRLF. */
  function MemberEntry(kid: TypeNode, nesting: nat, offset: nat, mem: Memory, floatText: FloatText)
    : (r: Result<string>)
    ensures r.Ok? ==> |r.value| >= nesting + 2 && r.value[..nesting + 2] == Fill('\t', nesting + 2)
    ensures r.Err? ==> r.fault.address !in mem
    decreases kid, 3
  {
    var bt := GetBasicType(kid);
    var sub :- DumpTypeIndex(kid, nesting + 1, offset, mem, floatText);
    var entry := Fill('\t', nesting + 2) + Label(bt) + sub.0;
    assert entry[..nesting + 2] == Fill('\t', nesting + 2);
    if sub.1 then Ok(entry)
    else
      var value :- FormatOutputValue(bt, kid.length, (offset + kid.memberOffset) % PTR_MODULUS, mem, floatText);
      assert (entry + value + "\r\n")[..nesting + 2] == entry[..nesting + 2];
      Ok(entry + value + "\r\n")
  }

  /** A child that is itself an aggregate is dumped one level deeper at the
      SAME base offset: its entry is its head, CRLF and its own members'
      entries. Any other child's entry is its head, its value read at base
      offset + member offset, and CRLF. */
  lemma MemberEntryShape(kid: TypeNode, nesting: nat, offset: nat, mem: Memory, floatText: FloatText)
    ensures var r := MemberEntry(kid, nesting, offset, mem, floatText);
            var head := EntryHead(kid, nesting);
            IsAggregate(kid) ==>
              var body := DumpMembers(kid, 0, nesting + 1, offset, mem, floatText);
              (r.Ok? <==> body.Ok?) && (r.Ok? ==> r.value == head + "\r\n" + body.value)
    ensures var r := MemberEntry(kid, nesting, offset, mem, floatText);
            var head := EntryHead(kid, nesting);
            !IsAggregate(kid) ==>
              var value := FormatOutputValue(GetBasicType(kid), kid.length,
                                             (offset + kid.memberOffset) % PTR_MODULUS, mem, floatText);
              (r.Ok? <==> value.Ok?) && (r.Ok? ==> r.value == head + value.value + "\r\n")
  {
    var head := EntryHead(kid, nesting);
    if IsAggregate(kid) {
      var sub := DumpTypeIndex(kid, nesting + 1, offset, mem, floatText);
      var body := DumpMembers(kid, 0, nesting + 1, offset, mem, floatText);
      assert sub.Ok? <==> body.Ok?;
      if body.Ok? {
        assert sub.value.0 == SymNameText(kid) + "\r\n" + body.value;
        assert Fill('\t', nesting + 2) + Label(GetBasicType(kid)) + sub.value.0 == head + "\r\n" + body.value;
      }
    }
  }

  /** The entry of an aggregate child holds its own children's entries one
      tab deeper: right after its head and CRLF come nestingLevel + 3 tabs. */
  lemma NestedEntryIndent(kid: TypeNode, nesting: nat, offset: nat, mem: Memory, floatText: FloatText)
    requires IsAggregate(kid) && MemberEntry(kid, nesting, offset, mem, floatText).Ok?
    ensures var e := MemberEntry(kid, nesting, offset, mem, floatText).value;
            var k := |EntryHead(kid, nesting)| + 2;
            |e| >= k + nesting + 3 && e[k - 2..k] == "\r\n" && e[k..k + nesting + 3] == Fill('\t', nesting + 3)
  {
    MemberEntryShape(kid, nesting, offset, mem, floatText);
    var body := DumpMembers(kid, 0, nesting + 1, offset, mem, floatText).value;
    var a := EntryHead(kid, nesting) + "\r\n";
    assert (a + body)[|a|..|a| + nesting + 3] == body[..nesting + 3];
    assert (a + body)[|a| - 2..|a|] == "\r\n";
  }

  /** The children's entries one after the other; the first entry that
      faults ends the dump with its fault. */
  function JoinEntries(es: seq<Result<string>>): Result<string>
    decreases |es|
  {
    if |es| == 0 then Ok("")
    else
      var e :- es[0];
      var rest :- JoinEntries(es[1..]);
      Ok(e + rest)
  }

  lemma JoinEntriesCons(es: seq<Result<string>>)
    requires |es| > 0
    ensures JoinEntries(es) == if es[0].Err? then Err(es[0].fault)
                               else if JoinEntries(es[1..]).Err? then Err(JoinEntries(es[1..]).fault)
                               else Ok(es[0].value + JoinEntries(es[1..]).value)
  {
  }

  lemma DumpMembersCons(n: TypeNode, i: nat, nesting: nat, offset: nat, mem: Memory, floatText: FloatText)
    requires n.members.Listed? && i < |n.members.kids|
    ensures var e := MemberEntry(n.members.kids[i], nesting, offset, mem, floatText);
            var rest := DumpMembers(n, i + 1, nesting, offset, mem, floatText);
            DumpMembers(n, i, nesting, offset, mem, floatText)
            == if e.Err? then Err(e.fault) else if rest.Err? then Err(rest.fault) else Ok(e.value + rest.value)
  {
  }

  /** The member dump is the join of the children's entries, in order. */
  lemma {:induction false} DumpMembersIsEntries(n: TypeNode, i: nat, nesting: nat, offset: nat, mem: Memory,
                                                floatText: FloatText)
    requires n.members.Listed? && i <= |n.members.kids|
    ensures var kids := n.members.kids;
            DumpMembers(n, i, nesting, offset, mem, floatText)
            == JoinEntries(seq(|kids| - i, j requires 0 <= j < |kids| - i =>
                                 MemberEntry(kids[i + j], nesting, offset, mem, floatText)))
    decreases |n.members.kids| - i
  {
    var kids := n.members.kids;
    var es := seq(|kids| - i, j requires 0 <= j < |kids| - i => MemberEntry(kids[i + j], nesting, offset, mem, floatText));
    if i < |kids| {
      DumpMembersIsEntries(n, i + 1, nesting, offset, mem, floatText);
      var rest := seq(|kids| - (i + 1), j requires 0 <= j < |kids| - (i + 1) =>
                        MemberEntry(kids[i + 1 + j], nesting, offset, mem, floatText));
      assert es[1..] == rest;
      assert es[0] == MemberEntry(kids[i], nesting, offset, mem, floatText);
      JoinEntriesCons(es);
      DumpMembersCons(n, i, nesting, offset, mem, floatText);
    }
  }

  /** A value the walk prints: base type, width and address. */
  datatype Leaf = Leaf(bt: BasicType, length: nat, addr: nat)

  /** Reference definition of the values an aggregate prints: every
      non-aggregate member, at any depth, read at the top-level base offset
      plus its own member offset (offsets of enclosing members are not added). */
  function Leaves(n: TypeNode, offset: nat): seq<Leaf>
    decreases n, 1
  {
    if !IsAggregate(n) then [] else LeavesFrom(n, 0, offset)
  }

  function LeavesFrom(n: TypeNode, i: nat, offset: nat): seq<Leaf>
    requires n.members.Listed? && i <= |n.members.kids|
    decreases n, 0, |n.members.kids| - i
  {
    var kids := n.members.kids;
    if i == |kids| then []
    else
      var kid := kids[i];
      assert kid in kids;
      OwnLeaves(kid, offset) + LeavesFrom(n, i + 1, offset)
  }

  predicate PrintsOk(l: Leaf, mem: Memory, floatText: FloatText) {
    FormatOutputValue(l.bt, l.length, l.addr, mem, floatText).Ok?
  }

  predicate AllPrintOk(ls: seq<Leaf>, mem: Memory, floatText: FloatText) {
    forall j :: 0 <= j < |ls| ==> PrintsOk(ls[j], mem, floatText)
  }

  /** The dump of a type faults exactly when reading one of its leaf values
      faults; the nesting level plays no part in that. */
  lemma {:induction false} DumpFaultsIffLeafFaults(n: TypeNode, nesting: nat, offset: nat, mem: Memory, floatText: FloatText)
    ensures DumpTypeIndex(n, nesting, offset, mem, floatText).Ok? <==> AllPrintOk(Leaves(n, offset), mem, floatText)
    decreases n, 1
  {
    if IsAggregate(n) {
      MembersFaultIffLeafFaults(n, 0, nesting, offset, mem, floatText);
    }
  }

  lemma {:induction false} MembersFaultIffLeafFaults(n: TypeNode, i: nat, nesting: nat, offset: nat, mem: Memory, floatText: FloatText)
    requires n.members.Listed? && i <= |n.members.kids|
    ensures DumpMembers(n, i, nesting, offset, mem, floatText).Ok? <==> AllPrintOk(LeavesFrom(n, i, offset), mem, floatText)
    decreases n, 0, |n.members.kids| - i
  {
    var kids := n.members.kids;
    if i < |kids| {
      var kid := kids[i];
      assert kid in kids;
      EntryFaultIffLeafFaults(kid, nesting, offset, mem, floatText);
      MembersFaultIffLeafFaults(n, i + 1, nesting, offset, mem, floatText);
      AllPrintOkAppend(OwnLeaves(kid, offset), LeavesFrom(n, i + 1, offset), mem, floatText);
    }
  }

  /** The leaves one child contributes: its own leaves when it is an
      aggregate, else itself. */
  function OwnLeaves(kid: TypeNode, offset: nat): seq<Leaf>
    decreases kid, 2
  {
    if IsAggregate(kid) then Leaves(kid, offset)
    else [Leaf(GetBasicType(kid), kid.length, (offset + kid.memberOffset) % PTR_MODULUS)]
  }

  lemma {:induction false} EntryFaultIffLeafFaults(kid: TypeNode, nesting: nat, offset: nat, mem: Memory, floatText: FloatText)
    ensures MemberEntry(kid, nesting, offset, mem, floatText).Ok? <==> AllPrintOk(OwnLeaves(kid, offset), mem, floatText)
    decreases kid, 2
  {
    MemberEntryShape(kid, nesting, offset, mem, floatText);
    if IsAggregate(kid) {
      MembersFaultIffLeafFaults(kid, 0, nesting + 1, offset, mem, floatText);
    } else {
      assert OwnLeaves(kid, offset)[0] == Leaf(GetBasicType(kid), kid.length, (offset + kid.memberOffset) % PTR_MODULUS);
    }
  }

  lemma AllPrintOkAppend(a: seq<Leaf>, b: seq<Leaf>, mem: Memory, floatText: FloatText)
    ensures AllPrintOk(a + b, mem, floatText) <==> AllPrintOk(a, mem, floatText) && AllPrintOk(b, mem, floatText)
  {
    if AllPrintOk(a, mem, floatText) && AllPrintOk(b, mem, floatText) {
      forall j | 0 <= j < |a + b|
        ensures PrintsOk((a + b)[j], mem, floatText)
      {
        if j >= |a| {
          assert (a + b)[j] == b[j - |a|];
        }
      }
    }
    if AllPrintOk(a + b, mem, floatText) {
      forall j | 0 <= j < |a|
        ensures PrintsOk(a[j], mem, floatText)
      {
        assert (a + b)[j] == a[j];
      }
      forall j | 0 <= j < |b|
        ensures PrintsOk(b[j], mem, floatText)
      {
        assert (a + b)[|a| + j] == b[j];
      }
    }
  }

  /** Every value an aggregate prints is read at base offset + member
      offset, with the base offset the caller passed in, however deep. */
  lemma {:induction false} LeafAddresses(n: TypeNode, offset: nat, l: Leaf)
    requires l in Leaves(n, offset)
    ensures l.addr < PTR_MODULUS
    ensures exists m: TypeNode :: m < n && !IsAggregate(m) && l.addr == (offset + m.memberOffset) % PTR_MODULUS
    decreases n, 1
  {
    LeafAddressesFrom(n, 0, offset, l);
  }

  lemma {:induction false} LeafAddressesFrom(n: TypeNode, i: nat, offset: nat, l: Leaf)
    requires n.members.Listed? && i <= |n.members.kids|
    requires l in LeavesFrom(n, i, offset)
    ensures l.addr < PTR_MODULUS
    ensures exists m: TypeNode :: m < n && !IsAggregate(m) && l.addr == (offset + m.memberOffset) % PTR_MODULUS
    decreases n, 0, |n.members.kids| - i
  {
    var kids := n.members.kids;
    var kid := kids[i];
    assert kid in kids;
    if l in OwnLeaves(kid, offset) {
      if IsAggregate(kid) {
        LeafAddresses(kid, offset, l);
        var m: TypeNode :| m < kid && !IsAggregate(m) && l.addr == (offset + m.memberOffset) % PTR_MODULUS;
        assert m < n;
      } else {
        assert kid < n;
      }
    } else {
      assert l in LeavesFrom(n, i + 1, offset);
      LeafAddressesFrom(n, i + 1, offset, l);
    }
  }
}
