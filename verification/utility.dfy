/** String helpers of the utility layer: the module and application base
    names and the human-readable size text used in the system-information
    section.
 */
module Utility {
  import opened Text

  /** size_t of the 32-bit build; std::string::npos is its largest value. */
  const SIZE_T_MODULUS: nat := TWO_POW_32
  const NPOS: nat := SIZE_T_MODULUS - 1

  const KB: nat := 1024
  const MB: nat := 1024 * 1024
  const ULONG64_MODULUS: nat := 0x1_0000_0000_0000_0000

  /** std::string::find_last_of for a single character: the highest index
      holding `c`, or npos when there is none. A std::string is always
      shorter than npos, which the requires records. */
  function FindLastOf(s: string, c: char): (p: nat)
    requires |s| < NPOS
    ensures p == NPOS <==> c !in s
    ensures p != NPOS ==> p < |s| && s[p] == c && c !in s[p + 1..]
  {
    LastIndexBelow(s, c, |s|)
  }

  function LastIndexBelow(s: string, c: char, end: nat): (p: nat)
    requires end <= |s| < NPOS
    ensures p == NPOS <==> c !in s[..end]
    ensures p != NPOS ==> p < end && s[p] == c && c !in s[p + 1..end]
    decreases end
  {
    if end == 0 then NPOS
    else if s[end - 1] == c then
      assert s[end..end] == [];
      end - 1
    else
      var p := LastIndexBelow(s, c, end - 1);
      assert s[..end] == s[..end - 1] + [s[end - 1]];
      if p != NPOS then
        assert s[p + 1..end] == s[p + 1..end - 1] + [s[end - 1]];
        p
      else p
  }

  /** GetModuleName: the part of a module path after its last backslash.
      `find_last_of` yields npos when there is no backslash, and npos + 1
      wraps to 0 in size_t arithmetic, so the whole path is kept. */
  function ModuleName(path: string): (r: string)
    requires |path| < NPOS
    ensures '\\' !in r
    ensures |r| <= |path| && path[|path| - |r|..] == r
    ensures |r| < |path| ==> path[|path| - |r| - 1] == '\\'
    ensures '\\' !in path ==> r == path
  {
    var start := (FindLastOf(path, '\\') + 1) % SIZE_T_MODULUS;
    path[start..]
  }

  /** GetAppName applied to a module file name: the part before its last
      dot; `substr(0, npos)` keeps the whole name when there is no dot. */
  function AppName(name: string): (r: string)
    requires |name| < NPOS
    ensures |r| <= |name| && name[..|r|] == r
    ensures '.' in name ==> |r| < |name| && name[|r|] == '.' && '.' !in name[|r| + 1..]
    ensures '.' !in name ==> r == name
  {
    var end := FindLastOf(name, '.');
    if end == NPOS then name else name[..end]
  }

  /** The executable's base name as GetAppName computes it from the path the
      loader reports for the process image. */
  function GetAppName(imagePath: string): (r: string)
    requires |imagePath| < NPOS
    ensures '\\' !in r
    ensures '.' !in imagePath ==> r == ModuleName(imagePath)
  {
    AppName(ModuleName(imagePath))
  }

  /** The digits printf("%0.1f") produces for the single-precision quotient
      num / den; floating point is outside the model. */
  type OneDecimal = (nat, nat) -> string

  /** FileSizeToStr. The exact branch prints the integer quotient by 1024;
      the two fractional branches print a one-decimal float whose digits come
      from `oneDecimal`. */
  function FileSizeToStr(n: nat, oneDecimal: OneDecimal): (r: string)
    requires n < ULONG64_MODULUS
    ensures n == 0 ==> r == "0 KB"
    ensures 0 < n < KB ==> r == oneDecimal(n, KB) + " KB"
    ensures KB <= n < MB ==> |r| > 3 && r[|r| - 3..] == " KB"
                             && AllDigits(r[..|r| - 3], 10) && ParseDigits(r[..|r| - 3], 10) == n / KB
    ensures MB <= n ==> r == oneDecimal(n, MB) + " MB"
  {
    if n == 0 then "0 KB"
    else if n < KB then oneDecimal(n, KB) + " KB"
    else if n < MB then
      var r := Decimal(n / KB) + " KB";
      DecimalRoundTrip(n / KB);
      assert r[..|r| - 3] == Decimal(n / KB);
      r
    else oneDecimal(n, MB) + " MB"
  }

  /** The unit is megabytes exactly from 1024 * 1024 bytes on. */
  lemma FileSizeUnit(n: nat, oneDecimal: OneDecimal)
    requires n < ULONG64_MODULUS
    ensures var r := FileSizeToStr(n, oneDecimal);
            |r| >= 3 && (r[|r| - 3..] == " MB" <==> MB <= n) && (r[|r| - 3..] == " KB" <==> n < MB)
  {
    var r := FileSizeToStr(n, oneDecimal);
    if n == 0 {
    } else if n < KB {
      assert r[|r| - 3..] == " KB";
    } else if n < MB {
    } else {
      assert r[|r| - 3..] == " MB";
    }
  }

  /** The boundaries of the exact-kilobyte branch. */
  lemma FileSizeBoundaries(oneDecimal: OneDecimal)
    ensures FileSizeToStr(1024, oneDecimal) == "1 KB"
    ensures FileSizeToStr(1048575, oneDecimal) == "1023 KB"
    ensures FileSizeToStr(1023, oneDecimal) == oneDecimal(1023, KB) + " KB"
    ensures FileSizeToStr(1048576, oneDecimal) == oneDecimal(1048576, MB) + " MB"
  {
    assert Decimal(1) == "1";
    assert Decimal(1023) == Decimal(102) + ['3'];
    assert Decimal(102) == Decimal(10) + ['2'];
    assert Decimal(10) == Decimal(1) + ['0'];
  }
}
