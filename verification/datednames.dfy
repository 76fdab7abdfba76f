/** The dated file names of the daily log and of the minidump, and the
    readers that recover the calendar fields from them.
 */
module DatedNames {
  import opened Text

  /** The fields of a `struct tm` the names use (tm_year counts from 1900,
      tm_mon from 0). */
  datatype Tm = Tm(tmYear: nat, tmMon: nat, tmMday: nat, tmHour: nat, tmMin: nat, tmSec: nat)

  /** A calendar time with a four-digit year, as localtime yields for the
      present day. */
  predicate ValidTm(t: Tm) {
    1000 <= t.tmYear + 1900 <= 9999 && t.tmMon < 12 && 1 <= t.tmMday <= 31
    && t.tmHour < 24 && t.tmMin < 60 && t.tmSec <= 60
  }

  /** The daily log file name: "%s_%d-%02d-%02d.log". */
  function LogFileName(moduleName: string, t: Tm): string {
    moduleName + LogTailOf(t.tmYear + 1900, t.tmMon + 1, t.tmMday)
  }

  /** "_YYYY-MM-DD.log" for the printed year, month and day. */
  function LogTailOf(year: nat, month: nat, day: nat): string {
    "_" + (Decimal(year) + ("-" + (ZeroPadded(month, 2) + ("-" + (ZeroPadded(day, 2) + ".log")))))
  }

  /** The minidump file name: "%s_%4d%02d%02d-%02d%02d%02d.dmp". */
  function DumpFileName(app: string, t: Tm): string {
    app + DumpTailOf(t.tmYear + 1900, t.tmMon + 1, t.tmMday, t.tmHour, t.tmMin, t.tmSec)
  }

  /** "_YYYYMMDD-hhmmss.dmp" for the printed calendar fields. */
  function DumpTailOf(year: nat, month: nat, day: nat, hour: nat, minute: nat, second: nat): string {
    "_" + (PadLeft(Decimal(year), 4, ' ') + (ZeroPadded(month, 2) + (ZeroPadded(day, 2)
    + ("-" + (ZeroPadded(hour, 2) + (ZeroPadded(minute, 2) + (ZeroPadded(second, 2) + ".dmp")))))))
  }

  /** What a reader of a dated name recovers: the name prefix and the
      calendar fields as printed (year, month 1..12, day, time). */
  datatype DatedName = DatedName(prefix: string, year: nat, month: nat, day: nat,
                                 hour: nat, minute: nat, second: nat)

  /** Reads back a "<prefix>_YYYY-MM-DD.log" name, from the right. */
  function ParseLogFileName(s: string): (d: DatedName)
    requires |s| >= 15
  {
    ReadLogTail(s[..|s| - 15], s[|s| - 15..])
  }

  function ReadLogTail(prefix: string, tail: string): DatedName
    requires |tail| == 15
  {
    DatedName(prefix, ParseDigits(tail[1..5], 10), ParseDigits(tail[6..8], 10),
              ParseDigits(tail[9..11], 10), 0, 0, 0)
  }

  /** Reads back a "<prefix>_YYYYMMDD-hhmmss.dmp" name, from the right. */
  function ParseDumpFileName(s: string): (d: DatedName)
    requires |s| >= 20
  {
    ReadDumpTail(s[..|s| - 20], s[|s| - 20..])
  }

  function ReadDumpTail(prefix: string, tail: string): DatedName
    requires |tail| == 20
  {
    DatedName(prefix, ParseDigits(tail[1..5], 10), ParseDigits(tail[5..7], 10),
              ParseDigits(tail[7..9], 10), ParseDigits(tail[10..12], 10),
              ParseDigits(tail[12..14], 10), ParseDigits(tail[14..16], 10))
  }

  lemma TwoDigits(n: nat)
    requires n < 100
    ensures |ZeroPadded(n, 2)| == 2 && ParseDigits(ZeroPadded(n, 2), 10) == n
  {
    ZeroPaddedRoundTrip(n, 2);
  }

  lemma FourDigitYear(y: nat)
    requires 1000 <= y <= 9999
    ensures PadLeft(Decimal(y), 4, ' ') == Decimal(y)
    ensures |Decimal(y)| == 4 && ParseDigits(Decimal(y), 10) == y
  {
    DecimalLength(y);
    DecimalRoundTrip(y);
  }

  /** Where the fields of a log-name tail sit, for fields of fixed width. */
  lemma LogFieldPositions(y: string, mo: string, d: string)
    requires |y| == 4 && |mo| == 2 && |d| == 2
    ensures var tail := "_" + (y + ("-" + (mo + ("-" + (d + ".log")))));
            |tail| == 15 && tail[0] == '_' && tail[1..5] == y && tail[6..8] == mo && tail[9..11] == d
  {
  }

  /** Where the fields of a dump-name tail sit, for fields of fixed width. */
  lemma DumpFieldPositions(y: string, mo: string, d: string, h: string, mi: string, se: string)
    requires |y| == 4 && |mo| == 2 && |d| == 2 && |h| == 2 && |mi| == 2 && |se| == 2
    ensures var tail := "_" + (y + (mo + (d + ("-" + (h + (mi + (se + ".dmp")))))));
            |tail| == 20 && tail[0] == '_' && tail[1..5] == y && tail[5..7] == mo
            && tail[7..9] == d && tail[10..12] == h && tail[12..14] == mi && tail[14..16] == se
  {
  }

  /** Splitting a name at a fixed distance from its end recovers the parts. */
  lemma SplitFromRight(prefix: string, tail: string)
    ensures (prefix + tail)[..|prefix + tail| - |tail|] == prefix
    ensures (prefix + tail)[|prefix + tail| - |tail|..] == tail
  {
  }

  /** The fixed-width tail of a log name: "_YYYY-MM-DD.log". */
  lemma LogTail(year: nat, month: nat, day: nat)
    requires 1000 <= year <= 9999 && month < 100 && day < 100
    ensures var tail := LogTailOf(year, month, day);
            |tail| == 15 && tail[0] == '_'
            && ParseDigits(tail[1..5], 10) == year
            && ParseDigits(tail[6..8], 10) == month
            && ParseDigits(tail[9..11], 10) == day
  {
    FourDigitYear(year);
    TwoDigits(month);
    TwoDigits(day);
    LogFieldPositions(Decimal(year), ZeroPadded(month, 2), ZeroPadded(day, 2));
  }

  lemma LogTailRoundTrip(prefix: string, year: nat, month: nat, day: nat)
    requires 1000 <= year <= 9999 && month < 100 && day < 100
    ensures |prefix + LogTailOf(year, month, day)| == |prefix| + 15
    ensures ParseLogFileName(prefix + LogTailOf(year, month, day))
            == DatedName(prefix, year, month, day, 0, 0, 0)
  {
    LogTail(year, month, day);
    SplitFromRight(prefix, LogTailOf(year, month, day));
  }

  /** The log name carries the module name, the year (tm_year + 1900), the
      month (tm_mon + 1) and the day, each recoverable from it. */
  lemma LogFileNameRoundTrip(moduleName: string, t: Tm)
    requires ValidTm(t)
    ensures |LogFileName(moduleName, t)| == |moduleName| + 15
    ensures ParseLogFileName(LogFileName(moduleName, t))
            == DatedName(moduleName, t.tmYear + 1900, t.tmMon + 1, t.tmMday, 0, 0, 0)
  {
    var name := LogFileName(moduleName, t);
    assert name == moduleName + LogTailOf(t.tmYear + 1900, t.tmMon + 1, t.tmMday);
    LogTailRoundTrip(moduleName, t.tmYear + 1900, t.tmMon + 1, t.tmMday);
  }

  /** The fixed-width tail of a dump name: "_YYYYMMDD-hhmmss.dmp". */
  lemma DumpTail(year: nat, month: nat, day: nat, hour: nat, minute: nat, second: nat)
    requires 1000 <= year <= 9999 && month < 100 && day < 100
    requires hour < 100 && minute < 100 && second < 100
    ensures var tail := DumpTailOf(year, month, day, hour, minute, second);
            |tail| == 20 && tail[0] == '_'
            && ParseDigits(tail[1..5], 10) == year
            && ParseDigits(tail[5..7], 10) == month
            && ParseDigits(tail[7..9], 10) == day
            && ParseDigits(tail[10..12], 10) == hour
            && ParseDigits(tail[12..14], 10) == minute
            && ParseDigits(tail[14..16], 10) == second
  {
    FourDigitYear(year);
    TwoDigits(month);
    TwoDigits(day);
    TwoDigits(hour);
    TwoDigits(minute);
    TwoDigits(second);
    DumpFieldPositions(Decimal(year), ZeroPadded(month, 2), ZeroPadded(day, 2),
                       ZeroPadded(hour, 2), ZeroPadded(minute, 2), ZeroPadded(second, 2));
  }

  lemma DumpTailRoundTrip(prefix: string, year: nat, month: nat, day: nat, hour: nat, minute: nat, second: nat)
    requires 1000 <= year <= 9999 && month < 100 && day < 100
    requires hour < 100 && minute < 100 && second < 100
    ensures |prefix + DumpTailOf(year, month, day, hour, minute, second)| == |prefix| + 20
    ensures ParseDumpFileName(prefix + DumpTailOf(year, month, day, hour, minute, second))
            == DatedName(prefix, year, month, day, hour, minute, second)
  {
    FourDigitYear(year);
    TwoDigits(month);
    TwoDigits(day);
    TwoDigits(hour);
    TwoDigits(minute);
    TwoDigits(second);
    DumpTail(year, month, day, hour, minute, second);
    SplitFromRight(prefix, DumpTailOf(year, month, day, hour, minute, second));
  }

  /** The dump name carries the application name and every calendar field
      down to the second, each recoverable from it. */
  lemma DumpFileNameRoundTrip(app: string, t: Tm)
    requires ValidTm(t)
    ensures |DumpFileName(app, t)| == |app| + 20
    ensures ParseDumpFileName(DumpFileName(app, t))
            == DatedName(app, t.tmYear + 1900, t.tmMon + 1, t.tmMday, t.tmHour, t.tmMin, t.tmSec)
  {
    var name := DumpFileName(app, t);
    assert name == app + DumpTailOf(t.tmYear + 1900, t.tmMon + 1, t.tmMday, t.tmHour, t.tmMin, t.tmSec);
    DumpTailRoundTrip(app, t.tmYear + 1900, t.tmMon + 1, t.tmMday, t.tmHour, t.tmMin, t.tmSec);
  }

  /** Two different seconds never share a dump name. */
  lemma DumpFileNameInjective(app: string, t1: Tm, t2: Tm)
    requires ValidTm(t1) && ValidTm(t2)
    requires DumpFileName(app, t1) == DumpFileName(app, t2)
    ensures t1 == t2
  {
    DumpFileNameRoundTrip(app, t1);
    DumpFileNameRoundTrip(app, t2);
  }
}
