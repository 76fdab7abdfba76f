/** The address space of the crashed process as the report engine sees it:
    a partial map from 32-bit addresses to bytes. Reading an address with no
    entry is an access violation, which the symbol enumerator's structured
    exception handler catches.
 */
module Memory {
  import opened Wrappers

  type byte = b: nat | b < 256

  /** Mapped bytes of the process. */
  type Memory = map<nat, byte>

  function Pow256(n: nat): (p: nat)
    ensures p >= 1
  {
    if n == 0 then 1 else 256 * Pow256(n - 1)
  }

  /** An x86 load of `n` bytes at `addr` (little-endian). The fault names the
      lowest unmapped address touched. */
  function Load(mem: Memory, addr: nat, n: nat): (r: Result<nat>)
    ensures r.Ok? ==> r.value < Pow256(n)
    ensures r.Err? ==> addr <= r.fault.address < addr + n && r.fault.address !in mem
    decreases n
  {
    if n == 0 then Ok(0)
    else if addr !in mem then Err(AccessViolation(addr))
    else
      match Load(mem, addr + 1, n - 1)
      case Err(f) => Err(f)
      case Ok(high) => Ok(mem[addr] + 256 * high)
  }

  /** A load succeeds exactly when every byte it covers is mapped. */
  lemma {:induction false} LoadSucceedsIffMapped(mem: Memory, addr: nat, n: nat)
    ensures Load(mem, addr, n).Ok? <==> forall a :: addr <= a < addr + n ==> a in mem
    decreases n
  {
    if n > 0 {
      LoadSucceedsIffMapped(mem, addr + 1, n - 1);
    }
  }

  /** The bytes of `v` written little-endian into `n` cells from `addr`
      (the inverse of Load, used to state what Load reads back). */
  function Store(mem: Memory, addr: nat, v: nat, n: nat): (m: Memory)
    ensures forall a :: a in mem ==> a in m
    decreases n
  {
    if n == 0 then mem else Store(mem[addr := v % 256], addr + 1, v / 256, n - 1)
  }

  /** Store leaves every cell outside its range as it was. */
  lemma {:induction false} StoreFrame(mem: Memory, addr: nat, v: nat, n: nat, a: nat)
    requires a < addr || addr + n <= a
    ensures a in Store(mem, addr, v, n) <==> a in mem
    ensures a in mem ==> Store(mem, addr, v, n)[a] == mem[a]
    decreases n
  {
    if n > 0 {
      StoreFrame(mem[addr := v % 256], addr + 1, v / 256, n - 1, a);
    }
  }

  lemma ModOfSplit(v: nat, p: nat)
    requires p >= 1
    ensures v % 256 + 256 * ((v / 256) % p) == v % (256 * p)
  {
    var q := v / 256;
    var r := v % 256;
    var q2 := q / p;
    var r2 := q % p;
    assert v == 256 * q + r;
    assert q == p * q2 + r2;
    assert v == (256 * p) * q2 + (256 * r2 + r);
    assert 0 <= 256 * r2 + r < 256 * p;
    DivModUnique(v, 256 * p, q2, 256 * r2 + r);
  }

  lemma DivModUnique(v: nat, d: nat, q: nat, m: nat)
    requires d > 0 && m < d && v == d * q + m
    ensures v % d == m
  {
    var q' := v / d;
    var m' := v % d;
    assert d * q' + m' == d * q + m;
    if q' < q {
      MulStep(d, q', q);
    } else if q' > q {
      MulStep(d, q, q');
    }
  }

  lemma {:induction false} MulStep(d: nat, a: nat, b: nat)
    requires a < b
    ensures d * a + d <= d * b
    decreases b - a
  {
    assert d * (b - 1) + d == d * b;
    if a + 1 < b {
      MulStep(d, a, b - 1);
    }
  }

  /** Reading back what was stored gives the value modulo the width. */
  lemma {:induction false} LoadStore(mem: Memory, addr: nat, v: nat, n: nat)
    ensures Load(Store(mem, addr, v, n), addr, n) == Ok(v % Pow256(n))
    decreases n
  {
    if n > 0 {
      var m1 := mem[addr := v % 256];
      var m := Store(m1, addr + 1, v / 256, n - 1);
      StoreFrame(m1, addr + 1, v / 256, n - 1, addr);
      assert addr in m && m[addr] == v % 256;
      LoadStore(m1, addr + 1, v / 256, n - 1);
      ModOfSplit(v, Pow256(n - 1));
    }
  }

  /** IsBadStringPtr(p, max) is false: the bytes from p up to the first NUL,
      or up to `max` bytes when there is none, are all mapped. */
  predicate Readable(mem: Memory, p: nat, max: nat)
    decreases max
  {
    max == 0 || (p in mem && (mem[p] == 0 || Readable(mem, p + 1, max - 1)))
  }

  lemma {:induction false} ReadableShorter(mem: Memory, p: nat, max: nat)
    requires Readable(mem, p, max + 1)
    ensures Readable(mem, p, max)
    decreases max
  {
    if max > 0 && mem[p] != 0 {
      ReadableShorter(mem, p + 1, max - 1);
    }
  }

  /** printf's "%.<max>s": the characters from p up to the first NUL, at most
      `max` of them. */
  function CString(mem: Memory, p: nat, max: nat): (s: string)
    requires Readable(mem, p, max)
    ensures |s| <= max
    decreases max
  {
    if max == 0 || mem[p] == 0 then "" else [mem[p] as char] + CString(mem, p + 1, max - 1)
  }

  /** The text is the bytes at p, it holds no NUL, and it is cut short only
      by a NUL. */
  lemma {:induction false} CStringContents(mem: Memory, p: nat, max: nat)
    requires Readable(mem, p, max)
    ensures var s := CString(mem, p, max);
            forall a :: p <= a < p + |s| ==> a in mem && mem[a] != 0 && s[a - p] == mem[a] as char
    ensures var s := CString(mem, p, max);
            |s| < max ==> p + |s| in mem && mem[p + |s|] == 0
    decreases max
  {
    var s := CString(mem, p, max);
    if max > 0 && mem[p] != 0 {
      CStringContents(mem, p + 1, max - 1);
      var t := CString(mem, p + 1, max - 1);
      assert s == [mem[p] as char] + t;
      forall a | p <= a < p + |s|
        ensures a in mem && mem[a] != 0 && s[a - p] == mem[a] as char
      {
        if a > p {
          assert s[a - p] == t[a - (p + 1)];
        }
      }
    }
  }
}
