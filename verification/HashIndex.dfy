/** Index arithmetic of FrameWork/CommonUtilitiesLib-linux-windows/OSHashTable.h and
    the hash of OSRef.cpp. */
module HashIndex {
  import opened MachineTypes

  /** Bitwise and of two numbers. */
  function And(a: nat, b: nat): nat {
    if a == 0 || b == 0 then 0 else (if a % 2 == 1 && b % 2 == 1 then 1 else 0) + 2 * And(a / 2, b / 2)
  }

  /** `fMask`: the size less one if that has no bit in common with the size, else 0. */
  function Mask(size: nat): nat
    requires size > 0
  {
    if And(size - 1, size) != 0 then 0 else size - 1
  }

  /** `ComputeIndex`. */
  function ComputeIndex(hashKey: nat, size: nat): (i: nat)
    requires size > 0
  {
    if Mask(size) != 0 then And(hashKey, Mask(size)) else hashKey % size
  }

  lemma {:induction false} AndSelf(k: nat)
    ensures And(k, k) == k
  {
    if k > 0 {
      AndSelf(k / 2);
    }
  }

  lemma HalfMod(h: nat, k: nat)
    requires k > 0
    ensures h % (2 * k) == h % 2 + 2 * (h / 2 % k)
  {
    var q, r := h / 2 / k, h / 2 % k;
    assert h == 2 * (h / 2) + h % 2 && h / 2 == q * k + r;
    assert h == q * (2 * k) + (2 * r + h % 2);
    ModUnique(h, 2 * k, q, 2 * r + h % 2);
  }

  lemma NextMultiple(a: nat, b: nat, m: nat)
    requires a < b
    ensures a * m + m <= b * m
  {
    assert b * m == a * m + (b - a) * m;
    assert (b - a) * m == m + (b - a - 1) * m;
  }

  lemma ModUnique(h: nat, m: nat, q: nat, r: nat)
    requires m > 0 && h == q * m + r && r < m
    ensures h % m == r
  {
    if q > h / m {
      NextMultiple(h / m, q, m);
    } else if q < h / m {
      NextMultiple(q, h / m, m);
    }
  }

  /** Where the mask is used, it selects the remainder. */
  lemma {:induction false} MaskIsModulo(h: nat, size: nat)
    requires size > 0 && And(size - 1, size) == 0
    ensures And(h, size - 1) == h % size
  {
    var k := size / 2;
    if size % 2 == 1 {
      assert size == 2 * k + 1 && (size - 1) / 2 == k;
      AndSelf(k);
      assert size == 1;
    } else {
      assert size == 2 * k && (size - 1) / 2 == k - 1;
      MaskIsModulo(h / 2, k);
      HalfMod(h, k);
    }
  }

  /** For every table size, the index is the hash modulo the size. */
  lemma IndexIsModulo(h: nat, size: nat)
    requires size > 0
    ensures ComputeIndex(h, size) == h % size && ComputeIndex(h, size) < size
  {
    if Mask(size) != 0 {
      MaskIsModulo(h, size);
    }
  }

  /** `HashString`: the length times the sum of the characters at the quarter points
      and of the last one, as 32-bit numbers. */
  function HashString(s: seq<Byte>): (h: nat)
    ensures h < UINT32_SPAN
  {
    if s == [] then 0
    else
      var quarter := |s| / 4;
      var sum: int := s[0] as int + s[quarter] as int + s[quarter * 2] as int + s[quarter * 3] as int + s[|s| - 1] as int;
      |s| * sum % UINT32_SPAN
  }

  /** The sum of the characters of a key that count. */
  function Sampled(s: seq<Byte>): nat
    requires 0 < |s| <= 4
  {
    if |s| < 4 then 4 * (s[0] as int) + s[|s| - 1] as int
    else s[0] as int + s[1] as int + s[2] as int + 2 * (s[3] as int)
  }

  /** Of a key of less than four characters only the first and the last one count, of one
      of four characters all of them. */
  lemma ShortKeys(s: seq<Byte>)
    requires 0 < |s| <= 4
    ensures HashString(s) == |s| * Sampled(s)
  {
    assert |s| / 4 == if |s| < 4 then 0 else 1;
    SmallProduct(|s|, Sampled(s));
  }

  lemma SmallProduct(n: nat, sum: nat)
    requires n <= 4 && sum < 1500
    ensures n * sum % UINT32_SPAN == n * sum
  {
    assert n * sum <= 4 * sum;
  }
}
