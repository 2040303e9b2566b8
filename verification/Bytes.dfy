/** Bytes and fixed-width integers over them. */
module Bytes {
  import opened Grid

  /** A byte, written as the character of that code, so that an ASCII literal is a byte string.
      Nothing proved here needs the codes to stay below 256, so byte strings are covered and more. */
  type Byte = char

  const NUL: Byte := '\0'

  function Pow(k: nat): (p: nat)
    ensures p > 0
  {
    if k == 0 then 1 else 256 * Pow(k - 1)
  }

  /** The low `k` bytes of `n`, least significant first. */
  function Little(n: nat, k: nat): (b: seq<Byte>)
    ensures |b| == k
  {
    if k == 0 then [] else [(n % 256) as char] + Little(n / 256, k - 1)
  }

  /** The low `k` bytes of `n`, most significant first. */
  function Big(n: nat, k: nat): (b: seq<Byte>)
    ensures |b| == k
  {
    if k == 0 then [] else Big(n / 256, k - 1) + [(n % 256) as char]
  }

  function FromBig(b: seq<Byte>): nat {
    if b == [] then 0 else 256 * FromBig(b[..|b| - 1]) + b[|b| - 1] as int
  }

  lemma DivideTwice(n: nat, k: nat)
    ensures n / 256 / Pow(k) == n / Pow(k + 1)
  {
    var p, q := Pow(k), n / 256 / Pow(k);
    var r := n / 256 % p;
    assert n / 256 == q * p + r;
    assert n == 256 * (q * p + r) + n % 256 == q * (256 * p) + (256 * r + n % 256);
    CellOf(q, 256 * r + n % 256, 0, 256 * p);
  }

  /** Byte `i` of the little-endian form is the digit of weight `256^i`. */
  lemma {:induction false} LittleDigits(n: nat, k: nat, i: nat)
    requires i < k
    ensures Little(n, k)[i] as int == n / Pow(i) % 256
  {
    if i > 0 {
      LittleDigits(n / 256, k - 1, i - 1);
      DivideTwice(n, i - 1);
    }
  }

  /** Byte `i` from the end of the big-endian form is that digit. */
  lemma {:induction false} BigDigits(n: nat, k: nat, i: nat)
    requires i < k
    ensures Big(n, k)[k - 1 - i] as int == n / Pow(i) % 256
  {
    if i > 0 {
      BigDigits(n / 256, k - 1, i - 1);
      DivideTwice(n, i - 1);
    }
  }

  lemma {:induction false} LittleIsInjective(m: nat, n: nat, k: nat)
    requires m < Pow(k) && n < Pow(k) && Little(m, k) == Little(n, k)
    ensures m == n
  {
    if k > 0 {
      var a, b := Little(m, k), Little(n, k);
      assert a[0] == b[0] && a[1..] == b[1..];
      assert a[1..] == Little(m / 256, k - 1) && b[1..] == Little(n / 256, k - 1);
      LittleIsInjective(m / 256, n / 256, k - 1);
    }
  }

  lemma {:induction false} BigRoundTrip(n: nat, k: nat)
    requires n < Pow(k)
    ensures FromBig(Big(n, k)) == n
  {
    if k > 0 {
      BigRoundTrip(n / 256, k - 1);
      var b := Big(n, k);
      assert b[..k - 1] == Big(n / 256, k - 1);
    }
  }

  lemma WideEnough()
    ensures Pow(0) == 1 && Pow(1) == 256 && Pow(4) == 0x1_0000_0000 && Pow(8) == 0x1_0000_0000_0000_0000
  {
    assert Pow(4) == 256 * 256 * 256 * 256;
    assert Pow(8) == 256 * 256 * 256 * 256 * Pow(4);
  }
}
