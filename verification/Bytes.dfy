/** Bytes and big-endian integers. */
module Bytes {
  type byte = n: int | 0 <= n < 256

  /** The largest payload a frame or a popped record may have: 16 MiB. */
  const MAX_PAYLOAD_SIZE: nat := 0x100_0000

  function Pow256(k: nat): (p: nat)
    ensures p > 0
  {
    if k == 0 then 1 else 256 * Pow256(k - 1)
  }

  /** The low `width` bytes of `n`, most significant first; higher bytes are cut off as the C++ casts do. */
  function BigEndian(n: nat, width: nat): (s: seq<byte>)
    ensures |s| == width
  {
    if width == 0 then [] else BigEndian(n / 256, width - 1) + [n % 256]
  }

  function FromBigEndian(s: seq<byte>): nat
  {
    if s == [] then 0 else FromBigEndian(s[..|s| - 1]) * 256 + s[|s| - 1]
  }

  lemma DivMod256(n: nat, p: nat)
    requires p > 0
    ensures n % (256 * p) == ((n / 256) % p) * 256 + n % 256
  {
    var q, r := (n / 256) / p, (n / 256) % p;
    var low := n % 256;
    assert n / 256 == q * p + r;
    assert n == 256 * (q * p + r) + low;
    assert 256 * (q * p) == q * (256 * p);
    var m := r * 256 + low;
    assert 0 <= m < 256 * p by {
      assert r <= p - 1;
    }
    ModUnique(n, 256 * p, q, m);
  }

  lemma MulAtLeast(k: int, d: int)
    requires d > 0
    ensures k >= 1 ==> k * d >= d
    ensures k <= -1 ==> k * d <= -d
  {
  }

  lemma ModUnique(n: int, d: int, q: int, r: int)
    requires 0 <= r < d && n == q * d + r
    ensures n % d == r && n / d == q
  {
    var q', r' := n / d, n % d;
    assert n == q' * d + r';
    assert (q - q') * d == r' - r;
    MulAtLeast(q - q', d);
  }

  /** Decoding an encoding gives back the value modulo the width: exact just when the value fits. */
  lemma {:induction false} BigEndianRoundTrip(n: nat, width: nat)
    ensures FromBigEndian(BigEndian(n, width)) == n % Pow256(width)
    ensures FromBigEndian(BigEndian(n, width)) == n <==> n < Pow256(width)
  {
    if width > 0 {
      var s := BigEndian(n, width);
      BigEndianRoundTrip(n / 256, width - 1);
      assert s[..|s| - 1] == BigEndian(n / 256, width - 1);
      DivMod256(n, Pow256(width - 1));
    }
  }

  lemma {:induction false} FromBigEndianBound(s: seq<byte>)
    ensures FromBigEndian(s) < Pow256(|s|)
  {
    if s != [] {
      FromBigEndianBound(s[..|s| - 1]);
    }
  }

  /** Byte `i` of the encoding is the one that `(n >> 8 * (width - 1 - i)) & 0xFF` selects. */
  lemma {:induction false} BigEndianAt(n: nat, width: nat, i: nat)
    requires i < width
    ensures BigEndian(n, width)[i] == n / Pow256(width - 1 - i) % 256
  {
    if i < width - 1 {
      BigEndianAt(n / 256, width - 1, i);
      DivDiv(n, Pow256(width - 2 - i));
    }
  }

  lemma DivDiv(n: nat, p: nat)
    requires p > 0
    ensures n / 256 / p == n / (256 * p)
  {
    var q, r := n / 256 / p, (n / 256) % p;
    assert n == 256 * (q * p + r) + n % 256;
    assert 256 * (q * p) == q * (256 * p);
    assert 0 <= r * 256 + n % 256 < 256 * p by {
      assert r <= p - 1;
    }
    ModUnique(n, 256 * p, q, r * 256 + n % 256);
  }

  /** Reading one more byte shifts the value left by eight and adds the byte. */
  lemma FromBigEndianSnoc(s: seq<byte>, b: byte)
    ensures FromBigEndian(s + [b]) == FromBigEndian(s) * 256 + b
  {
  }

  lemma Pow256Values()
    ensures Pow256(4) == 0x1_0000_0000
    ensures Pow256(8) == 0x1_0000_0000_0000_0000
  {
  }
}

/** Slices of sequences. */
module Slices {
  lemma TakeDrop<T>(s: seq<T>, n: nat)
    requires n <= |s|
    ensures s[..n] + s[n..] == s
  {
  }

  lemma DropDrop<T>(s: seq<T>, a: nat, b: nat)
    requires a + b <= |s|
    ensures s[a..][b..] == s[a + b..]
  {
  }

  lemma ConcatAssociative<T>(a: seq<T>, b: seq<T>, c: seq<T>)
    ensures (a + b) + c == a + (b + c)
  {
  }
}
