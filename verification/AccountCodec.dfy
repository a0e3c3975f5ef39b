/**
 The stored form of an account: the nonce in 8 big-endian bytes, then the balance in 32.
 */
module AccountCodec {
  import opened Ledger

  type Byte = x: nat | x < 256
  type Bytes = seq<Byte>

  function Pow256(width: nat): (r: nat)
    ensures r > 0
  {
    if width == 0 then 1 else 256 * Pow256(width - 1)
  }

  /** The low `width` bytes of `n`, most significant first. */
  function ToBytes(n: nat, width: nat): (bs: Bytes)
    ensures |bs| == width
  {
    if width == 0 then [] else ToBytes(n / 256, width - 1) + [n % 256]
  }

  function FromBytes(bs: Bytes): nat {
    if bs == [] then 0 else 256 * FromBytes(bs[..|bs| - 1]) + bs[|bs| - 1]
  }

  lemma {:induction false} DecodedBelow(bs: Bytes)
    ensures FromBytes(bs) < Pow256(|bs|)
  {
    if bs != [] {
      DecodedBelow(bs[..|bs| - 1]);
    }
  }

  lemma {:induction false} FromTo(n: nat, width: nat)
    requires n < Pow256(width)
    ensures FromBytes(ToBytes(n, width)) == n
  {
    if width != 0 {
      FromTo(n / 256, width - 1);
      assert ToBytes(n, width)[..width - 1] == ToBytes(n / 256, width - 1);
    }
  }

  lemma {:induction false} ToFrom(bs: Bytes)
    ensures ToBytes(FromBytes(bs), |bs|) == bs
  {
    if bs != [] {
      ToFrom(bs[..|bs| - 1]);
      assert FromBytes(bs) / 256 == FromBytes(bs[..|bs| - 1]);
    }
  }

  lemma {:induction false} PowSum(x: nat, y: nat)
    ensures Pow256(x + y) == Pow256(x) * Pow256(y)
  {
    if x != 0 {
      PowSum(x - 1, y);
    }
  }

  lemma Widths()
    ensures Pow256(8) == U64_MODULUS && Pow256(32) == U256_MODULUS
  {
    assert Pow256(4) == 0x1_0000_0000;
    PowSum(4, 4);
    PowSum(8, 8);
    PowSum(16, 16);
  }

  function EncodeAccount(account: Account): (data: Bytes)
    ensures |data| == 40
  {
    ToBytes(account.nonce, 8) + ToBytes(account.balance, 32)
  }

  /** Decoding slices out the first 40 bytes; shorter data cannot be decoded. */
  function DecodeAccount(data: Bytes): Account
    requires |data| >= 40
  {
    DecodedBelow(data[..8]);
    DecodedBelow(data[8..40]);
    Widths();
    Account(FromBytes(data[..8]), FromBytes(data[8..40]))
  }

  /** Every account survives being stored and loaded. */
  lemma DecodeEncode(account: Account)
    ensures DecodeAccount(EncodeAccount(account)) == account
  {
    var data := EncodeAccount(account);
    Widths();
    assert data[..8] == ToBytes(account.nonce, 8);
    assert data[8..40] == ToBytes(account.balance, 32);
    FromTo(account.nonce, 8);
    FromTo(account.balance, 32);
  }

  lemma DivideTwice(n: nat, p: nat)
    requires p > 0
    ensures n / 256 / p == n / (256 * p)
  {
    var q, r := n / 256 / p, n / 256 % p;
    assert n / 256 == q * p + r;
    assert n == 256 * (q * p + r) + n % 256;
    assert n == q * (256 * p) + (256 * r + n % 256);
    assert 0 <= 256 * r + n % 256 < 256 * p;
    QuotientIs(n, 256 * p, q, 256 * r + n % 256);
  }

  lemma QuotientIs(n: nat, d: nat, q: nat, r: nat)
    requires n == q * d + r && r < d
    ensures n / d == q
  {
    var k: int := n / d - q;
    assert k * d == r - n % d;
    assert k >= 1 ==> k * d >= d;
    assert k <= -1 ==> k * d <= (-1) * (d as int);
  }

  lemma {:induction false} ByteAt(n: nat, width: nat, p: nat)
    requires p < width
    ensures ToBytes(n, width)[p] == n / Pow256(width - 1 - p) % 256
  {
    if p < width - 1 {
      ByteAt(n / 256, width - 1, p);
      DivideTwice(n, Pow256(width - 2 - p));
    }
  }

  /** The layout of a record: the nonce in its first 8 bytes, the balance in the next 32, most significant first. */
  lemma RecordLayout(account: Account, p: nat)
    ensures p < 8 ==> EncodeAccount(account)[p] == account.nonce / Pow256(7 - p) % 256
    ensures p < 32 ==> EncodeAccount(account)[8 + p] == account.balance / Pow256(31 - p) % 256
  {
    if p < 8 {
      ByteAt(account.nonce, 8, p);
    }
    if p < 32 {
      ByteAt(account.balance, 32, p);
    }
  }

  /** Every stored record is the encoding of what it decodes to, so no two records mean the same account. */
  lemma EncodeDecode(data: Bytes)
    requires |data| == 40
    ensures EncodeAccount(DecodeAccount(data)) == data
  {
    ToFrom(data[..8]);
    ToFrom(data[8..40]);
  }
}
