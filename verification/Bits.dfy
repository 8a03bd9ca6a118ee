/** Bytes, bits and little-endian words.

    A machine word is the sequence of its bits, least significant first; loading
    consecutive bytes concatenates their bits, which is what a little-endian load does.
 */
module Bits {
  type byte = bv8

  /** Bit `j` of a byte, as the source tests it: `b & (1 << j)`. */
  predicate BitOf(b: byte, j: nat)
    requires j < 8
  {
    match j
    case 0 => b & 0x01 != 0
    case 1 => b & 0x02 != 0
    case 2 => b & 0x04 != 0
    case 3 => b & 0x08 != 0
    case 4 => b & 0x10 != 0
    case 5 => b & 0x20 != 0
    case 6 => b & 0x40 != 0
    case _ => b & 0x80 != 0
  }

  function ByteBits(b: byte): (s: seq<bool>)
    ensures |s| == 8 && forall j :: 0 <= j < 8 ==> s[j] == BitOf(b, j)
  {
    seq(8, j requires 0 <= j < 8 => BitOf(b, j))
  }

  /** All bits of a run of bytes. */
  function Load(bytes: seq<byte>): (s: seq<bool>)
    ensures |s| == 8 * |bytes|
  {
    if |bytes| == 0 then [] else Load(bytes[..|bytes| - 1]) + ByteBits(bytes[|bytes| - 1])
  }

  /** Bit `i` of a bitmap. */
  predicate TestBit(bytes: seq<byte>, i: nat)
    requires i < 8 * |bytes|
  {
    BitOf(bytes[i / 8], i % 8)
  }

  lemma {:induction false} LoadAt(bytes: seq<byte>, i: nat)
    requires i < 8 * |bytes|
    ensures Load(bytes)[i] == TestBit(bytes, i)
  {
    var n := |bytes| - 1;
    if i < 8 * n {
      LoadAt(bytes[..n], i);
    }
  }

  lemma {:induction false} LoadConcat(a: seq<byte>, b: seq<byte>)
    ensures Load(a + b) == Load(a) + Load(b)
  {
    if |b| == 0 {
      assert a + b == a;
    } else {
      var b' := b[..|b| - 1];
      assert (a + b)[..|a + b| - 1] == a + b';
      LoadConcat(a, b');
    }
  }

  function Popcount(s: seq<bool>): nat {
    if |s| == 0 then 0 else Popcount(s[..|s| - 1]) + (if s[|s| - 1] then 1 else 0)
  }

  lemma {:induction false} PopcountConcat(a: seq<bool>, b: seq<bool>)
    ensures Popcount(a + b) == Popcount(a) + Popcount(b)
  {
    if |b| == 0 {
      assert a + b == a;
    } else {
      var b' := b[..|b| - 1];
      assert (a + b)[..|a + b| - 1] == a + b';
      PopcountConcat(a, b');
    }
  }

  lemma PopcountExtend(s: seq<bool>, k: nat, w: nat)
    requires k + w <= |s|
    ensures Popcount(s[..k + w]) == Popcount(s[..k]) + Popcount(s[k..k + w])
  {
    assert s[..k + w] == s[..k] + s[k..k + w];
    PopcountConcat(s[..k], s[k..k + w]);
  }

  lemma {:induction false} PopcountZero(s: seq<bool>)
    ensures Popcount(s) == 0 <==> forall i :: 0 <= i < |s| ==> !s[i]
    ensures Popcount(s) <= |s|
  {
    if |s| > 0 {
      PopcountZero(s[..|s| - 1]);
    }
  }

  function And(a: seq<bool>, b: seq<bool>): (r: seq<bool>)
    requires |a| == |b|
    ensures |r| == |a| && forall i :: 0 <= i < |a| ==> r[i] == (a[i] && b[i])
  {
    seq(|a|, i requires 0 <= i < |a| => a[i] && b[i])
  }
}
