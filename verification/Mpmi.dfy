/** MPMI rows: a dense 8-bit affine base followed by two compact pools of residuals, FP16 for
    one set of dimensions and FP32 for another, disjoint one.

    Memory is symbolic: a byte cell knows which part of which stored value it is, so that a
    copy of all parts of a value reads back as that value and nothing else does. FP16
    conversion is an arbitrary rounding function; all other arithmetic is exact.
 */
module Mpmi {
  import opened Bits
  import opened Options

  datatype Cell = U8(code: nat) | Half(half: real, part: nat) | Word(word: real, part: nat)

  /** QuantizerHybrid: affine parameters, selection bitmaps, and per dimension the number of
      selected dimensions before it. */
  datatype Quantizer = Quantizer(vmin: seq<real>, vdiff: seq<real>, fp16: seq<bool>, fp32: seq<bool>,
                                 prefix16: seq<nat>, prefix32: seq<nat>, count16: nat, count32: nat) {
    function Dim(): nat { |vmin| }

    ghost predicate Valid() {
      && |vdiff| == |fp16| == |fp32| == |prefix16| == |prefix32| == Dim()
      && (forall i :: 0 <= i < Dim() ==> !(fp16[i] && fp32[i]))
      && (forall i :: 0 <= i < Dim() ==> prefix16[i] == Rank(fp16, i) && prefix32[i] == Rank(fp32, i))
      && count16 == Popcount(fp16) && count32 == Popcount(fp32)
    }

    function CodeSize(): nat { Dim() + 2 * count16 + 4 * count32 }
  }

  /** One float of the trained metadata: its value, unless it is an infinity or a NaN, and its
      32 bits, lowest first. */
  datatype Trained = Trained(value: Option<real>, bits: seq<bool>)

  /** The least number of 32-bit words with a bit for every dimension. */
  function Words(d: nat): (n: nat)
    ensures d <= 32 * n < d + 32
  {
    (d + 31) / 32
  }

  lemma WordIndex(d: nat, i: nat)
    requires i < d
    ensures i / 32 < Words(d)
  {
  }

  predicate Covers(words: seq<seq<bool>>, d: nat) {
    |words| == Words(d) && forall k :: 0 <= k < |words| ==> |words[k]| == 32
  }

  /** Bit i of a bitmap kept in 32-bit words. */
  predicate Bit(words: seq<seq<bool>>, d: nat, i: nat)
    requires Covers(words, d) && i < d
  {
    WordIndex(d, i);
    words[i / 32][i % 32]
  }

  /** The whole bitmap, one bit per dimension. */
  ghost function BitsOf(words: seq<seq<bool>>, d: nat): (bits: seq<bool>)
    requires Covers(words, d)
    ensures |bits| == d
  {
    seq(d, i requires 0 <= i < d => Bit(words, d, i))
  }

  lemma NextBit(words: seq<seq<bool>>, d: nat, i: nat)
    requires Covers(words, d) && i < d
    ensures BitsOf(words, d)[i] == Bit(words, d, i)
    ensures BitsOf(words, d)[..i + 1] == BitsOf(words, d)[..i] + [Bit(words, d, i)]
  {
    var bits := BitsOf(words, d);
    assert bits[..i + 1] == bits[..i] + [bits[i]];
  }

  ghost predicate Disjoint(a: seq<bool>, b: seq<bool>) {
    |a| == |b| && forall i :: 0 <= i < |a| ==> !(a[i] && b[i])
  }

  lemma Overlap(a: seq<bool>, b: seq<bool>, i: nat)
    requires i < |a| == |b| && a[i] && b[i]
    ensures !Disjoint(a, b)
  {
  }

  /** The bitmap whose words start at a slot of the metadata. */
  function Bitmap(trained: seq<Trained>, from: nat, n: nat): (words: seq<seq<bool>>)
    requires from + n <= |trained|
    ensures |words| == n && forall k :: 0 <= k < n ==> words[k] == trained[from + k].bits
  {
    seq(n, k requires 0 <= k < n => trained[from + k].bits)
  }

  /** The affine parameters that start at a slot. */
  function Values(trained: seq<Trained>, from: nat, n: nat): (v: seq<real>)
    requires from + n <= |trained| && forall k :: from <= k < from + n ==> trained[k].value.Some?
    ensures |v| == n && forall i :: 0 <= i < n ==> Some(v[i]) == trained[from + i].value
  {
    seq(n, i requires 0 <= i < n => trained[from + i].value.value)
  }

  /** The k-th bitmap after the header. */
  ghost function Selected(d: nat, trained: seq<Trained>, k: nat): (bits: seq<bool>)
    requires k <= 1 && |trained| >= 2 + 2 * d + 2 * Words(d)
    requires forall j :: 0 <= j < |trained| ==> |trained[j].bits| == 32
    ensures |bits| == d
  {
    BitsOf(Bitmap(trained, 2 + 2 * d + k * Words(d), Words(d)), d)
  }

  /** Bit j of word k of either bitmap selects dimension 32 * k + j; the words of the 16-bit pool follow
      the affine parameters, and those of the 32-bit pool follow them. */
  lemma BitPlace(d: nat, trained: seq<Trained>, k: nat, j: nat)
    requires |trained| >= 2 + 2 * d + 2 * Words(d) && j < 32 && 32 * k + j < d
    requires forall j :: 0 <= j < |trained| ==> |trained[j].bits| == 32
    ensures k < Words(d)
    ensures Selected(d, trained, 0)[32 * k + j] == trained[2 + 2 * d + k].bits[j]
    ensures Selected(d, trained, 1)[32 * k + j] == trained[2 + 2 * d + Words(d) + k].bits[j]
  {
    var i := 32 * k + j;
    WordIndex(d, i);
    assert i / 32 == k && i % 32 == j;
  }

  /** What the constructor checks: both word counts, the length, and that the pools are disjoint. */
  ghost predicate Acceptable(d: nat, trained: seq<Trained>)
    requires forall k :: 0 <= k < |trained| ==> |trained[k].bits| == 32
  {
    && |trained| >= 2 + 2 * d + 2 * Words(d)
    && trained[0].value == trained[1].value == Some(Words(d) as real)
    && Disjoint(Selected(d, trained, 0), Selected(d, trained, 1))
  }

  /** The constructor: splits the metadata into word counts, affine parameters and bitmaps. Each
      word count has to be a finite, non-negative, whole float. */
  method Open(d: nat, trained: seq<Trained>) returns (r: Option<Quantizer>)
    requires forall k :: 0 <= k < |trained| ==> |trained[k].bits| == 32
    requires forall k :: 2 <= k < 2 + 2 * d && k < |trained| ==> trained[k].value.Some?
    ensures r.Some? <==> Acceptable(d, trained)
    ensures r.Some? ==> r.value.vmin == Values(trained, 2, d) && r.value.vdiff == Values(trained, 2 + d, d)
    ensures r.Some? ==> r.value.fp16 == Selected(d, trained, 0) && r.value.fp32 == Selected(d, trained, 1)
    ensures r.Some? ==> r.value.Valid()
  {
    var header, n := 2 + 2 * d, Words(d);
    if |trained| < header {
      return None;
    }
    if ReadWordCount(trained[0].value) != Some(n) || ReadWordCount(trained[1].value) != Some(n) {
      return None;
    }
    if |trained| < header + 2 * n {
      return None;
    }
    var words16, words32 := Bitmap(trained, header, n), Bitmap(trained, header + n, n);
    assert BitsOf(words16, d) == Selected(d, trained, 0) && BitsOf(words32, d) == Selected(d, trained, 1);
    r := Unpack(Values(trained, 2, d), Values(trained, 2 + d, d), words16, words32);
  }

  /** The lambda read_word_count. */
  function ReadWordCount(value: Option<real>): (count: Option<nat>)
    ensures forall n: nat :: count == Some(n) <==> value == Some(n as real)
  {
    if value.None? || value.value < 0.0 || value.value.Floor as real != value.value then None
    else Some(value.value.Floor)
  }

  /** Unpacks both bitmaps, counts the bits before each, and refuses overlapping pools. */
  method Unpack(vmin: seq<real>, vdiff: seq<real>, words16: seq<seq<bool>>, words32: seq<seq<bool>>)
    returns (r: Option<Quantizer>)
    requires |vmin| == |vdiff| && Covers(words16, |vmin|) && Covers(words32, |vmin|)
    ensures r.Some? <==> Disjoint(BitsOf(words16, |vmin|), BitsOf(words32, |vmin|))
    ensures r.Some? ==> r.value.vmin == vmin && r.value.vdiff == vdiff && r.value.Valid()
    ensures r.Some? ==> r.value.fp16 == BitsOf(words16, |vmin|) && r.value.fp32 == BitsOf(words32, |vmin|)
  {
    var d := |vmin|;
    var pool16, pool32 := Pool([], [], 0), Pool([], [], 0);
    ghost var bits16, bits32 := BitsOf(words16, d), BitsOf(words32, d);
    for i := 0 to d
      invariant pool16.bits == bits16[..i] && pool32.bits == bits32[..i]
      invariant Sound(pool16) && Sound(pool32) && Disjoint(pool16.bits, pool32.bits)
    {
      var bit16, bit32 := Bit(words16, d, i), Bit(words32, d, i);
      NextBit(words16, d, i);
      NextBit(words32, d, i);
      if bit16 && bit32 {
        Overlap(bits16, bits32, i);
        return None;
      }
      ExtendSound(pool16, bit16);
      ExtendSound(pool32, bit32);
      pool16, pool32 := Extend(pool16, bit16), Extend(pool32, bit32);
    }
    assert bits16[..d] == bits16 && bits32[..d] == bits32;
    r := Some(Quantizer(vmin, vdiff, pool16.bits, pool32.bits, pool16.prefix, pool32.prefix, pool16.count,
                        pool32.count));
  }

  /** One residual pool while its bitmap is read. */
  datatype Pool = Pool(bits: seq<bool>, prefix: seq<nat>, count: nat)

  function Extend(p: Pool, bit: bool): Pool {
    Pool(p.bits + [bit], p.prefix + [p.count], p.count + if bit then 1 else 0)
  }

  ghost predicate Sound(p: Pool) {
    Prefixes(p.bits, p.prefix) && p.count == Popcount(p.bits)
  }

  lemma ExtendSound(p: Pool, bit: bool)
    requires Sound(p)
    ensures Sound(Extend(p, bit))
  {
    PrefixAppend(p.bits, p.prefix, bit);
  }

  ghost predicate Prefixes(b: seq<bool>, prefix: seq<nat>) {
    |prefix| == |b| && forall i :: 0 <= i < |b| ==> prefix[i] == Rank(b, i)
  }

  lemma PrefixAppend(b: seq<bool>, prefix: seq<nat>, bit: bool)
    requires Prefixes(b, prefix)
    ensures Prefixes(b + [bit], prefix + [Popcount(b)])
    ensures Popcount(b + [bit]) == Popcount(b) + (if bit then 1 else 0)
  {
    assert (b + [bit])[..|b|] == b;
    forall i | 0 <= i < |b| ensures Rank(b + [bit], i) == Rank(b, i) {
      assert (b + [bit])[..i] == b[..i];
    }
  }

  // ---------------------------------------------------------------------------
  // Ranks and pools
  // ---------------------------------------------------------------------------

  /** How many selected dimensions precede dimension i. */
  function Rank(b: seq<bool>, i: nat): nat
    requires i <= |b|
  {
    Popcount(b[..i])
  }

  lemma RankStep(b: seq<bool>, i: nat)
    requires i < |b|
    ensures Rank(b, i + 1) == Rank(b, i) + (if b[i] then 1 else 0)
  {
    assert b[..i + 1][..i] == b[..i];
  }

  lemma {:induction false} RankMonotone(b: seq<bool>, i: nat, j: nat)
    requires i <= j <= |b|
    ensures Rank(b, i) <= Rank(b, j)
    decreases j
  {
    if i < j {
      RankMonotone(b, i, j - 1);
      RankStep(b, j - 1);
    }
  }

  lemma RankBelow(b: seq<bool>, i: nat)
    requires i < |b|
    ensures Rank(b, i) + (if b[i] then 1 else 0) <= Popcount(b)
  {
    RankStep(b, i);
    RankMonotone(b, i + 1, |b|);
    assert b[..|b|] == b;
  }

  /** The values of the selected dimensions, in dimension order. */
  function Select(b: seq<bool>, v: seq<real>): (p: seq<real>)
    requires |b| == |v|
    ensures |p| == Popcount(b)
  {
    if |b| == 0 then []
    else
      var n := |b| - 1;
      Select(b[..n], v[..n]) + (if b[n] then [v[n]] else [])
  }

  lemma {:induction false} SelectAt(b: seq<bool>, v: seq<real>, i: nat)
    requires |b| == |v| && i < |b| && b[i]
    ensures Rank(b, i) < Popcount(b) && Select(b, v)[Rank(b, i)] == v[i]
  {
    RankBelow(b, i);
    var n := |b| - 1;
    if i < n {
      SelectAt(b[..n], v[..n], i);
      assert b[..n][..i] == b[..i];
    }
  }

  // ---------------------------------------------------------------------------
  // Base codes
  // ---------------------------------------------------------------------------

  /** std::lround of a non-negative value. */
  function Lround(y: real): nat
    requires y >= 0.0
  {
    (y + 0.5).Floor
  }

  function Clamp01(y: real): real {
    var low := if 1.0 < y then 1.0 else y;
    if 0.0 < low then low else 0.0
  }

  function EncodeBase(q: Quantizer, value: real, i: nat): (code: nat)
    requires q.Valid() && i < q.Dim()
    ensures code <= 255
  {
    if !(q.vdiff[i] > 0.0) then 0 else Lround(Clamp01((value - q.vmin[i]) / q.vdiff[i]) * 255.0)
  }

  function DecodeBase(q: Quantizer, code: nat, i: nat): real
    requires q.Valid() && i < q.Dim()
  {
    if !(q.vdiff[i] > 0.0) then q.vmin[i] else q.vmin[i] + (code as real / 255.0) * q.vdiff[i]
  }

  /** Inside the trained range the base alone is off by at most half a step of vdiff / 255. */
  lemma BaseError(q: Quantizer, value: real, i: nat)
    requires q.Valid() && i < q.Dim() && q.vdiff[i] > 0.0
    requires q.vmin[i] <= value <= q.vmin[i] + q.vdiff[i]
    ensures -q.vdiff[i] <= 510.0 * (value - DecodeBase(q, EncodeBase(q, value, i), i)) <= q.vdiff[i]
  {
    var w, u := q.vdiff[i], value - q.vmin[i];
    var n := u / w;
    FractionInRange(u, w, n);
    RoundingError(u, w, n, EncodeBase(q, value, i) as real);
  }

  /** Outside the trained range, or without one, the base is the nearer end of the range. */
  lemma BaseClamped(q: Quantizer, value: real, i: nat)
    requires q.Valid() && i < q.Dim()
    ensures q.vdiff[i] <= 0.0 || value <= q.vmin[i] ==> DecodeBase(q, EncodeBase(q, value, i), i) == q.vmin[i]
    ensures q.vdiff[i] > 0.0 && value >= q.vmin[i] + q.vdiff[i] ==>
              DecodeBase(q, EncodeBase(q, value, i), i) == q.vmin[i] + q.vdiff[i]
  {
    var w, u := q.vdiff[i], value - q.vmin[i];
    if w > 0.0 {
      FractionOutOfRange(u, w, u / w);
      if u <= 0.0 {
        assert EncodeBase(q, value, i) == 0 && (0.0 / 255.0) * w == 0.0;
      } else if u >= w {
        assert EncodeBase(q, value, i) == 255 && (255.0 / 255.0) * w == w;
      }
    }
  }

  lemma FractionOutOfRange(u: real, w: real, n: real)
    requires w > 0.0 && n == u / w
    ensures (u <= 0.0 ==> n <= 0.0) && (u >= w ==> n >= 1.0)
  {
    assert n * w == u;
    if u <= 0.0 && n > 0.0 {
      MulPositive(n, w);
    } else if u >= w && n < 1.0 {
      MulPositive(1.0 - n, w);
    }
  }

  lemma MulPositive(a: real, w: real)
    requires a > 0.0 && w > 0.0
    ensures a * w > 0.0
  {
  }

  lemma FractionInRange(u: real, w: real, n: real)
    requires w > 0.0 && 0.0 <= u <= w && n == u / w
    ensures n * w == u && 0.0 <= n <= 1.0
  {
    if n < 0.0 {
      MulPositive(-n, w);
    } else if n > 1.0 {
      MulPositive(n - 1.0, w);
    }
  }

  /** A code within half of n * 255 reconstructs n * w within w / 510. */
  lemma RoundingError(u: real, w: real, n: real, c: real)
    requires w > 0.0 && n * w == u && -0.5 <= n * 255.0 - c <= 0.5
    ensures -w <= 510.0 * (u - (c / 255.0) * w) <= w
  {
    var e := n * 255.0 - c;
    var back := (c / 255.0) * w;
    ScaleBack(c, w);
    assert e * w == 255.0 * u - 255.0 * back by {
      assert (n * 255.0) * w == 255.0 * (n * w);
    }
    HalfScale(e, w);
  }

  lemma ScaleBack(c: real, w: real)
    ensures 255.0 * ((c / 255.0) * w) == c * w
  {
  }

  lemma HalfScale(e: real, w: real)
    requires w > 0.0 && -0.5 <= e <= 0.5
    ensures -w <= 2.0 * (e * w) <= w
  {
    assert (0.5 - e) * w >= 0.0 && (0.5 + e) * w >= 0.0;
  }

  // ---------------------------------------------------------------------------
  // Row format
  // ---------------------------------------------------------------------------

  /** What a row stores: base codes by dimension, residuals by rank. */
  datatype Row = Row(base: seq<nat>, pool16: seq<real>, pool32: seq<real>) {
    function Size(): nat { |base| + 2 * |pool16| + 4 * |pool32| }
  }

  predicate HalfAt(code: seq<Cell>, at: nat, v: real) {
    at + 2 <= |code| && code[at] == Half(v, 0) && code[at + 1] == Half(v, 1)
  }

  predicate WordAt(code: seq<Cell>, at: nat, v: real) {
    && at + 4 <= |code| && code[at] == Word(v, 0) && code[at + 1] == Word(v, 1)
    && code[at + 2] == Word(v, 2) && code[at + 3] == Word(v, 3)
  }

  /** The first `nb` base codes, `n16` halves and `n32` words are in place. */
  ghost predicate Filled(code: seq<Cell>, row: Row, nb: nat, n16: nat, n32: nat) {
    && |code| == row.Size() && nb <= |row.base| && n16 <= |row.pool16| && n32 <= |row.pool32|
    && (forall i :: 0 <= i < nb ==> code[i] == U8(row.base[i]))
    && (forall r :: 0 <= r < n16 ==> HalfAt(code, |row.base| + 2 * r, row.pool16[r]))
    && (forall r :: 0 <= r < n32 ==> WordAt(code, |row.base| + 2 * |row.pool16| + 4 * r, row.pool32[r]))
  }

  ghost predicate Stores(code: seq<Cell>, row: Row) {
    Filled(code, row, |row.base|, |row.pool16|, |row.pool32|)
  }

  lemma FillBase(code: seq<Cell>, row: Row, nb: nat, n16: nat, n32: nat)
    requires Filled(code, row, nb, n16, n32) && nb < |row.base|
    ensures Filled(code[nb := U8(row.base[nb])], row, nb + 1, n16, n32)
  {
  }

  lemma FillHalf(code: seq<Cell>, row: Row, nb: nat, n16: nat, n32: nat)
    requires Filled(code, row, nb, n16, n32) && n16 < |row.pool16|
    ensures
      var at := |row.base| + 2 * n16;
      Filled(code[at := Half(row.pool16[n16], 0)][at + 1 := Half(row.pool16[n16], 1)], row, nb, n16 + 1, n32)
  {
  }

  lemma FillWord(code: seq<Cell>, row: Row, nb: nat, n16: nat, n32: nat)
    requires Filled(code, row, nb, n16, n32) && n32 < |row.pool32|
    ensures
      var at := |row.base| + 2 * |row.pool16| + 4 * n32;
      var v := row.pool32[n32];
      Filled(code[at := Word(v, 0)][at + 1 := Word(v, 1)][at + 2 := Word(v, 2)][at + 3 := Word(v, 3)], row, nb, n16,
             n32 + 1)
  {
  }

  // ---------------------------------------------------------------------------
  // Encoding
  // ---------------------------------------------------------------------------

  function Residual(q: Quantizer, x: seq<real>, i: nat): real
    requires q.Valid() && |x| == q.Dim() && i < q.Dim()
  {
    x[i] - DecodeBase(q, EncodeBase(q, x[i], i), i)
  }

  function Residuals(q: Quantizer, x: seq<real>): (r: seq<real>)
    requires q.Valid() && |x| == q.Dim()
    ensures |r| == q.Dim() && forall i :: 0 <= i < q.Dim() ==> r[i] == Residual(q, x, i)
  {
    seq(q.Dim(), i requires 0 <= i < q.Dim() => Residual(q, x, i))
  }

  function Rounded(v: seq<real>, round16: real -> real): (r: seq<real>)
    ensures |r| == |v| && forall i :: 0 <= i < |v| ==> r[i] == round16(v[i])
  {
    seq(|v|, i requires 0 <= i < |v| => round16(v[i]))
  }

  /** The row a vector should be stored as. */
  function RowFor(q: Quantizer, x: seq<real>, round16: real -> real): (row: Row)
    requires q.Valid() && |x| == q.Dim()
    ensures row.Size() == q.CodeSize()
  {
    Row(seq(q.Dim(), i requires 0 <= i < q.Dim() => EncodeBase(q, x[i], i)),
        Select(q.fp16, Rounded(Residuals(q, x), round16)),
        Select(q.fp32, Residuals(q, x)))
  }

  ghost predicate EncodedTo(q: Quantizer, row: Row, code: seq<Cell>, i: nat)
    requires q.Valid() && i <= q.Dim()
  {
    Filled(code, row, i, Rank(q.fp16, i), Rank(q.fp32, i))
  }

  /** One dimension: its base code, and its residual in its pool slot. */
  method EncodeDimension(q: Quantizer, x: seq<real>, round16: real -> real, code: array<Cell>, i: nat)
    requires q.Valid() && |x| == q.Dim() && i < q.Dim()
    requires EncodedTo(q, RowFor(q, x, round16), code[..], i)
    modifies code
    ensures EncodedTo(q, RowFor(q, x, round16), code[..], i + 1)
  {
    ghost var row := RowFor(q, x, round16);
    ghost var before := code[..];
    RankStep(q.fp16, i);
    RankStep(q.fp32, i);
    FillBase(before, row, i, Rank(q.fp16, i), Rank(q.fp32, i));
    code[i] := U8(EncodeBase(q, x[i], i));
    assert code[..] == before[i := U8(row.base[i])];
    var residual := x[i] - DecodeBase(q, EncodeBase(q, x[i], i), i);
    if q.fp16[i] {
      SelectAt(q.fp16, Rounded(Residuals(q, x), round16), i);
      StoreHalf(code, row, i + 1, Rank(q.fp16, i), Rank(q.fp32, i), round16(residual), q.Dim() + q.prefix16[i] * 2);
    } else if q.fp32[i] {
      SelectAt(q.fp32, Residuals(q, x), i);
      StoreWord(code, row, i + 1, Rank(q.fp16, i), Rank(q.fp32, i), residual,
                q.Dim() + q.count16 * 2 + q.prefix32[i] * 4);
    }
  }

  /** encode_vector: one pass over the dimensions, scattering residuals to their pool slots. */
  method Encode(q: Quantizer, x: seq<real>, round16: real -> real, code: array<Cell>)
    requires q.Valid() && |x| == q.Dim() && code.Length == q.CodeSize()
    modifies code
    ensures Stores(code[..], RowFor(q, x, round16))
  {
    for i := 0 to q.Dim()
      invariant EncodedTo(q, RowFor(q, x, round16), code[..], i)
    {
      EncodeDimension(q, x, round16, code, i);
    }
    assert q.fp16[..q.Dim()] == q.fp16 && q.fp32[..q.Dim()] == q.fp32;
  }

  method StoreHalf(code: array<Cell>, ghost row: Row, ghost nb: nat, ghost n16: nat, ghost n32: nat, v: real, at: nat)
    requires Filled(code[..], row, nb, n16, n32) && n16 < |row.pool16|
    requires v == row.pool16[n16] && at == |row.base| + 2 * n16
    modifies code
    ensures Filled(code[..], row, nb, n16 + 1, n32)
  {
    ghost var before := code[..];
    FillHalf(before, row, nb, n16, n32);
    code[at] := Half(v, 0);
    code[at + 1] := Half(v, 1);
    assert code[..] == before[at := Half(v, 0)][at + 1 := Half(v, 1)];
  }

  method StoreWord(code: array<Cell>, ghost row: Row, ghost nb: nat, ghost n16: nat, ghost n32: nat, v: real, at: nat)
    requires Filled(code[..], row, nb, n16, n32) && n32 < |row.pool32|
    requires v == row.pool32[n32] && at == |row.base| + 2 * |row.pool16| + 4 * n32
    modifies code
    ensures Filled(code[..], row, nb, n16, n32 + 1)
  {
    ghost var before := code[..];
    FillWord(before, row, nb, n16, n32);
    code[at] := Word(v, 0);
    code[at + 1] := Word(v, 1);
    code[at + 2] := Word(v, 2);
    code[at + 3] := Word(v, 3);
    assert code[..] == before[at := Word(v, 0)][at + 1 := Word(v, 1)][at + 2 := Word(v, 2)][at + 3 := Word(v, 3)];
  }

  // ---------------------------------------------------------------------------
  // Decoding
  // ---------------------------------------------------------------------------

  ghost predicate Fits(q: Quantizer, row: Row) {
    q.Valid() && |row.base| == q.Dim() && |row.pool16| == q.count16 && |row.pool32| == q.count32
  }

  /** The residual of dimension i, looked up by rank. */
  ghost function StoredResidual(q: Quantizer, row: Row, i: nat): real
    requires Fits(q, row) && i < q.Dim()
  {
    RankBelow(q.fp16, i);
    RankBelow(q.fp32, i);
    if q.fp16[i] then row.pool16[Rank(q.fp16, i)]
    else if q.fp32[i] then row.pool32[Rank(q.fp32, i)]
    else 0.0
  }

  ghost function Reconstruct(q: Quantizer, row: Row, i: nat): real
    requires Fits(q, row) && i < q.Dim()
  {
    DecodeBase(q, row.base[i], i) + StoredResidual(q, row, i)
  }

  ghost function Reconstructed(q: Quantizer, row: Row): (x: seq<real>)
    requires Fits(q, row)
    ensures |x| == q.Dim() && forall i :: 0 <= i < q.Dim() ==> x[i] == Reconstruct(q, row, i)
  {
    seq(q.Dim(), i requires 0 <= i < q.Dim() => Reconstruct(q, row, i))
  }

  /** memcpy of two cells, read as a half. */
  method LoadHalf(code: seq<Cell>, at: nat, ghost v: real) returns (r: real)
    requires HalfAt(code, at, v)
    ensures r == v
  {
    r := code[at].half;
  }

  method LoadWord(code: seq<Cell>, at: nat, ghost v: real) returns (r: real)
    requires WordAt(code, at, v)
    ensures r == v
  {
    r := code[at].word;
  }

  /** residual_component */
  method ResidualComponent(q: Quantizer, code: seq<Cell>, ghost row: Row, i: nat) returns (r: real)
    requires Fits(q, row) && Stores(code, row) && i < q.Dim()
    ensures r == StoredResidual(q, row, i)
  {
    RankBelow(q.fp16, i);
    RankBelow(q.fp32, i);
    if q.fp16[i] {
      r := LoadHalf(code, q.Dim() + q.prefix16[i] * 2, row.pool16[Rank(q.fp16, i)]);
    } else if q.fp32[i] {
      r := LoadWord(code, q.Dim() + q.count16 * 2 + q.prefix32[i] * 4, row.pool32[Rank(q.fp32, i)]);
    } else {
      r := 0.0;
    }
  }

  /** decode_vector */
  method Decode(q: Quantizer, code: seq<Cell>, ghost row: Row) returns (x: seq<real>)
    requires Fits(q, row) && Stores(code, row)
    ensures x == Reconstructed(q, row)
  {
    x := [];
    for i := 0 to q.Dim()
      invariant x == Reconstructed(q, row)[..i]
    {
      var residual := ResidualComponent(q, code, row, i);
      x := x + [DecodeBase(q, code[i].code, i) + residual];
    }
  }

  /** What survives: FP32 dimensions exactly, FP16 dimensions up to the rounding of the residual,
      the rest as their base. */
  lemma RowMeaning(q: Quantizer, x: seq<real>, round16: real -> real, i: nat)
    requires q.Valid() && |x| == q.Dim() && i < q.Dim()
    ensures Fits(q, RowFor(q, x, round16))
    ensures
      var back := Reconstruct(q, RowFor(q, x, round16), i);
      if q.fp32[i] then back == x[i]
      else if q.fp16[i] then back - x[i] == round16(Residual(q, x, i)) - Residual(q, x, i)
      else x[i] - back == Residual(q, x, i)
  {
    if q.fp16[i] {
      SelectAt(q.fp16, Rounded(Residuals(q, x), round16), i);
    } else if q.fp32[i] {
      SelectAt(q.fp32, Residuals(q, x), i);
    }
  }

  /** Encoding into any buffer and decoding: exact on FP32 dimensions, within half a base step on
      plain dimensions whose value lies in the trained range. */
  method RoundTrip(q: Quantizer, x: seq<real>, round16: real -> real, code: array<Cell>) returns (back: seq<real>)
    requires q.Valid() && |x| == q.Dim() && code.Length == q.CodeSize()
    modifies code
    ensures |back| == q.Dim()
    ensures forall i :: 0 <= i < q.Dim() && q.fp32[i] ==> back[i] == x[i]
    ensures forall i :: 0 <= i < q.Dim() && q.fp16[i] ==>
              back[i] - x[i] == round16(Residual(q, x, i)) - Residual(q, x, i)
    ensures forall i :: 0 <= i < q.Dim() && !q.fp16[i] && !q.fp32[i]
                        && q.vdiff[i] > 0.0 && q.vmin[i] <= x[i] <= q.vmin[i] + q.vdiff[i] ==>
              -q.vdiff[i] <= 510.0 * (x[i] - back[i]) <= q.vdiff[i]
    ensures forall i :: 0 <= i < q.Dim() && !q.fp16[i] && !q.fp32[i] && (q.vdiff[i] <= 0.0 || x[i] <= q.vmin[i]) ==>
              back[i] == q.vmin[i]
    ensures forall i :: 0 <= i < q.Dim() && !q.fp16[i] && !q.fp32[i]
                        && q.vdiff[i] > 0.0 && x[i] >= q.vmin[i] + q.vdiff[i] ==>
              back[i] == q.vmin[i] + q.vdiff[i]
  {
    ghost var row := RowFor(q, x, round16);
    Encode(q, x, round16, code);
    back := Decode(q, code[..], row);
    forall i | 0 <= i < q.Dim()
      ensures q.fp32[i] ==> back[i] == x[i]
      ensures q.fp16[i] ==> back[i] - x[i] == round16(Residual(q, x, i)) - Residual(q, x, i)
      ensures !q.fp16[i] && !q.fp32[i] ==> x[i] - back[i] == Residual(q, x, i)
    {
      RowMeaning(q, x, round16, i);
    }
    forall i | 0 <= i < q.Dim() && !q.fp16[i] && !q.fp32[i] && q.vdiff[i] > 0.0
      && q.vmin[i] <= x[i] <= q.vmin[i] + q.vdiff[i]
      ensures -q.vdiff[i] <= 510.0 * (x[i] - back[i]) <= q.vdiff[i]
    {
      BaseError(q, x[i], i);
    }
    forall i | 0 <= i < q.Dim() && !q.fp16[i] && !q.fp32[i]
      ensures q.vdiff[i] <= 0.0 || x[i] <= q.vmin[i] ==> back[i] == q.vmin[i]
      ensures q.vdiff[i] > 0.0 && x[i] >= q.vmin[i] + q.vdiff[i] ==> back[i] == q.vmin[i] + q.vdiff[i]
    {
      BaseClamped(q, x[i], i);
    }
  }
}
