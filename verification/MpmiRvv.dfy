/** The RVV recovery path for MPMI rows: tiles of up to 256 dimensions are recovered into a
    scratch buffer (base by strips, FP16 residuals copied as one packed run, widened by strips
    and scattered in order, FP32 residuals by rank) and consumed by a strip-mined distance.
    It has to agree with the portable decoder on every machine.
 */
module MpmiRvv {
  import opened Bits
  import opened Folds
  import opened Mpmi
  import opened Options
  import opened RvvKernels
  import opened RvvMachine

  const TILE := 256

  /** The base the vector code computes: scaled and added without a test of vdiff. */
  function FusedBase(q: Quantizer, code: nat, i: nat): real
    requires q.Valid() && i < q.Dim()
  {
    code as real * (1.0 / 255.0) * q.vdiff[i] + q.vmin[i]
  }

  /** It is the portable base exactly when vdiff is not negative or the code is zero. */
  lemma SameScale(q: Quantizer, code: nat, i: nat)
    requires q.Valid() && i < q.Dim()
    ensures FusedBase(q, code, i) == DecodeBase(q, code, i) <==> q.vdiff[i] >= 0.0 || code == 0
  {
    var scale := code as real * (1.0 / 255.0);
    if q.vdiff[i] < 0.0 && code > 0 {
      MulPositive(scale, -q.vdiff[i]);
      assert scale * q.vdiff[i] == -(scale * -q.vdiff[i]);
    }
  }

  ghost function Bases(q: Quantizer, row: Row): (s: seq<real>)
    requires Fits(q, row)
    ensures |s| == q.Dim() && forall i :: 0 <= i < q.Dim() ==> s[i] == FusedBase(q, row.base[i], i)
  {
    seq(q.Dim(), i requires 0 <= i < q.Dim() => FusedBase(q, row.base[i], i))
  }

  /** vle8, widen, scale by 1/255, vfmadd with the affine parameters. */
  method BaseLanes(q: Quantizer, code: seq<Cell>, ghost row: Row, at: nat, vl: nat) returns (lanes: seq<real>)
    requires Fits(q, row) && Stores(code, row) && at + vl <= q.Dim()
    ensures lanes == Bases(q, row)[at..at + vl]
  {
    lanes := seq(vl, k requires 0 <= k < vl =>
      (if code[at + k].U8? then code[at + k].code as real else 0.0) * (1.0 / 255.0) * q.vdiff[at + k] + q.vmin[at + k]);
    forall k | 0 <= k < vl ensures lanes[k] == Bases(q, row)[at + k] {
      assert code[at + k] == U8(row.base[at + k]);
    }
  }

  /** The base of one tile, strip by strip. */
  method BaseTile(m: Machine, q: Quantizer, code: seq<Cell>, ghost row: Row, begin: nat, count: nat)
    returns (out: seq<real>)
    requires Legal(m) && Fits(q, row) && Stores(code, row) && begin + count <= q.Dim()
    ensures out == Bases(q, row)[begin..begin + count]
  {
    out := [];
    var done: nat := 0;
    while done < count
      invariant done <= count && out == Bases(q, row)[begin..begin + done]
    {
      StripBounds(m, count - done);
      var vl := m.vsetvl(count - done);
      var lanes := BaseLanes(q, code, row, begin + done, vl);
      out := out + lanes;
      done := done + vl;
    }
  }

  /** The packed FP16 residuals of ranks lo..hi: one memcpy, then widening by strips. */
  method WidenPool(m: Machine, code: seq<Cell>, ghost row: Row, d: nat, lo: nat, hi: nat) returns (widened: seq<real>)
    requires Legal(m) && Stores(code, row) && d == |row.base| && lo <= hi <= |row.pool16|
    ensures widened == row.pool16[lo..hi]
  {
    widened := [];
    var done: nat := 0;
    while done < hi - lo
      invariant done <= hi - lo && widened == row.pool16[lo..lo + done]
    {
      StripBounds(m, hi - lo - done);
      var vl := m.vsetvl(hi - lo - done);
      for k := 0 to vl
        invariant widened == row.pool16[lo..lo + done + k]
      {
        var r := lo + done + k;
        var half := LoadHalf(code, d + 2 * r, row.pool16[r]);
        widened := widened + [half];
      }
      done := done + vl;
    }
  }

  /** Dimension i with only the FP16, or only the FP32, or both kinds of residual added. */
  ghost function Partial(q: Quantizer, row: Row, i: nat, with16: bool, with32: bool): real
    requires Fits(q, row) && i < q.Dim()
  {
    Bases(q, row)[i] + (if (with16 && q.fp16[i]) || (with32 && q.fp32[i]) then StoredResidual(q, row, i) else 0.0)
  }

  /** Scatter: the packed run is consumed in dimension order and exactly used up. */
  method Scatter(mask: seq<bool>, base: seq<real>, widened: seq<real>) returns (out: seq<real>, packed: nat)
    requires |mask| == |base| && |widened| == Popcount(mask)
    ensures packed == |widened| && |out| == |base|
    ensures forall k :: 0 <= k < |base| && !mask[k] ==> out[k] == base[k]
    ensures forall k :: 0 <= k < |base| && mask[k] ==>
              Rank(mask, k) < |widened| && out[k] == base[k] + widened[Rank(mask, k)]
  {
    out, packed := base, 0;
    for k := 0 to |base|
      invariant |out| == |base| && packed == Rank(mask, k)
      invariant forall h :: 0 <= h < k && !mask[h] ==> out[h] == base[h]
      invariant forall h :: 0 <= h < k && mask[h] ==>
                Rank(mask, h) < |widened| && out[h] == base[h] + widened[Rank(mask, h)]
      invariant forall h :: k <= h < |base| ==> out[h] == base[h]
    {
      RankStep(mask, k);
      RankBelow(mask, k);
      if mask[k] {
        out := out[k := out[k] + widened[packed]];
        packed := packed + 1;
      }
    }
    assert mask[..|base|] == mask;
  }

  /** Ranks inside a tile are ranks overall minus the rank at its start. */
  lemma TileRank(b: seq<bool>, begin: nat, k: nat, end: nat)
    requires begin + k <= end <= |b|
    ensures Rank(b, begin + k) == Rank(b, begin) + Rank(b[begin..end], k)
  {
    assert b[..begin + k] == b[..begin] + b[begin..end][..k];
    PopcountConcat(b[..begin], b[begin..end][..k]);
  }

  lemma TilePartial(q: Quantizer, row: Row, begin: nat, k: nat, end: nat, widened: seq<real>)
    requires Fits(q, row) && begin + k < end <= q.Dim()
    requires Rank(q.fp16, begin) <= Rank(q.fp16, end) <= |row.pool16|
    requires widened == row.pool16[Rank(q.fp16, begin)..Rank(q.fp16, end)]
    ensures !q.fp16[begin + k] ==> Partial(q, row, begin + k, true, false) == Bases(q, row)[begin + k]
    ensures q.fp16[begin + k] && Rank(q.fp16[begin..end], k) < |widened| ==>
              Partial(q, row, begin + k, true, false) == Bases(q, row)[begin + k] + widened[Rank(q.fp16[begin..end], k)]
  {
    TileRank(q.fp16, begin, k, end);
  }

  /** The FP16 half of add_residual_tile. */
  method AddHalves(m: Machine, q: Quantizer, code: seq<Cell>, ghost row: Row, begin: nat, count: nat, base: seq<real>)
    returns (out: seq<real>)
    requires Legal(m) && Fits(q, row) && Stores(code, row) && 0 < count && begin + count <= q.Dim()
    requires base == Bases(q, row)[begin..begin + count]
    ensures |out| == count && forall k :: 0 <= k < count ==> out[k] == Partial(q, row, begin + k, true, false)
  {
    var end := begin + count;
    var lo := q.prefix16[begin];
    var hi := if end == q.Dim() then q.count16 else q.prefix16[end];
    TileRanks(q, begin, end);
    var mask := q.fp16[begin..end];
    TileRank(q.fp16, begin, count, end);
    assert mask[..count] == mask;
    if hi != lo {
      var widened := WidenPool(m, code, row, q.Dim(), lo, hi);
      var packed;
      out, packed := Scatter(mask, base, widened);
      assert packed == hi - lo;
      Scattered(q, row, begin, end, widened, base, out);
    } else {
      NoneBetween(q.fp16, begin, end);
      out := base;
    }
  }

  /** What Scatter leaves is the base plus the half residual, dimension by dimension. */
  lemma Scattered(q: Quantizer, row: Row, begin: nat, end: nat, widened: seq<real>, base: seq<real>, out: seq<real>)
    requires Fits(q, row) && begin <= end <= q.Dim() && base == Bases(q, row)[begin..end] && |out| == |base|
    requires Rank(q.fp16, begin) <= Rank(q.fp16, end) <= |row.pool16|
    requires widened == row.pool16[Rank(q.fp16, begin)..Rank(q.fp16, end)]
    requires forall k :: 0 <= k < |base| && !q.fp16[begin..end][k] ==> out[k] == base[k]
    requires forall k :: 0 <= k < |base| && q.fp16[begin..end][k] ==>
               Rank(q.fp16[begin..end], k) < |widened| && out[k] == base[k] + widened[Rank(q.fp16[begin..end], k)]
    ensures forall k :: 0 <= k < |out| ==> out[k] == Partial(q, row, begin + k, true, false)
  {
    forall k | 0 <= k < |out| ensures out[k] == Partial(q, row, begin + k, true, false) {
      TilePartial(q, row, begin, k, end, widened);
      assert q.fp16[begin..end][k] == q.fp16[begin + k];
    }
  }

  lemma TileRanks(q: Quantizer, begin: nat, end: nat)
    requires q.Valid() && begin <= end <= q.Dim()
    ensures Rank(q.fp16, begin) <= Rank(q.fp16, end) <= q.count16
    ensures end == q.Dim() ==> Rank(q.fp16, end) == q.count16
  {
    assert q.fp16[..q.Dim()] == q.fp16;
    RankMonotone(q.fp16, begin, end);
    RankMonotone(q.fp16, end, q.Dim());
  }

  lemma {:induction false} NoneBetween(b: seq<bool>, lo: nat, hi: nat)
    requires lo <= hi <= |b| && Rank(b, lo) == Rank(b, hi)
    ensures forall i :: lo <= i < hi ==> !b[i]
    decreases hi
  {
    if lo < hi {
      RankStep(b, hi - 1);
      RankMonotone(b, lo, hi - 1);
      NoneBetween(b, lo, hi - 1);
    }
  }

  /** What the vector path makes of dimension i. */
  ghost function Recover(q: Quantizer, row: Row, i: nat): real
    requires Fits(q, row) && i < q.Dim()
  {
    FusedBase(q, row.base[i], i) + StoredResidual(q, row, i)
  }

  ghost function Recovered(q: Quantizer, row: Row): (x: seq<real>)
    requires Fits(q, row)
    ensures |x| == q.Dim() && forall i :: 0 <= i < q.Dim() ==> x[i] == Recover(q, row, i)
  {
    seq(q.Dim(), i requires 0 <= i < q.Dim() => Recover(q, row, i))
  }

  /** Dimensions lo .. hi have a non-negative vdiff or a zero base code. */
  ghost predicate Affine(q: Quantizer, row: Row, lo: nat, hi: nat)
    requires Fits(q, row) && lo <= hi <= q.Dim()
  {
    forall i :: lo <= i < hi ==> q.vdiff[i] >= 0.0 || row.base[i] == 0
  }

  /** Both paths agree on a stretch of dimensions exactly under that condition. */
  lemma RecoveryExact(q: Quantizer, row: Row, lo: nat, hi: nat)
    requires Fits(q, row) && lo <= hi <= q.Dim()
    ensures Recovered(q, row)[lo..hi] == Reconstructed(q, row)[lo..hi] <==> Affine(q, row, lo, hi)
  {
    var a, b := Recovered(q, row), Reconstructed(q, row);
    forall i | lo <= i < hi ensures a[i] == b[i] <==> q.vdiff[i] >= 0.0 || row.base[i] == 0 {
      SameScale(q, row.base[i], i);
    }
    if a[lo..hi] == b[lo..hi] {
      forall i | lo <= i < hi ensures q.vdiff[i] >= 0.0 || row.base[i] == 0 {
        assert a[i] == a[lo..hi][i - lo] && b[i] == b[lo..hi][i - lo];
      }
    }
  }

  /** Encoding writes a zero base wherever vdiff is not positive, so every encoded row is recovered
      alike by both paths, whatever the quantizer. */
  lemma EncodedRowsAgree(q: Quantizer, x: seq<real>, round16: real -> real)
    requires q.Valid() && |x| == q.Dim()
    ensures
      var row := RowFor(q, x, round16);
      Fits(q, row) && Affine(q, row, 0, q.Dim()) && Recovered(q, row) == Reconstructed(q, row)
  {
    var row := RowFor(q, x, round16);
    assert Fits(q, row);
    RecoveryExact(q, row, 0, q.Dim());
    var a, b := Recovered(q, row), Reconstructed(q, row);
    assert a[0..q.Dim()] == a && b[0..q.Dim()] == b;
  }

  method AddWords(q: Quantizer, code: seq<Cell>, ghost row: Row, begin: nat, count: nat, halves: seq<real>)
    returns (out: seq<real>)
    requires Fits(q, row) && Stores(code, row) && begin + count <= q.Dim() && |halves| == count
    requires forall k :: 0 <= k < count ==> halves[k] == Partial(q, row, begin + k, true, false)
    ensures out == Recovered(q, row)[begin..begin + count]
  {
    out := halves;
    for k := 0 to count
      invariant |out| == count
      invariant forall h :: 0 <= h < k ==> out[h] == Recover(q, row, begin + h)
      invariant forall h :: k <= h < count ==> out[h] == halves[h]
    {
      var i := begin + k;
      if q.fp32[i] {
        RankBelow(q.fp32, i);
        var residual := LoadWord(code, q.Dim() + q.count16 * 2 + q.prefix32[i] * 4, row.pool32[Rank(q.fp32, i)]);
        out := out[k := out[k] + residual];
      }
    }
  }

  /** decode_tile: the tile's recovery, or a refusal past the tile capacity. It is the portable
      reconstruction exactly where no negative vdiff meets a non-zero code. */
  method DecodeTile(m: Machine, q: Quantizer, code: seq<Cell>, ghost row: Row, begin: nat, count: nat)
    returns (r: Option<seq<real>>)
    requires Legal(m) && Fits(q, row) && Stores(code, row) && begin + count <= q.Dim()
    ensures r.Some? <==> count <= TILE
    ensures r.Some? ==> r.value == Recovered(q, row)[begin..begin + count]
    ensures r.Some? ==>
      (r.value == Reconstructed(q, row)[begin..begin + count] <==> Affine(q, row, begin, begin + count))
  {
    RecoveryExact(q, row, begin, begin + count);
    var out := BaseTile(m, q, code, row, begin, count);
    if count == 0 {
      return Some(out);
    }
    if count > TILE {
      return None;
    }
    out := AddHalves(m, q, code, row, begin, count, out);
    out := AddWords(q, code, row, begin, count, out);
    r := Some(out);
  }

  // ---------------------------------------------------------------------------
  // Distances
  // ---------------------------------------------------------------------------

  /** accumulate_tile: each strip is reduced on its own. */
  method AccumulateTile(m: Machine, term: (real, real) -> real, scratch: nat -> real, a: seq<real>, b: seq<real>)
    returns (total: real)
    requires Legal(m) && |a| == |b|
    ensures total == Fold(Plus, Terms(term, a, b))
  {
    ghost var t := Terms(term, a, b);
    total := 0.0;
    var offset: nat := 0;
    while offset < |a|
      invariant offset <= |a| && total == Fold(Plus, t[..offset])
    {
      StripBounds(m, |a| - offset);
      var vl := m.vsetvl(|a| - offset);
      var lanes := LaneTerms(term, a, b, offset, vl, m.vlmax, scratch);
      FoldExtend(Plus, t, offset, vl);
      total := total + Fold(Plus, lanes[..vl]);
      offset := offset + vl;
    }
    assert t[..|a|] == t;
  }

  /** Adds one tile's part of the distance. */
  method AddTile(m: Machine, term: (real, real) -> real, scratch: nat -> real, q: Quantizer, query: seq<real>,
                 code: seq<Cell>, ghost row: Row, begin: nat, count: nat, total0: real, ghost t: seq<real>)
    returns (total: real)
    requires Legal(m) && Fits(q, row) && Stores(code, row) && |query| == q.Dim()
    requires begin + count <= q.Dim() && count <= TILE && t == Terms(term, query, Recovered(q, row))
    requires total0 == Fold(Plus, t[..begin])
    ensures total == Fold(Plus, t[..begin + count])
  {
    var tile := DecodeTile(m, q, code, row, begin, count);
    TermsOfSlice(term, query, Recovered(q, row), begin, count);
    FoldExtend(Plus, t, begin, count);
    var part := AccumulateTile(m, term, scratch, query[begin..begin + count], tile.value);
    total := total0 + part;
  }

  /** HybridDistanceComputer_rvv: tile by tile, the distance to the recovered row. */
  method TileLoop(m: Machine, term: (real, real) -> real, scratch: nat -> real, q: Quantizer,
                  query: seq<real>, code: seq<Cell>, ghost row: Row) returns (total: real)
    requires Legal(m) && Fits(q, row) && Stores(code, row) && |query| == q.Dim()
    ensures total == Fold(Plus, Terms(term, query, Recovered(q, row)))
  {
    ghost var t := Terms(term, query, Recovered(q, row));
    total := 0.0;
    var begin: nat := 0;
    while begin < q.Dim()
      invariant begin <= q.Dim() && total == Fold(Plus, t[..begin])
    {
      var count := if q.Dim() - begin < TILE then q.Dim() - begin else TILE;
      total := AddTile(m, term, scratch, q, query, code, row, begin, count, total, t);
      begin := begin + count;
    }
    assert t[..q.Dim()] == t;
  }

  /** On every encoded row of every quantizer that is the portable distance. */
  method TiledDistance(m: Machine, term: (real, real) -> real, scratch: nat -> real, q: Quantizer,
                       query: seq<real>, code: seq<Cell>, ghost x: seq<real>, ghost round16: real -> real)
    returns (total: real)
    requires Legal(m) && q.Valid() && |x| == |query| == q.Dim() && Stores(code, RowFor(q, x, round16))
    ensures Fits(q, RowFor(q, x, round16))
    ensures total == Fold(Plus, Terms(term, query, Reconstructed(q, RowFor(q, x, round16))))
  {
    EncodedRowsAgree(q, x, round16);
    total := TileLoop(m, term, scratch, q, query, code, RowFor(q, x, round16));
  }

  lemma TermsOfSlice(term: (real, real) -> real, x: seq<real>, y: seq<real>, at: nat, n: nat)
    requires |x| == |y| && at + n <= |x|
    ensures Terms(term, x[at..at + n], y[at..at + n]) == Terms(term, x, y)[at..at + n]
  {
  }

  /** The portable path: decode the whole row, then the scalar distance. */
  method PortableDistance(term: (real, real) -> real, q: Quantizer, query: seq<real>, code: seq<Cell>, ghost row: Row)
    returns (total: real)
    requires Fits(q, row) && Stores(code, row) && |query| == q.Dim()
    ensures total == Fold(Plus, Terms(term, query, Reconstructed(q, row)))
  {
    var decoded := Decode(q, code, row);
    total := ScalarReference(Plus, term, query, decoded);
  }
}
