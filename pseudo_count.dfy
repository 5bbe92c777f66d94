/**
 * The arithmetic of the pseudo-count density model (game_state.py:99-132,
 * 237-243): the quantisation of a downsized frame into buckets, and the number
 * of observed images that hit a given (slot, bucket) cell.
 */
module PseudoCount {
  import opened Arith

  newtype byte = x: int | 0 <= x < 256

  /** The element type of the array handed to psc_add_image. */
  datatype PscImage = UInt8(pixels: seq<byte>) | OtherDType(values: seq<real>)

  datatype PscError =
    | DTypeError   // the fatal "Internal ERROR in dtype" exit
    | IndexError   // numpy cannot index the count table with the image

  /**
   * uint8(x * (maxval / 255)): the bucket of one pixel, the floor of the
   * exact product for the non-negative values involved.
   */
  function Quantise(x: byte, maxval: nat): (q: byte)
    requires maxval <= 255
    ensures q as int <= maxval
    ensures q as int * 255 <= x as int * maxval < (q as int + 1) * 255
  {
    ScaledFloor(x as int, maxval);
    (x as int * maxval / 255) as byte
  }

  lemma ScaledFloor(x: int, maxval: nat)
    requires 0 <= x <= 255 && maxval <= 255
    ensures 0 <= x * maxval / 255 <= maxval
    ensures (x * maxval / 255) * 255 <= x * maxval < (x * maxval / 255 + 1) * 255
  {
    var p := x * maxval;
    assert p == p / 255 * 255 + p % 255;
    assert p <= 255 * maxval;
  }

  /** Brighter pixels never land in a lower bucket. */
  lemma QuantiseMonotone(x: byte, y: byte, maxval: nat)
    requires maxval <= 255 && x <= y
    ensures Quantise(x, maxval) <= Quantise(y, maxval)
  {
    var qx, qy := Quantise(x, maxval) as int, Quantise(y, maxval) as int;
    assert x as int * maxval <= y as int * maxval;
    if qx > qy {
      MulAtLeast(qx - qy, 255);
    }
  }

  /** Black is bucket 0 and white is the top bucket maxval. */
  lemma QuantiseEnds(maxval: nat)
    requires maxval <= 255
    ensures Quantise(0, maxval) == 0 && Quantise(255, maxval) as int == maxval
  {
    var top := Quantise(255, maxval) as int;
    if top < maxval {
      MulAtLeast(maxval - top, 255);
    }
  }

  /** The whole downsized image, pixel by pixel (game_state.py:242). */
  function QuantiseImage(img: seq<byte>, maxval: nat): (q: seq<byte>)
    requires maxval <= 255
    ensures |q| == |img| && forall i :: 0 <= i < |q| ==> q[i] as int <= maxval
  {
    seq(|img|, i requires 0 <= i < |img| => Quantise(img[i], maxval))
  }

  /** The number of images in `log` whose slot `i` falls in bucket `j`. */
  function Hits(log: seq<seq<byte>>, i: nat, j: nat): nat
  {
    if log == [] then 0
    else
      var last := log[|log| - 1];
      Hits(log[..|log| - 1], i, j) + (if i < |last| && last[i] as int == j then 1 else 0)
  }

  lemma HitsAppend(log: seq<seq<byte>>, img: seq<byte>, i: nat, j: nat)
    ensures Hits(log + [img], i, j) == Hits(log, i, j) + (if i < |img| && img[i] as int == j then 1 else 0)
  {
    assert (log + [img])[..|log|] == log;
  }

  /** Every image of the log hits exactly one bucket of each of its slots. */
  lemma {:induction false} HitsPerSlot(log: seq<seq<byte>>, k: nat, i: nat, maxval: nat)
    requires i < k && forall m :: 0 <= m < |log| ==> |log[m]| == k && forall s :: 0 <= s < k ==> log[m][s] as int <= maxval
    ensures SumHits(log, i, maxval + 1) == |log|
  {
    if log == [] {
      SumHitsEmpty(i, maxval + 1);
    } else {
      var init, last := log[..|log| - 1], log[|log| - 1];
      assert init + [last] == log;
      assert forall m :: 0 <= m < |init| ==> init[m] == log[m];
      HitsPerSlot(init, k, i, maxval);
      SumHitsAppend(init, last, i, maxval + 1);
      assert i < |last| && last[i] as int <= maxval;
    }
  }

  /** The total over buckets 0..width-1 of slot i. */
  function SumHits(log: seq<seq<byte>>, i: nat, width: nat): nat
  {
    if width == 0 then 0 else SumHits(log, i, width - 1) + Hits(log, i, width - 1)
  }

  lemma {:induction false} SumHitsAppend(log: seq<seq<byte>>, img: seq<byte>, i: nat, width: nat)
    ensures SumHits(log + [img], i, width) ==
      SumHits(log, i, width) + (if i < |img| && img[i] as int < width then 1 else 0)
  {
    if width > 0 {
      SumHitsAppend(log, img, i, width - 1);
      HitsAppend(log, img, i, width - 1);
    }
  }

  lemma {:induction false} SumHitsEmpty(i: nat, width: nat)
    ensures SumHits([], i, width) == 0
  {
    if width > 0 {
      SumHitsEmpty(i, width - 1);
    }
  }
}
