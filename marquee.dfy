/**
 * The marquee ticker (src/components/Marquee.tsx): the items are rendered
 * twice in a row, and a per-frame callback moves the strip one pixel left,
 * snapping back to 0 once it has moved half the strip's width.
 */
module Marquee {
  import opened ModArith

  function Abs(x: int): int { if x < 0 then -x else x }

  /** `[...items, ...items]`: the items twice, so the snap back at half width is invisible. */
  function Duplicated<T>(items: seq<T>): (r: seq<T>)
    ensures |r| == 2 * |items|
    ensures r[..|items|] == items && r[|items|..] == items
  {
    items + items
  }

  /**
   * Why the snap back at half width is seamless: every stretch of
   * `|items|` consecutive entries starting in the first half of the
   * doubled strip shows the items rotated, and the entry `|items|`
   * further on is the same as the one here.
   */
  lemma {:induction false} DuplicatedIsSeamless<T>(items: seq<T>, j: int)
    requires 0 <= j <= |items|
    ensures Duplicated(items)[j..j + |items|] == items[j..] + items[..j]
    ensures j < |items| ==> Duplicated(items)[j] == Duplicated(items)[j + |items|]
  {
    var d := Duplicated(items);
    var n := |items|;
    forall k | 0 <= k < n ensures d[j..j + n][k] == (items[j..] + items[..j])[k] {
      if j + k < n {
        assert d[j + k] == items[j + k];
      } else {
        assert d[j + k] == items[j + k - n];
      }
    }
  }

  /**
   * One call of `animate` for a strip `width` pixels wide: `position -= 1`,
   * then back to 0 when `|position| >= width / 2`. The division is on reals
   * in the source, so the test is `2 * |position| >= width` exactly.
   */
  function Step(position: int, width: nat): (r: int)
    ensures r == position - 1 || r == 0
    ensures position <= 0 ==> r <= 0 && (r == 0 || 2 * Abs(r) < width)
  {
    var p := position - 1;
    if 2 * Abs(p) >= width then 0 else p
  }

  /** The position after `k` frames of a strip of fixed width, starting from 0. */
  function After(k: nat, width: nat): int
  {
    if k == 0 then 0 else Step(After(k - 1, width), width)
  }

  /** The period of the motion: the least `p >= 1` with `2 * p >= width`. */
  function Period(width: nat): (p: int)
    ensures p >= 1 && 2 * p >= width
    ensures p == 1 || 2 * (p - 1) < width
  {
    if width <= 2 then 1 else (width + 1) / 2
  }

  /** After `k` frames the strip sits at `-(k mod p)`: it walks `p - 1` pixels left and snaps back. */
  lemma {:induction false} AfterIsPeriodic(k: nat, width: nat)
    ensures After(k, width) == -(k % Period(width))
  {
    if k > 0 {
      AfterIsPeriodic(k - 1, width);
      ModSucc(k - 1, Period(width));
    }
  }

  /** The running ticker. `speed` is a prop that no frame reads: the step is always one pixel. */
  class Ticker<T> {
    const items: seq<T>
    const speed: int
    /** The `position` variable of the animation closure. */
    var position: int
    /** The last `translateX` written to the strip's style. */
    var translateX: int

    /** Mounting starts the animation at 0. */
    constructor (items: seq<T>, speed: int)
      ensures this.items == items && this.speed == speed
      ensures position == 0 && translateX == 0
    {
      this.items := items;
      this.speed := speed;
      position := 0;
      translateX := 0;
    }

    /** One animation frame, with the strip's current `scrollWidth` as input. */
    method Frame(scrollWidth: nat)
      requires position <= 0
      modifies this
      ensures position == Step(old(position), scrollWidth) && translateX == position
      ensures position <= 0 && (position == 0 || 2 * Abs(position) < scrollWidth)
    {
      position := position - 1;
      if 2 * Abs(position) >= scrollWidth {
        position := 0;
      }
      translateX := position;
    }
  }
}
