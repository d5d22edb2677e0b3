/**
 * The custom cursor (src/components/CustomCursor.tsx): the mouse
 * position and a trail of recent mouse samples, a sliding window that
 * keeps the last eight samples and appends the new one.
 */
module CustomCursor {

  /** A trail sample: the mouse's coordinates and the millisecond timestamp used as its key. */
  datatype TrailPoint = TrailPoint(x: int, y: int, id: int)

  /** How many earlier samples a move keeps (`slice(-8)`); with the new one the trail holds at most nine. */
  const Kept := 8
  const MaxTrail := Kept + 1

  function Min(a: int, b: int): int { if a <= b then a else b }

  /** `s.slice(-k)` for `k > 0`: the last `k` elements, or all of `s` when it is shorter. */
  function LastN<T>(s: seq<T>, k: nat): (r: seq<T>)
    requires k > 0
    ensures |r| == Min(k, |s|)
    ensures s == s[..|s| - |r|] + r
  {
    s[|s| - Min(k, |s|)..]
  }

  /** The trail after one move: `[...prev.slice(-8), point]`. */
  function NextTrail(prev: seq<TrailPoint>, point: TrailPoint): (r: seq<TrailPoint>)
    ensures |r| == Min(|prev| + 1, MaxTrail)
    ensures r[|r| - 1] == point
    ensures r[..|r| - 1] == LastN(prev, Kept)
    ensures |prev| < MaxTrail ==> r == prev + [point]
    ensures |prev| == MaxTrail ==> r == prev[1..] + [point]
  {
    LastN(prev, Kept) + [point]
  }

  /** The trail left by a sequence of moves, oldest first, starting from the empty trail. */
  function Replay(moves: seq<TrailPoint>): seq<TrailPoint>
    decreases |moves|
  {
    if |moves| == 0 then [] else NextTrail(Replay(moves[..|moves| - 1]), moves[|moves| - 1])
  }

  /** One move turns the window over a history into the window over the history plus that move. */
  lemma WindowStep(history: seq<TrailPoint>, point: TrailPoint)
    ensures NextTrail(LastN(history, MaxTrail), point) == LastN(history + [point], MaxTrail)
  {
  }

  /** However many moves happen, the trail is exactly the last (at most nine) samples, in order. */
  lemma {:induction false} ReplayIsWindow(moves: seq<TrailPoint>)
    ensures Replay(moves) == LastN(moves, MaxTrail)
    ensures |Replay(moves)| <= MaxTrail
    decreases |moves|
  {
    if |moves| > 0 {
      var init, last := moves[..|moves| - 1], moves[|moves| - 1];
      assert init + [last] == moves;
      ReplayIsWindow(init);
      WindowStep(init, last);
      calc {
        Replay(moves);
        NextTrail(Replay(init), last);
        NextTrail(LastN(init, MaxTrail), last);
        LastN(init + [last], MaxTrail);
      }
    }
  }

  /** The cursor component's state. */
  class Cursor {
    var mouseX: int
    var mouseY: int
    var trail: seq<TrailPoint>
    /** Every sample seen so far; the trail is its window of the last nine. */
    ghost var history: seq<TrailPoint>

    ghost predicate Valid()
      reads this
    {
      trail == LastN(history, MaxTrail)
    }

    constructor ()
      ensures Valid()
      ensures mouseX == 0 && mouseY == 0 && trail == [] && history == []
    {
      mouseX, mouseY := 0, 0;
      trail := [];
      history := [];
    }

    /** `handleMouseMove`: the mouse moves to `(x, y)` at time `now`. */
    method MouseMove(x: int, y: int, now: int)
      requires Valid()
      modifies this
      ensures Valid()
      ensures mouseX == x && mouseY == y
      ensures history == old(history) + [TrailPoint(x, y, now)]
      ensures trail == NextTrail(old(trail), TrailPoint(x, y, now))
      ensures |trail| <= MaxTrail
    {
      mouseX, mouseY := x, y;
      var point := TrailPoint(x, y, now);
      ghost var h := history;
      var next := NextTrail(trail, point);
      assert next == NextTrail(LastN(h, MaxTrail), point);
      WindowStep(h, point);
      trail, history := next, h + [point];
    }
  }
}
