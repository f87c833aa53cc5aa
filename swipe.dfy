/** The touch-swipe recogniser of the apartment slider: the five variables `startX`,
    `startY`, `endX`, `endY` and `isScrolling` shared by the `touchstart`, `touchmove` and
    `touchend` handlers, and the slide command a completed gesture fires. */
module Swipe {

  /** Minimum horizontal travel, in pixels, for a swipe to change the slide. */
  const Threshold: int := 50

  datatype Point = Point(x: int, y: int)

  datatype Gesture = Gesture(startX: int, startY: int, endX: int, endY: int, isScrolling: bool)

  /** The values the variables start with, and the ones a completed swipe resets them to. */
  const Released := Gesture(0, 0, 0, 0, false)

  datatype Command = NoCommand | FireNext | FirePrev

  function Abs(x: int): nat
  {
    if x < 0 then -x else x
  }

  /** The handlers test `!startX || !startY`: a start coordinate of 0 reads as "no touch". */
  predicate Tracking(g: Gesture)
  {
    g.startX != 0 && g.startY != 0
  }

  /** Movement from `start` to `p` is more horizontal than vertical. */
  predicate Dominant(start: Point, p: Point)
  {
    Abs(start.x - p.x) > Abs(start.y - p.y)
  }

  function StartPoint(g: Gesture): Point
  {
    Point(g.startX, g.startY)
  }

  /** `touchstart`: records the start and clears `isScrolling`; the end point is kept. */
  function AfterTouchStart(g: Gesture, p: Point): (r: Gesture)
    ensures StartPoint(r) == p && !r.isScrolling
    ensures r.endX == g.endX && r.endY == g.endY
    ensures Tracking(r) <==> p.x != 0 && p.y != 0
  {
    g.(startX := p.x, startY := p.y, isScrolling := false)
  }

  /** `touchmove`: ignored unless tracking; otherwise records the end point and marks the
      gesture horizontal when it is. It never clears `isScrolling`. */
  function AfterTouchMove(g: Gesture, p: Point): (r: Gesture)
    ensures StartPoint(r) == StartPoint(g)
    ensures g.isScrolling ==> r.isScrolling
  {
    if !Tracking(g) then g
    else g.(endX := p.x, endY := p.y, isScrolling := g.isScrolling || Dominant(StartPoint(g), p))
  }

  /** `touchmove` calls `preventDefault()` (suppresses page scrolling) on a horizontal move. */
  predicate PreventsScroll(g: Gesture, p: Point)
  {
    Tracking(g) && Dominant(StartPoint(g), p)
  }

  /** `touchend` fires "next" on a leftward swipe of more than the threshold and "prev" on
      a rightward one; nothing otherwise. */
  function EndCommand(g: Gesture): (c: Command)
    ensures c == FireNext <==> Tracking(g) && g.isScrolling && g.startX - g.endX > Threshold
    ensures c == FirePrev <==> Tracking(g) && g.isScrolling && g.startX - g.endX < -Threshold
  {
    if !Tracking(g) || !g.isScrolling then NoCommand
    else
      var diffX := g.startX - g.endX;
      if Abs(diffX) > Threshold then (if diffX > 0 then FireNext else FirePrev) else NoCommand
  }

  /** `touchend` resets all five variables only when its early-return guard lets it
      through, whether or not the threshold was met. */
  function AfterTouchEnd(g: Gesture): (r: Gesture)
    ensures Tracking(g) && g.isScrolling ==> r == Released && !Tracking(r)
    ensures !(Tracking(g) && g.isScrolling) ==> r == g
    ensures Tracking(g) && g.isScrolling && Abs(g.startX - g.endX) <= Threshold ==>
              r == Released && EndCommand(g) == NoCommand
  {
    if !Tracking(g) || !g.isScrolling then g else Released
  }

  /** A run of `touchmove` events, in order. */
  function AfterMoves(g: Gesture, ps: seq<Point>): (r: Gesture)
  {
    if ps == [] then g else AfterTouchMove(AfterMoves(g, ps[..|ps| - 1]), ps[|ps| - 1])
  }

  /** After `touchstart` at `start` and a run of moves: the start is kept; if tracking,
      the gesture is horizontal exactly when some move was, and the end point is the
      last move's; if not tracking, every move was ignored. */
  lemma {:induction false} MovesOutcome(g: Gesture, start: Point, ps: seq<Point>)
    ensures StartPoint(AfterMoves(AfterTouchStart(g, start), ps)) == start
    ensures start.x != 0 && start.y != 0 ==>
              (AfterMoves(AfterTouchStart(g, start), ps).isScrolling <==>
                 exists i :: 0 <= i < |ps| && Dominant(start, ps[i]))
    ensures start.x != 0 && start.y != 0 && ps != [] ==>
              AfterMoves(AfterTouchStart(g, start), ps).endX == ps[|ps| - 1].x &&
              AfterMoves(AfterTouchStart(g, start), ps).endY == ps[|ps| - 1].y
    ensures start.x == 0 || start.y == 0 ==>
              AfterMoves(AfterTouchStart(g, start), ps) == AfterTouchStart(g, start)
  {
    if ps != [] {
      var front := ps[..|ps| - 1];
      MovesOutcome(g, start, front);
      if start.x != 0 && start.y != 0 {
        assert forall i :: 0 <= i < |front| ==> front[i] == ps[i];
        var h := AfterMoves(AfterTouchStart(g, start), front);
        if AfterMoves(AfterTouchStart(g, start), ps).isScrolling {
          if !Dominant(start, ps[|ps| - 1]) {
            assert h.isScrolling;
            var i :| 0 <= i < |front| && Dominant(start, front[i]);
            assert Dominant(start, ps[i]);
          }
        } else {
          forall i | 0 <= i < |ps| ensures !Dominant(start, ps[i]) {
            if i < |front| { assert ps[i] == front[i]; }
          }
        }
      }
    }
  }

  /** The whole gesture: `touchstart` at `start`, the moves `ps`, then `touchend`. It
      fires "next" exactly when the start has no zero coordinate, some move was more
      horizontal than vertical, and the last move ends more than 50 px left of the start;
      "prev" likewise to the right. The variables are reset exactly when a tracked
      gesture had a horizontal move. */
  lemma SwipeDecides(g: Gesture, start: Point, ps: seq<Point>)
    ensures var h := AfterMoves(AfterTouchStart(g, start), ps);
            EndCommand(h) == FireNext <==>
              start.x != 0 && start.y != 0 && (exists i :: 0 <= i < |ps| && Dominant(start, ps[i])) &&
              start.x - ps[|ps| - 1].x > Threshold
    ensures var h := AfterMoves(AfterTouchStart(g, start), ps);
            EndCommand(h) == FirePrev <==>
              start.x != 0 && start.y != 0 && (exists i :: 0 <= i < |ps| && Dominant(start, ps[i])) &&
              start.x - ps[|ps| - 1].x < -Threshold
    ensures var h := AfterMoves(AfterTouchStart(g, start), ps);
            AfterTouchEnd(h) ==
              if start.x != 0 && start.y != 0 && (exists i :: 0 <= i < |ps| && Dominant(start, ps[i]))
              then Released else h
  {
    MovesOutcome(g, start, ps);
  }

  /** Four sample gestures: a 100 px swipe left fires "next", a 100 px swipe right fires
      "prev", a mostly vertical one fires nothing and keeps its start, and a 30 px
      horizontal one fires nothing but still resets the variables. */
  lemma SwipeExamples(g: Gesture)
    ensures EndCommand(AfterMoves(AfterTouchStart(g, Point(300, 300)), [Point(200, 300)])) == FireNext
    ensures EndCommand(AfterMoves(AfterTouchStart(g, Point(300, 300)), [Point(400, 300)])) == FirePrev
    ensures var h := AfterMoves(AfterTouchStart(g, Point(300, 300)), [Point(280, 200)]);
            EndCommand(h) == NoCommand && AfterTouchEnd(h) == h
    ensures var h := AfterMoves(AfterTouchStart(g, Point(300, 300)), [Point(270, 300)]);
            EndCommand(h) == NoCommand && AfterTouchEnd(h) == Released
  {
  }

  /** A touch that starts on a zero coordinate is not tracked: whatever moves follow, the
      moves are ignored, `touchend` fires nothing and leaves the variables as they were. */
  lemma ZeroStartIgnored(g: Gesture, start: Point, ps: seq<Point>)
    requires start.x == 0 || start.y == 0
    ensures var h := AfterMoves(AfterTouchStart(g, start), ps);
            !Tracking(h) && h == AfterTouchStart(g, start) &&
            EndCommand(h) == NoCommand && AfterTouchEnd(h) == h
  {
    MovesOutcome(g, start, ps);
  }

  /** The closure variables of `addTouchSupport`, updated in place by the three handlers. */
  class SwipeTracker {
    var startX: int
    var startY: int
    var endX: int
    var endY: int
    var isScrolling: bool

    function State(): Gesture
      reads this
    {
      Gesture(startX, startY, endX, endY, isScrolling)
    }

    constructor ()
      ensures State() == Released
    {
      startX, startY, endX, endY, isScrolling := 0, 0, 0, 0, false;
    }

    method TouchStart(x: int, y: int)
      modifies this
      ensures State() == AfterTouchStart(old(State()), Point(x, y))
    {
      startX := x;
      startY := y;
      isScrolling := false;
    }

    method TouchMove(x: int, y: int) returns (preventDefault: bool)
      modifies this
      ensures State() == AfterTouchMove(old(State()), Point(x, y))
      ensures preventDefault == PreventsScroll(old(State()), Point(x, y))
    {
      preventDefault := false;
      if startX == 0 || startY == 0 {
        return;
      }
      endX := x;
      endY := y;
      var diffX := startX - endX;
      var diffY := startY - endY;
      if Abs(diffX) > Abs(diffY) {
        isScrolling := true;
        preventDefault := true;
      }
    }

    method TouchEnd() returns (command: Command)
      modifies this
      ensures command == EndCommand(old(State()))
      ensures State() == AfterTouchEnd(old(State()))
    {
      command := NoCommand;
      if startX == 0 || startY == 0 || !isScrolling {
        return;
      }
      var diffX := startX - endX;
      if Abs(diffX) > Threshold {
        if diffX > 0 {
          command := FireNext;
        } else {
          command := FirePrev;
        }
      }
      startX, startY, endX, endY, isScrolling := 0, 0, 0, 0, false;
    }
  }
}
