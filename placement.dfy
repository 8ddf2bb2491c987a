/**
 * Where the level puts its goal and its obstacles. The random draws of the
 * game are inputs here: a corner index for the goal, and the sequence of
 * candidate positions the obstacle loop draws one after another.
 */
module Placement {

  datatype Point = Point(x: int, y: int)

  /** The obstacle loop stops once this many obstacles are placed. */
  const MaxObstacles: nat := 10

  /** Candidate obstacle centres are drawn this far inside every scene edge. */
  const Inset: int := 64

  /**
   * The four positions the goal may take, in the order the scene lists them:
   * bottom-left, bottom-right, top-left, top-right. The goal's anchor is its
   * lower-left corner, so the right and top corners are pulled in by the
   * goal's own size.
   */
  function GoalCorners(sceneWidth: int, sceneHeight: int, goalWidth: int, goalHeight: int): (corners: seq<Point>)
    ensures |corners| == 4
    ensures forall p :: p in corners ==>
      (p.x == 0 || p.x == sceneWidth - goalWidth) && (p.y == 0 || p.y == sceneHeight - goalHeight)
    ensures goalWidth != sceneWidth && goalHeight != sceneHeight ==>
      forall i, j :: 0 <= i < j < 4 ==> corners[i] != corners[j]
  {
    [Point(0, 0),
     Point(sceneWidth - goalWidth, 0),
     Point(0, sceneHeight - goalHeight),
     Point(sceneWidth - goalWidth, sceneHeight - goalHeight)]
  }

  /**
   * Each corner is flush with the left or the right edge and with the bottom
   * or the top edge; odd indices take the right edge, the upper two the top.
   */
  lemma GoalCornerOnEdges(sceneWidth: int, sceneHeight: int, goalWidth: int, goalHeight: int, i: int)
    requires 0 <= i < 4
    ensures var p := GoalCorners(sceneWidth, sceneHeight, goalWidth, goalHeight)[i];
      (p.x == 0 <==> i % 2 == 0 || goalWidth == sceneWidth) &&
      (p.x + goalWidth == sceneWidth <==> i % 2 == 1 || goalWidth == sceneWidth) &&
      (p.y == 0 <==> i < 2 || goalHeight == sceneHeight) &&
      (p.y + goalHeight == sceneHeight <==> i >= 2 || goalHeight == sceneHeight)
  {
  }

  /** A goal no larger than the scene lies wholly inside it at every corner. */
  lemma GoalInsideScene(sceneWidth: int, sceneHeight: int, goalWidth: int, goalHeight: int, i: int)
    requires 0 <= i < 4
    requires 0 <= goalWidth <= sceneWidth && 0 <= goalHeight <= sceneHeight
    ensures var p := GoalCorners(sceneWidth, sceneHeight, goalWidth, goalHeight)[i];
      0 <= p.x && p.x + goalWidth <= sceneWidth && 0 <= p.y && p.y + goalHeight <= sceneHeight
  {
  }

  /**
   * A candidate is too close to an accepted obstacle when their centres are
   * less than twice the obstacle width apart; the distances are compared
   * squared, which keeps the test in integers.
   */
  predicate TooClose(candidate: Point, accepted: Point, obstacleWidth: int): (close: bool)
    ensures obstacleWidth == 0 ==> !close
    ensures candidate == accepted ==> (close <==> obstacleWidth != 0)
    ensures var reach := 2 * Abs(obstacleWidth);
      close ==> -reach < candidate.x - accepted.x < reach && -reach < candidate.y - accepted.y < reach
  {
    var dx := candidate.x - accepted.x;
    var dy := candidate.y - accepted.y;
    SquareBelow(dx, dy, 2 * Abs(obstacleWidth));
    SquareBelow(dy, dx, 2 * Abs(obstacleWidth));
    dx * dx + dy * dy < 4 * obstacleWidth * obstacleWidth
  }

  function Abs(n: int): nat {
    if n < 0 then -n else n
  }

  /** A coordinate difference of at least `bound` in size already squares to `bound` squared. */
  lemma SquareBelow(a: int, b: int, bound: nat)
    ensures a >= bound || a <= -(bound as int) ==> a * a + b * b >= bound * bound
  {
  }

  lemma TooCloseSymmetric(p: Point, q: Point, obstacleWidth: int)
    ensures TooClose(p, q, obstacleWidth) <==> TooClose(q, p, obstacleWidth)
  {
  }

  /** Whether any accepted obstacle is too close to the candidate. */
  function Overlaps(candidate: Point, accepted: seq<Point>, obstacleWidth: int): (overlapped: bool)
    ensures overlapped <==> exists i :: 0 <= i < |accepted| && TooClose(candidate, accepted[i], obstacleWidth)
  {
    if accepted == [] then false
    else TooClose(candidate, accepted[0], obstacleWidth) || Overlaps(candidate, accepted[1..], obstacleWidth)
  }

  /** Every obstacle is far enough from every obstacle before it. */
  predicate Separated(obstacles: seq<Point>, obstacleWidth: int) {
    forall i, j :: 0 <= i < j < |obstacles| ==> !TooClose(obstacles[j], obstacles[i], obstacleWidth)
  }

  predicate InInsetBox(p: Point, sceneWidth: int, sceneHeight: int) {
    Inset <= p.x <= sceneWidth - Inset && Inset <= p.y <= sceneHeight - Inset
  }

  /**
   * What the rejection-sampling loop leaves behind when it is fed `draws`
   * one at a time: the final obstacle list and the number of draws it used.
   * A drawn candidate that is too close to an accepted obstacle is dropped;
   * any other is appended. The loop stops as soon as `MaxObstacles` are
   * placed, or here also when the draws run out.
   */
  function Place(accepted: seq<Point>, draws: seq<Point>, obstacleWidth: int): (r: (seq<Point>, nat))
    ensures r.1 <= |draws| && accepted <= r.0
    decreases |draws|
  {
    if |accepted| >= MaxObstacles || draws == [] then (accepted, 0)
    else
      var next := if Overlaps(draws[0], accepted, obstacleWidth) then accepted else accepted + [draws[0]];
      var (final, used) := Place(next, draws[1..], obstacleWidth);
      (final, used + 1)
  }

  /**
   * The loop only appends, takes every new obstacle from the draws it used,
   * never goes past `MaxObstacles`, and stops short of `MaxObstacles` only
   * when it has used every draw.
   */
  lemma {:induction false} PlaceAppends(accepted: seq<Point>, draws: seq<Point>, obstacleWidth: int)
    ensures var (final, used) := Place(accepted, draws, obstacleWidth);
      used <= |draws| &&
      accepted <= final &&
      (forall k :: |accepted| <= k < |final| ==> final[k] in draws[..used]) &&
      (|accepted| >= MaxObstacles ==> final == accepted) &&
      (|accepted| <= MaxObstacles ==> |final| <= MaxObstacles) &&
      (|final| >= MaxObstacles || used == |draws|)
    decreases |draws|
  {
    if |accepted| < MaxObstacles && draws != [] {
      var next := if Overlaps(draws[0], accepted, obstacleWidth) then accepted else accepted + [draws[0]];
      PlaceAppends(next, draws[1..], obstacleWidth);
      var (final, used) := Place(next, draws[1..], obstacleWidth);
      assert Place(accepted, draws, obstacleWidth) == (final, used + 1);
      forall k | |accepted| <= k < |final|
        ensures final[k] in draws[..used + 1]
      {
        if k < |next| {
          assert final[k] == next[k] == draws[0];
        } else {
          assert final[k] in draws[1..][..used];
          assert draws[1..][..used] == draws[1..used + 1];
        }
      }
    }
  }

  /**
   * Every obstacle the loop appends is far enough from every obstacle placed
   * before it, so a separated list stays separated.
   */
  lemma {:induction false} PlaceSeparates(accepted: seq<Point>, draws: seq<Point>, obstacleWidth: int)
    ensures var final := Place(accepted, draws, obstacleWidth).0;
      (forall i, j :: 0 <= i < j < |final| && |accepted| <= j ==> !TooClose(final[j], final[i], obstacleWidth)) &&
      (Separated(accepted, obstacleWidth) ==> Separated(final, obstacleWidth))
    decreases |draws|
  {
    if |accepted| < MaxObstacles && draws != [] {
      var next := if Overlaps(draws[0], accepted, obstacleWidth) then accepted else accepted + [draws[0]];
      PlaceSeparates(next, draws[1..], obstacleWidth);
      PlaceAppends(next, draws[1..], obstacleWidth);
      var final := Place(next, draws[1..], obstacleWidth).0;
      forall i, j | 0 <= i < j < |final| && |accepted| <= j
        ensures !TooClose(final[j], final[i], obstacleWidth)
      {
        if j < |next| {
          assert final[j] == draws[0] && final[i] == accepted[i];
        }
      }
    }
  }

  /**
   * The converse of `PlaceSeparates`: a draw the loop used and did not keep
   * was too close to an obstacle in the final list (one placed before it).
   */
  lemma {:induction false} PlaceDropsOnlyTooClose(accepted: seq<Point>, draws: seq<Point>, obstacleWidth: int)
    ensures var (final, used) := Place(accepted, draws, obstacleWidth);
      forall k :: 0 <= k < used ==> draws[k] in final || Overlaps(draws[k], final, obstacleWidth)
    decreases |draws|
  {
    if |accepted| < MaxObstacles && draws != [] {
      var next := if Overlaps(draws[0], accepted, obstacleWidth) then accepted else accepted + [draws[0]];
      PlaceDropsOnlyTooClose(next, draws[1..], obstacleWidth);
      var (final, used) := Place(next, draws[1..], obstacleWidth);
      assert Place(accepted, draws, obstacleWidth) == (final, used + 1);
      forall k | 0 <= k < used + 1
        ensures draws[k] in final || Overlaps(draws[k], final, obstacleWidth)
      {
        if k == 0 {
          if Overlaps(draws[0], accepted, obstacleWidth) {
            var i :| 0 <= i < |accepted| && TooClose(draws[0], accepted[i], obstacleWidth);
            assert final[i] == accepted[i];
          } else {
            assert final[|accepted|] == draws[0];
          }
        } else {
          assert draws[k] == draws[1..][k - 1];
        }
      }
    }
  }

  /** Drawn from the inset box, every new obstacle centre stays inside it. */
  lemma PlaceInInsetBox(accepted: seq<Point>, draws: seq<Point>, obstacleWidth: int, sceneWidth: int, sceneHeight: int)
    requires forall d :: d in draws ==> InInsetBox(d, sceneWidth, sceneHeight)
    ensures var final := Place(accepted, draws, obstacleWidth).0;
      forall k :: |accepted| <= k < |final| ==> InInsetBox(final[k], sceneWidth, sceneHeight)
  {
    PlaceAppends(accepted, draws, obstacleWidth);
  }
}
