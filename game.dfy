/**
 * The gameplay scene's level setup and clock: the two-layer tile map, the
 * goal, the obstacles and the elapsed-time label, as fields the scene
 * updates in place.
 */
module Game {
  import opened Terrain
  import opened Placement
  import opened Timekeeping

  class GameScene {
    /** The scene size in points, as integers. */
    const width: int
    const height: int

    var obstacles: seq<Point>
    var goal: Point

    /** Whether the (otherwise empty) grid-map node has been added to the scene. */
    var gridMapAdded: bool
    var bottomLayer: array2?<Cell>
    var topLayer: array2?<Cell>

    var lastUpdateTime: real
    var startTime: real
    var elapsedTime: int
    var timeLabelText: string

    function ClockState(): Clock
      reads this
    {
      Clock(lastUpdateTime, startTime, elapsedTime)
    }

    /** The time label always shows the current count. */
    predicate LabelInSync()
      reads this
    {
      timeLabelText == LabelText(elapsedTime)
    }

    constructor (width: int, height: int)
      ensures this.width == width && this.height == height
      ensures obstacles == [] && goal == Point(0, 0)
      ensures !gridMapAdded && bottomLayer == null && topLayer == null
      ensures ClockState() == InitialClock && LabelInSync()
    {
      this.width := width;
      this.height := height;
      obstacles := [];
      goal := Point(0, 0);
      gridMapAdded := false;
      bottomLayer := null;
      topLayer := null;
      lastUpdateTime := -1.0;
      startTime := 0.0;
      elapsedTime := 0;
      timeLabelText := "0 sec";
      InitialLabel();
    }

    /** Assigning `elapsedTime`; its observer rewrites the label text. */
    method SetElapsedTime(value: int)
      modifies this`elapsedTime, this`timeLabelText
      ensures elapsedTime == value && LabelInSync()
    {
      elapsedTime := value;
      timeLabelText := LabelText(elapsedTime);
    }

    /**
     * Builds the tile map from the noise samples `noise(x, y)`. Without a
     * tile set only the grid-map node is added. Otherwise the bottom layer is
     * sand everywhere and the top-layer cell at (column, row) is classified
     * from the sample at x = row, y = column.
     */
    method SetupMap(tileSetFound: bool, noise: (int, int) -> real)
      modifies this`gridMapAdded, this`bottomLayer, this`topLayer
      ensures gridMapAdded
      ensures !tileSetFound ==> bottomLayer == old(bottomLayer) && topLayer == old(topLayer)
      ensures tileSetFound ==>
        bottomLayer != null && topLayer != null && fresh(bottomLayer) && fresh(topLayer) &&
        bottomLayer.Length0 == Columns && bottomLayer.Length1 == Rows &&
        topLayer.Length0 == Columns && topLayer.Length1 == Rows &&
        (forall column, row :: 0 <= column < Columns && 0 <= row < Rows ==>
          bottomLayer[column, row] == Filled(Sand)) &&
        (forall column, row :: 0 <= column < Columns && 0 <= row < Rows ==>
          topLayer[column, row] == Filled(Classify(noise(row, column))))
    {
      gridMapAdded := true;
      if !tileSetFound {
        return;
      }
      var bottom := new Cell[Columns, Rows]((column, row) => Filled(Sand));
      var top := new Cell[Columns, Rows]((column, row) => Empty);
      for column := 0 to Columns
        modifies top
        invariant forall c, r :: 0 <= c < column && 0 <= r < Rows ==> top[c, r] == Filled(Classify(noise(r, c)))
      {
        for row := 0 to Rows
          modifies top
          invariant forall c, r :: 0 <= c < column && 0 <= r < Rows ==> top[c, r] == Filled(Classify(noise(r, c)))
          invariant forall r :: 0 <= r < row ==> top[column, r] == Filled(Classify(noise(r, column)))
        {
          var terrainHeight := noise(row, column);
          if terrainHeight >= 0.0 {
            top[column, row] := Filled(Cobblestone);
          } else if terrainHeight < 0.0 {
            top[column, row] := Filled(Water);
          }
        }
      }
      bottomLayer := bottom;
      topLayer := top;
    }

    /** Puts the goal at the corner picked by `index`, a draw from 0 to 3. */
    method CreateGoal(index: int, goalWidth: int, goalHeight: int)
      requires 0 <= index < 4
      modifies this`goal
      ensures goal == GoalCorners(width, height, goalWidth, goalHeight)[index]
      ensures 0 <= goalWidth <= width && 0 <= goalHeight <= height ==>
        0 <= goal.x && goal.x + goalWidth <= width && 0 <= goal.y && goal.y + goalHeight <= height
    {
      var position := GoalCorners(width, height, goalWidth, goalHeight);
      goal := position[index];
      if 0 <= goalWidth <= width && 0 <= goalHeight <= height {
        GoalInsideScene(width, height, goalWidth, goalHeight, index);
      }
    }

    /**
     * The rejection-sampling loop over the candidate centres `draws`, each
     * drawn from the inset box. Returns how many draws it used.
     */
    method CreateObstacles(draws: seq<Point>, obstacleWidth: int) returns (used: nat)
      modifies this`obstacles
      ensures (obstacles, used) == Place(old(obstacles), draws, obstacleWidth)
      ensures used <= |draws| && old(obstacles) <= obstacles
      ensures forall k :: |old(obstacles)| <= k < |obstacles| ==> obstacles[k] in draws[..used]
      ensures forall k :: 0 <= k < used ==> draws[k] in obstacles || Overlaps(draws[k], obstacles, obstacleWidth)
      ensures |old(obstacles)| <= MaxObstacles ==>
        |obstacles| <= MaxObstacles && (|obstacles| == MaxObstacles || used == |draws|)
      ensures forall i, j :: 0 <= i < j < |obstacles| && |old(obstacles)| <= j ==>
        !TooClose(obstacles[j], obstacles[i], obstacleWidth)
      ensures (forall d :: d in draws ==> InInsetBox(d, width, height)) ==>
        forall k :: |old(obstacles)| <= k < |obstacles| ==> InInsetBox(obstacles[k], width, height)
    {
      used := 0;
      while |obstacles| < MaxObstacles && used < |draws|
        invariant used <= |draws|
        invariant Place(obstacles, draws[used..], obstacleWidth).0 == Place(old(obstacles), draws, obstacleWidth).0
        invariant used + Place(obstacles, draws[used..], obstacleWidth).1 == Place(old(obstacles), draws, obstacleWidth).1
        decreases |draws| - used
      {
        var position := draws[used];
        assert draws[used..][1..] == draws[used + 1..];
        used := used + 1;
        var isObstacleOverlapped := Overlaps(position, obstacles, obstacleWidth);
        if isObstacleOverlapped {
          continue;
        }
        obstacles := obstacles + [position];
      }
      PlaceAppends(old(obstacles), draws, obstacleWidth);
      PlaceSeparates(old(obstacles), draws, obstacleWidth);
      PlaceDropsOnlyTooClose(old(obstacles), draws, obstacleWidth);
      if forall d :: d in draws ==> InInsetBox(d, width, height) {
        PlaceInInsetBox(old(obstacles), draws, obstacleWidth, width, height);
      }
    }

    /** One frame of the clock; the count is refreshed every frame. */
    method Update(currentTime: real)
      modifies this`lastUpdateTime, this`startTime, this`elapsedTime, this`timeLabelText
      ensures ClockState() == Tick(old(ClockState()), currentTime)
      ensures old(lastUpdateTime) < 0.0 ==> startTime == currentTime && elapsedTime == 0
      ensures old(lastUpdateTime) >= 0.0 ==> startTime == old(startTime)
      ensures LabelInSync()
    {
      if lastUpdateTime < 0.0 {
        lastUpdateTime := currentTime;
        startTime := currentTime;
      }
      lastUpdateTime := currentTime;
      SetElapsedTime(Truncate(lastUpdateTime - startTime));
    }

    /**
     * Presenting the scene: the map, then the goal, then the obstacles (the
     * camera is never set up, and the label setup only styles the label).
     */
    method DidMove(tileSetFound: bool, noise: (int, int) -> real, goalIndex: int, goalWidth: int, goalHeight: int,
                   draws: seq<Point>, obstacleWidth: int) returns (used: nat)
      requires 0 <= goalIndex < 4
      modifies this`gridMapAdded, this`bottomLayer, this`topLayer, this`goal, this`obstacles
      ensures gridMapAdded
      ensures !tileSetFound ==> bottomLayer == old(bottomLayer) && topLayer == old(topLayer)
      ensures tileSetFound ==>
        bottomLayer != null && topLayer != null && fresh(bottomLayer) && fresh(topLayer) &&
        bottomLayer.Length0 == Columns && bottomLayer.Length1 == Rows &&
        topLayer.Length0 == Columns && topLayer.Length1 == Rows &&
        (forall column, row :: 0 <= column < Columns && 0 <= row < Rows ==>
          bottomLayer[column, row] == Filled(Sand)) &&
        (forall column, row :: 0 <= column < Columns && 0 <= row < Rows ==>
          topLayer[column, row] == Filled(Classify(noise(row, column))))
      ensures goal == GoalCorners(width, height, goalWidth, goalHeight)[goalIndex]
      ensures (obstacles, used) == Place(old(obstacles), draws, obstacleWidth)
      ensures forall k :: 0 <= k < used ==> draws[k] in obstacles || Overlaps(draws[k], obstacles, obstacleWidth)
    {
      SetupMap(tileSetFound, noise);
      CreateGoal(goalIndex, goalWidth, goalHeight);
      used := CreateObstacles(draws, obstacleWidth);
    }
  }
}
