/**
 * Grid movement, collision detection and the level countdown of the puzzle game.
 *
 * The game world is modelled as the ordered list of entities that carry a grid
 * position (the player, the goals and the traps) together with the optional
 * countdown timer resource. The engine's change detection is replaced by explicit
 * per-entity "changed this frame" flags, events by returned counts, and frame time
 * by natural-number durations in milliseconds.
 */
module GameMechanics {
  import opened Wrappers

  /** Width and height of the playfield, in cells. */
  const GridSizeX: int := 8
  const GridSizeY: int := 12

  /** Bounds of the 32-bit signed integers the coordinates are stored in. */
  const I32Min: int := -0x8000_0000
  const I32Max: int := 0x7fff_ffff

  datatype GridPos = GridPos(x: int, y: int)

  datatype GameColor = Red | Green | Blue | Yellow | Cyan | Pink | White

  /** The marker component that says what an entity is. */
  datatype Role = Player | Goal | Trap

  /** An entity that lives on the grid: its role marker, its cell and its colour. */
  datatype GridObject = GridObject(role: Role, pos: GridPos, color: GameColor)

  predicate InGrid(p: GridPos) {
    0 <= p.x < GridSizeX && 0 <= p.y < GridSizeY
  }

  predicate FitsI32(p: GridPos) {
    I32Min <= p.x <= I32Max && I32Min <= p.y <= I32Max
  }

  // ---------------------------------------------------------------------------
  // Movement
  // ---------------------------------------------------------------------------

  /** The keys the game reacts to; a frame's input is the set of keys pressed in that frame. */
  datatype Key = W | A | S | D | Up | Left | Down | Right

  datatype Direction = MoveUp | MoveLeft | MoveDown | MoveRight

  /** The one direction honoured in a frame: the first pressed one in the order up, left, down, right. */
  function FirstDirection(keys: set<Key>): Option<Direction> {
    if W in keys || Up in keys then Some(MoveUp)
    else if A in keys || Left in keys then Some(MoveLeft)
    else if S in keys || Down in keys then Some(MoveDown)
    else if D in keys || Right in keys then Some(MoveRight)
    else None
  }

  /** The wall test made before moving: only the side the move goes towards is checked. */
  predicate AtWall(p: GridPos, d: Direction) {
    match d
    case MoveUp => p.y >= GridSizeY - 1
    case MoveLeft => p.x <= 0
    case MoveDown => p.y <= 0
    case MoveRight => p.x >= GridSizeX - 1
  }

  function Shift(p: GridPos, d: Direction): GridPos {
    match d
    case MoveUp => GridPos(p.x, p.y + 1)
    case MoveLeft => GridPos(p.x - 1, p.y)
    case MoveDown => GridPos(p.x, p.y - 1)
    case MoveRight => GridPos(p.x + 1, p.y)
  }

  /** Where the player ends up after one frame of input. */
  function Step(p: GridPos, keys: set<Key>): GridPos {
    match FirstDirection(keys)
    case None => p
    case Some(d) => if AtWall(p, d) then p else Shift(p, d)
  }

  lemma StepStaysOnGrid(p: GridPos, keys: set<Key>)
    requires InGrid(p)
    ensures InGrid(Step(p, keys))
  {
  }

  /** A frame changes exactly one coordinate by exactly one, or changes nothing. */
  lemma StepIsOneCellOrNone(p: GridPos, keys: set<Key>)
    ensures var q := Step(p, keys);
      q == p
      || (q.x == p.x && (q.y == p.y + 1 || q.y == p.y - 1))
      || (q.y == p.y && (q.x == p.x + 1 || q.x == p.x - 1))
  {
  }

  /** The player moves exactly when some direction is pressed and the first one is not against its wall. */
  lemma StepMovesIffFirstDirectionFree(p: GridPos, keys: set<Key>)
    ensures Step(p, keys) != p <==>
      FirstDirection(keys).Some? && !AtWall(p, FirstDirection(keys).value)
  {
  }

  /** Pressing toward a wall from a cell next to it leaves the position where it was. */
  lemma WallBlocksMove(p: GridPos, keys: set<Key>)
    requires InGrid(p)
    ensures (W in keys || Up in keys) && p.y == GridSizeY - 1 ==> Step(p, keys) == p
    ensures !(W in keys || Up in keys) && (A in keys || Left in keys) && p.x == 0
      ==> Step(p, keys) == p
    ensures (!(W in keys || Up in keys) && !(A in keys || Left in keys)
      && (S in keys || Down in keys) && p.y == 0) ==> Step(p, keys) == p
    ensures keys <= {D, Right} && p.x == GridSizeX - 1 ==> Step(p, keys) == p
  {
  }

  /** A blocked higher-priority key hides a free lower-priority one: no fall-through to the next key. */
  lemma BlockedUpHidesRight(p: GridPos)
    requires p.y == GridSizeY - 1 && 0 <= p.x < GridSizeX - 1
    ensures Step(p, {Up, Right}) == p
    ensures Step(p, {Right}) == GridPos(p.x + 1, p.y)
  {
  }

  /**
   * Only the wall the move heads for is checked, not the whole grid: a player that a
   * level file places off the grid still moves between off-grid cells.
   */
  lemma OffGridPlayerStillMoves()
    ensures !InGrid(GridPos(10, 0)) && !InGrid(GridPos(9, 0))
    ensures Step(GridPos(10, 0), {Left}) == GridPos(9, 0)
    ensures Step(GridPos(10, 0), {Right}) == GridPos(10, 0)
  {
  }

  /** The increments and decrements are guarded, so a 32-bit coordinate never overflows. */
  lemma StepFitsI32(p: GridPos, keys: set<Key>)
    requires FitsI32(p)
    ensures FitsI32(Step(p, keys))
  {
  }

  // ---------------------------------------------------------------------------
  // Queries over the entities
  // ---------------------------------------------------------------------------

  /** The indices of the entities marked Player, in increasing order. */
  function PlayerIndices(objects: seq<GridObject>): (r: seq<nat>)
    ensures forall j: int :: j in r <==> 0 <= j < |objects| && objects[j].role == Player
    ensures forall a, b :: 0 <= a < b < |r| ==> r[a] < r[b]
    ensures forall a :: 0 <= a < |r| ==> r[a] < |objects|
  {
    if objects == [] then []
    else
      var m := |objects| - 1;
      PlayerIndices(objects[..m]) + (if objects[m].role == Player then [m] else [])
  }

  /** The cells of the players listed in `indices` whose position changed this frame. */
  function ChangedCells(objects: seq<GridObject>, changed: seq<bool>, indices: seq<nat>): seq<GridPos>
    requires |changed| == |objects|
    requires forall a :: 0 <= a < |indices| ==> indices[a] < |objects|
  {
    if indices == [] then []
    else
      var k := indices[0];
      (if changed[k] then [objects[k].pos] else []) + ChangedCells(objects, changed, indices[1..])
  }

  /** What the query "player whose GridPos was added or changed" yields. */
  function ChangedPlayerCells(objects: seq<GridObject>, changed: seq<bool>): seq<GridPos>
    requires |changed| == |objects|
  {
    ChangedCells(objects, changed, PlayerIndices(objects))
  }

  /** With a single player, the changed-player query yields its cell exactly when it moved. */
  lemma SinglePlayerCells(objects: seq<GridObject>, changed: seq<bool>)
    requires |changed| == |objects|
    requires |PlayerIndices(objects)| == 1
    ensures var k := PlayerIndices(objects)[0];
      ChangedPlayerCells(objects, changed) == if changed[k] then [objects[k].pos] else []
  {
    var ix := PlayerIndices(objects);
    assert ix[1..] == [];
    assert ChangedCells(objects, changed, ix[1..]) == [];
  }

  /** Number of entities with role `role` standing on `cell`. */
  function CountOnCell(objects: seq<GridObject>, role: Role, cell: GridPos): (n: nat)
    ensures n <= |objects|
  {
    if objects == [] then 0
    else
      var m := |objects| - 1;
      CountOnCell(objects[..m], role, cell)
        + (if objects[m].role == role && objects[m].pos == cell then 1 else 0)
  }

  ghost function MatchingIndices(objects: seq<GridObject>, role: Role, cell: GridPos): set<int> {
    set i | 0 <= i < |objects| && objects[i].role == role && objects[i].pos == cell
  }

  /** The count is the number of distinct matching entities: one event per entity, no deduplication. */
  lemma {:induction false} CountOnCellIsMatchCount(objects: seq<GridObject>, role: Role, cell: GridPos)
    ensures CountOnCell(objects, role, cell) == |MatchingIndices(objects, role, cell)|
  {
    if objects != [] {
      var m := |objects| - 1;
      var prefix := objects[..m];
      CountOnCellIsMatchCount(prefix, role, cell);
      var before := MatchingIndices(prefix, role, cell);
      var now := MatchingIndices(objects, role, cell);
      if objects[m].role == role && objects[m].pos == cell {
        assert now == before + {m};
      } else {
        assert now == before;
      }
    }
  }

  lemma CountOnCellPositiveIff(objects: seq<GridObject>, role: Role, cell: GridPos)
    ensures CountOnCell(objects, role, cell) > 0 <==>
      exists i :: 0 <= i < |objects| && objects[i].role == role && objects[i].pos == cell
  {
    CountOnCellIsMatchCount(objects, role, cell);
    if exists i :: 0 <= i < |objects| && objects[i].role == role && objects[i].pos == cell {
      var i :| 0 <= i < |objects| && objects[i].role == role && objects[i].pos == cell;
      assert i in MatchingIndices(objects, role, cell);
    }
  }

  // ---------------------------------------------------------------------------
  // Collision
  // ---------------------------------------------------------------------------

  /**
   * The scan shared by the goal and trap systems: if exactly one player has a
   * changed position, one event per `target` entity on that player's cell.
   */
  method CollisionEvents(objects: seq<GridObject>, changed: seq<bool>, target: Role) returns (events: nat)
    requires |changed| == |objects|
    requires target != Player
    ensures var cells := ChangedPlayerCells(objects, changed);
      events == if |cells| == 1 then CountOnCell(objects, target, cells[0]) else 0
  {
    var cells := ChangedPlayerCells(objects, changed);
    if |cells| != 1 {
      return 0;
    }
    var cell := cells[0];
    events := 0;
    for i := 0 to |objects|
      invariant events == CountOnCell(objects[..i], target, cell)
    {
      if objects[i].role == target && objects[i].pos == cell {
        events := events + 1;
      }
      assert objects[..i + 1][..i] == objects[..i];
    }
    assert objects[..|objects|] == objects;
  }

  /** `ReachedGoalEvent`s sent in one frame. */
  method ReachGoal(objects: seq<GridObject>, changed: seq<bool>) returns (events: nat)
    requires |changed| == |objects|
    ensures |PlayerIndices(objects)| == 1 ==>
      var k := PlayerIndices(objects)[0];
      events == if changed[k] then CountOnCell(objects, Goal, objects[k].pos) else 0
    ensures PlayerIndices(objects) == [] ==> events == 0
  {
    events := CollisionEvents(objects, changed, Goal);
    if |PlayerIndices(objects)| == 1 {
      SinglePlayerCells(objects, changed);
    }
  }

  /** `HitTrapEvent`s sent in one frame. */
  method HitTrap(objects: seq<GridObject>, changed: seq<bool>) returns (events: nat)
    requires |changed| == |objects|
    ensures |PlayerIndices(objects)| == 1 ==>
      var k := PlayerIndices(objects)[0];
      events == if changed[k] then CountOnCell(objects, Trap, objects[k].pos) else 0
    ensures PlayerIndices(objects) == [] ==> events == 0
  {
    events := CollisionEvents(objects, changed, Trap);
    if |PlayerIndices(objects)| == 1 {
      SinglePlayerCells(objects, changed);
    }
  }

  // ---------------------------------------------------------------------------
  // Countdown
  // ---------------------------------------------------------------------------

  /** A one-shot timer; times are in milliseconds. */
  datatype Timer = Timer(elapsed: nat, duration: nat)

  /** Advancing a one-shot timer: elapsed time grows by `delta` and stops at the duration. */
  function Tick(t: Timer, delta: nat): Timer {
    Timer(if t.elapsed + delta < t.duration then t.elapsed + delta else t.duration, t.duration)
  }

  predicate Finished(t: Timer) {
    t.elapsed >= t.duration
  }

  /** One frame of the countdown: the timer left afterwards and whether `TimerExpiredEvent` was sent. */
  function TickGameTimer(t: Option<Timer>, delta: nat): (r: (Option<Timer>, bool))
    ensures t.None? ==> r == (None, false)
    ensures t.Some? ==> (r.1 <==> t.value.elapsed + delta >= t.value.duration)
    ensures r.1 <==> t.Some? && r.0.None?
    ensures r.0.Some? ==> r.0.value == Timer(t.value.elapsed + delta, t.value.duration)
  {
    match t
    case None => (None, false)
    case Some(timer) =>
      var ticked := Tick(timer, delta);
      if Finished(ticked) then (None, true) else (Some(ticked), false)
  }

  /** Frame after frame with the given frame times: the final timer and the number of expiry events. */
  function RunTimer(t: Option<Timer>, deltas: seq<nat>): (Option<Timer>, nat)
    decreases |deltas|
  {
    if deltas == [] then (t, 0)
    else
      var (next, fired) := TickGameTimer(t, deltas[0]);
      var (last, count) := RunTimer(next, deltas[1..]);
      (last, count + if fired then 1 else 0)
  }

  function Sum(s: seq<nat>): nat {
    if s == [] then 0 else s[0] + Sum(s[1..])
  }

  /** An absent timer stays absent and never fires. */
  lemma {:induction false} AbsentTimerNeverFires(deltas: seq<nat>)
    ensures RunTimer(None, deltas) == (None, 0)
    decreases |deltas|
  {
    if deltas != [] {
      AbsentTimerNeverFires(deltas[1..]);
    }
  }

  /**
   * A running timer fires exactly once, on the first frame at which the total
   * elapsed time reaches its duration, and is gone afterwards; before that it
   * has fired nothing and has advanced by the frame times.
   */
  lemma {:induction false} TimerFiresExactlyOnce(timer: Timer, deltas: seq<nat>)
    ensures var due := |deltas| > 0 && timer.elapsed + Sum(deltas) >= timer.duration;
      RunTimer(Some(timer), deltas)
        == if due then (None, 1) else (Some(Timer(timer.elapsed + Sum(deltas), timer.duration)), 0)
    decreases |deltas|
  {
    if deltas != [] {
      var d := deltas[0];
      if timer.elapsed + d >= timer.duration {
        AbsentTimerNeverFires(deltas[1..]);
      } else {
        TimerFiresExactlyOnce(Timer(timer.elapsed + d, timer.duration), deltas[1..]);
      }
    }
  }

  // ---------------------------------------------------------------------------
  // The world
  // ---------------------------------------------------------------------------

  /** The entities that carry a grid position, and the `GameTimer` resource. */
  class World {
    var objects: seq<GridObject>
    var timer: Option<Timer>

    /** The world as the plugin sets it up: no entities yet and no timer. */
    constructor ()
      ensures objects == [] && timer == None
    {
      objects := [];
      timer := None;
    }

    /**
     * One frame of keyboard input. Only when there is exactly one player does
     * anything happen; its position is updated in place, and `moved` says whether
     * a `PlayerMovedEvent` was sent.
     */
    method MovementSystem(keys: set<Key>) returns (moved: bool)
      modifies this`objects
      ensures var players := PlayerIndices(old(objects));
        if |players| == 1 then
          var k := players[0];
          var p := old(objects)[k].pos;
          objects == old(objects)[k := old(objects)[k].(pos := Step(p, keys))]
          && (moved <==> Step(p, keys) != p)
        else
          objects == old(objects) && !moved
    {
      var players := PlayerIndices(objects);
      if |players| != 1 {
        return false;
      }
      var k := players[0];
      var pos := objects[k].pos;
      moved := false;
      if W in keys || Up in keys {
        if pos.y < GridSizeY - 1 {
          pos := pos.(y := pos.y + 1);
          moved := true;
        }
      } else if A in keys || Left in keys {
        if pos.x > 0 {
          pos := pos.(x := pos.x - 1);
          moved := true;
        }
      } else if S in keys || Down in keys {
        if pos.y > 0 {
          pos := pos.(y := pos.y - 1);
          moved := true;
        }
      } else if D in keys || Right in keys {
        if pos.x < GridSizeX - 1 {
          pos := pos.(x := pos.x + 1);
          moved := true;
        }
      }
      if moved {
        objects := objects[k := objects[k].(pos := pos)];
      }
    }

    /** One frame of the countdown; `fired` says whether a `TimerExpiredEvent` was sent. */
    method TimerExpired(delta: nat) returns (fired: bool)
      modifies this`timer
      ensures (timer, fired) == TickGameTimer(old(timer), delta)
    {
      fired := false;
      if timer.None? {
        return;
      }
      var t := Tick(timer.value, delta);
      timer := Some(t);
      if Finished(t) {
        fired := true;
        timer := None;
      }
    }
  }
}
