/**
 * The level lifecycle: a desired level index expresses intent, the current index
 * says what is spawned, and a commit step despawns the old level and spawns the
 * new one (or records that every level is finished). The parsed level file is
 * given as a `Levels` value; the asset not being loaded yet is `None`.
 */
module LevelLifecycle {
  import opened Wrappers
  import opened GameMechanics

  /** One entry of a level file: a cell and a colour (the shape shared by the player, goal and trap entries). */
  datatype Placement = Placement(x: int, y: int, color: GameColor)

  datatype Level = Level(player: Placement, goals: seq<Placement>, traps: seq<Placement>)

  datatype Levels = Levels(levels: seq<Level>)

  /** Every level gets 25 seconds, in milliseconds. */
  const LevelTimeLimit: nat := 25_000

  function FreshLevelTimer(): Timer {
    Timer(0, LevelTimeLimit)
  }

  // ---------------------------------------------------------------------------
  // Spawning a level
  // ---------------------------------------------------------------------------

  /** The entity spawned for a level-file entry: coordinates and colour are copied as they are. */
  function Spawned(role: Role, p: Placement): GridObject {
    GridObject(role, GridPos(p.x, p.y), p.color)
  }

  function SpawnedAll(role: Role, ps: seq<Placement>): seq<GridObject> {
    seq(|ps|, i requires 0 <= i < |ps| => Spawned(role, ps[i]))
  }

  /** The entities a level spawns, in spawn order: the player, then its goals, then its traps. */
  function LevelObjects(level: Level): seq<GridObject> {
    [Spawned(Player, level.player)] + SpawnedAll(Goal, level.goals) + SpawnedAll(Trap, level.traps)
  }

  /** Number of entities with the given role. */
  function CountRole(objects: seq<GridObject>, role: Role): (n: nat)
    ensures n <= |objects|
  {
    if objects == [] then 0
    else
      var m := |objects| - 1;
      CountRole(objects[..m], role) + if objects[m].role == role then 1 else 0
  }

  lemma {:induction false} CountRoleAppend(a: seq<GridObject>, b: seq<GridObject>, role: Role)
    ensures CountRole(a + b, role) == CountRole(a, role) + CountRole(b, role)
    decreases |b|
  {
    if b == [] {
      assert a + b == a;
    } else {
      var m := |b| - 1;
      assert (a + b)[..|a + b| - 1] == a + b[..m];
      CountRoleAppend(a, b[..m], role);
    }
  }

  lemma {:induction false} CountRoleSpawnedAll(role: Role, other: Role, ps: seq<Placement>)
    ensures CountRole(SpawnedAll(role, ps), other) == if role == other then |ps| else 0
    decreases |ps|
  {
    if ps != [] {
      var m := |ps| - 1;
      assert SpawnedAll(role, ps)[..m] == SpawnedAll(role, ps[..m]);
      CountRoleSpawnedAll(role, other, ps[..m]);
    }
  }

  /**
   * A level spawns exactly one player, one goal per goal entry and one trap per
   * trap entry, each with the entry's coordinates and colour, with no bounds check.
   */
  lemma LevelObjectsContents(level: Level)
    ensures |LevelObjects(level)| == 1 + |level.goals| + |level.traps|
    ensures CountRole(LevelObjects(level), Player) == 1
    ensures CountRole(LevelObjects(level), Goal) == |level.goals|
    ensures CountRole(LevelObjects(level), Trap) == |level.traps|
    ensures LevelObjects(level)[0]
      == GridObject(Player, GridPos(level.player.x, level.player.y), level.player.color)
    ensures forall i :: 0 <= i < |level.goals| ==>
      LevelObjects(level)[1 + i]
        == GridObject(Goal, GridPos(level.goals[i].x, level.goals[i].y), level.goals[i].color)
    ensures forall i :: 0 <= i < |level.traps| ==>
      LevelObjects(level)[1 + |level.goals| + i]
        == GridObject(Trap, GridPos(level.traps[i].x, level.traps[i].y), level.traps[i].color)
  {
    var head := [Spawned(Player, level.player)];
    var goals := SpawnedAll(Goal, level.goals);
    var traps := SpawnedAll(Trap, level.traps);
    assert LevelObjects(level) == head + goals + traps;
    assert CountRole(head, Player) == 1 by {
      assert head[..0] == [];
    }
    assert head[..0] == [];
    CountRoleAppend(head, goals, Player);
    CountRoleAppend(head + goals, traps, Player);
    CountRoleAppend(head, goals, Goal);
    CountRoleAppend(head + goals, traps, Goal);
    CountRoleAppend(head, goals, Trap);
    CountRoleAppend(head + goals, traps, Trap);
    CountRoleSpawnedAll(Goal, Player, level.goals);
    CountRoleSpawnedAll(Goal, Goal, level.goals);
    CountRoleSpawnedAll(Goal, Trap, level.goals);
    CountRoleSpawnedAll(Trap, Player, level.traps);
    CountRoleSpawnedAll(Trap, Goal, level.traps);
    CountRoleSpawnedAll(Trap, Trap, level.traps);
  }

  lemma {:induction false} OnlyFirstIsPlayer(objects: seq<GridObject>)
    requires |objects| >= 1 && objects[0].role == Player
    requires forall j :: 1 <= j < |objects| ==> objects[j].role != Player
    ensures PlayerIndices(objects) == [0]
  {
    var m := |objects| - 1;
    if m == 0 {
      assert objects[..m] == [];
    } else {
      OnlyFirstIsPlayer(objects[..m]);
    }
  }

  /** In a freshly spawned level the player is the only player, the first entity. */
  lemma LevelHasSinglePlayer(level: Level)
    ensures PlayerIndices(LevelObjects(level)) == [0]
  {
    var objs := LevelObjects(level);
    LevelObjectsContents(level);
    forall j | 1 <= j < |objs|
      ensures objs[j].role != Player
    {
      if j < 1 + |level.goals| {
        assert objs[1 + (j - 1)].role == Goal;
      } else {
        assert objs[1 + |level.goals| + (j - 1 - |level.goals|)].role == Trap;
      }
    }
    OnlyFirstIsPlayer(objs);
  }

  /** Spawns the level's entities and arms a fresh 25-second one-shot timer. */
  method SpawnLevel(world: World, level: Level)
    modifies world
    ensures world.objects == old(world.objects) + LevelObjects(level)
    ensures world.timer == Some(FreshLevelTimer())
  {
    var player := level.player;
    world.objects := world.objects + [Spawned(Player, player)];
    var before := world.objects;

    for i := 0 to |level.goals|
      invariant world.objects == before + SpawnedAll(Goal, level.goals[..i])
    {
      assert SpawnedAll(Goal, level.goals[..i + 1])
        == SpawnedAll(Goal, level.goals[..i]) + [Spawned(Goal, level.goals[i])];
      world.objects := world.objects + [Spawned(Goal, level.goals[i])];
    }
    assert level.goals[..|level.goals|] == level.goals;
    before := world.objects;

    for i := 0 to |level.traps|
      invariant world.objects == before + SpawnedAll(Trap, level.traps[..i])
    {
      assert SpawnedAll(Trap, level.traps[..i + 1])
        == SpawnedAll(Trap, level.traps[..i]) + [Spawned(Trap, level.traps[i])];
      world.objects := world.objects + [Spawned(Trap, level.traps[i])];
    }
    assert level.traps[..|level.traps|] == level.traps;

    world.timer := Some(FreshLevelTimer());
  }

  // ---------------------------------------------------------------------------
  // The level state machine
  // ---------------------------------------------------------------------------

  /** The `LevelInfo` resource as a value: desired index, current index, number of levels. */
  datatype LevelState = LevelState(desired: Option<int>, index: Option<int>, total: nat)

  const Initial: LevelState := LevelState(None, None, 0)

  function FirstLoad(s: LevelState): LevelState {
    s.(desired := Some(0))
  }

  /** One trap hit or timer expiry: ask for the current level again and forget the current one. */
  function ReloadOnce(s: LevelState): LevelState {
    s.(desired := s.index, index := None)
  }

  /** `n` reload events handled in one call. */
  function Reload(s: LevelState, n: nat): LevelState {
    if n == 0 then s else ReloadOnce(Reload(s, n - 1))
  }

  /** One goal event: ask for the level after the current one (after level 0 if there is none). */
  function AdvanceOnce(s: LevelState): LevelState {
    s.(desired := Some(s.index.UnwrapOr(0) + 1))
  }

  /** `n` goal events handled in one call. */
  function Advance(s: LevelState, n: nat): LevelState {
    if n == 0 then s else AdvanceOnce(Advance(s, n - 1))
  }

  /**
   * A single reload asks for the current level and clears it; a second one in the
   * same call copies the cleared index, so both indices end up `None`.
   */
  lemma {:induction false} ReloadEffect(s: LevelState, n: nat)
    ensures n == 0 ==> Reload(s, n) == s
    ensures n == 1 ==> Reload(s, n) == LevelState(s.index, None, s.total)
    ensures n >= 2 ==> Reload(s, n) == LevelState(None, None, s.total)
  {
    if n > 0 {
      ReloadEffect(s, n - 1);
    }
  }

  /** Any positive number of goal events in one call has the effect of one; the current index is untouched. */
  lemma {:induction false} AdvanceEffect(s: LevelState, n: nat)
    ensures n == 0 ==> Advance(s, n) == s
    ensures n >= 1 ==> Advance(s, n) == LevelState(Some(s.index.UnwrapOr(0) + 1), s.index, s.total)
  {
    if n > 0 {
      AdvanceEffect(s, n - 1);
    }
  }

  /** Rust's `as usize` on a 32-bit index on a 64-bit target: negative values wrap around. */
  function AsUsize(i: int): nat {
    if i >= 0 then i else i % 0x1_0000_0000_0000_0000
  }

  /** When the commit step returns before touching anything. */
  predicate CommitSkipped(s: LevelState, loaded: Option<Levels>) {
    s.index == s.desired || s.desired.None? || loaded.None?
  }

  /** What the commit step does to the world besides the level state. */
  datatype WorldEffect = KeepWorld | ClearWorld | LoadLevel(level: Level)

  function Commit(s: LevelState, loaded: Option<Levels>): LevelState {
    if CommitSkipped(s, loaded) then s
    else LevelState(s.desired, s.desired, |loaded.value.levels|)
  }

  function CommitEffect(s: LevelState, loaded: Option<Levels>): WorldEffect {
    if CommitSkipped(s, loaded) then KeepWorld
    else
      var levels := loaded.value.levels;
      var i := AsUsize(s.desired.value);
      if i >= |levels| then ClearWorld else LoadLevel(levels[i])
  }

  /** The win condition the on-screen text checks: the current index is one past the last level. */
  predicate Won(s: LevelState) {
    s.index == Some(s.total)
  }

  /** After a commit the indices agree, so a second commit right after it changes nothing. */
  lemma CommitIsIdempotent(s: LevelState, loaded: Option<Levels>)
    ensures Commit(Commit(s, loaded), loaded) == Commit(s, loaded)
    ensures CommitEffect(Commit(s, loaded), loaded) == KeepWorld
  {
  }

  /** With non-negative indices, a commit spawns level `i` exactly when `i` is a valid level. */
  lemma CommitLoadsIffInRange(s: LevelState, loaded: Option<Levels>)
    requires !CommitSkipped(s, loaded)
    requires s.desired.value >= 0
    ensures CommitEffect(s, loaded).LoadLevel? <==> s.desired.value < |loaded.value.levels|
    ensures CommitEffect(s, loaded).LoadLevel? ==>
      CommitEffect(s, loaded).level == loaded.value.levels[s.desired.value]
    ensures Commit(s, loaded).index == s.desired && Commit(s, loaded).total == |loaded.value.levels|
  {
  }

  /** Dying on level `i` (a trap or the timer) respawns level `i` at the next commit. */
  lemma ReloadRespawnsSameLevel(s: LevelState, loaded: Option<Levels>, i: int)
    requires s.index == Some(i) && 0 <= i
    requires loaded.Some? && i < |loaded.value.levels|
    ensures CommitEffect(Reload(s, 1), loaded) == LoadLevel(loaded.value.levels[i])
    ensures Commit(Reload(s, 1), loaded).index == Some(i)
  {
    ReloadEffect(s, 1);
  }

  /** Two reload events in one call clear both indices, and the commit step then does nothing. */
  lemma DoubleReloadStalls(s: LevelState, loaded: Option<Levels>, n: nat)
    requires n >= 2
    ensures Reload(s, n).desired == None && Reload(s, n).index == None
    ensures CommitEffect(Reload(s, n), loaded) == KeepWorld
    ensures Commit(Reload(s, n), loaded) == Reload(s, n)
  {
    ReloadEffect(s, n);
  }

  /**
   * Reaching a goal on level `i` loads level `i + 1` at the next commit, or, after
   * the last level, clears the world and leaves the game in the won state.
   */
  lemma GoalAdvancesLevel(s: LevelState, loaded: Option<Levels>, i: int, n: nat)
    requires s.index == Some(i) && 0 <= i && n >= 1
    requires loaded.Some?
    ensures Commit(Advance(s, n), loaded).index == Some(i + 1)
    ensures i + 1 < |loaded.value.levels| ==>
      CommitEffect(Advance(s, n), loaded) == LoadLevel(loaded.value.levels[i + 1])
    ensures i + 1 >= |loaded.value.levels| ==> CommitEffect(Advance(s, n), loaded) == ClearWorld
    ensures i + 1 == |loaded.value.levels| ==> Won(Commit(Advance(s, n), loaded))
  {
    AdvanceEffect(s, n);
  }

  // ---------------------------------------------------------------------------
  // Runs of handler calls
  // ---------------------------------------------------------------------------

  /** One handler call, with the number of events it reads. */
  datatype Signal =
    | FirstLevelRequested
    | TrapsHit(hits: nat)
    | TimersExpired(expiries: nat)
    | GoalsReached(goals: nat)
    | LevelChangeCheck(loaded: Option<Levels>)

  function Apply(s: LevelState, e: Signal): LevelState {
    match e
    case FirstLevelRequested => FirstLoad(s)
    case TrapsHit(n) => Reload(s, n)
    case TimersExpired(n) => Reload(s, n)
    case GoalsReached(n) => Advance(s, n)
    case LevelChangeCheck(loaded) => Commit(s, loaded)
  }

  function Run(s: LevelState, es: seq<Signal>): LevelState {
    if es == [] then s else Apply(Run(s, es[..|es| - 1]), es[|es| - 1])
  }

  predicate IndicesNonNegative(s: LevelState) {
    (s.desired.Some? ==> s.desired.value >= 0) && (s.index.Some? ==> s.index.value >= 0)
  }

  lemma ApplyKeepsIndicesNonNegative(s: LevelState, e: Signal)
    requires IndicesNonNegative(s)
    ensures IndicesNonNegative(Apply(s, e))
  {
    match e
    case TrapsHit(n) => ReloadEffect(s, n);
    case TimersExpired(n) => ReloadEffect(s, n);
    case GoalsReached(n) => AdvanceEffect(s, n);
    case _ =>
  }

  /**
   * From the initial resource, every run of handler calls keeps both indices
   * non-negative, so the index's conversion to `usize` never wraps.
   */
  lemma {:induction false} RunKeepsIndicesNonNegative(es: seq<Signal>)
    ensures IndicesNonNegative(Run(Initial, es))
    ensures Run(Initial, es).desired.Some? ==>
      AsUsize(Run(Initial, es).desired.value) == Run(Initial, es).desired.value
  {
    if es != [] {
      RunKeepsIndicesNonNegative(es[..|es| - 1]);
      ApplyKeepsIndicesNonNegative(Run(Initial, es[..|es| - 1]), es[|es| - 1]);
    }
  }

  // ---------------------------------------------------------------------------
  // The resource and its handlers
  // ---------------------------------------------------------------------------

  class LevelInfo {
    var desiredIndex: Option<int>
    var index: Option<int>
    var totalLevels: nat

    /** The resource as the plugin inserts it: no level desired, none loaded, no levels known. */
    constructor ()
      ensures State() == Initial
    {
      desiredIndex := None;
      index := None;
      totalLevels := 0;
    }

    function State(): LevelState
      reads this
    {
      LevelState(desiredIndex, index, totalLevels)
    }

    /** Startup: ask for level 0. */
    method LoadFirstLevel()
      modifies this
      ensures State() == FirstLoad(old(State()))
      ensures desiredIndex == Some(0) && index == old(index) && totalLevels == old(totalLevels)
    {
      desiredIndex := Some(0);
    }

    /** Handles this frame's trap hits. */
    method ReloadLevelOnDeath(hits: nat)
      modifies this
      ensures State() == Reload(old(State()), hits)
    {
      for i := 0 to hits
        invariant State() == Reload(old(State()), i)
      {
        desiredIndex := index;
        index := None;
      }
    }

    /** Handles this frame's timer expiries, exactly as trap hits are handled. */
    method ReloadLevelOnTimerExpired(expiries: nat)
      modifies this
      ensures State() == Reload(old(State()), expiries)
    {
      for i := 0 to expiries
        invariant State() == Reload(old(State()), i)
      {
        desiredIndex := index;
        index := None;
      }
    }

    /** Handles this frame's goal events. */
    method GoToNextLevelOnGoal(goals: nat)
      modifies this
      ensures State() == Advance(old(State()), goals)
    {
      for i := 0 to goals
        invariant State() == Advance(old(State()), i)
      {
        desiredIndex := Some(index.UnwrapOr(0) + 1);
      }
    }

    /**
     * The commit step. Unless the desired level is already current, absent, or the
     * level file is not loaded yet, it despawns every grid entity, records the number
     * of levels, makes the desired index current and, if that index names a level,
     * spawns it and re-arms the timer.
     */
    method LoadLevelOnLevelChange(loaded: Option<Levels>, world: World)
      modifies this, world
      ensures State() == Commit(old(State()), loaded)
      ensures match CommitEffect(old(State()), loaded)
        case KeepWorld => world.objects == old(world.objects) && world.timer == old(world.timer)
        case ClearWorld => world.objects == [] && world.timer == old(world.timer)
        case LoadLevel(level) =>
          world.objects == LevelObjects(level) && world.timer == Some(FreshLevelTimer())
    {
      if index == desiredIndex || desiredIndex.None? {
        return;
      }
      if loaded.None? {
        return;
      }
      var levels := loaded.value.levels;

      var existing := |world.objects|;
      for i := 0 to existing
        invariant world.objects == old(world.objects)[i..]
        invariant world.timer == old(world.timer)
        invariant State() == old(State())
      {
        world.objects := world.objects[1..];
      }

      totalLevels := |levels|;
      index := desiredIndex;
      var current := AsUsize(index.UnwrapOr(0));
      if current >= totalLevels {
        return;
      }
      SpawnLevel(world, levels[current]);
    }
  }

  /**
   * The first level has the player at (5, 5) and a goal at (5, 6): one press of the
   * up key reaches the goal, sends one goal event, and asks for level 1.
   */
  method FirstLevelScenario(c: GameColor) {
    var first := Level(Placement(5, 5, c), [Placement(5, 6, c)], []);
    var levels := Levels([first]);
    var world := new World();
    var info := new LevelInfo();

    info.LoadFirstLevel();
    info.LoadLevelOnLevelChange(Some(levels), world);
    assert world.objects == [GridObject(Player, GridPos(5, 5), c), GridObject(Goal, GridPos(5, 6), c)];
    LevelHasSinglePlayer(first);

    var moved := world.MovementSystem({W});
    assert moved;
    assert world.objects == [GridObject(Player, GridPos(5, 6), c), GridObject(Goal, GridPos(5, 6), c)];
    var changed := [moved, false];
    var goalEvents := ReachGoal(world.objects, changed);
    assert PlayerIndices(world.objects) == [0] by {
      assert world.objects[..1] == [GridObject(Player, GridPos(5, 6), c)];
      assert world.objects[..1][..0] == [];
    }
    assert CountOnCell(world.objects, Goal, GridPos(5, 6)) == 1 by {
      assert world.objects[..1] == [GridObject(Player, GridPos(5, 6), c)];
      assert world.objects[..1][..0] == [];
    }
    assert goalEvents == 1;

    info.GoToNextLevelOnGoal(goalEvents);
    assert info.desiredIndex == Some(1);
    info.LoadLevelOnLevelChange(Some(levels), world);
    assert world.objects == [];
    assert Won(info.State());
  }
}
