/**
 * Level progression (src/level_manager.rs): the manager holds the name of
 * the current level, or none once the last level is finished, and the level
 * loaded for it. Building a level's contents is not part of this model: a
 * loaded level is represented by the name it was built for.
 */
module Levels {
  import opened Optional

  datatype LevelName = Level1 | Level2 | Level3 | Level4

  /** The level `construct_level(name)` builds, identified by its name. */
  datatype Level = Level(builtFor: LevelName)

  /** The position of a level in play order, from 1 to 4. */
  function Ordinal(name: LevelName): (n: nat)
    ensures 1 <= n <= 4
  {
    match name
    case Level1 => 1
    case Level2 => 2
    case Level3 => 3
    case Level4 => 4
  }

  /** `get_next_level`: the level after `name` in play order, none after the last. */
  function GetNextLevel(name: LevelName): (r: Option<LevelName>)
    ensures r.None? <==> name == Level4
    ensures r.Some? ==> Ordinal(r.value) == Ordinal(name) + 1
  {
    match name
    case Level1 => Some(Level2)
    case Level2 => Some(Level3)
    case Level3 => Some(Level4)
    case Level4 => None
  }

  /** The name reached from `name` by `n` successive `GetNextLevel` steps, if the levels last that long. */
  function Advance(name: LevelName, n: nat): Option<LevelName>
    decreases n
  {
    if n == 0 then Some(name)
    else match GetNextLevel(name)
      case None => None
      case Some(next) => Advance(next, n - 1)
  }

  /**
   * Progression visits the levels in order and ends: `n` steps from a level
   * reach the level `n` places later, and run out exactly when that passes
   * the last level.
   */
  lemma {:induction false} AdvanceOrdinal(name: LevelName, n: nat)
    ensures Advance(name, n).Some? <==> Ordinal(name) + n <= 4
    ensures Advance(name, n).Some? ==> Ordinal(Advance(name, n).value) == Ordinal(name) + n
    decreases n
  {
    if n > 0 {
      match GetNextLevel(name)
      case None =>
      case Some(next) => AdvanceOrdinal(next, n - 1);
    }
  }

  class LevelManager {
    var loadedLevel: Level
    var currentLevel: Option<LevelName>

    /** While a level is current, the loaded level is the one built for it. */
    ghost predicate Valid()
      reads this
    {
      currentLevel.Some? ==> loadedLevel == Level(currentLevel.value)
    }

    /** `LevelManager::new`: starts at the first level, loaded. */
    constructor ()
      ensures Valid()
      ensures currentLevel == Some(Level1) && loadedLevel == Level(Level1)
    {
      loadedLevel := Level(Level1);
      currentLevel := Some(Level1);
    }

    /**
     * `load_next_level`: moves to the next level and loads it. After the
     * last level the current level becomes none and the loaded level stays;
     * with no current level nothing changes.
     */
    method LoadNextLevel()
      requires Valid()
      modifies this
      ensures Valid()
      ensures old(currentLevel).None? ==> currentLevel == old(currentLevel) && loadedLevel == old(loadedLevel)
      ensures old(currentLevel).Some? ==> currentLevel == GetNextLevel(old(currentLevel).value)
      ensures currentLevel.None? ==> loadedLevel == old(loadedLevel)
      ensures currentLevel.Some? ==> loadedLevel == Level(currentLevel.value)
    {
      match currentLevel {
        case Some(levelName) =>
          currentLevel := GetNextLevel(levelName);
          match currentLevel {
            case Some(newLevelName) =>
              loadedLevel := Level(newLevelName);
            case None =>
          }
        case None =>
      }
    }

    /** `reload_current_level`: rebuilds the current level, if any, and keeps it current. */
    method ReloadCurrentLevel()
      requires Valid()
      modifies this`loadedLevel
      ensures Valid()
      ensures currentLevel.Some? ==> loadedLevel == Level(currentLevel.value)
      ensures currentLevel.None? ==> loadedLevel == old(loadedLevel)
    {
      match currentLevel {
        case Some(levelName) =>
          loadedLevel := Level(levelName);
        case None =>
      }
    }
  }

  /**
   * A fresh manager plays the four levels in order: three loads reach the
   * last level, and the fourth ends the progression with the last level
   * still loaded.
   */
  method PlayThrough() returns (m: LevelManager, visited: seq<Option<LevelName>>)
    ensures visited == [Some(Level1), Some(Level2), Some(Level3), Some(Level4), None]
    ensures m.currentLevel.None? && m.loadedLevel == Level(Level4)
  {
    m := new LevelManager();
    visited := [m.currentLevel];
    for i := 0 to 4
      invariant m.Valid()
      invariant |visited| == i + 1
      invariant forall k :: 0 <= k <= i ==> visited[k] == Advance(Level1, k)
      invariant m.currentLevel == Advance(Level1, i)
      invariant i == 4 ==> m.loadedLevel == Level(Level4)
    {
      m.LoadNextLevel();
      visited := visited + [m.currentLevel];
    }
  }
}
