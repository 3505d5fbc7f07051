/**
 * The tail-tag room (src/game/maps/tail-tag.ts): a room whose characters steal tails from each
 * other. A character without a tail that comes within 5 units (on the ground plane) of a
 * character with a tail takes it; the victim is marked as being robbed until the end of the
 * simulation tick.
 *
 * The room extends the shared room; here the shared room is a field and the tail-tag
 * operations act on its characters.
 */
module TailTag {
  import opened Results
  import opened Player
  import opened Distance
  import CommonMap

  /** TAIL_STEAL_DISTANCE. */
  const TailStealDistance := 5.0

  // ---------------------------------------------------------------------------
  // The steal distance
  // ---------------------------------------------------------------------------

  /** The squared distance on the ground plane (x and z; height is ignored). */
  function PlanarDistanceSquared(p: Position, q: Position): (d: real)
    ensures d >= 0.0
    ensures p.x == q.x && p.z == q.z ==> d == 0.0
  {
    Square(p.x - q.x);
    Square(p.z - q.z);
    (p.x - q.x) * (p.x - q.x) + (p.z - q.z) * (p.z - q.z)
  }

  /** `calculateDistance(...) <= TAIL_STEAL_DISTANCE`, decided on the squared distance. */
  predicate InStealRange(p: Position, q: Position) {
    PlanarDistanceSquared(p, q) <= TailStealDistance * TailStealDistance
  }

  /**
   * Comparing the square root with 5 is the same as comparing the square with 25: for the
   * non-negative root `r` of `d`, `r <= 5` exactly when `d <= 25`.
   */
  lemma SqrtComparison(d: real, r: real)
    requires r >= 0.0 && r * r == d
    ensures r <= TailStealDistance <==> d <= TailStealDistance * TailStealDistance
  {
    if r <= TailStealDistance {
      assert r * r <= r * TailStealDistance;
      assert r * TailStealDistance <= TailStealDistance * TailStealDistance;
    } else {
      assert r * r > r * TailStealDistance;
      assert r * TailStealDistance > TailStealDistance * TailStealDistance;
    }
  }

  // ---------------------------------------------------------------------------
  // The steal distance as written
  // ---------------------------------------------------------------------------

  /** `calculateDistance(...) <= TAIL_STEAL_DISTANCE` as written: never, since the distance is NaN. */
  predicate InStealRangeAsWritten(p: Position, q: Position): (inRange: bool)
    ensures !inRange
  {
    SqrtAtMost(StealDistanceSquaredAsWritten(p, q), TailStealDistance)
  }

  /** Two characters standing on the same spot: within range as intended, out of range as written. */
  lemma AsWrittenMissesTouchingCharacters(p: Position)
    ensures InStealRange(p, p)
    ensures !InStealRangeAsWritten(p, p)
  {
  }

  // ---------------------------------------------------------------------------
  // Catching, on values
  // ---------------------------------------------------------------------------

  /** What tail-tag reads and writes of a character. */
  datatype Tagger = Tagger(id: string, position: Position, hasTail: bool, isBeingStolen: bool)

  function TaggerOf(c: Character): Tagger
    reads c`position, c`hasTail, c`isBeingStolen
  {
    Tagger(c.id, c.position, c.hasTail, c.isBeingStolen)
  }

  function TaggersOf(cs: seq<Character>): (ts: seq<Tagger>)
    reads cs`position, cs`hasTail, cs`isBeingStolen
    ensures |ts| == |cs|
    ensures forall i :: 0 <= i < |cs| ==> ts[i] == TaggerOf(cs[i])
  {
    if cs == [] then [] else [TaggerOf(cs[0])] + TaggersOf(cs[1..])
  }

  /** A character `catcher` may rob: another id, holding a tail, not already being robbed, and near. */
  predicate Eligible(catcher: Tagger, other: Tagger) {
    && catcher.id != other.id
    && other.hasTail
    && !other.isBeingStolen
    && InStealRange(catcher.position, other.position)
  }

  /** The first character, in room order, that the catcher may rob. */
  function CatchTarget(catcher: Tagger, ts: seq<Tagger>): (k: Option<nat>)
    ensures k.Some? ==> k.value < |ts| && Eligible(catcher, ts[k.value])
    ensures k.Some? ==> forall m :: 0 <= m < k.value ==> !Eligible(catcher, ts[m])
    ensures k.None? ==> forall m :: 0 <= m < |ts| ==> !Eligible(catcher, ts[m])
  {
    if ts == [] then None
    else if Eligible(catcher, ts[0]) then Some(0)
    else
      var rest := CatchTarget(catcher, ts[1..]);
      assert forall m :: 1 <= m < |ts| ==> ts[m] == ts[1..][m - 1];
      match rest
      case None => None
      case Some(j) => Some(j + 1)
  }

  /** `handleCatch` for the character at index `ci` of the room, on values. */
  function Catch(ts: seq<Tagger>, ci: nat): (r: seq<Tagger>)
    requires ci < |ts|
    ensures |r| == |ts|
  {
    if ts[ci].hasTail then ts
    else match CatchTarget(ts[ci], ts)
      case None => ts
      case Some(k) => ts[k := ts[k].(hasTail := false, isBeingStolen := true)][ci := ts[ci].(hasTail := true)]
  }

  /** A catch moves at most one tail: only the catcher and the first eligible victim change. */
  lemma CatchMovesOneTail(ts: seq<Tagger>, ci: nat)
    requires ci < |ts|
    ensures var r := Catch(ts, ci);
      var k := CatchTarget(ts[ci], ts);
      if ts[ci].hasTail || k.None? then r == ts
      else
        && k.value != ci
        && r[ci] == ts[ci].(hasTail := true)
        && r[k.value] == ts[k.value].(hasTail := false, isBeingStolen := true)
        && forall j :: 0 <= j < |ts| && j != ci && j != k.value ==> r[j] == ts[j]
  {
  }

  /**
   * The per-character description `HandleCatch` guarantees pins the room down completely: for
   * a catcher at index `ci`, any room that fits it is `Catch(before, ci)`.
   */
  lemma CatchCharacterised(before: seq<Tagger>, after: seq<Tagger>, ci: nat)
    requires ci < |before| && |after| == |before|
    requires forall j :: 0 <= j < |before| ==>
      after[j].id == before[j].id && after[j].position == before[j].position
    requires var k := if before[ci].hasTail then None else CatchTarget(before[ci], before);
      && after[ci].hasTail == (before[ci].hasTail || k.Some?)
      && (forall j :: 0 <= j < |before| && j != ci ==>
            after[j].hasTail == (k != Some(j) && before[j].hasTail))
      && (forall j :: 0 <= j < |before| ==>
            after[j].isBeingStolen == (k == Some(j) || before[j].isBeingStolen))
    ensures after == Catch(before, ci)
  {
    var r := Catch(before, ci);
    var k := if before[ci].hasTail then None else CatchTarget(before[ci], before);
    if k.None? {
      assert r == before;
    } else {
      assert r == before[k.value := before[k.value].(hasTail := false, isBeingStolen := true)]
                        [ci := before[ci].(hasTail := true)];
    }
    forall j | 0 <= j < |before|
      ensures after[j] == r[j]
    {
      assert after[j].id == r[j].id && after[j].position == r[j].position;
      if j != ci {
        assert after[j].hasTail == (k != Some(j) && before[j].hasTail);
      }
      assert after[j].isBeingStolen == (k == Some(j) || before[j].isBeingStolen);
    }
  }

  /** The number of tails in the room. */
  function TailCount(ts: seq<Tagger>): nat {
    if ts == [] then 0 else (if ts[0].hasTail then 1 else 0) + TailCount(ts[1..])
  }

  /** Replacing one character changes the tail count by the difference in that character's tail. */
  lemma {:induction false} TailCountUpdate(ts: seq<Tagger>, k: nat, t: Tagger)
    requires k < |ts|
    ensures TailCount(ts[k := t]) + (if ts[k].hasTail then 1 else 0)
         == TailCount(ts) + (if t.hasTail then 1 else 0)
  {
    if k > 0 {
      assert ts[k := t][1..] == ts[1..][k - 1 := t];
      TailCountUpdate(ts[1..], k - 1, t);
    }
  }

  /** A catch never creates or destroys a tail. */
  lemma CatchPreservesTailCount(ts: seq<Tagger>, ci: nat)
    requires ci < |ts|
    ensures TailCount(Catch(ts, ci)) == TailCount(ts)
  {
    if !ts[ci].hasTail {
      match CatchTarget(ts[ci], ts)
      case None =>
      case Some(k) =>
        var robbed := ts[k := ts[k].(hasTail := false, isBeingStolen := true)];
        TailCountUpdate(ts, k, ts[k].(hasTail := false, isBeingStolen := true));
        TailCountUpdate(robbed, ci, ts[ci].(hasTail := true));
    }
  }

  // ---------------------------------------------------------------------------
  // The tick, on values
  // ---------------------------------------------------------------------------

  /** `updatePosition()` and the cleared robbery mark, for one character ending at `position`. */
  function Settle(l: CommonMap.Look, position: Position): CommonMap.Look {
    l.(position := position, isBeingStolen := false)
  }

  /** The `forEach` of the tail-tag `updateGameState` on values. */
  function Settled(s: CommonMap.RoomState, settled: seq<Position>): CommonMap.RoomState
    requires |settled| == |s.looks|
  {
    var looks := s.looks;
    s.(looks := seq(|looks|, i requires 0 <= i < |looks| => Settle(looks[i], settled[i])))
  }

  /** The tail-tag `updateGameState` on values: the shared tick, then the settling pass. */
  function TailTagStep(chars: seq<Character>, s: CommonMap.RoomState, bases: seq<CommonMap.BaseUpdate>,
                       positions: seq<Position>, settled: seq<Position>, reach: CommonMap.Reach): CommonMap.RoomState
    requires CommonMap.Fits(chars, s) && |bases| == |positions| == |settled| == |chars|
  {
    Settled(CommonMap.GameStep(chars, s, bases, positions, reach), settled)
  }

  /**
   * What a tail-tag tick does: the shared tick (pickup and log at the positions the shared
   * step left), after which every character stands at its settled position with its robbery
   * mark cleared. Tails, inventories' growth and flags are as the shared tick left them.
   */
  lemma TailTagStepMeaning(chars: seq<Character>, s: CommonMap.RoomState, bases: seq<CommonMap.BaseUpdate>,
                           positions: seq<Position>, settled: seq<Position>, reach: CommonMap.Reach)
    requires CommonMap.Fits(chars, s) && |bases| == |positions| == |settled| == |chars|
    ensures var r := TailTagStep(chars, s, bases, positions, settled, reach);
      var pass := CommonMap.PickupPass(CommonMap.Moved(CommonMap.CarriersIn(s), positions), s.items, reach);
      && CommonMap.Fits(chars, r) && r.flags == s.flags
      && r.items == pass.items
      && r.record == CommonMap.LogScan(chars, positions, s.record, |chars|)
      && (forall i :: 0 <= i < |chars| ==> r.inventories[i] == s.inventories[i] + CommonMap.Claimed(pass.claims[i]))
      && (forall i :: 0 <= i < |chars| ==>
            r.looks[i] == s.looks[i].(position := settled[i], isBeingStolen := false,
                                      velocity := bases[i].velocity, eventBlock := bases[i].eventBlock,
                                      skill := CommonMap.SkillAfterStep(chars[i].kind, s.looks[i].skill, bases[i])))
  {
    CommonMap.GameStepMeaning(chars, s, bases, positions, reach);
  }

  // ---------------------------------------------------------------------------
  // The room
  // ---------------------------------------------------------------------------

  class TailTagMap {
    /** The shared room this tail-tag room extends. */
    const room: CommonMap.CommonMap

    /**
     * A tail-tag room. Item pickup uses the shared distance: the tail-tag `calculateDistance`
     * is meant for stealing tails, and as written it would stop every pickup in the room
     * (`CommonMap.TailTagPickupClaimsNothing`).
     */
    constructor (roomId: string, remainRunningTime: int, config: CommonMap.MapConfig)
      requires config.weights.total > 0.0
      ensures fresh(room) && room.Valid()
      ensures room.roomId == roomId && room.remainRunningTime == remainRunningTime
      ensures room.characters == [] && room.items == []
      ensures room.reach == CommonMap.Reach(CommonMap.SharedDistance, config.pickupDistance)
    {
      room := new CommonMap.CommonMap(roomId, remainRunningTime, config, CommonMap.SharedDistance);
    }

    /**
     * `handleCatch`: a character without a tail robs the first character in room order that it
     * may rob, and stops there. The robbed character loses its tail and is marked as being
     * robbed; the catcher gains a tail. Nothing else changes.
     */
    method HandleCatch(character: Character)
      requires room.Valid()
      modifies room.characters`hasTail, room.characters`isBeingStolen, character`hasTail
      ensures var k := if old(character.hasTail) then None
                       else CatchTarget(old(TaggerOf(character)), old(TaggersOf(room.characters)));
        && character.hasTail == (old(character.hasTail) || k.Some?)
        && (forall j :: 0 <= j < |room.characters| && room.characters[j] != character ==>
              room.characters[j].hasTail == (k != Some(j) && old(room.characters[j].hasTail)))
        && (forall j :: 0 <= j < |room.characters| ==>
              room.characters[j].isBeingStolen == (k == Some(j) || old(room.characters[j].isBeingStolen)))
    {
      if character.hasTail {
        return;
      }
      var victim := FindVictim(character);
      if victim.Some? {
        Rob(character, victim.value);
      }
    }

    /**
     * The loop of `handleCatch` up to its `break`: the index of the first character the given
     * character may rob, if any.
     */
    method FindVictim(character: Character) returns (k: Option<nat>)
      ensures k == CatchTarget(TaggerOf(character), TaggersOf(room.characters))
    {
      ghost var catcher := TaggerOf(character);
      ghost var ts := TaggersOf(room.characters);
      var i := 0;
      while i < |room.characters|
        invariant 0 <= i <= |room.characters|
        invariant forall m :: 0 <= m < i ==> !Eligible(catcher, ts[m])
      {
        var other := room.characters[i];
        if character.id != other.id && other.hasTail && !other.isBeingStolen {
          var distance := PlanarDistanceSquared(character.position, other.position);
          if distance <= TailStealDistance * TailStealDistance {
            assert Eligible(catcher, ts[i]);
            return Some(i);
          }
        }
        i := i + 1;
      }
      return None;
    }

    /** The body of the `if` in `handleCatch`: the character at index `i` loses its tail to `character`. */
    method Rob(character: Character, i: nat)
      requires room.Valid() && i < |room.characters| && room.characters[i].id != character.id
      modifies room.characters`hasTail, room.characters`isBeingStolen, character`hasTail
      ensures character.hasTail
      ensures forall j :: 0 <= j < |room.characters| && room.characters[j] != character ==>
        room.characters[j].hasTail == (j != i && old(room.characters[j].hasTail))
      ensures forall j :: 0 <= j < |room.characters| ==>
        room.characters[j].isBeingStolen == (j == i || old(room.characters[j].isBeingStolen))
    {
      CommonMap.DistinctAt(room.characters, i);
      var other := room.characters[i];
      other.isBeingStolen := true;
      character.hasTail := true;
      other.hasTail := false;
    }

    /**
     * `updateGameState` of the tail-tag room: the shared tick steps everyone (the shared
     * `update()` ending at `bases`, the map boundary at `positions`), runs the pickup pass and
     * the height log; then every character runs `updatePosition()`, which ends at `settled`
     * (the movement code is not part of this model), and loses its robbery mark.
     */
    method UpdateGameState(bases: seq<CommonMap.BaseUpdate>, positions: seq<Position>, settled: seq<Position>)
      requires room.Valid() && |bases| == |room.characters| && |positions| == |room.characters|
      requires |settled| == |room.characters|
      modifies room`items, room`highestCharacter, room`maxPosY, room.characters`items, room.characters`isBeingStolen,
               room.characters`position, room.characters`velocity, room.characters`isOnGround,
               room.characters`thunderEffect, room.characters`eventBlock, room.characters`speed, room.characters`isSkillActive,
               room.characters`currentSkillDuration, room.characters`currentSkillCooldown, room.characters`isSkillInput
      ensures room.Valid()
      ensures room.State() == TailTagStep(room.characters, old(room.State()), bases, positions, settled, room.reach)
    {
      room.UpdateGameState(bases, positions);
      SettleCharacters(settled);
    }

    /** The `forEach` of the tail-tag `updateGameState`: each character settles at its position and its robbery mark is cleared. */
    method SettleCharacters(settled: seq<Position>)
      requires CommonMap.Distinct(room.characters) && |settled| == |room.characters|
      modifies room.characters`position, room.characters`isBeingStolen
      ensures room.State() == Settled(old(room.State()), settled)
    {
      SettleEach(settled);
      assert CommonMap.InventoriesOf(room.characters) == old(CommonMap.InventoriesOf(room.characters));
      assert CommonMap.FlagsOf(room.characters) == old(CommonMap.FlagsOf(room.characters));
      assert CommonMap.LooksOf(room.characters) == Settled(old(room.State()), settled).looks;
    }

    /** The loop of that `forEach`, character by character. */
    method SettleEach(settled: seq<Position>)
      requires CommonMap.Distinct(room.characters) && |settled| == |room.characters|
      modifies room.characters`position, room.characters`isBeingStolen
      ensures forall j :: 0 <= j < |room.characters| ==>
        CommonMap.LookOf(room.characters[j]) == Settle(old(CommonMap.LookOf(room.characters[j])), settled[j])
    {
      for i := 0 to |room.characters|
        invariant forall j :: 0 <= j < i ==>
          CommonMap.LookOf(room.characters[j]) == Settle(old(CommonMap.LookOf(room.characters[j])), settled[j])
        invariant forall j :: i <= j < |room.characters| ==>
          CommonMap.LookOf(room.characters[j]) == old(CommonMap.LookOf(room.characters[j]))
      {
        CommonMap.DistinctAt(room.characters, i);
        room.characters[i].position := settled[i];
        room.characters[i].isBeingStolen := false;
      }
    }

    /**
     * The simulation interval of a tail-tag room: its own update, then the shared snapshot and
     * reset. The snapshot shows the room as the update left it, flags included; afterwards the
     * flags are clear.
     */
    method UpdateStateTick(bases: seq<CommonMap.BaseUpdate>, positions: seq<Position>, settled: seq<Position>)
      returns (state: CommonMap.GameState)
      requires room.Valid() && |bases| == |room.characters| && |positions| == |room.characters|
      requires |settled| == |room.characters|
      modifies room`items, room`highestCharacter, room`maxPosY, room.characters`items,
               room.characters`isBeingStolen, room.characters`stolen, room.characters`steal,
               room.characters`position, room.characters`velocity, room.characters`isOnGround,
               room.characters`thunderEffect, room.characters`eventBlock, room.characters`speed, room.characters`isSkillActive,
               room.characters`currentSkillDuration, room.characters`currentSkillCooldown, room.characters`isSkillInput
      ensures room.Valid()
      ensures state == CommonMap.Snapshot(room.characters,
                                          TailTagStep(room.characters, old(room.State()), bases, positions, settled, room.reach),
                                          room.remainRunningTime)
      ensures room.State() == CommonMap.Reset(TailTagStep(room.characters, old(room.State()), bases, positions, settled, room.reach))
    {
      ghost var s0 := room.State();
      UpdateGameState(bases, positions, settled);
      ghost var s1 := room.State();
      state := room.SnapshotAndReset();
      assert room.State() == CommonMap.Reset(s1);
    }
  }
}
