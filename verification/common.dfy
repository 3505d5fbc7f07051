/**
 * One room of the game (src/game/maps/common.ts): the characters and items it owns, the pool
 * of spawn positions a joining character draws from, the remaining match time, the log of the
 * highest character, and the bodies of the two periodic callbacks (the one-second countdown
 * and the simulation tick).
 *
 * Random draws, the obstacle list, the predefined spawn positions and the item constants are
 * parameters. The pure parts (obstacle test, weighted item type, squared distance, a whole
 * pickup pass) are functions; the methods that change the room are proved against them.
 */
module CommonMap {
  import opened Results
  import opened Player
  import Santa
  import opened Distance

  /** Simulation ticks per second: `updateInterval` is 1/5 of a second. */
  const TicksPerSecond := 5

  /** `2 / updateInterval`: a thunder hit lasts two seconds, 10 ticks. */
  const ThunderTicks := 2 * TicksPerSecond

  /** A character carries at most two items. */
  const MaxInventory := 2

  /** `spawnInitialItems` spawns eight items. */
  const InitialItemCount := 8

  /** What the Rabbit and Ghost constructors hand to the shared constructor; rabbit.ts and
      ghost.ts are not part of this model, so these are left open. */
  const RabbitProps: VariantProps
  const GhostProps: VariantProps

  /** An item lying in the room; `type` in the source. */
  datatype Item = Item(id: string, itemType: ItemType, position: Position)

  /** An axis-aligned bounding box of a static map object, bounds included. */
  datatype Box = Box(min: Position, max: Position)

  /** ITEM.BOOST_PROB, SHIELD_PROB, THUNDER_PROB and TOTAL_PROB. */
  datatype ItemWeights = ItemWeights(boost: real, shield: real, thunder: real, total: real)

  /** Three `Math.random()` draws for one candidate item position. */
  datatype PositionDraw = PositionDraw(x: real, y: real, z: real)

  /** The random input of one `spawnNewItem`: the generated id, the type draw, and the
      candidate positions the rejection loop may try, in order. */
  datatype ItemDraw = ItemDraw(id: string, typeDraw: real, positions: seq<PositionDraw>)

  /** The fixed data a room is built from: the static map objects (`scaledObjects`), the
      predefined spawn positions, ITEM.ITEM_PICKUP_DISTANCE, the item weights,
      MAX_GROUND and ITEM.ITEM_MAX_POS_Y. */
  datatype MapConfig = MapConfig(obstacles: seq<Box>, spawnPositions: seq<Position>,
                                 pickupDistance: real, weights: ItemWeights,
                                 maxGround: real, itemMaxPosY: real)

  /** The two errors `generateRandomPosition` and `addCharacter` throw. */
  datatype MapError = NoPositionAvailable | UnknownCharacterType

  /** The Santa cooldown pair its client data adds. */
  datatype SkillCooldown = SkillCooldown(current: int, total: int)

  /** What the snapshot carries for one character. */
  datatype CharacterData = CharacterData(
    id: string, nickName: string, kind: CharacterType, position: Position, velocity: Position,
    items: seq<ItemType>, hasTail: bool, steal: bool, stolen: bool, isBeingStolen: bool,
    skillCooldown: Option<SkillCooldown>)

  /** The snapshot sent to the room's clients every simulation tick. */
  datatype GameState = GameState(remainRunningTime: int, characters: seq<CharacterData>, mapItems: seq<Item>)

  // ---------------------------------------------------------------------------
  // Item placement
  // ---------------------------------------------------------------------------

  predicate Inside(p: Position, b: Box) {
    && b.min.x <= p.x <= b.max.x
    && b.min.y <= p.y <= b.max.y
    && b.min.z <= p.z <= b.max.z
  }

  /** `isValidItemPosition`: scans the objects and rejects on the first box containing `p`. */
  function IsValidItemPosition(p: Position, obstacles: seq<Box>): (ok: bool)
    ensures ok <==> forall k :: 0 <= k < |obstacles| ==> !Inside(p, obstacles[k])
  {
    if obstacles == [] then true
    else if Inside(p, obstacles[0]) then false
    else
      var ok := IsValidItemPosition(p, obstacles[1..]);
      assert forall k :: 1 <= k < |obstacles| ==> obstacles[k] == obstacles[1..][k - 1];
      ok
  }

  /** One candidate position: x and z spread around the centre of the ground, y above the floor. */
  function SamplePosition(d: PositionDraw, maxGround: real, itemMaxPosY: real): Position {
    Position((d.x - 0.5) * (maxGround - 10.0), (d.y + 0.1) * itemMaxPosY, (d.z - 0.5) * (maxGround - 10.0))
  }

  /** `t * w` lies between `lo * w` and `hi * w` when `t` lies between `lo` and `hi` and `w` is not negative. */
  lemma ScaleBetween(t: real, lo: real, hi: real, w: real)
    requires lo <= t <= hi && w >= 0.0
    ensures lo * w <= t * w <= hi * w
  {
    assert (t - lo) * w >= 0.0;
    assert (hi - t) * w >= 0.0;
  }

  /**
   * Draws in [0, 1) put a candidate within half the playable width (the ground less 10) of the
   * centre on x and z, and between 0.1 and 1.1 times the item height on y.
   */
  lemma SamplePositionBounds(d: PositionDraw, maxGround: real, itemMaxPosY: real)
    requires 0.0 <= d.x < 1.0 && 0.0 <= d.y < 1.0 && 0.0 <= d.z < 1.0
    requires maxGround >= 10.0 && itemMaxPosY >= 0.0
    ensures var p := SamplePosition(d, maxGround, itemMaxPosY);
      var half := (maxGround - 10.0) / 2.0;
      && -half <= p.x <= half && -half <= p.z <= half
      && 0.1 * itemMaxPosY <= p.y <= 1.1 * itemMaxPosY
  {
    var w := maxGround - 10.0;
    var p := SamplePosition(d, maxGround, itemMaxPosY);
    ScaleBetween(d.x - 0.5, -0.5, 0.5, w);
    ScaleBetween(d.z - 0.5, -0.5, 0.5, w);
    ScaleBetween(d.y + 0.1, 0.1, 1.1, itemMaxPosY);
    assert (-0.5) * w == -(w / 2.0) && 0.5 * w == w / 2.0;
    assert p.x == (d.x - 0.5) * w && p.z == (d.z - 0.5) * w;
  }

  // ---------------------------------------------------------------------------
  // Weighted item type
  // ---------------------------------------------------------------------------

  /** The types in the order the thresholds are compared. */
  function Rank(t: ItemType): nat {
    match t
    case Boost => 0
    case Shield => 1
    case Thunder => 2
    case Gift => 3
  }

  function WeightList(w: ItemWeights): seq<real> {
    [w.boost, w.shield, w.thunder]
  }

  /** The sum of the first `k` weights. */
  function PrefixSum(ws: seq<real>, k: nat): real
    requires k <= |ws|
  {
    if k == 0 then 0.0 else PrefixSum(ws, k - 1) + ws[k - 1]
  }

  /**
   * `getRandomItemType` with its draw as a parameter: cumulative-weight sampling. The result
   * is the first type, in test order, whose cumulative share reaches the draw; Gift takes the rest.
   */
  function ItemTypeForDraw(w: ItemWeights, draw: real): (t: ItemType)
    requires w.total > 0.0
    ensures forall j :: 1 <= j <= Rank(t) ==> draw > PrefixSum(WeightList(w), j) / w.total
    ensures t != Gift ==> draw <= PrefixSum(WeightList(w), Rank(t) + 1) / w.total
  {
    var ws := WeightList(w);
    assert PrefixSum(ws, 1) == w.boost;
    assert PrefixSum(ws, 2) == w.boost + w.shield;
    assert PrefixSum(ws, 3) == w.boost + w.shield + w.thunder;
    if draw <= w.boost / w.total then Boost
    else if draw <= (w.boost + w.shield) / w.total then Shield
    else if draw <= (w.boost + w.shield + w.thunder) / w.total then Thunder
    else Gift
  }

  /** A larger draw never selects a type compared earlier. */
  lemma ItemTypeMonotone(w: ItemWeights, d1: real, d2: real)
    requires w.total > 0.0 && d1 <= d2
    ensures Rank(ItemTypeForDraw(w, d1)) <= Rank(ItemTypeForDraw(w, d2))
  {
    var t1, t2 := ItemTypeForDraw(w, d1), ItemTypeForDraw(w, d2);
    if Rank(t2) < Rank(t1) {
      assert false;
    }
  }

  // ---------------------------------------------------------------------------
  // Distance and pickup
  // ---------------------------------------------------------------------------

  /**
   * Which `calculateDistance` a room's `this.calculateDistance` resolves to: the shared one,
   * or the tail-tag room's override (tail-tag.ts declares a method of the same name, and
   * `private` does not change which method runs).
   */
  datatype DistanceRule = SharedDistance | TailTagDistance

  /** What the pickup test of a room needs: its distance method and ITEM.ITEM_PICKUP_DISTANCE. */
  datatype Reach = Reach(rule: DistanceRule, pickupDistance: real)

  /** `this.calculateDistance(position, item.position) <= ITEM_PICKUP_DISTANCE ** 2`. */
  predicate InPickupRange(p: Position, item: Item, reach: Reach) {
    var bound := reach.pickupDistance * reach.pickupDistance;
    match reach.rule
    case SharedDistance => DistanceSquared(p, item.position) <= bound
    case TailTagDistance => SqrtAtMost(StealDistanceSquaredAsWritten(p, item.position), bound)
  }

  /** The first item, in list order, within pickup range of `p`. */
  function FirstItemInRange(p: Position, items: seq<Item>, reach: Reach): (k: Option<nat>)
    ensures k.Some? ==> k.value < |items| && InPickupRange(p, items[k.value], reach)
    ensures k.Some? ==> forall m :: 0 <= m < k.value ==> !InPickupRange(p, items[m], reach)
    ensures k.None? ==> forall m :: 0 <= m < |items| ==> !InPickupRange(p, items[m], reach)
  {
    if items == [] then None
    else if InPickupRange(p, items[0], reach) then Some(0)
    else
      var rest := FirstItemInRange(p, items[1..], reach);
      assert forall m :: 1 <= m < |items| ==> items[m] == items[1..][m - 1];
      match rest
      case None => None
      case Some(j) => Some(j + 1)
  }

  /** `items.filter((item) => item.id !== id)`. */
  function WithoutItem(items: seq<Item>, id: string): (r: seq<Item>)
    ensures forall x :: x in r <==> x in items && x.id != id
    ensures |r| <= |items|
  {
    if items == [] then []
    else (if items[0].id == id then [] else [items[0]]) + WithoutItem(items[1..], id)
  }

  /** Removing an id that is not there leaves the list as it was. */
  lemma {:induction false} WithoutAbsentItem(items: seq<Item>, id: string)
    requires forall x :: x in items ==> x.id != id
    ensures WithoutItem(items, id) == items
  {
    if items != [] {
      WithoutAbsentItem(items[1..], id);
      assert [items[0]] + items[1..] == items;
    }
  }

  /** Removal works piecewise, so the items left keep their relative order. */
  lemma {:induction false} WithoutItemAppend(a: seq<Item>, b: seq<Item>, id: string)
    ensures WithoutItem(a + b, id) == WithoutItem(a, id) + WithoutItem(b, id)
  {
    if a != [] {
      assert (a + b)[1..] == a[1..] + b;
      WithoutItemAppend(a[1..], b, id);
    } else {
      assert a + b == b;
    }
  }

  /** What a character brings to a pickup pass. */
  datatype Carrier = Carrier(inventory: seq<ItemType>, position: Position)

  /** The item a character claims from `items`: none when it is full, otherwise the first in range. */
  function Claim(c: Carrier, items: seq<Item>, reach: Reach): (o: Option<Item>)
    ensures o.Some? ==> |c.inventory| < MaxInventory && o.value in items
    ensures o.Some? ==> InPickupRange(c.position, o.value, reach)
  {
    if |c.inventory| >= MaxInventory then None
    else match FirstItemInRange(c.position, items, reach)
      case None => None
      case Some(k) => Some(items[k])
  }

  function Claimed(o: Option<Item>): seq<ItemType> {
    if o.Some? then [o.value.itemType] else []
  }

  /** The carriers after the per-character step has moved them to `positions`; inventories are untouched. */
  function Moved(cs: seq<Carrier>, positions: seq<Position>): (r: seq<Carrier>)
    requires |positions| == |cs|
    ensures |r| == |cs|
    ensures forall i :: 0 <= i < |cs| ==> r[i].inventory == cs[i].inventory && r[i].position == positions[i]
  {
    seq(|cs|, i requires 0 <= i < |cs| => Carrier(cs[i].inventory, positions[i]))
  }

  /** The height record of `updateLog`: the greatest height seen and who was first seen there. */
  datatype Highest = Highest(maxPosY: real, character: Character?)

  /**
   * The scan of `updateLog` over the first `n` characters of `chars`, standing at `at`,
   * starting from the record `h`: a character replaces the record only when it stands
   * strictly higher.
   */
  function LogScan(chars: seq<Character>, at: seq<Position>, h: Highest, n: nat): Highest
    requires n <= |at| == |chars|
  {
    if n == 0 then h
    else
      var prev := LogScan(chars, at, h, n - 1);
      if prev.maxPosY < at[n - 1].y then Highest(at[n - 1].y, chars[n - 1]) else prev
  }

  /**
   * What the scan promises, as a relation between the record before (`h0`) and after (`h1`):
   * the height only rises and is at least everyone's; if it did not rise the character is
   * kept, and if it rose the character is the first one standing at the new height.
   */
  ghost predicate HighestLogged(chars: seq<Character>, at: seq<Position>, h0: Highest, h1: Highest) {
    && |at| == |chars|
    && h1.maxPosY >= h0.maxPosY
    && (forall k :: 0 <= k < |at| ==> at[k].y <= h1.maxPosY)
    && (h1.maxPosY == h0.maxPosY ==> h1.character == h0.character)
    && (h1.maxPosY != h0.maxPosY ==>
          exists k :: 0 <= k < |at| && chars[k] == h1.character && at[k].y == h1.maxPosY &&
                      forall j :: 0 <= j < k ==> at[j].y < h1.maxPosY)
  }

  /** The scan keeps its promise, over every prefix of the characters. */
  lemma {:induction false} LogScanRecords(chars: seq<Character>, at: seq<Position>, h: Highest, n: nat)
    requires n <= |at| == |chars|
    ensures HighestLogged(chars[..n], at[..n], h, LogScan(chars, at, h, n))
  {
    if n > 0 {
      var m := n - 1;
      var prev := LogScan(chars, at, h, m);
      LogScanRecords(chars, at, h, m);
      var r := LogScan(chars, at, h, n);
      assert forall j :: 0 <= j < m ==> at[..n][j] == at[..m][j] && chars[..n][j] == chars[..m][j];
      if prev.maxPosY < at[m].y {
        if prev.maxPosY != h.maxPosY {
          var k :| 0 <= k < m && chars[..m][k] == prev.character && at[..m][k].y == prev.maxPosY &&
                   forall j :: 0 <= j < k ==> at[..m][j].y < prev.maxPosY;
        }
        assert chars[..n][m] == r.character && at[..n][m].y == r.maxPosY;
      } else if prev.maxPosY != h.maxPosY {
        var k :| 0 <= k < m && chars[..m][k] == prev.character && at[..m][k].y == prev.maxPosY &&
                 forall j :: 0 <= j < k ==> at[..m][j].y < prev.maxPosY;
        assert chars[..n][k] == r.character && at[..n][k].y == r.maxPosY;
      }
    }
  }

  /** The promise leaves no choice: any record that keeps it is the scan's. */
  lemma HighestLoggedUnique(chars: seq<Character>, at: seq<Position>, h0: Highest, h1: Highest, h2: Highest)
    requires HighestLogged(chars, at, h0, h1) && HighestLogged(chars, at, h0, h2)
    ensures h1 == h2
  {
    if h1.maxPosY != h0.maxPosY && h2.maxPosY != h0.maxPosY {
      var k1 :| 0 <= k1 < |at| && chars[k1] == h1.character && at[k1].y == h1.maxPosY &&
                forall j :: 0 <= j < k1 ==> at[j].y < h1.maxPosY;
      var k2 :| 0 <= k2 < |at| && chars[k2] == h2.character && at[k2].y == h2.maxPosY &&
                forall j :: 0 <= j < k2 ==> at[j].y < h2.maxPosY;
      assert h1.maxPosY == h2.maxPosY;
    }
  }

  /**
   * What the shared `update()` of a character leaves behind for the rest of the tick: the
   * speed it recomputes, the velocity and ground contact it moves with, the thunder timers
   * and the stun counter it counts down. Its code is not part of this model, so these come
   * in as the outcome of that step. The Rabbit and Ghost variants' own `update()` is not part
   * of it either: `variantSkill` is the speed and skill timers it leaves for such a character.
   */
  datatype BaseUpdate = BaseUpdate(speed: real, velocity: Position, isOnGround: bool, thunderEffect: seq<int>,
                                   eventBlock: int, variantSkill: Santa.Skill)

  /**
   * The skill state after a character's own `update()`: the shared part sets the speed, then
   * a Santa runs its skill timers on it. A Rabbit or a Ghost ends with whatever its own
   * `update()` leaves, except the total cooldown, which no update writes. On a valid Santa the
   * skill keeps its invariant, and the speed it ends with is the recomputed speed with the
   * bonus of the skill as it now stands, minus that of the skill as it stood.
   */
  function SkillAfterStep(kind: CharacterType, s: Santa.Skill, base: BaseUpdate): (r: Santa.Skill)
    ensures kind != Santa ==> r == base.variantSkill.(total := s.total)
    ensures kind == Santa ==> !r.input && r.total == s.total && (Santa.Valid(s) ==> Santa.Valid(r))
    ensures kind == Santa && Santa.Valid(s) ==>
      r.speed - Santa.Bonus(r) == base.speed - Santa.Bonus(s)
  {
    var b := s.(speed := base.speed);
    if kind == Santa then
      var r := Santa.AfterUpdateSingleRelease(b, base.eventBlock);
      assert Santa.Valid(b) ==> r.speed - Santa.Bonus(r) == b.speed - Santa.Bonus(b) by {
        if Santa.Valid(b) { Santa.SingleReleaseKeepsBonusAccounting(b, base.eventBlock); }
      }
      r
    else base.variantSkill.(total := s.total)
  }

  /** What each character claimed in one pickup pass, and the items left in the room after it. */
  datatype PickupOutcome = PickupOutcome(claims: seq<Option<Item>>, items: seq<Item>)

  /**
   * `checkItemPickup` on values: characters in order, each claiming at most one item from
   * what the earlier characters left, every item with the claimed id leaving the room.
   */
  function PickupPass(cs: seq<Carrier>, items: seq<Item>, reach: Reach): (r: PickupOutcome)
    ensures |r.claims| == |cs|
    decreases |cs|
  {
    if cs == [] then PickupOutcome([], items)
    else
      var claim := Claim(cs[0], items, reach);
      var left := if claim.Some? then WithoutItem(items, claim.value.id) else items;
      var rest := PickupPass(cs[1..], left, reach);
      PickupOutcome([claim] + rest.claims, rest.items)
  }

  /** The first character's turn of a pass, then the rest of the pass on what it left. */
  lemma PickupPassStep(cs: seq<Carrier>, items: seq<Item>, reach: Reach)
    requires cs != []
    ensures var claim := Claim(cs[0], items, reach);
      var left := if claim.Some? then WithoutItem(items, claim.value.id) else items;
      var r := PickupPass(cs, items, reach);
      var rest := PickupPass(cs[1..], left, reach);
      && r.claims[0] == claim && r.claims[1..] == rest.claims && r.items == rest.items
  {
    var claim := Claim(cs[0], items, reach);
    var left := if claim.Some? then WithoutItem(items, claim.value.id) else items;
    assert PickupPass(cs, items, reach).claims == [claim] + PickupPass(cs[1..], left, reach).claims;
  }

  /** The claim of character `k > 0` is its claim in the rest of the pass. */
  lemma PickupPassLater(cs: seq<Carrier>, items: seq<Item>, reach: Reach, k: nat)
    requires 0 < k < |cs|
    ensures var claim := Claim(cs[0], items, reach);
      var left := if claim.Some? then WithoutItem(items, claim.value.id) else items;
      && PickupPass(cs, items, reach).claims[k] == PickupPass(cs[1..], left, reach).claims[k - 1]
      && cs[k] == cs[1..][k - 1]
  {
    PickupPassStep(cs, items, reach);
  }

  /** A character claims an item only when it has room, and only an item of the room within its reach. */
  lemma {:induction false} PickupPassClaim(cs: seq<Carrier>, items: seq<Item>, reach: Reach, i: nat)
    requires i < |cs| && PickupPass(cs, items, reach).claims[i].Some?
    ensures var x := PickupPass(cs, items, reach).claims[i].value;
      && |cs[i].inventory| < MaxInventory && x in items
      && InPickupRange(cs[i].position, x, reach)
    decreases |cs|
  {
    if i == 0 {
      PickupPassStep(cs, items, reach);
    } else {
      var claim := Claim(cs[0], items, reach);
      var left := if claim.Some? then WithoutItem(items, claim.value.id) else items;
      PickupPassLater(cs, items, reach, i);
      PickupPassClaim(cs[1..], left, reach, i - 1);
    }
  }

  /** No character ends a pass over the limit, and none gains more than one item. */
  lemma PickupPassBounded(cs: seq<Carrier>, items: seq<Item>, reach: Reach, i: nat)
    requires i < |cs| && |cs[i].inventory| <= MaxInventory
    ensures var gained := cs[i].inventory + Claimed(PickupPass(cs, items, reach).claims[i]);
      |cs[i].inventory| <= |gained| <= |cs[i].inventory| + 1 && |gained| <= MaxInventory
  {
    if PickupPass(cs, items, reach).claims[i].Some? {
      PickupPassClaim(cs, items, reach, i);
    }
  }

  /** An item claimed by one character is gone for every later one: claimed ids are distinct. */
  lemma {:induction false} PickupPassClaimsDistinct(cs: seq<Carrier>, items: seq<Item>, reach: Reach, i: nat, j: nat)
    requires i < j < |cs|
    requires PickupPass(cs, items, reach).claims[i].Some?
    requires PickupPass(cs, items, reach).claims[j].Some?
    ensures var r := PickupPass(cs, items, reach);
      r.claims[i].value.id != r.claims[j].value.id
    decreases |cs|
  {
    var claim := Claim(cs[0], items, reach);
    var left := if claim.Some? then WithoutItem(items, claim.value.id) else items;
    PickupPassLater(cs, items, reach, j);
    if i == 0 {
      PickupPassStep(cs, items, reach);
      PickupPassClaim(cs[1..], left, reach, j - 1);
    } else {
      PickupPassLater(cs, items, reach, i);
      PickupPassClaimsDistinct(cs[1..], left, reach, i - 1, j - 1);
    }
  }

  /** An item is left after a pass exactly when it was in the room and nobody claimed its id. */
  lemma {:induction false} PickupPassRemainder(cs: seq<Carrier>, items: seq<Item>, reach: Reach, x: Item)
    ensures var r := PickupPass(cs, items, reach);
      x in r.items <==>
        x in items && forall i :: 0 <= i < |cs| && r.claims[i].Some? ==> x.id != r.claims[i].value.id
    decreases |cs|
  {
    if cs != [] {
      var r := PickupPass(cs, items, reach);
      var claim := Claim(cs[0], items, reach);
      var left := if claim.Some? then WithoutItem(items, claim.value.id) else items;
      var rest := PickupPass(cs[1..], left, reach);
      PickupPassStep(cs, items, reach);
      PickupPassRemainder(cs[1..], left, reach, x);
      if x in r.items {
        forall i | 0 <= i < |cs| && r.claims[i].Some? ensures x.id != r.claims[i].value.id {
          if i > 0 {
            assert r.claims[i] == rest.claims[i - 1];
          }
        }
      }
      if x in items && forall i :: 0 <= i < |cs| && r.claims[i].Some? ==> x.id != r.claims[i].value.id {
        assert x in left;
        forall i | 0 <= i < |cs| - 1 && rest.claims[i].Some? ensures x.id != rest.claims[i].value.id {
          assert rest.claims[i] == r.claims[i + 1];
        }
      }
    }
  }

  /**
   * Every character that had room and claimed nothing had no item of the room within reach:
   * none of the items left after the pass is in its pickup range.
   */
  lemma {:induction false} PickupPassMaximal(cs: seq<Carrier>, items: seq<Item>, reach: Reach, i: nat, x: Item)
    requires i < |cs| && |cs[i].inventory| < MaxInventory
    requires PickupPass(cs, items, reach).claims[i].None?
    requires x in PickupPass(cs, items, reach).items
    ensures !InPickupRange(cs[i].position, x, reach)
    decreases |cs|
  {
    if i == 0 {
      PickupPassStep(cs, items, reach);
      PickupPassRemainder(cs, items, reach, x);
      assert FirstItemInRange(cs[0].position, items, reach).None?;
      var k :| 0 <= k < |items| && items[k] == x;
    } else {
      var claim := Claim(cs[0], items, reach);
      var left := if claim.Some? then WithoutItem(items, claim.value.id) else items;
      PickupPassStep(cs, items, reach);
      PickupPassLater(cs, items, reach, i);
      PickupPassMaximal(cs[1..], left, reach, i - 1, x);
    }
  }

  /**
   * In a room whose `calculateDistance` is the tail-tag override as written, no item is ever
   * in range: a pickup pass claims nothing and leaves every item in the room.
   */
  lemma {:induction false} TailTagPickupClaimsNothing(cs: seq<Carrier>, items: seq<Item>, pickupDistance: real)
    ensures var r := PickupPass(cs, items, Reach(TailTagDistance, pickupDistance));
      && r.items == items
      && forall i :: 0 <= i < |cs| ==> r.claims[i].None?
    decreases |cs|
  {
    if cs != [] {
      var reach := Reach(TailTagDistance, pickupDistance);
      assert FirstItemInRange(cs[0].position, items, reach).None? by {
        if FirstItemInRange(cs[0].position, items, reach).Some? {
          var k := FirstItemInRange(cs[0].position, items, reach).value;
          AsWrittenNeverAtMost(cs[0].position, items[k].position, pickupDistance * pickupDistance);
          assert false;
        }
      }
      PickupPassStep(cs, items, reach);
      TailTagPickupClaimsNothing(cs[1..], items, pickupDistance);
    }
  }

  /**
   * A character with room standing on an item: the shared distance lets it take the item,
   * the tail-tag override as written does not.
   */
  lemma PickupAtSameSpot(p: Position, x: Item, pickupDistance: real)
    requires x.position == p
    ensures PickupPass([Carrier([], p)], [x], Reach(SharedDistance, pickupDistance)).claims == [Some(x)]
    ensures PickupPass([Carrier([], p)], [x], Reach(TailTagDistance, pickupDistance)).claims == [None]
  {
    Square(pickupDistance);
    assert InPickupRange(p, x, Reach(SharedDistance, pickupDistance));
    TailTagPickupClaimsNothing([Carrier([], p)], [x], pickupDistance);
  }

  // ---------------------------------------------------------------------------
  // Characters, spawn positions, game over
  // ---------------------------------------------------------------------------

  /** The number the `CharacterType` enum gives each variant. */
  function CharacterTypeCode(t: CharacterType): (code: int)
    ensures 1 <= code <= 3
  {
    match t
    case Rabbit => 1
    case Santa => 2
    case Ghost => 3
  }

  /** The value `addCharacter` switches on: 1, 2 and 3 are the known variants, anything else is refused. */
  function CharacterTypeOf(charType: int): (r: Option<CharacterType>)
    ensures r.None? <==> !(1 <= charType <= 3)
    ensures r.Some? ==> CharacterTypeCode(r.value) == charType
  {
    if charType == 1 then Some(Rabbit)
    else if charType == 2 then Some(Santa)
    else if charType == 3 then Some(Ghost)
    else None
  }

  /** Every variant is recognised by its own enum number. */
  lemma CharacterTypeRoundTrip(t: CharacterType)
    ensures CharacterTypeOf(CharacterTypeCode(t)) == Some(t)
  {
  }

  /** `Math.floor(Math.random() * length)`: a draw in [0, 1) picks an index of a pool of `n`. */
  function SpawnIndex(draw: real, n: nat): (k: nat)
    requires n > 0 && 0.0 <= draw < 1.0
    ensures k < n
  {
    assert draw * n as real < n as real;
    (draw * n as real).Floor
  }

  /** `splice(k, 1)`: the pool without its k-th entry. */
  function RemoveAt<T>(s: seq<T>, k: nat): (r: seq<T>)
    requires k < |s|
    ensures |r| == |s| - 1
    ensures multiset(r) + multiset{s[k]} == multiset(s)
  {
    assert s == s[..k] + [s[k]] + s[k + 1..];
    s[..k] + s[k + 1..]
  }

  /** `characters.filter((char) => char.id !== id)`. */
  function WithoutCharacter(cs: seq<Character>, id: string): (r: seq<Character>)
    ensures forall i :: 0 <= i < |r| ==> r[i] in cs && r[i].id != id
    ensures forall i :: 0 <= i < |cs| && cs[i].id != id ==> cs[i] in r
    ensures Distinct(cs) ==> Distinct(r)
  {
    if cs == [] then []
    else
      var rest := WithoutCharacter(cs[1..], id);
      var r := (if cs[0].id == id then [] else [cs[0]]) + rest;
      assert Distinct(cs) ==> Distinct(r) by {
        if Distinct(cs) && cs[0].id == id {
          assert Distinct(cs[1..]) && r == rest;
        } else if Distinct(cs) {
          assert Distinct(cs[1..]) && cs[0] !in cs[1..];
          assert r[0] == cs[0] && r[1..] == rest;
          forall k | 0 <= k < |rest|
            ensures rest[k] != cs[0]
          {
            assert rest[k] in cs[1..];
          }
          assert cs[0] !in rest;
        }
      }
      r
  }

  /** No element appears twice: the first is not among the rest, and so on down the list. */
  ghost predicate Distinct<T>(s: seq<T>)
    decreases |s|
  {
    |s| == 0 || (s[0] !in s[1..] && Distinct(s[1..]))
  }

  /** Distinct elements sit at distinct indices. */
  lemma {:induction false} DistinctIndices<T>(s: seq<T>)
    requires Distinct(s)
    ensures forall i, j :: 0 <= i < j < |s| ==> s[i] != s[j]
  {
    if |s| > 0 {
      DistinctIndices(s[1..]);
      forall i, j | 0 <= i < j < |s|
        ensures s[i] != s[j]
      {
        assert s[j] == s[1..][j - 1];
        if i > 0 {
          assert s[i] == s[1..][i - 1];
        }
      }
    }
  }

  /** In a distinct sequence no other index holds the element at `i`. */
  lemma DistinctAt<T>(s: seq<T>, i: int)
    requires Distinct(s) && 0 <= i < |s|
    ensures forall k :: 0 <= k < |s| && k != i ==> s[k] != s[i]
  {
    DistinctIndices(s);
  }

  /** Appending an element that is not there keeps a sequence distinct. */
  lemma {:induction false} DistinctAppend<T>(s: seq<T>, x: T)
    requires Distinct(s) && x !in s
    ensures Distinct(s + [x])
  {
    if |s| > 0 {
      assert (s + [x])[1..] == s[1..] + [x];
      DistinctAppend(s[1..], x);
    }
  }

  /** The index of the first character with the given id. */
  function FirstWithId(cs: seq<Character>, id: string): (k: Option<nat>)
    ensures k.Some? ==> k.value < |cs| && cs[k.value].id == id
    ensures k.Some? ==> forall j :: 0 <= j < k.value ==> cs[j].id != id
    ensures k.None? ==> forall j :: 0 <= j < |cs| ==> cs[j].id != id
  {
    if cs == [] then None
    else if cs[0].id == id then Some(0)
    else
      var rest := FirstWithId(cs[1..], id);
      assert forall j :: 1 <= j < |cs| ==> cs[j] == cs[1..][j - 1];
      match rest
      case None => None
      case Some(j) => Some(j + 1)
  }

  /** `isGameOver`: time is up, or a single character is left. */
  predicate GameOver(remainRunningTime: int, characterCount: nat) {
    remainRunningTime <= 0 || characterCount == 1
  }

  /** What one character contributes to the snapshot. */
  function ClientData(c: Character): (d: CharacterData)
    reads c
    ensures d == DataOf(c, LookOf(c), c.items, Flags(c.stolen, c.steal))
    ensures d.id == c.id && d.kind == c.kind && d.items == c.items && d.position == c.position
    ensures d.skillCooldown.Some? <==> c.kind == Santa
    ensures d.skillCooldown.Some? ==>
      d.skillCooldown.value.current == c.currentSkillCooldown && d.skillCooldown.value.total == c.totalSkillCooldown
  {
    CharacterData(c.id, c.nickName, c.kind, c.position, c.velocity, c.items, c.hasTail,
                  c.steal, c.stolen, c.isBeingStolen,
                  if c.kind == Santa then Some(SkillCooldown(c.currentSkillCooldown, c.totalSkillCooldown)) else None)
  }

  // ---------------------------------------------------------------------------
  // A simulation tick on values
  // ---------------------------------------------------------------------------

  /**
   * What a simulation tick reads, changes or shows of one character besides its inventory
   * and its steal flags: where it is and how it moves, its stun counter and skill, its tail
   * and its robbery mark.
   */
  datatype Look = Look(position: Position, velocity: Position, eventBlock: int, skill: Santa.Skill,
                       hasTail: bool, isBeingStolen: bool)

  function LookOf(c: Character): Look
    reads c`position, c`velocity, c`eventBlock, c`speed, c`isSkillActive,
          c`currentSkillDuration, c`currentSkillCooldown, c`totalSkillCooldown, c`isSkillInput,
          c`hasTail, c`isBeingStolen
  {
    Look(c.position, c.velocity, c.eventBlock, Santa.SkillOf(c), c.hasTail, c.isBeingStolen)
  }

  /** The looks of `chars`, in room order. */
  function LooksOf(chars: seq<Character>): (r: seq<Look>)
    reads chars`position, chars`velocity, chars`eventBlock, chars`speed, chars`isSkillActive,
          chars`currentSkillDuration, chars`currentSkillCooldown, chars`totalSkillCooldown, chars`isSkillInput,
          chars`hasTail, chars`isBeingStolen
    ensures |r| == |chars|
    ensures forall i {:trigger r[i]} :: 0 <= i < |chars| ==> r[i] == LookOf(chars[i])
  {
    if chars == [] then [] else [LookOf(chars[0])] + LooksOf(chars[1..])
  }

  /** The inventories of `chars`, in room order. */
  function InventoriesOf(chars: seq<Character>): (r: seq<seq<ItemType>>)
    reads chars`items
    ensures |r| == |chars|
    ensures forall i {:trigger r[i]} :: 0 <= i < |chars| ==> r[i] == chars[i].items
  {
    if chars == [] then [] else [chars[0].items] + InventoriesOf(chars[1..])
  }

  /** The steal flags a character carries for one tick. */
  datatype Flags = Flags(stolen: bool, steal: bool)

  /** The steal flags of `chars`, in room order. */
  function FlagsOf(chars: seq<Character>): (r: seq<Flags>)
    reads chars`stolen, chars`steal
    ensures |r| == |chars|
    ensures forall i {:trigger r[i]} :: 0 <= i < |chars| ==> r[i] == Flags(chars[i].stolen, chars[i].steal)
  {
    if chars == [] then [] else [Flags(chars[0].stolen, chars[0].steal)] + FlagsOf(chars[1..])
  }

  /**
   * What a simulation tick reads, changes or shows of a room: per character, in room order,
   * its look, inventory and steal flags; then the room's items and its height record.
   */
  datatype RoomState = RoomState(looks: seq<Look>, inventories: seq<seq<ItemType>>, flags: seq<Flags>,
                                 items: seq<Item>, record: Highest)

  /** `s` describes the characters `chars`, one entry each. */
  predicate Fits(chars: seq<Character>, s: RoomState) {
    |s.looks| == |s.inventories| == |s.flags| == |chars|
  }

  /**
   * One character's own `update()` and the map boundary: it ends at `position`, with the
   * velocity and event block its base update left and its skill stepped from there.
   */
  function StepLook(kind: CharacterType, l: Look, base: BaseUpdate, position: Position): Look {
    l.(position := position, velocity := base.velocity, eventBlock := base.eventBlock,
       skill := SkillAfterStep(kind, l.skill, base))
  }

  /** The `forEach` of `updateGameState` on values. */
  function Stepped(chars: seq<Character>, s: RoomState, bases: seq<BaseUpdate>, positions: seq<Position>): RoomState
    requires Fits(chars, s) && |bases| == |positions| == |chars|
  {
    var looks := s.looks;
    s.(looks := seq(|looks|, i requires 0 <= i < |looks| => StepLook(chars[i].kind, looks[i], bases[i], positions[i])))
  }

  /** What a pickup pass sees of each character. */
  function CarriersIn(s: RoomState): seq<Carrier>
    requires |s.inventories| == |s.looks|
  {
    seq(|s.looks|, i requires 0 <= i < |s.looks| => Carrier(s.inventories[i], s.looks[i].position))
  }

  function PositionsIn(looks: seq<Look>): seq<Position> {
    seq(|looks|, i requires 0 <= i < |looks| => looks[i].position)
  }

  /** `checkItemPickup` on values: the pass over the characters as they stand, in room order. */
  function PickedUpIn(s: RoomState, reach: Reach): RoomState
    requires |s.inventories| == |s.looks|
  {
    var pass := PickupPass(CarriersIn(s), s.items, reach);
    var inventories := s.inventories;
    s.(inventories := seq(|inventories|, i requires 0 <= i < |inventories| => inventories[i] + Claimed(pass.claims[i])),
       items := pass.items)
  }

  /** `updateLog` on values: the scan of the characters where they stand, from the record. */
  function Logged(chars: seq<Character>, s: RoomState): RoomState
    requires |chars| == |s.looks|
  {
    s.(record := LogScan(chars, PositionsIn(s.looks), s.record, |chars|))
  }

  /** `resetEventkey` on values: every steal flag cleared. */
  function Reset(s: RoomState): RoomState {
    s.(flags := seq(|s.flags|, i => Flags(false, false)))
  }

  /** `updateGameState` on values: the per-character step, the pickup pass, then the log. */
  function GameStep(chars: seq<Character>, s: RoomState, bases: seq<BaseUpdate>, positions: seq<Position>,
                    reach: Reach): (r: RoomState)
    requires Fits(chars, s) && |bases| == |positions| == |chars|
    ensures Fits(chars, r)
  {
    Logged(chars, PickedUpIn(Stepped(chars, s, bases, positions), reach))
  }

  /** What the snapshot carries for character `c` with look `l`, inventory `inv` and flags `f`. */
  function DataOf(c: Character, l: Look, inv: seq<ItemType>, f: Flags): CharacterData {
    CharacterData(c.id, c.nickName, c.kind, l.position, l.velocity, inv, l.hasTail, f.steal, f.stolen, l.isBeingStolen,
                  if c.kind == Santa then Some(SkillCooldown(l.skill.cooldown, l.skill.total)) else None)
  }

  /** `convertGameState` on values. */
  function Snapshot(chars: seq<Character>, s: RoomState, remainRunningTime: int): GameState
    requires Fits(chars, s)
  {
    GameState(remainRunningTime,
              seq(|chars|, i requires 0 <= i < |chars| => DataOf(chars[i], s.looks[i], s.inventories[i], s.flags[i])),
              s.items)
  }

  /**
   * What a tick does to every character, and to the room's items and record: each stands at
   * its position with its event block and stepped skill; the pickup pass runs over the
   * characters moved there, carrying the inventories they had; and the log scans them where
   * they stand, from the old record. Flags and everything else about a character stay.
   */
  lemma GameStepMeaning(chars: seq<Character>, s: RoomState, bases: seq<BaseUpdate>, positions: seq<Position>,
                        reach: Reach)
    requires Fits(chars, s) && |bases| == |positions| == |chars|
    ensures var r := GameStep(chars, s, bases, positions, reach);
      var pass := PickupPass(Moved(CarriersIn(s), positions), s.items, reach);
      && Fits(chars, r) && r.flags == s.flags
      && r.items == pass.items
      && r.record == LogScan(chars, positions, s.record, |chars|)
      && (forall i :: 0 <= i < |chars| ==> r.inventories[i] == s.inventories[i] + Claimed(pass.claims[i]))
      && (forall i :: 0 <= i < |chars| ==>
            r.looks[i] == s.looks[i].(position := positions[i], velocity := bases[i].velocity,
                                      eventBlock := bases[i].eventBlock,
                                      skill := SkillAfterStep(chars[i].kind, s.looks[i].skill, bases[i])))
  {
    var stepped := Stepped(chars, s, bases, positions);
    assert CarriersIn(stepped) == Moved(CarriersIn(s), positions);
    assert PositionsIn(PickedUpIn(stepped, reach).looks) == positions;
  }

  // ---------------------------------------------------------------------------
  // The room
  // ---------------------------------------------------------------------------

  class CommonMap {
    const roomId: string
    var remainRunningTime: int
    var loopIdToReduceTime: Option<nat>
    var loopIdToUpdateGameState: Option<nat>
    var availablePositions: seq<Position>
    var highestCharacter: Character?
    var maxPosY: real
    var characters: seq<Character>
    var items: seq<Item>

    const obstacles: seq<Box>
    const reach: Reach
    const itemWeights: ItemWeights
    const maxGround: real
    const itemMaxPosY: real

    /**
     * The room invariant: each character object appears once, nobody carries more than two
     * items, and every item lies outside every obstacle.
     */
    ghost predicate Valid()
      reads this`characters, this`items, characters`items
    {
      && itemWeights.total > 0.0
      && Distinct(characters)
      && (forall k :: 0 <= k < |characters| ==> |characters[k].items| <= MaxInventory)
      && (forall x :: x in items ==> IsValidItemPosition(x.position, obstacles))
    }

    /** The room's state is what a pickup pass over `cs` and `pool` produces. */
    ghost predicate PickedUp(cs: seq<Carrier>, pool: seq<Item>)
      reads this`characters, this`items, characters`items
    {
      var r := PickupPass(cs, pool, reach);
      && |characters| == |cs|
      && items == r.items
      && forall i :: 0 <= i < |characters| ==> characters[i].items == cs[i].inventory + Claimed(r.claims[i])
    }

    constructor (roomId: string, remainRunningTime: int, config: MapConfig, rule: DistanceRule)
      requires config.weights.total > 0.0
      ensures Valid()
      ensures this.roomId == roomId && this.remainRunningTime == remainRunningTime
      ensures availablePositions == config.spawnPositions
      ensures characters == [] && items == []
      ensures loopIdToReduceTime.None? && loopIdToUpdateGameState.None?
      ensures highestCharacter == null && maxPosY == 0.0
      ensures obstacles == config.obstacles && reach == Reach(rule, config.pickupDistance)
      ensures itemWeights == config.weights
      ensures maxGround == config.maxGround && itemMaxPosY == config.itemMaxPosY
    {
      this.roomId := roomId;
      this.remainRunningTime := remainRunningTime;
      loopIdToReduceTime := None;
      loopIdToUpdateGameState := None;
      availablePositions := config.spawnPositions;
      highestCharacter := null;
      maxPosY := 0.0;
      characters := [];
      items := [];
      obstacles := config.obstacles;
      reach := Reach(rule, config.pickupDistance);
      itemWeights := config.weights;
      maxGround := config.maxGround;
      itemMaxPosY := config.itemMaxPosY;
    }

    // -- items ----------------------------------------------------------------

    /** A candidate sample that misses every obstacle. */
    predicate ValidSample(d: PositionDraw) {
      IsValidItemPosition(SamplePosition(d, maxGround, itemMaxPosY), obstacles)
    }

    /** The first candidate, in draw order, that `getRandomItemPosition` accepts. */
    function FirstValidDraw(draws: seq<PositionDraw>): (k: Option<nat>)
      ensures k.Some? ==> k.value < |draws| && ValidSample(draws[k.value])
      ensures k.Some? ==> forall j :: 0 <= j < k.value ==> !ValidSample(draws[j])
      ensures k.None? ==> forall j :: 0 <= j < |draws| ==> !ValidSample(draws[j])
    {
      if draws == [] then None
      else if ValidSample(draws[0]) then Some(0)
      else
        var rest := FirstValidDraw(draws[1..]);
        assert forall j :: 1 <= j < |draws| ==> draws[j] == draws[1..][j - 1];
        match rest
        case None => None
        case Some(j) => Some(j + 1)
    }

    /**
     * `getRandomItemPosition`: samples until a sample misses every obstacle, and returns that
     * first one. The candidates come from `draws`; if they run out without a valid one the
     * result is None.
     */
    method GetRandomItemPosition(draws: seq<PositionDraw>) returns (p: Option<Position>)
      ensures p.Some? ==> IsValidItemPosition(p.value, obstacles)
      ensures var k := FirstValidDraw(draws);
        p == if k.Some? then Some(SamplePosition(draws[k.value], maxGround, itemMaxPosY)) else None
    {
      var position := Position(0.0, 0.0, 0.0);
      var isValidPosition := false;
      var n := 0;
      while !isValidPosition && n < |draws|
        invariant 0 <= n <= |draws|
        invariant isValidPosition ==> 0 < n && position == SamplePosition(draws[n - 1], maxGround, itemMaxPosY)
        invariant isValidPosition ==> IsValidItemPosition(position, obstacles)
        invariant forall j :: 0 <= j < (if isValidPosition then n - 1 else n) ==> !ValidSample(draws[j])
      {
        position := SamplePosition(draws[n], maxGround, itemMaxPosY);
        n := n + 1;
        if IsValidItemPosition(position, obstacles) {
          isValidPosition := true;
        }
      }
      if isValidPosition {
        assert ValidSample(draws[n - 1]);
        var k := FirstValidDraw(draws);
        assert k.Some? && k.value == n - 1 by {
          if k.None? || k.value < n - 1 || k.value > n - 1 {
            assert false;
          }
        }
      }
      p := if isValidPosition then Some(position) else None;
    }

    /** The item `spawnNewItem` adds for this draw: None when no candidate position is valid. */
    function ItemFor(draw: ItemDraw): (o: Option<Item>)
      requires itemWeights.total > 0.0
      ensures o.Some? == FirstValidDraw(draw.positions).Some?
      ensures o.Some? ==>
        && o.value.id == draw.id
        && o.value.itemType == ItemTypeForDraw(itemWeights, draw.typeDraw)
        && o.value.position == SamplePosition(draw.positions[FirstValidDraw(draw.positions).value], maxGround, itemMaxPosY)
        && IsValidItemPosition(o.value.position, obstacles)
    {
      match FirstValidDraw(draw.positions)
      case None => None
      case Some(k) =>
        Some(Item(draw.id, ItemTypeForDraw(itemWeights, draw.typeDraw),
                  SamplePosition(draw.positions[k], maxGround, itemMaxPosY)))
    }

    /** A spawn adds an item exactly when some candidate position is clear of every obstacle. */
    lemma ItemForSpawnsIffValid(draw: ItemDraw)
      requires itemWeights.total > 0.0
      ensures ItemFor(draw).Some? <==> exists k :: 0 <= k < |draw.positions| && ValidSample(draw.positions[k])
    {
      var k := FirstValidDraw(draw.positions);
      if k.Some? {
        assert ValidSample(draw.positions[k.value]);
      }
    }

    function OptionalItem(o: Option<Item>): seq<Item> {
      if o.Some? then [o.value] else []
    }

    /** The items a run of spawns adds, in order. */
    function ItemsFor(draws: seq<ItemDraw>): (r: seq<Item>)
      requires itemWeights.total > 0.0
      ensures |r| <= |draws|
    {
      if draws == [] then []
      else ItemsFor(draws[..|draws| - 1]) + OptionalItem(ItemFor(draws[|draws| - 1]))
    }

    /** One more draw adds its own spawn, if any, after those of the draws before it. */
    lemma ItemsForPrefix(draws: seq<ItemDraw>, i: nat)
      requires itemWeights.total > 0.0 && i < |draws|
      ensures ItemsFor(draws[..i + 1]) == ItemsFor(draws[..i]) + OptionalItem(ItemFor(draws[i]))
    {
      assert draws[..i + 1][..i] == draws[..i];
    }

    /** When every draw has a valid candidate, every spawn adds an item. */
    lemma {:induction false} ItemsForAll(draws: seq<ItemDraw>)
      requires itemWeights.total > 0.0
      ensures (forall i :: 0 <= i < |draws| ==> ItemFor(draws[i]).Some?) ==> |ItemsFor(draws)| == |draws|
    {
      if draws != [] {
        ItemsForAll(draws[..|draws| - 1]);
      }
    }

    /** `spawnNewItem`: a new item of a weighted type at the first candidate position clear of every obstacle. */
    method SpawnNewItem(draw: ItemDraw) returns (spawned: bool)
      requires Valid()
      modifies this`items
      ensures Valid()
      ensures spawned == ItemFor(draw).Some?
      ensures items == old(items) + OptionalItem(ItemFor(draw))
    {
      var id := draw.id;
      var itemType := ItemTypeForDraw(itemWeights, draw.typeDraw);
      var position := GetRandomItemPosition(draw.positions);
      spawned := position.Some?;
      if spawned {
        items := items + [Item(id, itemType, position.value)];
      }
    }

    /** `spawnInitialItems`: eight spawns in a row; eight items when every draw has a valid candidate. */
    method SpawnInitialItems(draws: seq<ItemDraw>)
      requires Valid() && |draws| == InitialItemCount
      modifies this`items
      ensures Valid()
      ensures items == old(items) + ItemsFor(draws)
      ensures (forall i :: 0 <= i < |draws| ==> ItemFor(draws[i]).Some?) ==>
        |items| == |old(items)| + InitialItemCount
    {
      SpawnEach(draws);
      ItemsForAll(draws);
    }

    /** The loop of `spawnInitialItems`: one `spawnNewItem` per draw, in order. */
    method SpawnEach(draws: seq<ItemDraw>)
      requires Valid()
      modifies this`items
      ensures Valid()
      ensures items == old(items) + ItemsFor(draws)
    {
      ghost var added: seq<Item> := [];
      for i := 0 to |draws|
        invariant Valid()
        invariant items == old(items) + added
        invariant added == ItemsFor(draws[..i])
      {
        ItemsForPrefix(draws, i);
        var _ := SpawnNewItem(draws[i]);
        added := added + OptionalItem(ItemFor(draws[i]));
      }
      assert draws[..|draws|] == draws;
    }

    /** `respawnItem`, the removal part: every item with this id leaves the room. */
    method RespawnItem(itemId: string)
      modifies this`items
      ensures items == WithoutItem(old(items), itemId)
    {
      items := WithoutItem(items, itemId);
    }

    /** `handleItemPickup`: the item's type goes to the end of the inventory; the item leaves the room. */
    method HandleItemPickup(character: Character, item: Item)
      modifies this`items, character`items
      ensures character.items == old(character.items) + [item.itemType]
      ensures items == WithoutItem(old(items), item.id)
    {
      character.items := character.items + [item.itemType];
      RespawnItem(item.id);
    }

    /**
     * One character's turn in `checkItemPickup`: a character with room takes the first item in
     * reach, and the scan stops there.
     */
    method PickUpFirstInRange(character: Character)
      modifies this`items, character`items
      ensures var claim := Claim(Carrier(old(character.items), character.position), old(items), reach);
        && character.items == old(character.items) + Claimed(claim)
        && items == if claim.Some? then WithoutItem(old(items), claim.value.id) else old(items)
    {
      if |character.items| >= MaxInventory {
        return;
      }
      var j := 0;
      while j < |items|
        invariant 0 <= j <= |items|
        invariant items == old(items) && character.items == old(character.items)
        invariant forall m :: 0 <= m < j ==> !InPickupRange(character.position, items[m], reach)
      {
        var item := items[j];
        if InPickupRange(character.position, item, reach) {
          assert FirstItemInRange(character.position, items, reach) == Some(j);
          HandleItemPickup(character, item);
          return;
        }
        j := j + 1;
      }
    }

    /**
     * The state of a pickup pass over `cs` that has handled the first `i` characters: they hold
     * what the pass gave them, the others are untouched, and the rest of the pass on the items
     * left ends where the whole pass ends.
     */
    ghost predicate PickupInProgress(i: nat, cs: seq<Carrier>, pass: PickupOutcome)
      reads this`characters, this`items, characters`items, characters`position
    {
      && i <= |characters| == |cs| == |pass.claims|
      && (forall k :: 0 <= k < |characters| ==> |characters[k].items| <= MaxInventory)
      && (forall x :: x in items ==> IsValidItemPosition(x.position, obstacles))
      && (forall k :: 0 <= k < |characters| ==> characters[k].position == cs[k].position)
      && (forall k :: 0 <= k < i ==> characters[k].items == cs[k].inventory + Claimed(pass.claims[k]))
      && (forall k :: i <= k < |characters| ==> characters[k].items == cs[k].inventory)
      && PickupPass(cs[i..], items, reach) == PickupOutcome(pass.claims[i..], pass.items)
    }

    /** The body of the character loop of `checkItemPickup`: character `i` takes its turn. */
    method PickupTurn(character: Character, i: nat, ghost cs: seq<Carrier>, ghost pass: PickupOutcome)
      requires Distinct(characters) && i < |characters| && characters[i] == character
      requires PickupInProgress(i, cs, pass)
      modifies this`items, character`items
      ensures PickupInProgress(i + 1, cs, pass)
    {
      DistinctAt(characters, i);
      ghost var pool := items;
      ghost var claim := Claim(cs[i], pool, reach);
      assert cs[i..][0] == cs[i] && cs[i..][1..] == cs[i + 1..];
      assert pass.claims[i..][0] == pass.claims[i] && pass.claims[i..][1..] == pass.claims[i + 1..];
      PickupPassStep(cs[i..], pool, reach);
      PickUpFirstInRange(character);
      assert character.items == cs[i].inventory + Claimed(claim);
    }

    /** `checkItemPickup`: one pickup pass over the characters in order. */
    method CheckItemPickup()
      requires Valid()
      modifies this`items, characters`items
      ensures Valid()
      ensures PickedUp(CarriersIn(old(State())), old(items))
      ensures State() == PickedUpIn(old(State()), reach)
    {
      ghost var s0 := State();
      PickupLoop(CarriersIn(s0));
      PickedUpView(s0);
    }

    /** The loop of `checkItemPickup`, given what the pass sees of each character. */
    method PickupLoop(ghost cs: seq<Carrier>)
      requires Valid() && |cs| == |characters|
      requires forall k :: 0 <= k < |characters| ==> cs[k] == Carrier(characters[k].items, characters[k].position)
      modifies this`items, characters`items
      ensures Valid() && PickedUp(cs, old(items))
    {
      ghost var pass := PickupPass(cs, items, reach);
      assert cs[0..] == cs && pass.claims[0..] == pass.claims;
      var i := 0;
      while i < |characters|
        invariant Distinct(characters)
        invariant PickupInProgress(i, cs, pass)
      {
        PickupTurn(characters[i], i, cs, pass);
        i := i + 1;
      }
      assert cs[i..] == [];
    }

    /** A finished pickup pass, seen on the tick's view of the room. */
    lemma PickedUpView(s0: RoomState)
      requires Fits(characters, s0) && PickedUp(CarriersIn(s0), s0.items)
      requires LooksOf(characters) == s0.looks && FlagsOf(characters) == s0.flags
      requires Highest(maxPosY, highestCharacter) == s0.record
      ensures State() == PickedUpIn(s0, reach)
    {
      assert InventoriesOf(characters) == PickedUpIn(s0, reach).inventories;
    }

    // -- thunder --------------------------------------------------------------

    /** `handleTunderItemUse`: a thunder at the head of the caster's inventory hits everyone else. */
    method HandleThunderItemUse(caster: Character)
      requires Valid()
      modifies characters`thunderEffect
      ensures forall i :: 0 <= i < |characters| ==>
                characters[i].thunderEffect ==
                  if |caster.items| > 0 && caster.items[0] == Thunder && characters[i].id != caster.id
                  then old(characters[i].thunderEffect) + [ThunderTicks]
                  else old(characters[i].thunderEffect)
    {
      if |caster.items| > 0 && caster.items[0] == Thunder {
        ApplyThunderEffect(caster);
      }
    }

    /** `applyThunderEffect`: a 10-tick thunder timer for every character whose id is not the caster's. */
    method ApplyThunderEffect(caster: Character)
      requires Valid()
      modifies characters`thunderEffect
      ensures forall i :: 0 <= i < |characters| ==>
                characters[i].thunderEffect ==
                  if characters[i].id != caster.id
                  then old(characters[i].thunderEffect) + [ThunderTicks]
                  else old(characters[i].thunderEffect)
    {
      for i := 0 to |characters|
        invariant forall j :: 0 <= j < i ==>
                    characters[j].thunderEffect ==
                      if characters[j].id != caster.id
                      then old(characters[j].thunderEffect) + [ThunderTicks]
                      else old(characters[j].thunderEffect)
        invariant forall j :: i <= j < |characters| ==> characters[j].thunderEffect == old(characters[j].thunderEffect)
      {
        DistinctAt(characters, i);
        var other := characters[i];
        if other.id != caster.id {
          other.thunderEffect := other.thunderEffect + [ThunderTicks];
        }
      }
    }

    // -- characters -----------------------------------------------------------

    /** `generateRandomPosition`: draws a spawn position without replacement. */
    method GenerateRandomPosition(draw: real) returns (r: Result<Position, MapError>)
      requires 0.0 <= draw < 1.0
      modifies this`availablePositions
      ensures old(availablePositions) == [] ==>
        r == Failure(NoPositionAvailable) && availablePositions == old(availablePositions)
      ensures old(availablePositions) != [] ==>
        var k := SpawnIndex(draw, |old(availablePositions)|);
        && r == Success(old(availablePositions)[k])
        && availablePositions == RemoveAt(old(availablePositions), k)
    {
      if |availablePositions| == 0 {
        return Failure(NoPositionAvailable);
      }
      var index := SpawnIndex(draw, |availablePositions|);
      var position := availablePositions[index];
      availablePositions := RemoveAt(availablePositions, index);
      return Success(position);
    }

    /** `findCharacter`: the first character with this id, if any. */
    function FindCharacter(id: string): (r: Option<Character>)
      reads this
      ensures r.Some? ==> r.value in characters && r.value.id == id
      ensures r.Some? ==> exists k :: (0 <= k < |characters| && characters[k] == r.value &&
        forall j :: 0 <= j < k ==> characters[j].id != id)
      ensures r.None? ==> forall j :: 0 <= j < |characters| ==> characters[j].id != id
    {
      match FirstWithId(characters, id)
      case None => None
      case Some(k) => Some(characters[k])
    }

    /**
     * `addCharacter`: takes a spawn position first, then builds the requested variant. An
     * unknown variant is an error, but the position it drew stays consumed.
     */
    method AddCharacter(id: string, nickName: string, charType: int, positionDraw: real, draws: CharacterDraws)
      returns (r: Result<Character, MapError>)
      requires Valid() && 0.0 <= positionDraw < 1.0 && draws.InRange()
      modifies this`availablePositions, this`characters
      ensures Valid()
      ensures old(availablePositions) == [] ==>
        && r == Failure(NoPositionAvailable)
        && availablePositions == old(availablePositions) && characters == old(characters)
      ensures old(availablePositions) != [] ==>
        var k := SpawnIndex(positionDraw, |old(availablePositions)|);
        && availablePositions == RemoveAt(old(availablePositions), k)
        && (CharacterTypeOf(charType).None? ==>
              r == Failure(UnknownCharacterType) && characters == old(characters))
        && (CharacterTypeOf(charType).Some? ==>
              && r.Success? && fresh(r.value) && characters == old(characters) + [r.value]
              && r.value.id == id && r.value.kind == CharacterTypeOf(charType).value
              && r.value.position == old(availablePositions)[k] && r.value.items == [])
    {
      var drawn := GenerateRandomPosition(positionDraw);
      if drawn.Failure? {
        return Failure(drawn.error);
      }
      var position := drawn.value;
      var kind := CharacterTypeOf(charType);
      if kind.None? {
        return Failure(UnknownCharacterType);
      }
      var character := CreateCharacter(id, nickName, kind.value, position, draws);
      Push(character);
      return Success(character);
    }

    /** The switch of `addCharacter`: a new character of the given variant at `position`. */
    static method CreateCharacter(id: string, nickName: string, kind: CharacterType, position: Position,
                                  draws: CharacterDraws) returns (c: Character)
      requires draws.InRange()
      ensures fresh(c) && c.id == id && c.nickName == nickName && c.kind == kind
      ensures c.position == position && c.items == []
    {
      match kind {
        case Rabbit =>
          c := new Character(id, nickName, Rabbit, position, RabbitProps, draws);
        case Santa =>
          c := Santa.NewSantaCharacter(id, nickName, position, draws);
        case Ghost =>
          c := new Character(id, nickName, Ghost, position, GhostProps, draws);
      }
    }

    /** `this.characters.push(character)` for a character that is new to the room. */
    method Push(character: Character)
      requires Valid() && character !in characters && |character.items| <= MaxInventory
      modifies this`characters
      ensures Valid() && characters == old(characters) + [character]
    {
      DistinctAppend(characters, character);
      characters := characters + [character];
    }

    /** `removeCharacter`: drops every character with this id; no spawn position comes back. */
    method RemoveCharacter(id: string)
      requires Valid()
      modifies this`characters
      ensures Valid()
      ensures characters == WithoutCharacter(old(characters), id)
      ensures forall c :: c in characters <==> c in old(characters) && c.id != id
    {
      characters := WithoutCharacter(characters, id);
    }

    // -- the simulation tick ----------------------------------------------------

    /** What a simulation tick reads, changes or shows of this room. */
    function State(): (r: RoomState)
      reads this`characters, this`items, this`maxPosY, this`highestCharacter,
            characters`position, characters`velocity, characters`items, characters`eventBlock, characters`speed,
            characters`isSkillActive, characters`currentSkillDuration, characters`currentSkillCooldown,
            characters`totalSkillCooldown, characters`isSkillInput, characters`hasTail, characters`isBeingStolen,
            characters`stolen, characters`steal
      ensures Fits(characters, r)
    {
      RoomState(LooksOf(characters), InventoriesOf(characters), FlagsOf(characters), items,
                Highest(maxPosY, highestCharacter))
    }

    /** `convertGameState`: the snapshot, characters and items in room order. */
    function ConvertGameState(): (s: GameState)
      reads this, characters
      ensures s == Snapshot(characters, State(), remainRunningTime)
    {
      var chars := characters;
      GameState(remainRunningTime,
                seq(|chars|, i requires 0 <= i < |chars| reads chars => ClientData(chars[i])),
                items)
    }

    /**
     * `updateLog`: remembers the first character seen above the highest point so far; the
     * new record is the scan of the characters where they stand, from the old record.
     */
    method UpdateLog()
      modifies this`highestCharacter, this`maxPosY
      ensures State() == Logged(characters, old(State()))
    {
      ghost var at := PositionsIn(LooksOf(characters));
      ghost var h := Highest(maxPosY, highestCharacter);
      for i := 0 to |characters|
        invariant Highest(maxPosY, highestCharacter) == LogScan(characters, at, h, i)
      {
        var character := characters[i];
        var posY := character.position.y;
        assert posY == at[i].y;
        if maxPosY < posY {
          highestCharacter := character;
          maxPosY := posY;
        }
      }
      assert LooksOf(characters) == old(LooksOf(characters));
      assert InventoriesOf(characters) == old(InventoriesOf(characters));
      assert FlagsOf(characters) == old(FlagsOf(characters));
    }

    /** `resetEventkey`: clears the one-tick steal flags of every character, and nothing else. */
    method ResetEventKey()
      modifies characters`stolen, characters`steal
      ensures forall c :: c in characters ==> !c.stolen && !c.steal
      ensures State() == Reset(old(State()))
    {
      for i := 0 to |characters|
        invariant forall j :: 0 <= j < i ==> !characters[j].stolen && !characters[j].steal
      {
        characters[i].stolen := false;
        characters[i].steal := false;
      }
      assert LooksOf(characters) == old(LooksOf(characters));
      assert InventoriesOf(characters) == old(InventoriesOf(characters));
      assert FlagsOf(characters) == Reset(old(State())).flags;
    }

    /**
     * The `forEach` of `updateGameState`: every character runs its own `update()` and is put
     * back inside the map. The code behind both is not part of this model: what the shared
     * `update()` decides comes in as `bases`, and the position each character ends at as
     * `positions`. A Santa's `update()` then runs its skill timers, which are modelled.
     */
    method UpdateCharacters(bases: seq<BaseUpdate>, positions: seq<Position>)
      requires Distinct(characters) && |bases| == |characters| && |positions| == |characters|
      modifies characters`position, characters`velocity, characters`isOnGround, characters`thunderEffect,
               characters`eventBlock, characters`speed, characters`isSkillActive,
               characters`currentSkillDuration, characters`currentSkillCooldown, characters`isSkillInput
      ensures State() == Stepped(characters, old(State()), bases, positions)
    {
      StepEach(bases, positions);
      assert InventoriesOf(characters) == old(InventoriesOf(characters));
      assert FlagsOf(characters) == old(FlagsOf(characters));
      assert LooksOf(characters) == Stepped(characters, old(State()), bases, positions).looks;
    }

    /** The loop of that `forEach`, character by character. */
    method StepEach(bases: seq<BaseUpdate>, positions: seq<Position>)
      requires Distinct(characters) && |bases| == |characters| && |positions| == |characters|
      modifies characters`position, characters`velocity, characters`isOnGround, characters`thunderEffect,
               characters`eventBlock, characters`speed, characters`isSkillActive,
               characters`currentSkillDuration, characters`currentSkillCooldown, characters`isSkillInput
      ensures forall j :: 0 <= j < |characters| ==>
        LookOf(characters[j]) == StepLook(characters[j].kind, old(LookOf(characters[j])), bases[j], positions[j])
    {
      for i := 0 to |characters|
        invariant forall j :: 0 <= j < i ==>
          LookOf(characters[j]) == StepLook(characters[j].kind, old(LookOf(characters[j])), bases[j], positions[j])
        invariant forall j :: i <= j < |characters| ==> LookOf(characters[j]) == old(LookOf(characters[j]))
      {
        DistinctAt(characters, i);
        StepCharacter(characters[i], bases[i], positions[i]);
      }
    }

    /** One character's turn in that `forEach`: its own `update()`, then the map boundary. */
    static method StepCharacter(character: Character, base: BaseUpdate, position: Position)
      modifies character`position, character`velocity, character`isOnGround, character`thunderEffect,
               character`eventBlock, character`speed, character`isSkillActive,
               character`currentSkillDuration, character`currentSkillCooldown, character`isSkillInput
      ensures LookOf(character) == StepLook(character.kind, old(LookOf(character)), base, position)
      ensures character.isOnGround == base.isOnGround && character.thunderEffect == base.thunderEffect
    {
      character.speed := base.speed;
      character.velocity := base.velocity;
      character.isOnGround := base.isOnGround;
      character.thunderEffect := base.thunderEffect;
      character.eventBlock := base.eventBlock;
      if character.kind == Santa {
        Santa.Update(character);
      } else {
        var v := base.variantSkill;
        character.speed, character.isSkillActive := v.speed, v.active;
        character.currentSkillDuration, character.currentSkillCooldown := v.duration, v.cooldown;
        character.isSkillInput := v.input;
      }
      character.position := position;
    }

    /**
     * `updateGameState`: the per-character step, then the pickup pass on the moved
     * characters, then the height log over their new positions; `GameStepMeaning` spells
     * out what that does to each character.
     */
    method UpdateGameState(bases: seq<BaseUpdate>, positions: seq<Position>)
      requires Valid() && |bases| == |characters| && |positions| == |characters|
      modifies this`items, this`highestCharacter, this`maxPosY, characters`items,
               characters`position, characters`velocity, characters`isOnGround, characters`thunderEffect,
               characters`eventBlock, characters`speed, characters`isSkillActive,
               characters`currentSkillDuration, characters`currentSkillCooldown, characters`isSkillInput
      ensures Valid()
      ensures State() == GameStep(characters, old(State()), bases, positions, reach)
    {
      ghost var s0 := State();
      UpdateCharacters(bases, positions);
      ghost var s1 := State();
      assert s1 == Stepped(characters, s0, bases, positions);
      PickupAndLog();
      assert State() == Logged(characters, PickedUpIn(s1, reach));
    }

    /** The rest of `updateGameState`: the pickup pass, then the log. */
    method PickupAndLog()
      requires Valid()
      modifies this`items, this`highestCharacter, this`maxPosY, characters`items
      ensures Valid()
      ensures State() == Logged(characters, PickedUpIn(old(State()), reach))
    {
      ghost var s0 := State();
      CheckItemPickup();
      ghost var s1 := State();
      assert s1 == PickedUpIn(s0, reach);
      UpdateLog();
      assert State() == Logged(characters, s1);
    }

    /**
     * The body of the simulation interval: update, snapshot, then clear the one-tick flags.
     * The snapshot shows the room as the update left it, flags included; afterwards the
     * flags are clear.
     */
    method UpdateStateTick(bases: seq<BaseUpdate>, positions: seq<Position>) returns (state: GameState)
      requires Valid() && |bases| == |characters| && |positions| == |characters|
      modifies this`items, this`highestCharacter, this`maxPosY, characters`items, characters`stolen, characters`steal,
               characters`position, characters`velocity, characters`isOnGround, characters`thunderEffect,
               characters`eventBlock, characters`speed, characters`isSkillActive,
               characters`currentSkillDuration, characters`currentSkillCooldown, characters`isSkillInput
      ensures Valid()
      ensures state == Snapshot(characters, GameStep(characters, old(State()), bases, positions, reach), remainRunningTime)
      ensures State() == Reset(GameStep(characters, old(State()), bases, positions, reach))
    {
      ghost var s0 := State();
      UpdateGameState(bases, positions);
      ghost var s1 := State();
      state := SnapshotAndReset();
      assert State() == Reset(s1);
    }

    /** The end of a simulation tick: the snapshot is taken before the one-tick flags are cleared. */
    method SnapshotAndReset() returns (state: GameState)
      modifies characters`stolen, characters`steal
      ensures Valid() == old(Valid())
      ensures state == Snapshot(characters, old(State()), remainRunningTime)
      ensures State() == Reset(old(State()))
    {
      state := ConvertGameState();
      ResetEventKey();
    }

    // -- the countdown and the loop handles --------------------------------------

    /** `startGameLoop` keeps the two interval handles; the scheduling is not modelled. */
    method StartGameLoop(reduceTimeId: nat, updateGameStateId: nat)
      modifies this`loopIdToReduceTime, this`loopIdToUpdateGameState
      ensures loopIdToReduceTime == Some(reduceTimeId)
      ensures loopIdToUpdateGameState == Some(updateGameStateId)
    {
      loopIdToReduceTime := Some(reduceTimeId);
      loopIdToUpdateGameState := Some(updateGameStateId);
    }

    /** `stopGameLoop`: clears both handles; on a stopped room it changes nothing. */
    method StopGameLoop()
      modifies this`loopIdToReduceTime, this`loopIdToUpdateGameState
      ensures loopIdToReduceTime.None? && loopIdToUpdateGameState.None?
      ensures old(loopIdToReduceTime).None? && old(loopIdToUpdateGameState).None? ==> unchanged(this)
    {
      if loopIdToReduceTime.Some? {
        loopIdToReduceTime := None;
      }
      if loopIdToUpdateGameState.Some? {
        loopIdToUpdateGameState := None;
      }
    }

    /**
     * The body of the one-second interval: one second less, then the game-over test. On game
     * over both loops are stopped and `gameOver` reports it to the owner.
     */
    method ReduceTimeTick() returns (gameOver: bool)
      modifies this`remainRunningTime, this`loopIdToReduceTime, this`loopIdToUpdateGameState
      ensures remainRunningTime == old(remainRunningTime) - 1
      ensures gameOver <==> remainRunningTime <= 0 || |characters| == 1
      ensures gameOver ==> loopIdToReduceTime.None? && loopIdToUpdateGameState.None?
      ensures !gameOver ==> loopIdToReduceTime == old(loopIdToReduceTime) &&
                            loopIdToUpdateGameState == old(loopIdToUpdateGameState)
    {
      remainRunningTime := remainRunningTime - 1;
      gameOver := GameOver(remainRunningTime, |characters|);
      if gameOver {
        StopGameLoop();
      }
    }

    /**
     * The one-second interval, run until its own body clears it, with the same characters
     * throughout: every game ends, after exactly as many ticks as there were seconds left
     * (at least one), or after the first tick when a single character is left.
     */
    method RunCountdown() returns (ticks: nat)
      requires loopIdToReduceTime.Some?
      modifies this`remainRunningTime, this`loopIdToReduceTime, this`loopIdToUpdateGameState
      ensures ticks == if |characters| == 1 || old(remainRunningTime) <= 1 then 1 else old(remainRunningTime)
      ensures remainRunningTime == old(remainRunningTime) - ticks
      ensures GameOver(remainRunningTime, |characters|)
      ensures loopIdToReduceTime.None? && loopIdToUpdateGameState.None?
    {
      ticks := 0;
      while loopIdToReduceTime.Some?
        invariant remainRunningTime == old(remainRunningTime) - ticks
        invariant ticks == 0 ==> loopIdToReduceTime.Some?
        invariant ticks <= 1 || ticks <= old(remainRunningTime)
        invariant |characters| == 1 ==> ticks <= 1
        invariant ticks > 0 && loopIdToReduceTime.Some? ==> !GameOver(remainRunningTime, |characters|)
        invariant loopIdToReduceTime.None? ==> GameOver(remainRunningTime, |characters|) && loopIdToUpdateGameState.None?
        decreases (if loopIdToReduceTime.Some? then 1 else 0) + (if remainRunningTime > 0 then remainRunningTime else 0)
      {
        var over := ReduceTimeTick();
        ticks := ticks + 1;
      }
    }
  }
}
