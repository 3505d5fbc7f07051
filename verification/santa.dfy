/**
 * The Santa variant (src/game/objects/santa.ts): a speed skill with its own duration and
 * cooldown, counted in simulation ticks. The skill can only start when the cooldown has run
 * out, ends on its own when the duration runs out, and is cut short by a long stun.
 *
 * The skill state is read off a `Character` as a `Skill` value; the pure functions below say
 * what `useSkill` and `update` do to it, and the methods are proved to do exactly that.
 * The code of `super.update()`, which runs before the Santa part of `update`, is not part of
 * this model: `Update` starts from the speed and event block the shared update left behind,
 * which the room's per-character step sets before calling it.
 */
module Santa {
  import opened Player

  /** Simulation ticks per second: `updateInterval` is 1/5 of a second. */
  const TicksPerSecond := 5

  /** `skillDurationTime`: five seconds, 25 ticks. */
  const SkillDurationTime := 5 * TicksPerSecond

  /** `totalSkillCooldown`: fifteen seconds, 75 ticks. */
  const TotalSkillCooldown := 15 * TicksPerSecond

  /** CHARACTER.SANTA_SKILL_SPEED; player.constant is not part of this model, so it is left open. */
  const SantaSkillSpeed: real

  /** CHARACTER.SANTA_BASE_SPEED, left open for the same reason. */
  const SantaBaseSpeed: real

  /** CHARACTER.ITEM_EVENT_BLOCK: an event block above this is a long stun. */
  const ItemEventBlock: int

  /** What the Santa constructor hands to the shared constructor. */
  const SantaProps := VariantProps(SantaBaseSpeed, 0, TotalSkillCooldown)

  /** The fields `useSkill` and `update` work on. */
  datatype Skill = Skill(speed: real, active: bool, duration: int, cooldown: int, total: int, input: bool)

  function SkillOf(c: Character): Skill
    reads c`speed, c`isSkillActive, c`currentSkillDuration, c`currentSkillCooldown, c`totalSkillCooldown, c`isSkillInput
  {
    Skill(c.speed, c.isSkillActive, c.currentSkillDuration, c.currentSkillCooldown,
          c.totalSkillCooldown, c.isSkillInput)
  }

  /**
   * The skill invariant of a Santa: the duration is never negative and is zero whenever the
   * skill is off; while the skill is on, the cooldown is exactly 50 ticks ahead of the
   * duration (both started together at 75 and 25 and count down together).
   */
  predicate Valid(s: Skill) {
    && s.total == TotalSkillCooldown
    && 0 <= s.cooldown <= s.total
    && 0 <= s.duration <= SkillDurationTime
    && (!s.active ==> s.duration == 0)
    && (s.active ==> 1 <= s.duration && s.cooldown == s.duration + (TotalSkillCooldown - SkillDurationTime))
  }

  /** The speed the skill adds while it is on. */
  function Bonus(s: Skill): real {
    if s.active then SantaSkillSpeed else 0.0
  }

  // ---------------------------------------------------------------------------
  // useSkill
  // ---------------------------------------------------------------------------

  /** `useSkill`: gated by the cooldown; when it fires, it turns the skill on for its full duration. */
  function AfterUseSkill(s: Skill): (r: Skill)
    ensures s.cooldown > 0 ==> r == s
    ensures r.total == s.total && r.input == s.input
    ensures Valid(s) ==> Valid(r)
  {
    if s.cooldown <= 0 then
      s.(speed := s.speed + SantaSkillSpeed, active := true, duration := SkillDurationTime, cooldown := s.total)
    else
      s
  }

  /** A skill that fires restarts both counters and adds the bonus exactly once. */
  lemma UseSkillFires(s: Skill)
    requires s.cooldown <= 0
    ensures var r := AfterUseSkill(s);
      && r.active && r.duration == SkillDurationTime && r.cooldown == s.total
      && r.speed == s.speed + SantaSkillSpeed
  {
  }

  /** On a valid Santa the skill can only fire when it is off, so the bonus is never stacked. */
  lemma {:induction false} UseSkillNeverStacks(s: Skill)
    requires Valid(s)
    ensures var r := AfterUseSkill(s);
      r.speed - Bonus(r) == s.speed - Bonus(s)
  {
    if s.cooldown <= 0 {
      assert !s.active;
    }
  }

  // ---------------------------------------------------------------------------
  // update, the part after super.update()
  // ---------------------------------------------------------------------------

  /**
   * The skill timers as written: a long stun turns the skill off, zeroes the duration and
   * takes the bonus away; then the duration drops by one, and when it is at or below zero the
   * skill is turned off, the duration reset to zero and the bonus taken away.
   */
  function AfterSkillTimers(s: Skill, eventBlock: int): Skill {
    if !s.active then s
    else
      var stunned := if eventBlock > ItemEventBlock
                     then s.(active := false, duration := 0, speed := s.speed - SantaSkillSpeed)
                     else s;
      var ticked := stunned.(duration := stunned.duration - 1);
      if ticked.duration <= 0
      then ticked.(active := false, duration := 0, speed := ticked.speed - SantaSkillSpeed)
      else ticked
  }

  /** A positive cooldown drops by one. */
  function AfterCooldownTick(s: Skill): Skill {
    if s.cooldown > 0 then s.(cooldown := s.cooldown - 1) else s
  }

  /** A pending skill request runs `useSkill` once and is cleared. */
  function AfterSkillInput(s: Skill): Skill {
    if s.input then AfterUseSkill(s).(input := false) else s
  }

  /** The Santa part of `update`, as written. */
  function AfterUpdate(s: Skill, eventBlock: int): (r: Skill)
    ensures !r.input && r.total == s.total
    ensures Valid(s) ==> Valid(r)
  {
    AfterSkillInput(AfterCooldownTick(AfterSkillTimers(s, eventBlock)))
  }

  /** The cooldown counts down by one per update and never below zero, until a request restarts it. */
  lemma CooldownCountsDown(s: Skill, eventBlock: int)
    requires Valid(s)
    ensures var r := AfterUpdate(s, eventBlock);
      || r.cooldown == (if s.cooldown > 0 then s.cooldown - 1 else 0)
      || (s.input && s.cooldown <= 1 && r.cooldown == TotalSkillCooldown)
  {
  }

  /**
   * A request is served within the update it arrives in. On a valid Santa the skill fires
   * exactly when the cooldown is at most one tick from running out, and then adds the bonus
   * once; otherwise the request is dropped and only the timers ran.
   */
  lemma {:induction false} RequestFiresIffReady(s: Skill, eventBlock: int)
    requires Valid(s) && s.input
    ensures var r := AfterUpdate(s, eventBlock);
      && !r.input
      && (r.cooldown == TotalSkillCooldown <==> s.cooldown <= 1)
      && (s.cooldown <= 1 ==>
            r.active && r.duration == SkillDurationTime && r.speed == s.speed + SantaSkillSpeed)
      && (s.cooldown > 1 ==>
            r == AfterCooldownTick(AfterSkillTimers(s, eventBlock)).(input := false))
  {
    if s.cooldown <= 1 {
      assert !s.active;
    }
  }

  /** An active skill whose last tick is up expires on its own and gives the bonus back once. */
  lemma NaturalExpiry(s: Skill, eventBlock: int)
    requires Valid(s) && s.active && s.duration == 1 && eventBlock <= ItemEventBlock
    ensures var r := AfterUpdate(s, eventBlock);
      && !r.active && r.duration == 0 && r.speed == s.speed - SantaSkillSpeed
  {
  }

  /** Without a stun, an active skill with ticks to spare keeps running one tick shorter. */
  lemma SkillRunsDown(s: Skill, eventBlock: int)
    requires Valid(s) && s.active && s.duration > 1 && eventBlock <= ItemEventBlock
    ensures var r := AfterUpdate(s, eventBlock);
      && r.active && r.duration == s.duration - 1 && r.speed == s.speed
  {
  }

  /**
   * A long stun interrupts the skill. As written, the expiry check that follows also fires
   * (the duration has become -1), so the bonus is taken away twice in that update.
   */
  lemma StunReleasesBonusTwice(s: Skill, eventBlock: int)
    requires Valid(s) && s.active && eventBlock > ItemEventBlock
    ensures var r := AfterUpdate(s, eventBlock);
      && !r.active && r.duration == 0 && r.speed == s.speed - 2.0 * SantaSkillSpeed
      && r.speed - Bonus(r) == s.speed - Bonus(s) - SantaSkillSpeed
  {
  }

  /** Apart from a stun, an update keeps the speed without the bonus: the bonus comes and goes once. */
  lemma UpdateKeepsBonusAccounting(s: Skill, eventBlock: int)
    requires Valid(s) && !(s.active && eventBlock > ItemEventBlock)
    ensures var r := AfterUpdate(s, eventBlock);
      r.speed - Bonus(r) == s.speed - Bonus(s)
  {
    var t := AfterCooldownTick(AfterSkillTimers(s, eventBlock));
    assert t.speed - Bonus(t) == s.speed - Bonus(s);
    if s.input {
      UseSkillNeverStacks(t);
    }
  }

  /**
   * The skill timers as evidently intended: a long stun ends the skill and gives the bonus
   * back; only an unstunned skill counts its duration down and may expire.
   */
  function AfterSkillTimersSingleRelease(s: Skill, eventBlock: int): Skill {
    if !s.active then s
    else if eventBlock > ItemEventBlock then
      s.(active := false, duration := 0, speed := s.speed - SantaSkillSpeed)
    else
      var ticked := s.(duration := s.duration - 1);
      if ticked.duration <= 0
      then ticked.(active := false, duration := 0, speed := ticked.speed - SantaSkillSpeed)
      else ticked
  }

  /** The Santa part of `update` with the stun giving the bonus back once. */
  function AfterUpdateSingleRelease(s: Skill, eventBlock: int): (r: Skill)
    ensures !r.input && r.total == s.total
    ensures Valid(s) ==> Valid(r)
  {
    AfterSkillInput(AfterCooldownTick(AfterSkillTimersSingleRelease(s, eventBlock)))
  }

  /** The two versions differ only when a long stun hits an active skill. */
  lemma SingleReleaseAgreesUnlessStunned(s: Skill, eventBlock: int)
    requires !(s.active && eventBlock > ItemEventBlock)
    ensures AfterUpdateSingleRelease(s, eventBlock) == AfterUpdate(s, eventBlock)
  {
  }

  /** With the stun fixed, every update keeps the speed without the bonus, stunned or not. */
  lemma {:induction false} SingleReleaseKeepsBonusAccounting(s: Skill, eventBlock: int)
    requires Valid(s)
    ensures var r := AfterUpdateSingleRelease(s, eventBlock);
      r.speed - Bonus(r) == s.speed - Bonus(s)
  {
    var t := AfterCooldownTick(AfterSkillTimersSingleRelease(s, eventBlock));
    assert t.speed - Bonus(t) == s.speed - Bonus(s);
    if s.input {
      UseSkillNeverStacks(t);
    }
  }

  // ---------------------------------------------------------------------------
  // The Santa character's methods
  // ---------------------------------------------------------------------------

  /** The Santa constructor: the shared record with Santa's speed and skill counters. */
  method NewSantaCharacter(id: string, nickName: string, position: Position, draws: CharacterDraws)
    returns (c: Character)
    requires draws.InRange()
    ensures fresh(c) && c.kind == Santa && c.id == id && c.nickName == nickName && c.position == position
    ensures c.speed == SantaBaseSpeed && c.items == []
    ensures Valid(SkillOf(c)) && !c.isSkillActive && c.currentSkillCooldown == 0
  {
    c := new Character(id, nickName, Santa, position, SantaProps, draws);
  }

  /** `getMaxSpeed`: the current speed, skill bonus included. */
  function GetMaxSpeed(c: Character): (v: real)
    reads c
    ensures v == SkillOf(c).speed
  {
    c.speed
  }

  method UseSkill(c: Character)
    modifies c`speed, c`isSkillActive, c`currentSkillDuration, c`currentSkillCooldown
    ensures SkillOf(c) == AfterUseSkill(old(SkillOf(c)))
  {
    if c.currentSkillCooldown <= 0 {
      c.speed := c.speed + SantaSkillSpeed;
      c.isSkillActive := true;
      c.currentSkillDuration := SkillDurationTime;
      c.currentSkillCooldown := c.totalSkillCooldown;
    } else {
      return;
    }
  }

  /**
   * The Santa part of `update`, run on the state `super.update()` left behind, with a long
   * stun giving the skill bonus back once (see `StunReleasesBonusTwice` for the code as written).
   */
  method Update(c: Character)
    modifies c`speed, c`isSkillActive, c`currentSkillDuration, c`currentSkillCooldown, c`isSkillInput
    ensures SkillOf(c) == AfterUpdateSingleRelease(old(SkillOf(c)), c.eventBlock)
  {
    if c.isSkillActive {
      if c.eventBlock > ItemEventBlock {
        c.isSkillActive := false;
        c.currentSkillDuration := 0;
        c.speed := c.speed - SantaSkillSpeed;
      } else {
        c.currentSkillDuration := c.currentSkillDuration - 1;
        if c.currentSkillDuration <= 0 {
          c.isSkillActive := false;
          c.currentSkillDuration := 0;
          c.speed := c.speed - SantaSkillSpeed;
        }
      }
    }

    if c.currentSkillCooldown > 0 {
      c.currentSkillCooldown := c.currentSkillCooldown - 1;
    }

    if c.isSkillInput {
      UseSkill(c);
      c.isSkillInput := false;
    }
  }
}
