/**
 * The character record every variant shares: its identity, position and motion flags
 * (src/game/objects/player.ts), plus the part of the base character that the maps and
 * the Santa variant read and write (inventory, thunder timers, steal flags, speed and
 * skill counters).
 */
module Player {

  /** A point or a vector in the play area, `{x, y, z}` in the source. */
  datatype Position = Position(x: real, y: real, z: real)

  /** The kinds of item a character can carry. */
  datatype ItemType = Boost | Shield | Thunder | Gift

  /** The character variants a room can spawn. */
  datatype CharacterType = Rabbit | Santa | Ghost

  /** The values a variant hands to the shared constructor. */
  datatype VariantProps = VariantProps(speed: real, currentSkillCooldown: int, totalSkillCooldown: int)

  /** `Math.floor(Math.random() * 16777215)` lies in [0, ColorRange). */
  const ColorRange := 16777215

  /** The random draws a new character consumes: three colour integers and the tail coin. */
  datatype CharacterDraws = CharacterDraws(body: int, hair: int, belly: int, tail: real) {
    predicate InRange() {
      && 0 <= body < ColorRange
      && 0 <= hair < ColorRange
      && 0 <= belly < ColorRange
      && 0.0 <= tail < 1.0
    }
  }

  // ---------------------------------------------------------------------------
  // Colours: '#' followed by six lower-case hexadecimal digits
  // ---------------------------------------------------------------------------

  predicate IsLowerHexDigit(ch: char) {
    '0' <= ch <= '9' || 'a' <= ch <= 'f'
  }

  predicate IsLowerHex(s: string) {
    forall i :: 0 <= i < |s| ==> IsLowerHexDigit(s[i])
  }

  /** The value of one hexadecimal digit. */
  function DigitValue(ch: char): (d: nat)
    requires IsLowerHexDigit(ch)
    ensures d < 16
  {
    if ch <= '9' then (ch as int - '0' as int) else (ch as int - 'a' as int + 10)
  }

  /** The digit JavaScript's `toString(16)` writes for `d`. */
  function HexDigit(d: nat): (ch: char)
    requires d < 16
    ensures IsLowerHexDigit(ch) && DigitValue(ch) == d
  {
    if d < 10 then ('0' as int + d) as char else ('a' as int + d - 10) as char
  }

  /** `n.toString(16)`: the shortest lower-case hexadecimal numeral of `n` ("0" for zero). */
  function ToHex(n: nat): (s: string)
    ensures 1 <= |s| && IsLowerHex(s)
    decreases n
  {
    if n < 16 then [HexDigit(n)] else ToHex(n / 16) + [HexDigit(n % 16)]
  }

  /** The number a hexadecimal numeral denotes, most significant digit first. */
  function HexValue(s: string): nat
    requires IsLowerHex(s)
  {
    if s == [] then 0 else HexValue(s[..|s| - 1]) * 16 + DigitValue(s[|s| - 1])
  }

  function Pow16(k: nat): (p: nat)
    ensures p >= 1
  {
    if k == 0 then 1 else 16 * Pow16(k - 1)
  }

  /** `s.padStart(len, fill)`. */
  function PadStart(s: string, len: nat, fill: char): (r: string)
    ensures |r| == if |s| >= len then |s| else len
    ensures r[|r| - |s|..] == s
    ensures forall i :: 0 <= i < |r| - |s| ==> r[i] == fill
  {
    if |s| >= len then s else seq(len - |s|, _ => fill) + s
  }

  /** Reading a numeral back gives the number it was written from. */
  lemma {:induction false} ToHexRoundTrip(n: nat)
    ensures HexValue(ToHex(n)) == n
    decreases n
  {
    if n >= 16 {
      var s := ToHex(n);
      assert s[..|s| - 1] == ToHex(n / 16);
      ToHexRoundTrip(n / 16);
    }
  }

  /** A number below 16^k needs at most k hexadecimal digits. */
  lemma {:induction false} ToHexLength(n: nat, k: nat)
    requires 1 <= k && n < Pow16(k)
    ensures |ToHex(n)| <= k
    decreases n
  {
    if n >= 16 {
      assert Pow16(1) == 16;
      assert n / 16 < Pow16(k - 1);
      ToHexLength(n / 16, k - 1);
    }
  }

  /** Leading zeros do not change the value of a numeral. */
  lemma {:induction false} LeadingZerosValue(z: string, s: string)
    requires forall i :: 0 <= i < |z| ==> z[i] == '0'
    requires IsLowerHex(s)
    ensures IsLowerHex(z + s) && HexValue(z + s) == HexValue(s)
    decreases |s|
  {
    if s == [] {
      ZerosValue(z);
      assert z + s == z;
    } else {
      var t := z + s;
      assert t[..|t| - 1] == z + s[..|s| - 1];
      LeadingZerosValue(z, s[..|s| - 1]);
    }
  }

  lemma {:induction false} ZerosValue(z: string)
    requires forall i :: 0 <= i < |z| ==> z[i] == '0'
    ensures IsLowerHex(z) && HexValue(z) == 0
    decreases |z|
  {
    if z != [] {
      ZerosValue(z[..|z| - 1]);
    }
  }

  /**
   * generateRandomHexColor with its random integer `n` as a parameter:
   * '#' followed by `n` in six lower-case hexadecimal digits, left-padded with '0'.
   */
  function RandomHexColor(n: int): (c: string)
    requires 0 <= n < ColorRange
    ensures |c| == 7 && c[0] == '#'
    ensures IsLowerHex(c[1..]) && HexValue(c[1..]) == n
  {
    ToHexLength(n, 6);
    ToHexRoundTrip(n);
    var h := ToHex(n);
    var padded := PadStart(h, 6, '0');
    LeadingZerosValue(padded[..|padded| - |h|], h);
    assert padded == padded[..|padded| - |h|] + h;
    var c := "#" + padded;
    assert c[1..] == padded;
    c
  }

  /** A character as the room holds it. */
  class Character {
    const id: string
    const nickName: string
    const kind: CharacterType
    var position: Position
    var velocity: Position
    var bodyColor: string
    var hairColor: string
    var bellyColor: string
    var hasTail: bool
    var isOnGround: bool
    var shift: bool
    var isBeingStolen: bool

    // State of the base character that the maps and the Santa variant use.
    var items: seq<ItemType>
    var thunderEffect: seq<int>
    var stolen: bool
    var steal: bool
    var eventBlock: int
    var speed: real
    var currentSkillCooldown: int
    var totalSkillCooldown: int
    var isSkillActive: bool
    var isSkillInput: bool

    // Remaining ticks of the Santa skill; zero for every other variant.
    var currentSkillDuration: int

    /**
     * A new character at `position`, standing still on the ground with no flags set,
     * three random colours and a tail won on a coin toss (`Math.random() > 0.5`).
     */
    constructor (id: string, nickName: string, kind: CharacterType, position: Position,
                 props: VariantProps, draws: CharacterDraws)
      requires draws.InRange()
      ensures this.id == id && this.nickName == nickName && this.kind == kind
      ensures this.position == position
      ensures velocity == Position(0.0, 0.0, 0.0)
      ensures isOnGround && !shift && !isBeingStolen
      ensures hasTail <==> draws.tail > 0.5
      ensures bodyColor == RandomHexColor(draws.body)
      ensures hairColor == RandomHexColor(draws.hair)
      ensures bellyColor == RandomHexColor(draws.belly)
      ensures items == [] && thunderEffect == [] && !stolen && !steal && eventBlock == 0
      ensures speed == props.speed
      ensures currentSkillCooldown == props.currentSkillCooldown
      ensures totalSkillCooldown == props.totalSkillCooldown
      ensures !isSkillActive && !isSkillInput && currentSkillDuration == 0
    {
      this.id := id;
      this.nickName := nickName;
      this.kind := kind;
      this.position := position;
      bodyColor := RandomHexColor(draws.body);
      hairColor := RandomHexColor(draws.hair);
      bellyColor := RandomHexColor(draws.belly);
      velocity := Position(0.0, 0.0, 0.0);
      isOnGround := true;
      hasTail := draws.tail > 0.5;
      shift := false;
      isBeingStolen := false;
      items := [];
      thunderEffect := [];
      stolen := false;
      steal := false;
      eventBlock := 0;
      speed := props.speed;
      currentSkillCooldown := props.currentSkillCooldown;
      totalSkillCooldown := props.totalSkillCooldown;
      isSkillActive := false;
      isSkillInput := false;
      currentSkillDuration := 0;
    }
  }
}
