/** The wheel: its prize catalogue and sector geometry, the decoder that reads
    the prize under the fixed pointer from the wheel's rotation, and the planner
    that turns a drawn target sector into the rotation added by one spin.

    Angles are whole HALF-degrees: every angle the widget computes (sector
    edges, sector centres at 22.5 degrees past an edge, whole-degree jitter) is
    a multiple of 0.5 degrees, so this scaling is exact. */
module Wheel {
  import opened JsMath

  /** One full turn, 360 degrees. */
  const Turn: int := 720
  /** `prizes.length`. */
  const SectorCount: int := 8
  /** `360 / sectorCount`: 45 degrees. */
  const SectorWidth: int := 90
  /** The jitter is drawn in whole degrees from [-10, 10]. */
  const MaxJitter: int := 10
  /** The number of extra full turns is drawn from [5, 7]. */
  const MinFullSpins: int := 5
  const MaxFullSpins: int := 7

  /** A catalogue entry: the `label` shown on the wheel (here `caption`, since
      `label` is a Dafny keyword) and the message shown when it is won. */
  datatype Prize = Prize(caption: string, msg: string)

  /** The catalogue, in sector order: sector i of the wheel shows Prizes[i]. */
  const Prizes: seq<Prize> := [
    Prize("Стікери", "Забирай набір стікерів на стенді 😊"),
    Prize("Знижка 5%", "Покажи код менеджеру — активуємо знижку 5%."),
    Prize("Футболка", "Футболка твоя! Підійди до стенду."),
    Prize("Знижка 10%", "Клас! Знижка 10% — покажи код."),
    Prize("Шопер", "Шопер у подарунок — забирай на стенді."),
    Prize("Кепка", "Кепка чекає на тебе на стенді 😎"),
    Prize("Сюрприз", "Є сюрприз! Підійди — скажемо який 😉"),
    Prize("Другий шанс", "Майже! Але даруємо ще одну спробу 🙌")
  ]

  /** The "second chance" entry, recognised by its label. */
  const BonusLabel: string := "Другий шанс"
  const BonusIndex: int := 7

  /** The catalogue has one prize per sector, and the bonus label names exactly
      one of them, the last, so comparing labels is the same as comparing the
      index with BonusIndex. */
  lemma CatalogueShape()
    ensures |Prizes| == SectorCount && SectorCount * SectorWidth == Turn
    ensures forall i :: 0 <= i < |Prizes| ==> (Prizes[i].caption == BonusLabel <==> i == BonusIndex)
  {
  }

  // ---------------------------------------------------------------------------
  // Decoder

  /** `getPrizeIndexFromRotation`: normalise with the truncated remainder and the
      +360 correction, invert the clockwise rotation to the angle on the wheel
      under the pointer, and floor-divide by the sector width. Every rotation,
      of either sign, decodes to a sector index. */
  function PrizeIndexFromRotation(rotation: int): (index: int)
    ensures 0 <= index < SectorCount
  {
    var normalized := JsRem(JsRem(rotation, Turn) + Turn, Turn);
    var pointerAngleOnWheel := JsRem(Turn - normalized, Turn);
    JsRem(FloorDiv(pointerAngleOnWheel, SectorWidth), SectorCount)
  }

  /** Reference geometry: with the wheel turned clockwise by `rotation`, the
      fixed pointer at the top shows the wheel's own angle -rotation, taken
      into [0, Turn). */
  function PointerAngle(rotation: int): (angle: int)
    ensures 0 <= angle < Turn
    ensures (angle + rotation) % Turn == 0
  {
    MultipleMod(-(-rotation / Turn), Turn);
    (-rotation) % Turn
  }

  /** Sector i covers the wheel angles [i * SectorWidth, (i + 1) * SectorWidth). */
  predicate InSector(i: int, angle: int): (b: bool)
    ensures b <==> FloorDiv(angle, SectorWidth) == i
  {
    if i * SectorWidth <= angle < i * SectorWidth + SectorWidth then
      ModByWitness(angle, SectorWidth, i, angle - i * SectorWidth);
      true
    else
      false
  }

  /** The decoder's normalisation is the Euclidean remainder, whatever the sign. */
  lemma NormalizedIsEuclidean(rotation: int)
    ensures JsRem(JsRem(rotation, Turn) + Turn, Turn) == rotation % Turn
  {
    var x := JsRem(rotation, Turn);
    var y := JsRem(x + Turn, Turn);
    assert y == (x + Turn) % Turn;
    CongruentMod(x + Turn, rotation, Turn);
    CongruentMod(rotation, x, Turn) by {
      assert (rotation - x) % Turn == 0;
    }
  }

  /** The decoder's inversion step yields exactly the angle under the pointer. */
  lemma InvertedIsPointerAngle(rotation: int)
    ensures JsRem(Turn - rotation % Turn, Turn) == PointerAngle(rotation)
  {
    var n := rotation % Turn;
    var p := JsRem(Turn - n, Turn);
    assert p == (Turn - n) % Turn;
    var q := rotation / Turn;
    assert (Turn - n) - (-rotation) == (1 + q) * Turn;
    MultipleMod(1 + q, Turn);
    CongruentMod(Turn - n, -rotation, Turn);
  }

  /** The decoder returns the sector that contains the angle under the pointer,
      and no other: decoding is the inverse of the wheel's geometry. */
  lemma DecodeIsPointerSector(rotation: int, i: int)
    ensures PrizeIndexFromRotation(rotation) == i <==> 0 <= i < SectorCount && InSector(i, PointerAngle(rotation))
  {
    NormalizedIsEuclidean(rotation);
    InvertedIsPointerAngle(rotation);
    var p := PointerAngle(rotation);
    var q := FloorDiv(p, SectorWidth);
    assert PrizeIndexFromRotation(rotation) == q;
    if 0 <= i < SectorCount && InSector(i, p) {
      ModByWitness(p, SectorWidth, i, p - i * SectorWidth);
    }
  }

  /** Turning the wheel by whole turns moves the pointer to the same wheel angle. */
  lemma PointerAnglePeriodic(rotation: int, k: int)
    ensures PointerAngle(rotation + Turn * k) == PointerAngle(rotation)
  {
    MultipleMod(-k, Turn);
    CongruentMod(-(rotation + Turn * k), -rotation, Turn) by {
      assert -(rotation + Turn * k) - (-rotation) == (-k) * Turn;
    }
  }

  /** The decoder is periodic: r and r + 360 * k degrees show the same prize.
      The proof goes through the reference geometry. */
  lemma DecodePeriodic(rotation: int, k: int)
    ensures PrizeIndexFromRotation(rotation + Turn * k) == PrizeIndexFromRotation(rotation)
  {
    var i := PrizeIndexFromRotation(rotation);
    PointerAnglePeriodic(rotation, k);
    DecodeIsPointerSector(rotation, i);
    DecodeIsPointerSector(rotation + Turn * k, i);
  }

  // ---------------------------------------------------------------------------
  // Planner

  /** `targetCenterAngle`: the middle of sector t, 22.5 degrees past its edge. */
  function TargetCenterAngle(t: int): (centre: int)
    ensures InSector(t, centre)
    ensures centre - t * SectorWidth == (t + 1) * SectorWidth - centre
  {
    t * SectorWidth + SectorWidth / 2
  }

  /** `desiredNormalizedRotation`: the rotation in [0, 360) degrees that puts the
      centre of sector t under the pointer. */
  function DesiredNormalizedRotation(t: int): (r: int)
    ensures 0 <= t < SectorCount ==> 0 < r < Turn && r + TargetCenterAngle(t) == Turn
  {
    JsRem(Turn - TargetCenterAngle(t), Turn)
  }

  /** `nextRotation`: the rotation one spin adds, given the drawn target, the
      number of full turns and the jitter in whole degrees. Modulo a turn it
      cancels the target's centre less the jitter. */
  function NextRotation(t: int, fullSpins: int, jitter: int): (r: int)
    ensures 0 <= t < SectorCount ==> (r + TargetCenterAngle(t) - 2 * jitter) % Turn == 0
  {
    MultipleMod(fullSpins + 1, Turn);
    fullSpins * Turn + DesiredNormalizedRotation(t) + 2 * jitter
  }

  /** For every sector, turning the wheel by the desired rotation puts that
      sector's centre under the pointer. */
  lemma DesiredRotationComplementsCentre(t: int)
    requires 0 <= t < SectorCount
    ensures PointerAngle(DesiredNormalizedRotation(t)) == TargetCenterAngle(t)
  {
    ModByWitness(-DesiredNormalizedRotation(t), Turn, -1, TargetCenterAngle(t));
  }

  /** Wherever the wheel stood, a spin moves the angle under the pointer back by
      the desired rotation and the jitter: the pointer ends at the old angle
      plus the target's centre, less the jitter, modulo a turn. The full turns
      make no difference. */
  lemma {:induction false} PointerAfterSpin(before: int, t: int, fullSpins: int, jitter: int)
    requires 0 <= t < SectorCount
    ensures PointerAngle(before + NextRotation(t, fullSpins, jitter))
         == (PointerAngle(before) + TargetCenterAngle(t) - 2 * jitter) % Turn
  {
    var after := before + NextRotation(t, fullSpins, jitter);
    var a := PointerAngle(before) + TargetCenterAngle(t) - 2 * jitter;
    DesiredRotationComplementsCentre(t);
    var q := (-before) / Turn;
    assert a - (-after) == (1 + fullSpins - q) * Turn;
    MultipleMod(1 + fullSpins - q, Turn);
    CongruentMod(a, -after, Turn);
  }

  /** The round trip. Starting from a whole number of turns (as on the first
      spin after registration, where the rotation is 0), a spin aimed at sector
      t with jitter of at most 10 degrees either way leaves the pointer between
      12.5 and 32.5 degrees into sector t, strictly inside it, so the decoder
      gives back t. Any number of full turns will do. */
  lemma {:induction false} PlannedSpinLandsOnTarget(before: int, t: int, fullSpins: int, jitter: int)
    requires before % Turn == 0
    requires 0 <= t < SectorCount
    requires -MaxJitter <= jitter <= MaxJitter
    ensures PointerAngle(before + NextRotation(t, fullSpins, jitter)) == TargetCenterAngle(t) - 2 * jitter
    ensures t * SectorWidth < t * SectorWidth + 25 <= PointerAngle(before + NextRotation(t, fullSpins, jitter))
         <= t * SectorWidth + 65 < t * SectorWidth + SectorWidth
    ensures PrizeIndexFromRotation(before + NextRotation(t, fullSpins, jitter)) == t
  {
    var after := before + NextRotation(t, fullSpins, jitter);
    PointerAfterSpin(before, t, fullSpins, jitter);
    ModByWitness(-before, Turn, -before / Turn, 0) by {
      assert -before == (-(before / Turn)) * Turn;
      ModByWitness(-before, Turn, -(before / Turn), 0);
    }
    ModByWitness(TargetCenterAngle(t) - 2 * jitter, Turn, 0, TargetCenterAngle(t) - 2 * jitter);
    DecodeIsPointerSector(after, t);
  }

  /** The round trip needs the rotation before the spin to be a whole number of
      turns. The planner adds to the accumulated rotation, so on a second spin
      it can miss: after a first spin aimed at sector 3 with 6 turns and no
      jitter (2362.5 degrees), a spin aimed at sector 0 with 5 turns and no
      jitter shows sector 4. */
  lemma SecondSpinCanMissTarget()
    ensures NextRotation(3, 6, 0) == 4725
    ensures PrizeIndexFromRotation(NextRotation(3, 6, 0)) == 3
    ensures PrizeIndexFromRotation(NextRotation(3, 6, 0) + NextRotation(0, 5, 0)) == 4
  {
    var first := NextRotation(3, 6, 0);
    PlannedSpinLandsOnTarget(0, 3, 6, 0);
    PointerAfterSpin(first, 0, 5, 0);
    ModByWitness(360, Turn, 0, 360);
    DecodeIsPointerSector(first + NextRotation(0, 5, 0), 4);
  }

  /** With the drawn ranges (5 to 7 turns, jitter within 10 degrees), a spin
      turns the wheel forward by at least 1812.5 and at most 2867.5 degrees;
      both bounds are reached. */
  lemma SpinAdvance(t: int, fullSpins: int, jitter: int)
    requires 0 <= t < SectorCount
    requires MinFullSpins <= fullSpins <= MaxFullSpins
    requires -MaxJitter <= jitter <= MaxJitter
    ensures 3625 <= NextRotation(t, fullSpins, jitter) <= 5735
    ensures NextRotation(SectorCount - 1, MinFullSpins, -MaxJitter) == 3625
    ensures NextRotation(0, MaxFullSpins, MaxJitter) == 5735
  {
    DesiredRotationComplementsCentre(t);
    DesiredRotationComplementsCentre(SectorCount - 1);
    DesiredRotationComplementsCentre(0);
  }
}
