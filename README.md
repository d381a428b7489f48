# Prize wheel: verified model of the spin logic

This project models the logic of a browser prize-wheel widget (`dist/script.js`),
which runs a two-step flow. A visitor registers with a name, then spins a wheel of
eight 45-degree sectors. The wheel animates to a planned angle. The prize under the
fixed pointer is announced together with a redemption code such as `ACTU-K7WQ`.
One sector, "Другий шанс" (second chance), grants a single extra spin per session
instead of a code.

The model has five modules:

- `JsMath` (`jsmath.dfy`): JavaScript's truncated `%` (`JsRem`), `Math.floor` of a
  quotient, and `randInt`. Each value `Math.random()` returns is passed in as a
  parameter `u` in [0, 1).
- `Text` (`text.dfy`): `String.prototype.trim`, over ECMAScript's whitespace and
  line terminators.
- `Wheel` (`wheel.dfy`): the prize catalogue, the decoder
  `getPrizeIndexFromRotation`, and the rotation planner from the spin handler.
  A reference geometry (`PointerAngle`, `InSector`) says which sector the pointer
  shows; the decoder is proved equal to it.
- `Codes` (`codes.dfy`): `makeCode` as a method with a loop, the
  `code || "ACTU-"` fallback, and the copy button's guard.
- `Session` (`session.dfy`): a class holding the script's shared variables
  (`userName`, `isSpinning`, `extraSpinAvailable`, `currentRotation`). It also holds
  the page state the handlers write: the UI lock, the message box, the step on
  show and the greeting. There is one method per event handler.

All angles are whole **half-degrees**: 720 per turn, 90 per sector. Every angle the
script computes is a multiple of 0.5 degrees (sector centres at 22.5 degrees past an
edge, whole-degree jitter), so the scaling is exact. A jitter of `j` degrees is
`2 * j` units.

The main result is `Wheel.PlannedSpinLandsOnTarget`. Suppose a spin starts from a
rotation that is a whole number of turns. Then the pointer ends 12.5 to 32.5 degrees
into the target sector, and the decoder returns the target. The planner adds its
rotation to the accumulated `currentRotation`. So the premise holds on the first
spin after registration (rotation 0), but not in general. `Wheel.PointerAfterSpin`
states the general law. `Wheel.SecondSpinCanMissTarget` shows a second spin that
aims at sector 0 and shows sector 4. The announced prize is always decoded from the
actual rotation (`Session.WheelSession.FinishSpin`), so it always matches what the pointer
shows.

Three facts about the code that the model keeps:

- The bonus entry is `prizes[7]`, the last sector (`dist/script.js:32`). It is
  recognised by comparing labels (`dist/script.js:154`).
- The submit handler resets `isSpinning`, `extraSpinAvailable` and
  `currentRotation` (`dist/script.js:112-114`). The restart handler
  (`dist/script.js:191-198`) leaves all three unchanged.
- One spin advances the wheel by 1812.5 to 2867.5 degrees
  (`dist/script.js:136-140`). The maximum is 7 turns (2520 degrees), plus 337.5
  degrees for sector 0, plus 10 degrees of jitter.

## Model

| member | source | states |
|---|---|---|
| JsMath.JsRem | dist/script.js:87 | JavaScript `%`: the result is smaller than the divisor in magnitude, has the sign of the dividend, and differs from the dividend by a multiple of the divisor |
| JsMath.FloorDiv | dist/script.js:95 | `Math.floor(a / b)` for b > 0 is the greatest q with q * b <= a |
| JsMath.RandInt | dist/script.js:47-50 | for an inclusive range min <= max and any draw in [0, 1), the result is a whole number in [min, max] |
| JsMath.RandIntReaches | dist/script.js:47-50 | every value k of [min, max] is returned for the draw (k - min) / (max - min + 1), which lies in [0, 1) |
| Text.TrimStart | dist/script.js:102 | the result is a suffix of the input, everything dropped is whitespace, and the result does not start with whitespace |
| Text.TrimEnd | dist/script.js:102 | the result is a prefix of the input, everything dropped is whitespace, and the result does not end with whitespace |
| Text.Trim | dist/script.js:102 | `trim`: the result is no longer than the input and neither starts nor ends with whitespace (what it drops is stated by TrimStart and TrimEnd) |
| Text.TrimEmptyIff | dist/script.js:102-103 | a string trims to the empty string exactly when all its characters are whitespace |
| Text.TrimUnchanged | dist/script.js:202 | a non-empty string that neither starts nor ends with whitespace is its own trim |
| Wheel.CatalogueShape | dist/script.js:24-36 | eight prizes, one per 45-degree sector; the label "Другий шанс" belongs to index 7 and to no other entry, so the label test on line 154 is the same as index == 7 |
| Wheel.PrizeIndexFromRotation | dist/script.js:85-97 | every rotation, positive or negative, decodes to an index in [0, 7] |
| Wheel.InSector | dist/script.js:94-95 | sector i covers the wheel angles [45i, 45i + 45) degrees, which holds exactly when `Math.floor(angle / 45)` is i |
| Wheel.PointerAngle | dist/script.js:89-92 | the wheel angle under the pointer lies in [0, 360) degrees and cancels the rotation modulo a full turn |
| Wheel.NormalizedIsEuclidean | dist/script.js:86-87 | the truncated remainder, +360 and remainder again give the non-negative remainder of the rotation for every sign |
| Wheel.InvertedIsPointerAngle | dist/script.js:89-92 | the `(360 - normalized) % 360` step yields exactly the wheel angle under the pointer |
| Wheel.DecodeIsPointerSector | dist/script.js:85-97 | the decoder returns i if and only if i is a sector index and sector i contains the angle under the pointer |
| Wheel.PointerAnglePeriodic | dist/script.js:87 | adding whole turns leaves the angle under the pointer unchanged |
| Wheel.DecodePeriodic | dist/script.js:85-97 | decoding r and r + 360 * k degrees gives the same index for every whole k |
| Wheel.TargetCenterAngle | dist/script.js:130-131 | the aim point lies in sector t and is equally far from both of its edges, i.e. it is the sector's centre |
| Wheel.DesiredNormalizedRotation | dist/script.js:133-136 | for each sector, the desired rotation lies in (0, 360) degrees and adds up with the sector centre to one full turn |
| Wheel.NextRotation | dist/script.js:138-140 | the rotation a spin adds, plus the target centre, minus the jitter, is a whole number of turns |
| Wheel.DesiredRotationComplementsCentre | dist/script.js:130-136 | for each sector, turning the wheel by the desired normalised rotation puts that sector's centre under the pointer |
| Wheel.PointerAfterSpin | dist/script.js:128-142 | from any starting rotation, a spin moves the angle under the pointer to the old angle plus the target centre minus the jitter, modulo a turn; the full turns play no part |
| Wheel.PlannedSpinLandsOnTarget | dist/script.js:128-142 | starting from a whole number of turns, with jitter in [-10, 10] degrees, the pointer ends at 45t + 22.5 - jitter degrees, inside [45t + 12.5, 45t + 32.5] and strictly inside sector t, and the decoder returns t |
| Wheel.SecondSpinCanMissTarget | dist/script.js:140-142 | the first spin (sector 3, 6 turns, no jitter) adds 2362.5 degrees and shows sector 3; a second spin then aimed at sector 0 shows sector 4, so the round trip needs its premise |
| Wheel.SpinAdvance | dist/script.js:138-142 | with 5 to 7 turns and jitter in [-10, 10] degrees, a spin adds at least 1812.5 and at most 2867.5 degrees, and both bounds are reached |
| Codes.AlphabetIsUnambiguous | dist/script.js:55 | the alphabet has 32 characters and contains exactly the upper-case letters other than I and O and the digits 2 to 9 |
| Codes.CharFor | dist/script.js:58 | for every draw in [0, 1) the character picked is in the alphabet |
| Codes.MakeCode | dist/script.js:52-61 | the loop builds exactly the code the draws determine: "ACTU-" followed by 4 to 6 alphabet characters, 9 to 11 characters in all |
| Codes.CodeFor | dist/script.js:52-61 | the code the draws determine is well formed ("ACTU-" then alphabet characters), and its length is the prefix plus the drawn count 4 to 6 |
| Codes.ShownCode | dist/script.js:66 | the message box never shows an empty code; a non-empty code is shown as it is |
| Codes.CopyText | dist/script.js:202-203 | anything copied is the trimmed code text, and it is never empty, the bare "ACTU-" or the "—" marker |
| Codes.BarePrefixNotCopied | dist/script.js:203 | the bare "ACTU-" (line 74) that a reset message box shows is refused by the copy guard |
| Codes.PlaceholdersAreNotCopied | dist/script.js:202-203 | whitespace alone, and "ACTU-" or "—" with any whitespace padding, are refused by the copy guard |
| Codes.GeneratedCodesAreCopied | dist/script.js:201-203 | every well-formed generated code is shown as it is and copied as it is |
| Session.ResetMessage | dist/script.js:70-75 | `resetMessage`: the box is hidden, the body is empty, and the code text is the one shown for a missing code, the bare "ACTU-" |
| Session.SetMessage | dist/script.js:63-68 | `setMessage`: the box is shown with the given title and body; its code text is never empty and is the given code whenever that is non-empty |
| Session.Greeting | dist/script.js:106 | the greeting "Привіт, <name>!": the name sits between the 8-character salutation and the closing "!" |
| Session.BonusTitle | dist/script.js:158 | the second-chance title "Оу! <name>, другий шанс 🙌": the name follows the 4-character interjection, and 15 characters follow it |
| Session.WinTitle | dist/script.js:170 | the prize title "Вітаємо, <name>!", used on both code-issuing paths (lines 170 and 177): the name sits between the 9-character salutation and the closing "!" |
| Session.WinBody | dist/script.js:178 | the body for a won prize, "Ти виграв(ла): <label>. <msg>": the prize's label follows the 15-character lead-in and the body ends with the prize's message |
| Session.ConsolationBody | dist/script.js:171 | the body when the second chance comes up again, "Цього разу: Стікери. <msg>": it ends with the message of prize 0 |
| Session.WheelSession.constructor | dist/script.js:38-41 | the session starts with no name, not spinning, no bonus used, rotation 0 and nothing locked |
| Session.WheelSession.Submit | dist/script.js:100-116 | a name that trims to nothing changes nothing; otherwise the trimmed name is kept and greeted, the wheel step is shown, the message is reset, spinning/bonus/rotation become false/false/0, and the lock is untouched |
| Session.WheelSession.Spin | dist/script.js:119-144 | a click while spinning changes nothing; otherwise the session is spinning and locked, the message is reset, and the rotation grows by the planned amount (1812.5 to 2867.5 degrees); from a whole number of turns it decodes to the returned target |
| Session.WheelSession.FinishSpin | dist/script.js:147-185 | the prize is decoded from the actual rotation; an unused second chance is granted with the "—" marker and no code; a used one gives the stickers message and a code; any other prize gives its label and message and a code; every path leaves the session not spinning and unlocked |
| Session.WheelSession.Restart | dist/script.js:191-198 | the name is cleared, the registration step is shown, the message is reset and the lock is released; spinning, bonus flag, rotation and greeting keep their values |
| Session.WheelSession.Copy | dist/script.js:201-203 | the copy guard's verdict on the shown code: a generated code is copied, and the reset message's bare prefix is not |

## Left out

- DOM lookups and writes are left out: `getElementById`, `classList`, `textContent`
  and the wheel's `style.transform` (lines 4-20, 44-45, 106-108, 115, 144). Only the
  state they display is kept, as fields. Clearing the name input's value on restart
  (line 193) is not modelled; `Submit` takes the field's text as a parameter.
- Registering the `transitionend` listener, its once-only removal and the CSS
  timing (lines 147-148, 187) are left out. `FinishSpin` models one run of the
  handler's body, called as a separate step.
- The clipboard write, the "Готово ✅" feedback with `setTimeout`, and the `alert`
  fallback (lines 205-213) are foreign asynchronous calls. Only the guard on line 203
  is modelled.
- Disabled controls are not enforced. A browser does not deliver clicks to a disabled
  button, so the methods do not require `!locked`. They state what the handler would
  do if called anyway. `Restart` on an in-flight spin leaves `isSpinning` true with
  the UI unlocked, and its contract says so.
- The draws are exact reals in [0, 1) and multiplication is exact. The model does
  not capture the uniformity of `Math.random()` or floating-point rounding.
- The decoder is modelled only for rotations that are multiples of half a degree.
  Those are the only values the script passes to it.
- Text is a sequence of Unicode scalar values, not UTF-16 code units.
- The page's initial markup is not part of this model. The constructor assumes the
  message box starts reset, the registration step starts on show, the greeting
  starts empty and the controls start enabled (not locked).
- The prize field `label` is named `caption` because `label` is a Dafny keyword.
