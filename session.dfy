/** The widget's session: the shared variables the event handlers update, and
    one method per handler (registration submit, spin click, end of the spin
    animation, restart click, copy click). What the handlers do to the page is
    kept as abstract fields: the step on show, the greeting, the message box
    and whether the spin, restart and name controls are disabled. */
module Session {
  import opened JsMath
  import opened Text
  import opened Wheel
  import opened Codes

  /** Which of the two steps is on show. */
  datatype Step = Registration | WheelStep

  /** The message box: whether it is shown, and its title, body and code text. */
  datatype Message = Message(visible: bool, title: string, body: string, code: string)

  /** `resetMessage`: hidden, with the default title, no body and the bare prefix. */
  function ResetMessage(): (m: Message)
    ensures !m.visible && m.body == ""
    ensures m.code == ShownCode("")
  {
    Message(false, "Вітаємо!", "", CodePrefix)
  }

  /** `setMessage`: shown, with an empty code replaced by the bare prefix. */
  function SetMessage(title: string, body: string, code: string): (m: Message)
    ensures m.visible && m.title == title && m.body == body
    ensures m.code != "" && (code != "" ==> m.code == code)
  {
    Message(true, title, body, ShownCode(code))
  }

  /** The greeting shows the user's name between "Привіт, " and "!". */
  function Greeting(name: string): (g: string)
    ensures |g| == |name| + 9 && g[8..|g| - 1] == name && g[|g| - 1] == '!'
  {
    "Привіт, " + name + "!"
  }

  /** The title announcing the second chance starts by addressing the user. */
  function BonusTitle(name: string): (t: string)
    ensures |t| == |name| + 19 && t[4..4 + |name|] == name
  {
    "Оу! " + name + ", другий шанс 🙌"
  }

  /** The title announcing a prize congratulates the user by name. */
  function WinTitle(name: string): (t: string)
    ensures |t| == |name| + 10 && t[9..|t| - 1] == name && t[|t| - 1] == '!'
  {
    "Вітаємо, " + name + "!"
  }

  /** The body announcing a prize names it, then ends with its message. */
  function WinBody(prize: Prize): (b: string)
    ensures |b| == 17 + |prize.caption| + |prize.msg|
    ensures b[15..15 + |prize.caption|] == prize.caption
    ensures b[|b| - |prize.msg|..] == prize.msg
  {
    "Ти виграв(ла): " + prize.caption + ". " + prize.msg
  }

  /** The body shown when the second chance comes up again: the stickers, with
      the first prize's message. */
  function ConsolationBody(): (b: string)
    ensures |b| >= |Prizes[0].msg| && b[|b| - |Prizes[0].msg|..] == Prizes[0].msg
  {
    "Цього разу: Стікери. " + Prizes[0].msg
  }

  class WheelSession {
    var userName: string
    var isSpinning: bool
    var extraSpinAvailable: bool
    /** The accumulated rotation of the wheel, in half-degrees. */
    var currentRotation: int
    /** `lockUI`: the spin button, the restart button and the name input are disabled. */
    var locked: bool
    var message: Message
    var step: Step
    var greeting: string

    /** The UI is locked exactly while a spin is in flight. */
    predicate LockedWhileSpinning()
      reads this
    {
      locked == isSpinning
    }

    /** The script's initial state: no name, not spinning, no bonus used, the
        wheel at 0, nothing locked, the message box reset and the registration
        step on show. */
    constructor ()
      ensures userName == "" && !isSpinning && !extraSpinAvailable && currentRotation == 0
      ensures !locked && message == ResetMessage() && step == Registration && greeting == ""
      ensures LockedWhileSpinning()
    {
      userName := "";
      isSpinning := false;
      extraSpinAvailable := false;
      currentRotation := 0;
      locked := false;
      message := ResetMessage();
      step := Registration;
      greeting := "";
    }

    /** The registration form's submit handler, given the name field's text. A
        name that trims to nothing is ignored. Otherwise the session starts
        afresh: the trimmed name is kept and greeted, the wheel step is shown,
        the message is reset and the spin state goes back to not spinning, no
        bonus used and rotation 0. The lock is left as it was. */
    method Submit(nameField: string)
      modifies this
      ensures AllWhitespace(nameField) ==> unchanged(this)
      ensures !AllWhitespace(nameField) ==>
        && userName == Trim(nameField) && userName != ""
        && greeting == Greeting(userName)
        && step == WheelStep
        && message == ResetMessage()
        && !isSpinning && !extraSpinAvailable && currentRotation == 0
        && locked == old(locked)
      ensures old(LockedWhileSpinning()) && !old(locked) ==> LockedWhileSpinning()
    {
      TrimEmptyIff(nameField);
      var name := Trim(nameField);
      if name == "" {
        return;
      }
      userName := name;
      greeting := Greeting(userName);
      step := WheelStep;
      message := ResetMessage();
      isSpinning := false;
      extraSpinAvailable := false;
      currentRotation := 0;
    }

    /** The spin button's click handler, given the three values `Math.random()`
        returns for the target sector, the number of full turns and the jitter.
        A click while a spin is in flight changes nothing. Otherwise the spin
        starts: spinning, locked, message reset, and the wheel turned forward by
        the planned rotation. The target is returned. When the wheel started
        from a whole number of turns the pointer will show the target. */
    method Spin(uTarget: real, uSpins: real, uJitter: real) returns (target: Option<int>)
      requires IsDraw(uTarget) && IsDraw(uSpins) && IsDraw(uJitter)
      modifies this
      ensures target.None? <==> old(isSpinning)
      ensures target.None? ==> unchanged(this)
      ensures target.Some? ==>
        && target.value == RandInt(0, SectorCount - 1, uTarget)
        && 0 <= target.value < SectorCount
        && isSpinning && locked && message == ResetMessage()
        && currentRotation == old(currentRotation) + NextRotation(target.value,
             RandInt(MinFullSpins, MaxFullSpins, uSpins), RandInt(-MaxJitter, MaxJitter, uJitter))
        && userName == old(userName) && greeting == old(greeting) && step == old(step)
        && extraSpinAvailable == old(extraSpinAvailable)
      ensures target.Some? ==> 3625 <= currentRotation - old(currentRotation) <= 5735
      ensures target.Some? && old(currentRotation) % Turn == 0 ==>
        PrizeIndexFromRotation(currentRotation) == target.value
      ensures old(LockedWhileSpinning()) ==> LockedWhileSpinning()
    {
      if isSpinning {
        return None;
      }
      isSpinning := true;
      locked := true;
      message := ResetMessage();

      var targetIndex := RandInt(0, SectorCount - 1, uTarget);
      var fullSpins := RandInt(MinFullSpins, MaxFullSpins, uSpins);
      var jitter := RandInt(-MaxJitter, MaxJitter, uJitter);
      var nextRotation := NextRotation(targetIndex, fullSpins, jitter);
      SpinAdvance(targetIndex, fullSpins, jitter);
      if currentRotation % Turn == 0 {
        PlannedSpinLandsOnTarget(currentRotation, targetIndex, fullSpins, jitter);
      }
      currentRotation := currentRotation + nextRotation;
      return Some(targetIndex);
    }

    /** The body of the handler that runs when the wheel's transition ends,
        given the `Math.random()` values a code would take. The prize is decoded
        from the wheel's actual rotation, so it is the one the pointer shows.
        The second chance, while unused, is granted: it is marked used, the
        message says so with the no-code marker and no code is issued. Once
        used, it counts as the stickers and a code is issued. Any other prize
        is announced with a fresh code. Every path ends with the spin over and
        the controls unlocked. */
    method FinishSpin(uLen: real, uChars: seq<real>) returns (index: int, issued: Option<string>)
      requires CodeDraws(uLen, uChars)
      modifies this
      ensures index == PrizeIndexFromRotation(currentRotation) && 0 <= index < SectorCount
      ensures currentRotation == old(currentRotation)
      ensures userName == old(userName) && greeting == old(greeting) && step == old(step)
      ensures !isSpinning && !locked
      ensures extraSpinAvailable == (old(extraSpinAvailable) || index == BonusIndex)
      ensures index == BonusIndex && !old(extraSpinAvailable) ==>
        issued == None && message == SetMessage(BonusTitle(userName), Prizes[BonusIndex].msg, NoCode)
      ensures index == BonusIndex && old(extraSpinAvailable) ==>
        issued == Some(CodeFor(uLen, uChars)) &&
        message == SetMessage(WinTitle(userName), ConsolationBody(), issued.value)
      ensures index != BonusIndex ==>
        issued == Some(CodeFor(uLen, uChars)) &&
        message == SetMessage(WinTitle(userName), WinBody(Prizes[index]), issued.value)
      ensures issued.Some? ==> WellFormedCode(issued.value) && message.code == issued.value
    {
      CatalogueShape();
      index := PrizeIndexFromRotation(currentRotation);
      var prize := Prizes[index];

      if prize.caption == BonusLabel {
        if !extraSpinAvailable {
          extraSpinAvailable := true;
          message := SetMessage(BonusTitle(userName), prize.msg, NoCode);
          isSpinning := false;
          locked := false;
          return index, None;
        }
        var code := MakeCode(uLen, uChars);
        message := SetMessage(WinTitle(userName), ConsolationBody(), code);
        issued := Some(code);
      } else {
        var code := MakeCode(uLen, uChars);
        message := SetMessage(WinTitle(userName), WinBody(prize), code);
        issued := Some(code);
      }
      isSpinning := false;
      locked := false;
    }

    /** The restart button's click handler: the name is cleared, the
        registration step is shown, the message is reset and the controls are
        unlocked. The spin state (spinning, bonus used, rotation) and the
        greeting are left as they were. */
    method Restart()
      modifies this
      ensures userName == "" && step == Registration && message == ResetMessage() && !locked
      ensures isSpinning == old(isSpinning) && extraSpinAvailable == old(extraSpinAvailable)
      ensures currentRotation == old(currentRotation) && greeting == old(greeting)
      ensures LockedWhileSpinning() <==> !isSpinning
    {
      userName := "";
      step := Registration;
      message := ResetMessage();
      locked := false;
    }

    /** The copy button's click handler: the text it would put on the clipboard,
        or None when the guard refuses the shown code. */
    method Copy() returns (copied: Option<string>)
      ensures copied == CopyText(message.code)
      ensures WellFormedCode(message.code) ==> copied == Some(message.code)
      ensures message == ResetMessage() ==> copied == None
    {
      copied := CopyText(message.code);
      if message == ResetMessage() {
        BarePrefixNotCopied();
      }
      if WellFormedCode(message.code) {
        GeneratedCodesAreCopied(message.code);
      }
    }
  }
}
