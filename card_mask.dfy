/**
 * Display form of a card number: only the last four digits stay visible,
 * as in "**** **** **** 1234".
 */
module CardMask {
  import opened Domain

  /** The fixed part of every masked number: twelve hidden digits in groups of four. */
  const MaskPrefix: string := "**** **** **** "

  const InvalidCardNumberMessage := "Invalid card number"

  /**
   * Masks a card number. `None` stands for a missing (null) number; a missing
   * number or one that is not exactly 16 characters long is rejected.
   */
  function Mask(cardNumber: Option<string>): (r: Result<string>)
    ensures r.Ok? <==> cardNumber.Some? && |cardNumber.value| == 16
    ensures r.Failure? ==> r.message == InvalidCardNumberMessage
    ensures r.Ok? ==> |r.value| == 19 && r.value[..15] == MaskPrefix
    ensures r.Ok? ==> r.value[15..] == cardNumber.value[12..]
  {
    if cardNumber.None? || |cardNumber.value| != 16 then
      Failure(InvalidCardNumberMessage)
    else
      Ok(MaskPrefix + cardNumber.value[12..])
  }

  /** The masked form shows only '*' and ' ' before the last four characters. */
  lemma MaskHidesLeadingDigits(cardNumber: string)
    requires |cardNumber| == 16
    ensures Mask(Some(cardNumber)).Ok?
    ensures forall i :: 0 <= i < 15 ==> Mask(Some(cardNumber)).value[i] in {'*', ' '}
  {
    var m := Mask(Some(cardNumber)).value;
    assert m[..15] == MaskPrefix;
    forall i | 0 <= i < 15 ensures m[i] in {'*', ' '} {
      assert m[i] == MaskPrefix[i];
    }
  }

  /** Two numbers that end in the same four characters mask to the same string. */
  lemma MaskDependsOnlyOnLastFour(a: string, b: string)
    requires |a| == 16 && |b| == 16 && a[12..] == b[12..]
    ensures Mask(Some(a)) == Mask(Some(b))
  {
  }
}
