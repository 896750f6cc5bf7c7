/** The wallet top-up dialog: only a positive number reaches the balance update. */
module WalletModal {
  import opened Optional
  import opened Text

  /** The preset buttons; each fills the input with the amount's decimal text. */
  const PresetAmounts: seq<nat> := [500, 1000, 2000]

  datatype AddResult =
    | InvalidAmount          // "Invalid Amount" toast, `onAddMoney` not called
    | AddMoney(amount: real) // `onAddMoney(amount)`, then the dialog closes

  /**
   * `handleAdd`, given what `parseFloat` made of the input (None for NaN): a number that is not
   * positive is refused; a positive one is passed on unchanged.
   */
  function HandleAdd(parsed: Option<real>): (r: AddResult)
    ensures r == InvalidAmount <==> parsed.None? || parsed.value <= 0.0
    ensures r.AddMoney? ==> r.amount == parsed.value && r.amount > 0.0
  {
    match parsed
    case None => InvalidAmount
    case Some(x) => if x <= 0.0 then InvalidAmount else AddMoney(x)
  }

  /** `parseFloat` on a non-empty string of decimal digits. */
  function ParseDigits(s: string): real
    requires |s| > 0 && IsDigits(s)
  {
    DecimalValue(s) as real
  }

  /** Each preset's text parses back to the preset and is accepted as it is. */
  lemma PresetsAccepted()
    ensures forall i | 0 <= i < |PresetAmounts| ::
              HandleAdd(Some(ParseDigits(NatToDecimal(PresetAmounts[i])))) == AddMoney(PresetAmounts[i] as real)
  {
    forall i | 0 <= i < |PresetAmounts|
      ensures HandleAdd(Some(ParseDigits(NatToDecimal(PresetAmounts[i])))) == AddMoney(PresetAmounts[i] as real)
    {
      DecimalRoundTrip(PresetAmounts[i]);
    }
  }
}
