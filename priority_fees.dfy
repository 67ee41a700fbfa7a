/**
 * `addComputeBudget`: maps the priority tier kept in the browser's local storage
 * to a compute-unit price and appends the matching compute-budget instruction.
 */
module PriorityFees {
  import opened Common
  import opened Ledger

  /** Price used when no known tier is stored. */
  const DefaultPrice: nat := 100000

  /** The tier strings the settings store: Fast, Turbo and Ultra. */
  predicate IsPreset(s: string) {
    s == "50000" || s == "100000" || s == "150000"
  }

  function DigitValue(c: char): nat {
    if '0' <= c <= '9' then (c - '0') as nat else 0
  }

  /** The number a string of decimal digits denotes. */
  function DecimalValue(s: string): nat {
    if s == [] then 0 else 10 * DecimalValue(s[..|s| - 1]) + DigitValue(s[|s| - 1])
  }

  /** The Fast tier's string denotes 50000. */
  lemma {:induction false} FastValue()
    ensures DecimalValue("50000") == 50000
  {
    assert "50000"[..4] == "5000" && "5000"[..3] == "500" && "500"[..2] == "50" && "50"[..1] == "5";
  }

  /** The Turbo tier's string denotes 100000. */
  lemma {:induction false} TurboValue()
    ensures DecimalValue("100000") == 100000
  {
    assert "100000"[..5] == "10000" && "10000"[..4] == "1000" && "1000"[..3] == "100";
    assert "100"[..2] == "10" && "10"[..1] == "1";
  }

  /** The Ultra tier's string denotes 150000. */
  lemma {:induction false} UltraValue()
    ensures DecimalValue("150000") == 150000
  {
    assert "150000"[..5] == "15000" && "15000"[..4] == "1500" && "1500"[..3] == "150";
    assert "150"[..2] == "15" && "15"[..1] == "1";
  }

  /**
   * The compute-unit price for the stored tier (`None` when the key is absent):
   * four times the stored tier for the three presets, the default price otherwise.
   */
  function TierPrice(stored: Option<string>): (price: nat)
    ensures price >= DefaultPrice
    ensures price == DefaultPrice <==> !(stored.Some? && IsPreset(stored.value))
  {
    if stored == Some("50000") then 200000
    else if stored == Some("100000") then 400000
    else if stored == Some("150000") then 600000
    else DefaultPrice
  }

  /** A preset tier's price is four times the number its string denotes. */
  lemma {:induction false} PresetPrice(s: string)
    requires IsPreset(s)
    ensures TierPrice(Some(s)) == 4 * DecimalValue(s)
  {
    FastValue();
    TurboValue();
    UltraValue();
  }

  /** A higher preset tier never gets a lower price. */
  lemma {:induction false} TierPriceMonotone(s: string, t: string)
    requires IsPreset(s) && IsPreset(t)
    requires DecimalValue(s) <= DecimalValue(t)
    ensures TierPrice(Some(s)) <= TierPrice(Some(t))
  {
    PresetPrice(s);
    PresetPrice(t);
  }

  /**
   * Appends one compute-unit-price instruction for the stored tier to `tx` and
   * returns the same transaction object.
   */
  method AddComputeBudget(tx: Transaction, stored: Option<string>) returns (r: Transaction)
    modifies tx`instructions
    ensures r == tx
    ensures tx.instructions == old(tx.instructions) + [SetComputeUnitPrice(TierPrice(stored))]
  {
    var price := TierPrice(stored);
    tx.Add(SetComputeUnitPrice(price));
    r := tx;
  }
}
