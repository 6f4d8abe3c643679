/**
 * The probing schedule shared by both key loops (`new_key` in begs.rb and the
 * loop inside `shorten` in main.rb): a counter `i` and an exponent `power`
 * that start at 0 and 2; after every ten probes at one power the key space
 * widens by a factor of 36.
 */
module Probing {
  /** Probes drawn at one power before the key space widens. */
  const ProbesPerPower := 10

  /** The counter `i` and the exponent `power` of the key loop when a candidate is drawn. */
  datatype Tally = Tally(counter: nat, power: nat)

  /** The tally when candidate number j (from 0) is drawn, updated step by step as the loop does. */
  function Schedule(j: nat): (t: Tally)
    ensures t.counter <= ProbesPerPower && t.power >= 2
  {
    if j == 0 then Tally(0, 2)
    else
      var t := Schedule(j - 1);
      if t.counter >= ProbesPerPower then Tally(1, t.power + 1) else Tally(t.counter + 1, t.power)
  }

  /** Closed form of the power: 2 for the first eleven candidates, one more after every ten further ones. */
  function PowerAt(j: nat): nat
  {
    if j == 0 then 2 else 2 + (j - 1) / ProbesPerPower
  }

  /** Closed form of the counter. */
  function CounterAt(j: nat): nat
  {
    if j == 0 then 0 else (j - 1) % ProbesPerPower + 1
  }

  /** One step of the probing schedule: the counter wraps from 10 to 1 exactly when the power rises. */
  lemma ScheduleStep(j: nat)
    requires j >= 1
    ensures CounterAt(j - 1) >= ProbesPerPower ==> PowerAt(j) == PowerAt(j - 1) + 1 && CounterAt(j) == 1
    ensures CounterAt(j - 1) < ProbesPerPower ==> PowerAt(j) == PowerAt(j - 1) && CounterAt(j) == CounterAt(j - 1) + 1
  {
    if j >= 2 {
      var q, m := (j - 2) / ProbesPerPower, (j - 2) % ProbesPerPower;
      assert j - 2 == q * ProbesPerPower + m && m < ProbesPerPower;
      if m == ProbesPerPower - 1 {
        assert j - 1 == (q + 1) * ProbesPerPower;
        assert (j - 1) / ProbesPerPower == q + 1 && (j - 1) % ProbesPerPower == 0;
      } else {
        assert j - 1 == q * ProbesPerPower + (m + 1);
        assert (j - 1) / ProbesPerPower == q && (j - 1) % ProbesPerPower == m + 1;
      }
    }
  }

  /** The loop's schedule follows the closed forms: the key space widens once every ten probes. */
  lemma {:induction false} ScheduleClosedForm(j: nat)
    ensures Schedule(j) == Tally(CounterAt(j), PowerAt(j))
  {
    if j > 0 {
      ScheduleClosedForm(j - 1);
      ScheduleStep(j);
    }
  }
}
