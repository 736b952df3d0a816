/**
 * The footer logo's hidden entrance: nine taps on the logo open the admin page.
 */
module Footer {
  const Threshold: nat := 9
  const AdminRoute: string := "/admin"

  datatype TapOutcome = TapOutcome(count: nat, navigates: bool)

  /** One tap on a counter that shows `c`: the count goes up by one, and on reaching
      the threshold it starts again from zero and the page moves to the admin route. */
  function TapStep(c: nat): (r: TapOutcome)
    ensures c + 1 < Threshold ==> r.count == c + 1 && !r.navigates
    ensures c + 1 >= Threshold ==> r.count == 0 && r.navigates
    ensures c < Threshold ==> r.count < Threshold
  {
    var next := c + 1;
    if next >= Threshold then TapOutcome(0, true) else TapOutcome(next, false)
  }

  /** The count and the number of trips to the admin route after `n` taps on a fresh
      footer. */
  function AfterTaps(n: nat): TapOutcomes {
    if n == 0 then TapOutcomes(0, 0)
    else
      var prev := AfterTaps(n - 1);
      var step := TapStep(prev.count);
      TapOutcomes(step.count, prev.navigations + if step.navigates then 1 else 0)
  }

  datatype TapOutcomes = TapOutcomes(count: nat, navigations: nat)

  /** After `n` taps the counter shows `n mod 9` and the admin route was opened
      `n div 9` times. */
  lemma {:induction false} AfterTapsSpec(n: nat)
    ensures AfterTaps(n) == TapOutcomes(n % Threshold, n / Threshold)
  {
    if n > 0 {
      AfterTapsSpec(n - 1);
      var m := n - 1;
      if m % Threshold + 1 >= Threshold {
        assert m % Threshold == Threshold - 1;
        assert n % Threshold == 0 && n / Threshold == m / Threshold + 1;
      } else {
        assert n % Threshold == m % Threshold + 1 && n / Threshold == m / Threshold;
      }
    }
  }

  /** The footer's state: `tapCount`, and the routes it navigated to. */
  class SecretTap {
    var tapCount: nat
    var navigations: seq<string>

    predicate Valid()
      reads this
    {
      tapCount < Threshold
    }

    constructor ()
      ensures Valid() && tapCount == 0 && navigations == []
    {
      tapCount := 0;
      navigations := [];
    }

    /** `handleSecretTap`. */
    method Tap()
      requires Valid()
      modifies this
      ensures Valid()
      ensures tapCount == TapStep(old(tapCount)).count
      ensures navigations == old(navigations) + if TapStep(old(tapCount)).navigates then [AdminRoute] else []
    {
      var newCount := tapCount + 1;
      tapCount := newCount;
      if newCount >= Threshold {
        tapCount := 0;
        navigations := navigations + [AdminRoute];
      }
    }
  }
}
