/** The three-step onboarding card
    (client/src/components/onboarding/wallet-onboarding.tsx). */
module WalletOnboarding {

  /** One page of the card; the icon is presentation and is left out. */
  datatype Page = Page(title: string, description: string)

  /** `steps`. */
  const Steps: seq<Page> := [
    Page("Welcome to JusticeChain", "A secure blockchain-based evidence management system"),
    Page("Connect Your Wallet", "Use MetaMask or WalletConnect to authenticate securely"),
    Page("Role-Based Access", "Your wallet address determines your access level and permissions")
  ]

  /** The index of the last page. */
  const LastStep: nat := |Steps| - 1

  /** The step shown after `n` presses of the button, from a fresh card. */
  function StepAfter(n: nat): (r: nat)
    ensures r <= LastStep
  {
    if n == 0 then 0
    else if StepAfter(n - 1) == LastStep then LastStep
    else StepAfter(n - 1) + 1
  }

  /** How many times `onConnect` has fired after `n` presses. */
  function ConnectsAfter(n: nat): nat {
    if n == 0 then 0
    else ConnectsAfter(n - 1) + (if StepAfter(n - 1) == LastStep then 1 else 0)
  }

  /** The card's state: the `currentStep` of the component and, for the
      proofs, the number of presses so far; `connects` counts the calls the
      card has made to `onConnect`. */
  class Onboarding {
    var currentStep: nat
    var connects: nat
    ghost var presses: nat

    ghost predicate Valid()
      reads this
    {
      currentStep <= LastStep && currentStep == StepAfter(presses) && connects == ConnectsAfter(presses)
    }

    /** A fresh card starts at the first page. */
    constructor ()
      ensures Valid()
      ensures currentStep == 0 && connects == 0 && presses == 0
    {
      currentStep := 0;
      connects := 0;
      presses := 0;
    }

    /** `nextStep`: on the last page it calls `onConnect`, reported as
        `connected`, and stays; elsewhere it moves on by one page. */
    method NextStep() returns (connected: bool)
      requires Valid()
      modifies this
      ensures Valid()
      ensures presses == old(presses) + 1
      ensures connected <==> old(currentStep) == LastStep
      ensures currentStep == if connected then old(currentStep) else old(currentStep) + 1
      ensures connects == if connected then old(connects) + 1 else old(connects)
    {
      if currentStep == |Steps| - 1 {
        connects := connects + 1;
        connected := true;
      } else {
        currentStep := currentStep + 1;
        connected := false;
      }
      presses := presses + 1;
    }
  }

  /** The page climbs by one per press and then stays on the last. */
  lemma {:induction false} StepAfterIs(n: nat)
    ensures StepAfter(n) == if n < LastStep then n else LastStep
  {
    if n > 0 {
      StepAfterIs(n - 1);
    }
  }

  /** `onConnect` fires on every press from the third on. */
  lemma {:induction false} ConnectsAfterIs(n: nat)
    ensures ConnectsAfter(n) == if n <= LastStep then 0 else n - LastStep
  {
    if n > 0 {
      ConnectsAfterIs(n - 1);
      StepAfterIs(n - 1);
    }
  }

  /** The first `onConnect` comes with exactly the third press. */
  lemma FirstConnectOnThirdPress()
    ensures ConnectsAfter(2) == 0 && ConnectsAfter(3) == 1
  {
    ConnectsAfterIs(2);
    ConnectsAfterIs(3);
  }

  /** The card never goes back a page. */
  lemma StepNeverDecreases(m: nat, n: nat)
    requires m <= n
    ensures StepAfter(m) <= StepAfter(n)
  {
    StepAfterIs(m);
    StepAfterIs(n);
  }

  /** Three presses on a fresh card: two page turns, then one connect. */
  method ThreePresses() returns (card: Onboarding)
    ensures card.Valid() && card.currentStep == LastStep && card.connects == 1
  {
    card := new Onboarding();
    var c1 := card.NextStep();
    var c2 := card.NextStep();
    var c3 := card.NextStep();
    assert !c1 && !c2 && c3;
  }
}
