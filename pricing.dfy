/**
 * The pricing view: three fixed tiers, and a purchase that credits the
 * shell once its simulated payment delay has run out.
 */
module PricingPage {
  import opened Wrappers
  import opened Numbers
  import opened Ledger

  datatype Tier = Tier(
    name: string,
    price: string,
    credits: nat,
    features: seq<string>,
    buttonText: string,
    isPopular: bool,
    value: nat)

  /** The tiers, in the order they are shown. */
  function Tiers(): (tiers: seq<Tier>)
    ensures |tiers| == 3
    ensures tiers[0].value == 5 && tiers[1].value == 50 && tiers[2].value == 300
    ensures forall i :: 0 <= i < |tiers| ==> tiers[i].credits == tiers[i].value
    ensures forall i :: 0 <= i < |tiers| ==> (tiers[i].isPopular <==> i == 1)
    ensures tiers[1].name == "Pro"
  {
    [
      Tier("Starter", "$0", 5, ["5 free credits", "Standard speed", "Basic support"],
           "Claim Free", false, 5),
      Tier("Pro", "$10", 50, ["50 credits", "Priority processing", "History access", "Email support"],
           "Buy Now", true, 50),
      Tier("Enterprise", "$49", 300, ["300 credits", "Highest priority", "API Access", "24/7 Support"],
           "Contact Sales", false, 300)
    ]
  }

  /** Exactly one tier is marked popular: Pro. */
  lemma OnePopularTier()
    ensures var tiers := Tiers();
      (set i | 0 <= i < |tiers| && tiers[i].isPopular) == {1} && tiers[1].name == "Pro"
  {
    var tiers := Tiers();
    var popular := set i | 0 <= i < |tiers| && tiers[i].isPopular;
    assert forall i :: i in popular <==> i == 1;
  }

  /**
   * A purchase waiting for its delay: the amount to add, and the button that
   * had the focus when it was clicked (`document.activeElement`), if any.
   */
  datatype Purchase = Purchase(amount: int, button: Option<nat>)

  /** The buttons of the purchases in `pending`. */
  function Buttons(pending: seq<Purchase>): set<nat>
    decreases |pending|
  {
    if pending == [] then {}
    else (if pending[0].button.Some? then {pending[0].button.value} else {}) + Buttons(pending[1..])
  }

  /** No button has two purchases pending. */
  predicate DistinctButtons(pending: seq<Purchase>)
    decreases |pending|
  {
    pending == [] ||
    ((pending[0].button.Some? ==> pending[0].button.value !in Buttons(pending[1..])) &&
     DistinctButtons(pending[1..]))
  }

  /** A purchase made last adds its button to the pending ones. */
  lemma {:induction false} ButtonsAppend(pending: seq<Purchase>, p: Purchase)
    ensures Buttons(pending + [p]) ==
      Buttons(pending) + (if p.button.Some? then {p.button.value} else {})
    decreases |pending|
  {
    if pending != [] {
      assert (pending + [p])[1..] == pending[1..] + [p];
      ButtonsAppend(pending[1..], p);
    } else {
      assert [p][1..] == [];
    }
  }

  /** A purchase on a button with nothing pending keeps the buttons distinct. */
  lemma {:induction false} DistinctAppend(pending: seq<Purchase>, p: Purchase)
    requires DistinctButtons(pending)
    requires p.button.Some? ==> p.button.value !in Buttons(pending)
    ensures DistinctButtons(pending + [p])
    decreases |pending|
  {
    if pending != [] {
      assert (pending + [p])[1..] == pending[1..] + [p];
      ButtonsAppend(pending[1..], p);
      DistinctAppend(pending[1..], p);
    } else {
      assert [p][1..] == [];
    }
  }

  /**
   * One mounting of the pricing view. Buttons are named by number;
   * `disabled` holds those switched off. Every purchase waits the same
   * delay, so the pending ones complete in the order they were made, also
   * after the view has been unmounted.
   */
  class PricingView {
    const app: App
    const mounting: nat
    var disabled: set<nat>
    var pending: seq<Purchase>

    /** A button is disabled exactly while a purchase made with it is pending. */
    ghost predicate Valid()
      reads this, app
    {
      app.Valid() && disabled == Buttons(pending) && DistinctButtons(pending)
    }

    /** This view is the one on screen: Pricing is shown and has not been left since it was mounted. */
    predicate Mounted()
      reads this, app
    {
      app.currentPage == Pricing && app.switches == mounting
    }

    /** Mounting the view on Pricing: every button enabled, nothing pending. */
    constructor (shell: App)
      requires shell.Valid() && shell.currentPage == Pricing
      ensures Valid() && Mounted() && app == shell
      ensures disabled == {} && pending == []
    {
      app := shell;
      mounting := shell.switches;
      disabled := {};
      pending := [];
    }

    /**
     * `handlePurchase`: switches off the focused button and starts the
     * delay. A browser delivers clicks only to enabled buttons, so the
     * focused one is enabled.
     */
    method HandlePurchase(amount: int, active: Option<nat>)
      requires Valid() && Mounted()
      requires active.Some? ==> active.value !in disabled
      modifies this
      ensures Valid() && Mounted()
      ensures pending == old(pending) + [Purchase(amount, active)]
      ensures disabled == old(disabled) + (if active.Some? then {active.value} else {})
    {
      ButtonsAppend(pending, Purchase(amount, active));
      DistinctAppend(pending, Purchase(amount, active));
      if active.Some? {
        disabled := disabled + {active.value};
      }
      pending := pending + [Purchase(amount, active)];
    }

    /**
     * The delay of the oldest pending purchase running out: its amount is
     * added to the balance, the shell returns to Home, and its button is
     * switched back on.
     */
    method CompletePurchase()
      requires Valid() && pending != []
      modifies this, app
      ensures Valid()
      ensures app.credits == Apply(old(app.credits), Add(old(pending[0].amount)))
      ensures app.storage == old(app.storage)[StorageKey := NumberToString(app.credits)]
      ensures app.currentPage == Home
      ensures app.switches == if old(app.currentPage) == Home then old(app.switches) else old(app.switches) + 1
      ensures pending == old(pending[1..])
      ensures disabled == old(disabled) - (if old(pending[0].button).Some? then {old(pending[0].button).value} else {})
    {
      var purchase := pending[0];
      pending := pending[1..];
      app.AddCredits(purchase.amount);
      app.SetCurrentPage(Home);
      if purchase.button.Some? {
        disabled := disabled - {purchase.button.value};
      }
    }

    /** Clicking tier `i`'s enabled button: a purchase of that tier's value. */
    method ClickTier(i: nat)
      requires Valid() && Mounted() && i < |Tiers()| && i !in disabled
      modifies this
      ensures Valid() && Mounted()
      ensures pending == old(pending) + [Purchase(Tiers()[i].value, Some(i))]
      ensures disabled == old(disabled) + {i}
    {
      HandlePurchase(Tiers()[i].value, Some(i));
    }
  }

  /**
   * Buying a tier and letting its delay run out adds exactly the tier's
   * value, shows Home and leaves every button enabled.
   */
  method BuyTier(view: PricingView, i: nat)
    requires view.Valid() && view.Mounted() && view.pending == [] && i < |Tiers()|
    modifies view, view.app
    ensures view.Valid()
    ensures view.app.credits == Apply(old(view.app.credits), Add(Tiers()[i].value))
    ensures view.app.storage == old(view.app.storage)[StorageKey := NumberToString(view.app.credits)]
    ensures view.app.currentPage == Home && view.app.switches == old(view.app.switches) + 1
    ensures !view.Mounted()
    ensures view.pending == [] && view.disabled == old(view.disabled) - {i} && view.disabled == {}
  {
    view.ClickTier(i);
    view.CompletePurchase();
  }
}
