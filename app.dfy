/**
 * The app shell: the credit balance, its copy in local storage, and the page
 * being shown.
 */
module Ledger {
  import opened Wrappers
  import opened Numbers

  /** The two views the shell switches between. */
  datatype Page = Home | Pricing

  /** The local-storage key the balance is kept under. */
  const StorageKey := "ocr_app_credits"

  /** The balance a first visit starts with. */
  const FreeCredits := 5

  /**
   * The balance restored at start-up from what storage holds under the key:
   * the free credits when nothing (or an empty string) is stored, otherwise
   * the stored text as `parseInt` reads it, `NaN` included.
   */
  function InitialCredits(saved: Option<string>): (r: Number)
    ensures saved == None || saved == Some("") ==> r == Int(FreeCredits)
  {
    match saved
    case None => Int(FreeCredits)
    case Some(text) => if text == "" then Int(FreeCredits) else ParseInt(text)
  }

  /** What storage holds under `key`, as `localStorage.getItem` answers. */
  function GetItem(storage: map<string, string>, key: string): (r: Option<string>)
    ensures r.Some? <==> key in storage
    ensures r.Some? ==> r.value == storage[key]
  {
    if key in storage then Some(storage[key]) else None
  }

  /** A balance written to storage is restored unchanged by the next start-up. */
  lemma ReloadRestores(balance: Number, storage: map<string, string>)
    ensures InitialCredits(GetItem(storage[StorageKey := NumberToString(balance)], StorageKey)) == balance
  {
    ParseNumberToString(balance);
  }

  /** `credits > 0`. */
  predicate IsPositive(n: Number) { n.Int? && n.value > 0 }

  /** `credits <= 0`; false for `NaN`, like every comparison with it. */
  predicate AtMostZero(n: Number) { n.Int? && n.value <= 0 }

  /** The two ways the balance changes. */
  datatype Change = Deduct | Add(amount: int)

  /**
   * The balance after one change: a deduction only happens on a positive
   * balance; adding to `NaN` leaves `NaN`.
   */
  function Apply(balance: Number, change: Change): (r: Number)
    ensures change == Deduct && IsPositive(balance) ==> r == Int(balance.value - 1)
    ensures change == Deduct && !IsPositive(balance) ==> r == balance
    ensures change.Add? ==> (r.Int? <==> balance.Int?)
    ensures change.Add? && r.Int? ==> r.value == balance.value + change.amount
  {
    match change
    case Deduct => if IsPositive(balance) then Int(balance.value - 1) else balance
    case Add(amount) => if balance.Int? then Int(balance.value + amount) else NaN
  }

  /** The balance after a series of changes, first to last. */
  function ApplyAll(balance: Number, changes: seq<Change>): Number
    decreases |changes|
  {
    if changes == [] then balance else ApplyAll(Apply(balance, changes[0]), changes[1..])
  }

  predicate NoNegativeAdd(changes: seq<Change>)
  {
    forall i :: 0 <= i < |changes| ==> changes[i].Add? ==> changes[i].amount >= 0
  }

  lemma NoNegativeAddTail(changes: seq<Change>)
    requires changes != [] && NoNegativeAdd(changes)
    ensures NoNegativeAdd(changes[1..])
  {
    forall i | 0 <= i < |changes[1..]| ensures changes[1..][i] == changes[i + 1] { }
  }

  /** Deductions never take a non-negative balance below zero. */
  lemma {:induction false} ApplyAllNonNegative(balance: int, changes: seq<Change>)
    requires balance >= 0 && NoNegativeAdd(changes)
    ensures ApplyAll(Int(balance), changes).Int? && ApplyAll(Int(balance), changes).value >= 0
    decreases |changes|
  {
    if changes != [] {
      NoNegativeAddTail(changes);
      ApplyAllNonNegative(Apply(Int(balance), changes[0]).value, changes[1..]);
    }
  }

  function Deductions(changes: seq<Change>): nat
    decreases |changes|
  {
    if changes == [] then 0 else (if changes[0].Deduct? then 1 else 0) + Deductions(changes[1..])
  }

  function Added(changes: seq<Change>): int
    decreases |changes|
  {
    if changes == [] then 0 else (if changes[0].Add? then changes[0].amount else 0) + Added(changes[1..])
  }

  /**
   * While the balance covers every deduction, none is refused: the final
   * balance is the start plus everything added minus one per deduction.
   */
  lemma {:induction false} ApplyAllExact(balance: int, changes: seq<Change>)
    requires NoNegativeAdd(changes) && balance >= Deductions(changes)
    ensures ApplyAll(Int(balance), changes) == Int(balance + Added(changes) - Deductions(changes))
    decreases |changes|
  {
    if changes != [] {
      NoNegativeAddTail(changes);
      ApplyAllExact(Apply(Int(balance), changes[0]).value, changes[1..]);
    }
  }

  /** A `NaN` balance stays `NaN`: no deduction succeeds and no purchase repairs it. */
  lemma {:induction false} NaNPersists(changes: seq<Change>)
    ensures ApplyAll(NaN, changes) == NaN
    decreases |changes|
  {
    if changes != [] {
      NaNPersists(changes[1..]);
    }
  }

  /**
   * The shell's state: `credits`, its mirror in `storage`, and `currentPage`.
   * The shell renders the workspace only on Home and the pricing view only on
   * Pricing, so every switch of page unmounts the view shown so far and
   * mounts a fresh one; `switches` counts those switches, which tells one
   * mounting of a view from the next.
   */
  class App {
    var credits: Number
    var storage: map<string, string>
    var currentPage: Page
    var switches: nat

    /** Every balance change has been written to storage. */
    ghost predicate Valid()
      reads this
    {
      StorageKey in storage && storage[StorageKey] == NumberToString(credits)
    }

    /**
     * Mounting the shell: the balance is restored from `stored`, the page is
     * Home, and the effect that persists the balance runs once.
     */
    constructor (stored: map<string, string>)
      ensures Valid()
      ensures credits == InitialCredits(GetItem(stored, StorageKey))
      ensures currentPage == Home && switches == 0
      ensures storage == stored[StorageKey := NumberToString(credits)]
    {
      var restored := InitialCredits(GetItem(stored, StorageKey));
      credits := restored;
      currentPage := Home;
      switches := 0;
      storage := stored[StorageKey := NumberToString(restored)];
    }

    /** `deductCredit`: spends one credit when the balance is positive. */
    method DeductCredit() returns (ok: bool)
      requires Valid()
      modifies this
      ensures Valid()
      ensures ok <==> IsPositive(old(credits))
      ensures credits == Apply(old(credits), Deduct)
      ensures currentPage == old(currentPage) && switches == old(switches)
      ensures storage == old(storage)[StorageKey := NumberToString(credits)]
    {
      if IsPositive(credits) {
        credits := Int(credits.value - 1);
        storage := storage[StorageKey := NumberToString(credits)];
        return true;
      }
      return false;
    }

    /** `addCredits`: adds exactly `amount` to the balance. */
    method AddCredits(amount: int)
      requires Valid()
      modifies this
      ensures Valid()
      ensures credits == Apply(old(credits), Add(amount))
      ensures currentPage == old(currentPage) && switches == old(switches)
      ensures storage == old(storage)[StorageKey := NumberToString(credits)]
    {
      credits := if credits.Int? then Int(credits.value + amount) else NaN;
      storage := storage[StorageKey := NumberToString(credits)];
    }

    /**
     * `setCurrentPage`: shows `page`. Setting the page already shown changes
     * nothing, so it remounts no view.
     */
    method SetCurrentPage(page: Page)
      requires Valid()
      modifies this
      ensures Valid()
      ensures currentPage == page
      ensures switches == if page == old(currentPage) then old(switches) else old(switches) + 1
      ensures credits == old(credits) && storage == old(storage)
    {
      if page != currentPage {
        switches := switches + 1;
      }
      currentPage := page;
    }
  }
}
