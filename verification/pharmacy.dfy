/** The program's state — the account registry and the per-account carts —
    and the steps that change it: registration, login, search, checkout and
    the session menu. Console input becomes parameters; console output becomes
    a `Screen` value saying what would be shown. */
module Pharmacy {
  import opened Lookup
  import opened Catalog
  import opened Accounts
  import opened Carts

  /** `personalInfo` and `shoppingCarts`. A number missing from `carts` has an empty cart. */
  datatype State = State(accounts: seq<PersonalInfo>, carts: map<int32, seq<LineItem>>)

  /** The state at program start: no accounts, no carts. */
  const Initial: State := State([], map[])

  /** The cart of account number `acct`. */
  function CartOf(s: State, acct: int32): seq<LineItem> {
    if acct in s.carts then s.carts[acct] else []
  }

  /** Every cart other than that of `acct` is the same in `s` and `r`. */
  predicate OtherCartsUnchanged(s: State, r: State, acct: int32) {
    forall a :: a != acct ==> CartOf(r, a) == CartOf(s, a)
  }

  /** Every cart entry was copied from a catalog entry. */
  predicate CartsFromCatalog(s: State) {
    forall a, i :: a in s.carts && 0 <= i < |s.carts[a]| ==> IsCatalogItem(s.carts[a][i])
  }

  // ---------------------------------------------------------------- newAccount

  /** `newAccount`: append one record whose account number is the phone number,
      with the stored credential of `password` and exactly one address. */
  function NewAccount(s: State, name: string, password: string, phone: int32, address: Address): (r: State)
    ensures |r.accounts| == |s.accounts| + 1
    ensures r.accounts[..|s.accounts|] == s.accounts
    ensures r.accounts[|s.accounts|].name == name
    ensures r.accounts[|s.accounts|].accountNumber == phone
    ensures r.accounts[|s.accounts|].phoneNumber == phone
    ensures r.accounts[|s.accounts|].addresses == [address]
    ensures VerifyPassword(password, r.accounts[|s.accounts|].passwordHash)
    ensures r.carts == s.carts
  {
    var info := PersonalInfo(name, HashPassword(password), phone, phone, [address]);
    State(s.accounts + [info], s.carts)
  }

  // ---------------------------------------------------------------- login

  /** The outcome of one login attempt. */
  datatype LoginOutcome = NotFound | WrongPassword | Success(index: nat)

  /** One attempt of `login`: find the first record with the entered number,
      then check the entered password against its stored credential. */
  function Login(s: State, n: int32, password: string): (r: LoginOutcome)
    ensures r.NotFound? <==> !HasNumber(s.accounts, n)
    ensures r.Success? ==> IsFirstWithNumber(s.accounts, n, r.index)
    ensures r.WrongPassword? ==> exists k :: IsFirstWithNumber(s.accounts, n, k) && s.accounts[k].passwordHash != password
    ensures forall k :: IsFirstWithNumber(s.accounts, n, k) ==> (r == Success(k) <==> s.accounts[k].passwordHash == password)
  {
    match FindAccount(s.accounts, n)
    case None => NotFound
    case Some(k) =>
      assert forall i :: IsFirstWithNumber(s.accounts, n, i) ==> i == k by {
        forall i | IsFirstWithNumber(s.accounts, n, i) ensures i == k {
          FirstWithNumberUnique(s.accounts, n, i, k);
        }
      }
      if VerifyPassword(password, s.accounts[k].passwordHash) then Success(k) else WrongPassword
  }

  // ---------------------------------------------------------------- search

  /** `search`: on a catalog hit, append one line item to the cart of the LAST
      registered account (`personalInfo.back()`), not of the logged-in one;
      on a miss, change nothing. `back()` on an empty registry is undefined. */
  function Search(s: State, name: string): (r: State)
    requires |s.accounts| > 0
    ensures r.accounts == s.accounts
    ensures !Lists(name) ==> r == s
    ensures Lists(name) ==>
      var last := s.accounts[|s.accounts| - 1].accountNumber;
      && (exists k :: 0 <= k < |Medicines| && Medicines[k].name == name
            && CartOf(r, last) == CartOf(s, last) + [ItemOf(Medicines[k])])
      && OtherCartsUnchanged(s, r, last)
  {
    match FindMedicine(name)
    case None => s
    case Some(k) =>
      var last := s.accounts[|s.accounts| - 1].accountNumber;
      State(s.accounts, s.carts[last := CartOf(s, last) + [ItemOf(Medicines[k])]])
  }

  // ---------------------------------------------------------------- pay

  /** What checkout reports: the empty-cart error, or the items and their total. */
  datatype PayReport = EmptyCart | Paid(items: seq<LineItem>, total: nat)

  datatype Checkout = Checkout(state: State, report: PayReport)

  /** `pay` for account number `acct`: an empty cart is an error that changes
      nothing; otherwise the cart is totalled and then cleared. */
  function Pay(s: State, acct: int32): (r: Checkout)
    ensures r.report.EmptyCart? <==> |CartOf(s, acct)| == 0
    ensures r.report.EmptyCart? ==> r.state == s
    ensures r.report.Paid? ==>
      && r.report.items == CartOf(s, acct)
      && r.report.total == Sum(CartOf(s, acct))
      && CartOf(r.state, acct) == []
      && r.state.accounts == s.accounts
      && OtherCartsUnchanged(s, r.state, acct)
  {
    var cart := CartOf(s, acct);
    if |cart| == 0 then Checkout(s, EmptyCart)
    else Checkout(State(s.accounts, s.carts[acct := []]), Paid(cart, Sum(cart)))
  }

  // ---------------------------------------------------------------- atm

  /** One answer to the session menu: the choice and, for choice 1, the medicine name typed next. */
  datatype MenuInput = MenuInput(choice: int32, medicineName: string)

  /** What one menu step shows. */
  datatype Screen =
    | Available            // the ordered medicine was found and added
    | NotAvailable         // the ordered medicine is not in the catalog
    | CartView(items: seq<LineItem>)
    | CheckoutScreen(report: PayReport)
    | LoggingOut
    | InvalidChoice

  datatype Step = Step(state: State, screen: Screen, done: bool)

  /** One pass of the `atm` loop for the session of account number `acct`. */
  function AtmStep(s: State, acct: int32, input: MenuInput): (r: Step)
    requires |s.accounts| > 0
    ensures r.done <==> input.choice == 4
    ensures r.state.accounts == s.accounts
    ensures input.choice != 1 && input.choice != 3 ==> r.state == s
    ensures !(1 <= input.choice <= 4) ==> r.screen == InvalidChoice
    ensures input.choice == 1 ==> r.state == Search(s, input.medicineName)
    ensures input.choice == 1 ==> (r.screen == Available <==> Lists(input.medicineName))
    ensures input.choice == 2 ==> r.screen == CartView(CartOf(s, acct))
    ensures input.choice == 3 ==> r.state == Pay(s, acct).state && r.screen == CheckoutScreen(Pay(s, acct).report)
  {
    if input.choice == 1 then
      var screen := if FindMedicine(input.medicineName).Some? then Available else NotAvailable;
      Step(Search(s, input.medicineName), screen, false)
    else if input.choice == 2 then
      Step(s, CartView(CartOf(s, acct)), false)
    else if input.choice == 3 then
      var c := Pay(s, acct);
      Step(c.state, CheckoutScreen(c.report), false)
    else if input.choice == 4 then
      Step(s, LoggingOut, true)
    else
      Step(s, InvalidChoice, false)
  }

  /** The outcome of running the session menu over a sequence of inputs:
      the final state, what was shown, how many inputs were read and whether
      the session ended by logging out. */
  datatype Session = Session(state: State, screens: seq<Screen>, consumed: nat, loggedOut: bool)

  /** `atm`: repeat menu steps until choice 4. Input that runs out before a
      logout leaves the session open. */
  function RunSession(s: State, acct: int32, inputs: seq<MenuInput>): (r: Session)
    requires |s.accounts| > 0
    ensures r.state.accounts == s.accounts
    ensures r.consumed <= |inputs| && |r.screens| == r.consumed
    ensures !r.loggedOut ==> r.consumed == |inputs|
    decreases |inputs|
  {
    if |inputs| == 0 then Session(s, [], 0, false)
    else
      var step := AtmStep(s, acct, inputs[0]);
      if step.done then Session(step.state, [step.screen], 1, true)
      else
        var rest := RunSession(step.state, acct, inputs[1..]);
        Session(rest.state, [step.screen] + rest.screens, rest.consumed + 1, rest.loggedOut)
  }

  // ---------------------------------------------------------------- invariant

  /** Ordering copies a catalog entry into a cart, so every cart entry stays
      a copy of a catalog entry. */
  lemma SearchKeepsCartsFromCatalog(s: State, name: string)
    requires |s.accounts| > 0 && CartsFromCatalog(s)
    ensures CartsFromCatalog(Search(s, name))
  {
    if Lists(name) {
      var k := FindMedicine(name).value;
      assert IsCatalogItem(ItemOf(Medicines[k]));
    }
  }

  /** Checkout only empties a cart, so every cart entry stays a copy of a catalog entry. */
  lemma PayKeepsCartsFromCatalog(s: State, acct: int32)
    requires CartsFromCatalog(s)
    ensures CartsFromCatalog(Pay(s, acct).state)
  {
  }
}
