/** Properties relating several steps of the pharmacy program. */
module Behaviour {
  import opened Lookup
  import opened Catalog
  import opened Accounts
  import opened Carts
  import opened Pharmacy

  /** Registering a fresh phone number and then logging in with it and the
      same password succeeds on the new record; any other password is refused. */
  lemma RegisterThenLogin(s: State, name: string, password: string, phone: int32, address: Address, other: string)
    requires !HasNumber(s.accounts, phone)
    ensures Login(NewAccount(s, name, password, phone, address), phone, password) == Success(|s.accounts|)
    ensures other != password ==> Login(NewAccount(s, name, password, phone, address), phone, other) == WrongPassword
  {
    var r := NewAccount(s, name, password, phone, address);
    assert r.accounts[..|s.accounts|] == s.accounts;
    forall j | 0 <= j < |s.accounts|
      ensures r.accounts[j].accountNumber != phone
    {
      assert r.accounts[j] == s.accounts[j];
    }
    assert IsFirstWithNumber(r.accounts, phone, |s.accounts|);
  }

  /** Registering a phone number that is already an account number adds a
      record login can never reach: every attempt ends as it did before. */
  lemma DuplicatePhoneShadowed(s: State, name: string, password: string, phone: int32, address: Address, attempt: string)
    requires HasNumber(s.accounts, phone)
    ensures Login(NewAccount(s, name, password, phone, address), phone, attempt) == Login(s, phone, attempt)
  {
    var r := NewAccount(s, name, password, phone, address);
    var first := FindAccount(s.accounts, phone).value;
    assert r.accounts[..|s.accounts|] == s.accounts;
    forall j | 0 <= j <= first
      ensures r.accounts[j] == s.accounts[j]
    {
    }
    assert IsFirstWithNumber(r.accounts, phone, first);
    FirstWithNumberUnique(r.accounts, phone, first, FindAccount(r.accounts, phone).value);
  }

  /** Checking out a second time finds the cart empty and changes nothing. */
  lemma PayTwice(s: State, acct: int32)
    ensures Pay(Pay(s, acct).state, acct).report == EmptyCart
    ensures Pay(Pay(s, acct).state, acct).state == Pay(s, acct).state
  {
  }

  /** Ordering a listed medicine and then checking out the last registered
      account charges what was in its cart plus that medicine's catalog price,
      and leaves its cart empty. */
  lemma SearchThenPay(s: State, k: nat)
    requires |s.accounts| > 0 && k < |Medicines|
    ensures
      var last := s.accounts[|s.accounts| - 1].accountNumber;
      var c := Pay(Search(s, Medicines[k].name), last);
      && c.report == Paid(CartOf(s, last) + [ItemOf(Medicines[k])], Sum(CartOf(s, last)) + Medicines[k].price)
      && CartOf(c.state, last) == []
  {
    var last := s.accounts[|s.accounts| - 1].accountNumber;
    FindMedicineIsTheEntry(k);
    assert Lists(Medicines[k].name);
    var after := Search(s, Medicines[k].name);
    assert CartOf(after, last) == CartOf(s, last) + [ItemOf(Medicines[k])];
    SumConcat(CartOf(s, last), [ItemOf(Medicines[k])]);
    assert Sum([ItemOf(Medicines[k])]) == Medicines[k].price;
  }

  /** `search` credits the last registered account even when another account
      is logged in: with two accounts and the first one's session open, the
      ordered item lands in the second one's cart, and the first one's
      checkout still finds its cart empty. */
  lemma SearchBypassesSession()
    ensures
      var addr := Address("city", "street", "building");
      var s := NewAccount(NewAccount(Initial, "a", "pa", 1, addr), "b", "pb", 2, addr);
      && Login(s, 1, "pa") == Success(0)
      && CartOf(Search(s, "panadol"), 1) == []
      && CartOf(Search(s, "panadol"), 2) == [LineItem("panadol", 599)]
      && Pay(Search(s, "panadol"), 1).report == EmptyCart
  {
    var addr := Address("city", "street", "building");
    var s := NewAccount(NewAccount(Initial, "a", "pa", 1, addr), "b", "pb", 2, addr);
    assert IsFirstWithNumber(s.accounts, 1, 0);
    PanadolAndVoltarenListed();
  }

  /** In a run of the program, `main` either registers one account into the
      empty registry and logs in, or logs in against the empty registry. So a
      login that succeeds always opens the last registered account, and
      `search` then credits the logged-in account. */
  lemma RunsLogIntoLastAccount(name: string, password: string, phone: int32, address: Address, n: int32, attempt: string)
    ensures Login(Initial, n, attempt) == NotFound
    ensures
      var s := NewAccount(Initial, name, password, phone, address);
      Login(s, n, attempt).Success? ==> s.accounts[Login(s, n, attempt).index] == s.accounts[|s.accounts| - 1]
  {
  }

  /** From `s` to `r`, the cart of `acct` only grew at its end and no other cart changed. */
  predicate OnlyAppendsTo(s: State, r: State, acct: int32) {
    CartOf(s, acct) <= CartOf(r, acct) && OtherCartsUnchanged(s, r, acct)
  }

  lemma OnlyAppendsToTransitive(s: State, m: State, r: State, acct: int32)
    requires OnlyAppendsTo(s, m, acct) && OnlyAppendsTo(m, r, acct)
    ensures OnlyAppendsTo(s, r, acct)
  {
  }

  /** One menu step other than checkout only appends to the last registered
      account's cart and leaves every other cart as it was. */
  lemma StepWithoutCheckoutOnlyAppends(s: State, acct: int32, input: MenuInput)
    requires |s.accounts| > 0 && input.choice != 3
    ensures OnlyAppendsTo(s, AtmStep(s, acct, input).state, s.accounts[|s.accounts| - 1].accountNumber)
  {
    if input.choice == 1 && Lists(input.medicineName) {
      var last := s.accounts[|s.accounts| - 1].accountNumber;
      var r := Search(s, input.medicineName);
      var k :| 0 <= k < |Medicines| && Medicines[k].name == input.medicineName
        && CartOf(r, last) == CartOf(s, last) + [ItemOf(Medicines[k])];
    }
  }

  /** A session with no checkout only ever appends to the last registered
      account's cart and leaves every other cart as it was. */
  lemma {:induction false} SessionWithoutCheckoutOnlyAppends(s: State, acct: int32, inputs: seq<MenuInput>)
    requires |s.accounts| > 0
    requires forall i :: 0 <= i < |inputs| ==> inputs[i].choice != 3
    ensures OnlyAppendsTo(s, RunSession(s, acct, inputs).state, s.accounts[|s.accounts| - 1].accountNumber)
    decreases |inputs|
  {
    var last := s.accounts[|s.accounts| - 1].accountNumber;
    if |inputs| > 0 {
      var step := AtmStep(s, acct, inputs[0]);
      StepWithoutCheckoutOnlyAppends(s, acct, inputs[0]);
      if !step.done {
        var rest := inputs[1..];
        forall i | 0 <= i < |rest|
          ensures rest[i].choice != 3
        {
          assert rest[i] == inputs[i + 1];
        }
        SessionWithoutCheckoutOnlyAppends(step.state, acct, rest);
        var final := RunSession(step.state, acct, rest).state;
        OnlyAppendsToTransitive(s, step.state, final, last);
        RunSessionUnfold(s, acct, inputs[0], rest);
        assert [inputs[0]] + rest == inputs;
      }
    }
  }

  /** The session ends exactly when a logout is read, and it ends at the
      first one: every earlier input was something else. */
  lemma {:induction false} SessionEndsAtFirstLogout(s: State, acct: int32, inputs: seq<MenuInput>)
    requires |s.accounts| > 0
    ensures
      var r := RunSession(s, acct, inputs);
      && (r.loggedOut <==> exists i :: 0 <= i < |inputs| && inputs[i].choice == 4)
      && (r.loggedOut ==> r.consumed > 0 && inputs[r.consumed - 1].choice == 4)
      && (forall j :: 0 <= j < r.consumed - 1 ==> inputs[j].choice != 4)
    decreases |inputs|
  {
    if |inputs| > 0 {
      var step := AtmStep(s, acct, inputs[0]);
      if !step.done {
        var rest := inputs[1..];
        SessionEndsAtFirstLogout(step.state, acct, rest);
        RunSessionUnfold(s, acct, inputs[0], rest);
        assert [inputs[0]] + rest == inputs;
        var r := RunSession(step.state, acct, rest);
        if r.loggedOut {
          assert inputs[r.consumed] == rest[r.consumed - 1];
        }
        forall i | 1 <= i < |inputs|
          ensures inputs[i] == rest[i - 1]
        {
        }
      }
    }
  }

  /** A session whose inputs hold no order and no checkout changes no state. */
  lemma {:induction false} SessionWithoutOrderOrCheckoutIsReadOnly(s: State, acct: int32, inputs: seq<MenuInput>)
    requires |s.accounts| > 0
    requires forall i :: 0 <= i < |inputs| ==> inputs[i].choice != 1 && inputs[i].choice != 3
    ensures RunSession(s, acct, inputs).state == s
    decreases |inputs|
  {
    if |inputs| > 0 && inputs[0].choice != 4 {
      var rest := inputs[1..];
      forall i | 0 <= i < |rest|
        ensures rest[i].choice != 1 && rest[i].choice != 3
      {
        assert rest[i] == inputs[i + 1];
      }
      SessionWithoutOrderOrCheckoutIsReadOnly(s, acct, rest);
      RunSessionUnfold(s, acct, inputs[0], rest);
      assert [inputs[0]] + rest == inputs;
    }
  }

  /** Every cart entry stays a copy of a catalog entry throughout a session. */
  lemma {:induction false} SessionKeepsCartsFromCatalog(s: State, acct: int32, inputs: seq<MenuInput>)
    requires |s.accounts| > 0 && CartsFromCatalog(s)
    ensures CartsFromCatalog(RunSession(s, acct, inputs).state)
    decreases |inputs|
  {
    if |inputs| > 0 && inputs[0].choice != 4 {
      var rest := inputs[1..];
      if inputs[0].choice == 1 {
        SearchKeepsCartsFromCatalog(s, inputs[0].medicineName);
      } else if inputs[0].choice == 3 {
        PayKeepsCartsFromCatalog(s, acct);
      }
      SessionKeepsCartsFromCatalog(AtmStep(s, acct, inputs[0]).state, acct, rest);
      RunSessionUnfold(s, acct, inputs[0], rest);
      assert [inputs[0]] + rest == inputs;
    }
  }

  /** Ordering panadol and then voltaren fills an empty cart of the last
      registered account with those two items, at 1449 cents in all. */
  lemma OrderPanadolAndVoltaren(s: State, acct: int32)
    requires |s.accounts| > 0 && s.accounts[|s.accounts| - 1].accountNumber == acct
    requires CartOf(s, acct) == []
    ensures CartOf(Search(Search(s, "panadol"), "voltaren"), acct) == [LineItem("panadol", 599), LineItem("voltaren", 850)]
    ensures Sum(CartOf(Search(Search(s, "panadol"), "voltaren"), acct)) == 1449
  {
    PanadolAndVoltarenListed();
    var s1 := Search(s, "panadol");
    assert CartOf(s1, acct) == [LineItem("panadol", 599)];
    var s2 := Search(s1, "voltaren");
    assert CartOf(s2, acct) == [LineItem("panadol", 599), LineItem("voltaren", 850)];
    SumConcat([LineItem("panadol", 599)], [LineItem("voltaren", 850)]);
  }

  /** The session loop reads one input, and unless it is a logout, carries on
      with the rest from the state that step left. */
  lemma RunSessionUnfold(s: State, acct: int32, input: MenuInput, rest: seq<MenuInput>)
    requires |s.accounts| > 0 && input.choice != 4
    ensures
      var step := AtmStep(s, acct, input);
      var r := RunSession(step.state, acct, rest);
      RunSession(s, acct, [input] + rest) == Session(r.state, [step.screen] + r.screens, r.consumed + 1, r.loggedOut)
  {
    assert ([input] + rest)[1..] == rest;
  }

  /** Checking out and then logging out ends the session after two inputs
      with the checkout report shown first. */
  lemma CheckoutThenLogout(s: State, acct: int32, checkout: MenuInput, logout: MenuInput)
    requires |s.accounts| > 0 && checkout.choice == 3 && logout.choice == 4
    ensures RunSession(s, acct, [checkout, logout])
      == Session(Pay(s, acct).state, [CheckoutScreen(Pay(s, acct).report), LoggingOut], 2, true)
  {
    RunSessionUnfold(s, acct, checkout, [logout]);
    assert [checkout] + [logout] == [checkout, logout];
  }

  /** A session of two orders, a checkout and a logout: the cart that is
      checked out is the one the two orders left. */
  lemma TwoOrdersCheckoutLogout(s: State, acct: int32, first: string, second: string)
    requires |s.accounts| > 0
    ensures
      var s2 := Search(Search(s, first), second);
      var r := RunSession(s, acct, [MenuInput(1, first), MenuInput(1, second), MenuInput(3, ""), MenuInput(4, "")]);
      && r.loggedOut && r.consumed == 4
      && r.state == Pay(s2, acct).state
      && r.screens[2] == CheckoutScreen(Pay(s2, acct).report)
  {
    var order1, order2 := MenuInput(1, first), MenuInput(1, second);
    var checkout, logout := MenuInput(3, ""), MenuInput(4, "");
    var s1 := AtmStep(s, acct, order1).state;
    CheckoutThenLogout(AtmStep(s1, acct, order2).state, acct, checkout, logout);
    RunSessionUnfold(s1, acct, order2, [checkout, logout]);
    assert [order2] + [checkout, logout] == [order2, checkout, logout];
    RunSessionUnfold(s, acct, order1, [order2, checkout, logout]);
    assert [order1] + [order2, checkout, logout] == [order1, order2, checkout, logout];
  }

  /** Ordering panadol and voltaren, checking out and logging out: with the
      last registered account's session open and its cart empty.
      Checkout charges 1449 cents and empties the cart. */
  lemma OrderTwoAndCheckout(s: State, acct: int32)
    requires |s.accounts| > 0 && s.accounts[|s.accounts| - 1].accountNumber == acct
    requires CartOf(s, acct) == []
    ensures
      var r := RunSession(s, acct, [
        MenuInput(1, "panadol"), MenuInput(1, "voltaren"), MenuInput(3, ""), MenuInput(4, "")]);
      && r.loggedOut && r.consumed == 4
      && r.screens[2] == CheckoutScreen(Paid([LineItem("panadol", 599), LineItem("voltaren", 850)], 1449))
      && CartOf(r.state, acct) == []
  {
    OrderPanadolAndVoltaren(s, acct);
    TwoOrdersCheckoutLogout(s, acct, "panadol", "voltaren");
  }

  /** A freshly registered customer can log in and then order panadol and
      voltaren, check out and log out. */
  lemma RegisterLoginOrderCheckout(address: Address)
    ensures
      var s := NewAccount(Initial, "customer", "secret", 5550100, address);
      && Login(s, 5550100, "secret") == Success(0)
      && RunSession(s, 5550100, [MenuInput(1, "panadol"), MenuInput(1, "voltaren"), MenuInput(3, ""), MenuInput(4, "")])
           .screens[2] == CheckoutScreen(Paid([LineItem("panadol", 599), LineItem("voltaren", 850)], 1449))
  {
    var s := NewAccount(Initial, "customer", "secret", 5550100, address);
    RegisterThenLogin(Initial, "customer", "secret", 5550100, address, "");
    OrderTwoAndCheckout(s, 5550100);
  }
}
