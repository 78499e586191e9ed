# PharmaGo ordering model

A Dafny model of the in-memory core of PharmaGo, a small command-line pharmacy
ordering program (`FileName.cpp`). The program keeps two pieces of global
state:

- the account registry `personalInfo`, a list of customer records;
- `shoppingCarts`, a map from account number to a list of `(name, price)` line items.

Five operations drive that state: `newAccount`, `login`, `search`, `pay`, and
the session menu `atm`. There is also the unused number generator
`accountNumCreation` and the dummy credential helpers `hashPassword` and
`verifyPassword`. Each operation is modelled as a pure step over an immutable
`State`. Console input becomes parameters. What the program would print becomes
a value (`LoginOutcome`, `PayReport`, `Screen`).

Modules, one per component:

- `Lookup`: `Option` and `FindFirst`, the model of `std::find_if`.
- `Catalog`: the five-entry `medicineDatabase` and lookup by exact name.
- `Accounts`: customer records, the credential helpers, lookup by account number, and `accountNumCreation`.
- `Carts`: line items, the sum of a cart, and the running-total loop of `pay`.
- `Pharmacy`: `State` and the steps `NewAccount`, `Login`, `Search`, `Pay`, `AtmStep` and `RunSession`.
- `Behaviour`: properties that relate several steps.

Representation choices:

- Prices are whole cents (`nat`): panadol 599, voltaren 850, catafast 675, congestal 725, omega3 1000.
- Phone numbers, account numbers and menu choices are the C++ `int`, modelled as the newtype `int32`.
- A number with no entry in `carts` has an empty cart.

Two quirks of the code are kept as written:

- `search` adds to the cart of the last registered account (`personalInfo.back()`), not to the logged-in account's cart.
- The account number is the phone number. The sequential generator exists but is never called, so account numbers are neither unique nor increasing.

In an actual run both differences are invisible. `main` either registers exactly
one account into the empty registry, or logs in against the empty registry,
which always fails. So the logged-in account is always the last registered one
(`RunsLogIntoLastAccount`). `SearchBypassesSession` shows the quirk on a state
with two accounts.

## Model

| member | source | states |
|---|---|---|
| Lookup.FindFirst | FileName.cpp:119-121 | The result is the first index whose element satisfies the predicate. It is `None` exactly when no element does. |
| Catalog.FindMedicine | FileName.cpp:182-185 | The result is the position of a catalog entry with exactly that name. It is `None` exactly when no catalog entry has that name. |
| Catalog.NamesDistinct | FileName.cpp:35-41 | No two of the five seeded entries share a name, so the first match is the only match. |
| Catalog.FindMedicineIsTheEntry | FileName.cpp:182-183 | Looking up any entry's name finds that entry's position. |
| Catalog.PanadolAndVoltarenListed | FileName.cpp:36-37 | "panadol" is found at 599 cents and "voltaren" at 850 cents. |
| Catalog.AspirinNotListed | FileName.cpp:182-192 | A name outside the catalog is not found. |
| Catalog.MatchIsCaseSensitive | FileName.cpp:183 | "Panadol" does not match "panadol". |
| Accounts.HashPassword | FileName.cpp:232-236 | Verification accepts the password against the credential stored for it. |
| Accounts.VerifyAcceptsOnlyItsPassword | FileName.cpp:232-242 | Verification against `hashPassword(p)` succeeds if and only if the input equals `p`. `VerifyPassword` is exact string equality and `HashPassword` is the identity, so login compares the stored credential with the typed password. |
| Accounts.FindAccount | FileName.cpp:119-123 | The result is the first record with the entered account number. It is "not found" exactly when no record has that number. |
| Accounts.FirstWithNumberUnique | FileName.cpp:119-121 | At most one position is the first record with a given number, so duplicates are never told apart. |
| Accounts.AccountNumCreation | FileName.cpp:228-230 | An empty registry yields 1000. A non-empty one yields exactly the last record's number plus one, which exceeds every number on a registry kept in increasing order. |
| Accounts.GeneratedNumberIsFresh | FileName.cpp:228-230 | On a registry with increasing numbers, the generated number is unused. Appending a record that carries it keeps the registry increasing. |
| Carts.SumConcat | FileName.cpp:206-209 | The total of two concatenated carts is the sum of their totals. |
| Carts.CartTotal | FileName.cpp:206-209 | The front-to-back running-total loop returns the sum of the item prices. |
| Pharmacy.NewAccount | FileName.cpp:81-108 | Appends exactly one record with the given name, number equal to phone, exactly one address and a credential that verifies the password. Earlier records and all carts are unchanged. |
| Pharmacy.Login | FileName.cpp:114-140 | Returns "not found" exactly when no record has the number. Otherwise it looks only at the first such record: success on that record if and only if its stored credential equals the input, wrong password otherwise. |
| Pharmacy.Search | FileName.cpp:180-193 | On a miss the state is unchanged. On a hit, the last registered account's cart gains exactly one item at its end: the catalog entry with that name, at its price. Every other cart and the registry are unchanged. |
| Pharmacy.Pay | FileName.cpp:195-214 | Reports an empty cart if and only if the cart is empty, and then changes nothing. Otherwise it reports the cart's items and the sum of their prices, empties that cart, and leaves every other cart and the registry unchanged. |
| Pharmacy.AtmStep | FileName.cpp:143-170 | Choice 4 and only choice 4 ends the loop. Any choice other than 1 and 3 leaves the state unchanged, and a choice outside 1-4 shows the invalid-choice error. Choice 1 is `search`, choice 2 shows the session's cart, choice 3 is `pay` for the session's account. |
| Pharmacy.RunSession | FileName.cpp:144-169 | A session never changes the registry and reads at most its input. If it does not log out, it has read all of its input. |
| Pharmacy.SearchKeepsCartsFromCatalog | FileName.cpp:188 | After an order every cart entry is still a copy of a catalog entry. |
| Pharmacy.PayKeepsCartsFromCatalog | FileName.cpp:213 | After checkout every cart entry is still a copy of a catalog entry. |
| Behaviour.RegisterThenLogin | FileName.cpp:106-134 | After registering a fresh phone number, logging in with it and the same password succeeds on the new record. Any other password is refused. |
| Behaviour.DuplicatePhoneShadowed | FileName.cpp:107-121 | Registering a number that already exists adds a record that login never reaches. Every login attempt ends exactly as it did before. |
| Behaviour.PayTwice | FileName.cpp:196-213 | A second checkout reports the empty cart and changes nothing. |
| Behaviour.SearchThenPay | FileName.cpp:188-213 | Ordering catalog entry k and then checking out the last account charges the earlier cart's sum plus k's price. The cart is empty afterwards. |
| Behaviour.SearchBypassesSession | FileName.cpp:188-196 | With two accounts and the first logged in, an order lands in the second account's cart. The first account's checkout still finds its cart empty. |
| Behaviour.RunsLogIntoLastAccount | FileName.cpp:58-79 | Login against the empty registry always reports "not found". After one registration, every successful login opens the last registered record. |
| Behaviour.StepWithoutCheckoutOnlyAppends | FileName.cpp:153-168 | A menu step other than checkout only appends to the last registered account's cart and leaves every other cart unchanged. |
| Behaviour.SessionWithoutCheckoutOnlyAppends | FileName.cpp:144-169 | The same holds over a whole session with no checkout. |
| Behaviour.RunSessionUnfold | FileName.cpp:144-169 | Unless the input is a logout, the loop performs one step and continues from the state that step left. |
| Behaviour.SessionEndsAtFirstLogout | FileName.cpp:163-165 | A session logs out if and only if some input is choice 4. It stops at the first such input, and every earlier input was another choice. |
| Behaviour.SessionWithoutOrderOrCheckoutIsReadOnly | FileName.cpp:156-167 | A session whose inputs contain no order and no checkout leaves the state unchanged. |
| Behaviour.SessionKeepsCartsFromCatalog | FileName.cpp:185-188 | Throughout a session every cart entry remains a copy of a catalog entry. |
| Behaviour.CheckoutThenLogout | FileName.cpp:160-165 | Checking out and then logging out ends after two inputs, showing the checkout report and then the logout. |
| Behaviour.OrderPanadolAndVoltaren | FileName.cpp:36-37 | Ordering panadol and then voltaren fills an empty cart with those two items, 1449 cents in all. |
| Behaviour.TwoOrdersCheckoutLogout | FileName.cpp:153-165 | For a session of two orders, a checkout and a logout, the checkout sees the cart the two orders left. |
| Behaviour.OrderTwoAndCheckout | FileName.cpp:195-213 | Ordering panadol and voltaren, checking out and logging out charges 1449 cents and leaves the cart empty. |
| Behaviour.RegisterLoginOrderCheckout | FileName.cpp:106-111 | A freshly registered customer can log in, and the same order-and-checkout session charges 1449 cents. |

## Left out

- Console I/O is not modelled: the prompts, `cin` parsing, `cin.ignore` and `getline`, `print` and `printError`, and the ANSI colour codes. Typed values are parameters, and printed messages are `Screen`, `LoginOutcome` and `PayReport` values.
- `displayCart`'s text layout is not modelled. Viewing the cart yields the items themselves (`CartView`).
- Floating point is not modelled. Prices and totals are exact integer cents, so `double` rounding, `to_string` and `setprecision(2)` are out.
- The login retry is not modelled. `login` calls itself again after a failure, driven only by input; the model is a single attempt.
- `main`'s top menu is not a step of its own. It is plain I/O dispatch; `RunsLogIntoLastAccount` only states what it means for the registry.
- The lazy insertion of an empty cart by `unordered_map::operator[]` is not modelled. A missing key means an empty cart, so it has no observable effect.
- Pharmacy.RunSession: input that ends before a logout ends the model's session without a logout. After end of input the real program never reads a logout. `choice` is a fresh, uninitialised local on every pass and a failed `cin` leaves it unset, so what the loop then repeats is undefined.
- Pharmacy.Search: requires a non-empty registry, because `personalInfo.back()` on an empty vector is undefined behaviour. In the program, `search` is only reached after a successful login.
- Accounts.AccountNumCreation: requires the last number to be below INT_MAX, because the C++ increment would be signed overflow.
- `performTransaction` is declared but never defined, so there is nothing to model.
