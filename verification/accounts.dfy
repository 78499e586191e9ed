/** The account registry (`personalInfo`): records, the dummy password
    "hash", lookup by account number and the unused number generator. */
module Accounts {
  import opened Lookup

  /** The C++ `int` used for phone numbers, account numbers and menu choices. */
  newtype int32 = x: int | -0x8000_0000 <= x < 0x8000_0000

  const Int32Max: int32 := 0x7fff_ffff

  datatype Address = Address(city: string, streetName: string, buildingDetails: string)

  /** One registered customer. `passwordHash` holds whatever `HashPassword` produced. */
  datatype PersonalInfo = PersonalInfo(
    name: string,
    passwordHash: string,
    accountNumber: int32,
    phoneNumber: int32,
    addresses: seq<Address>)

  /** The stored credential for a password: the program stores it as is. */
  function HashPassword(password: string): (h: string)
    ensures VerifyPassword(password, h)
  {
    password
  }

  /** Whether an entered password matches a stored credential. */
  predicate VerifyPassword(input: string, storedHash: string) {
    input == storedHash
  }

  /** Verification against a stored credential accepts exactly the password it was made from. */
  lemma VerifyAcceptsOnlyItsPassword(password: string, input: string)
    ensures VerifyPassword(input, HashPassword(password)) <==> input == password
  {
  }

  /** True iff some record carries account number `n`. */
  predicate HasNumber(accounts: seq<PersonalInfo>, n: int32) {
    exists k :: 0 <= k < |accounts| && accounts[k].accountNumber == n
  }

  /** `k` is the position of the first record carrying account number `n`. */
  predicate IsFirstWithNumber(accounts: seq<PersonalInfo>, n: int32, k: int) {
    && 0 <= k < |accounts|
    && accounts[k].accountNumber == n
    && forall j :: 0 <= j < k ==> accounts[j].accountNumber != n
  }

  /** The `find_if` of `login`: the first record with account number `n`. */
  function FindAccount(accounts: seq<PersonalInfo>, n: int32): (r: Option<nat>)
    ensures r.Some? ==> IsFirstWithNumber(accounts, n, r.value)
    ensures r.None? <==> !HasNumber(accounts, n)
  {
    FindFirst(accounts, (a: PersonalInfo) => a.accountNumber == n)
  }

  /** There is at most one first record for a number. */
  lemma FirstWithNumberUnique(accounts: seq<PersonalInfo>, n: int32, i: int, k: int)
    requires IsFirstWithNumber(accounts, n, i) && IsFirstWithNumber(accounts, n, k)
    ensures i == k
  {
  }

  /** The registry discipline the number generator is built for: numbers strictly increase. */
  predicate Increasing(accounts: seq<PersonalInfo>) {
    forall i, j :: 0 <= i < j < |accounts| ==> accounts[i].accountNumber < accounts[j].accountNumber
  }

  /** `accountNumCreation`: 1000 for an empty registry, otherwise one more than
      the last record's number. The C++ increment is signed overflow at INT_MAX,
      which the source leaves undefined; the model requires it not to happen. */
  function AccountNumCreation(accounts: seq<PersonalInfo>): (n: int32)
    requires |accounts| == 0 || accounts[|accounts| - 1].accountNumber < Int32Max
    ensures |accounts| == 0 ==> n == 1000
    ensures |accounts| > 0 ==> n == accounts[|accounts| - 1].accountNumber + 1
    ensures |accounts| > 0 ==> n > accounts[|accounts| - 1].accountNumber
  {
    if |accounts| == 0 then 1000 else accounts[|accounts| - 1].accountNumber + 1
  }

  /** On an increasing registry the generated number is unused and keeps the
      registry increasing once a record carrying it is appended. */
  lemma GeneratedNumberIsFresh(accounts: seq<PersonalInfo>, rec: PersonalInfo)
    requires Increasing(accounts)
    requires |accounts| == 0 || accounts[|accounts| - 1].accountNumber < Int32Max
    requires rec.accountNumber == AccountNumCreation(accounts)
    ensures !HasNumber(accounts, rec.accountNumber)
    ensures Increasing(accounts + [rec])
  {
    var a := accounts + [rec];
    forall i, j | 0 <= i < j < |a|
      ensures a[i].accountNumber < a[j].accountNumber
    {
      if j == |accounts| && i < |accounts| - 1 {
        assert accounts[i].accountNumber < accounts[|accounts| - 1].accountNumber;
      }
    }
    forall k | 0 <= k < |accounts|
      ensures accounts[k].accountNumber != rec.accountNumber
    {
      if k < |accounts| - 1 {
        assert accounts[k].accountNumber < accounts[|accounts| - 1].accountNumber;
      }
    }
  }
}
