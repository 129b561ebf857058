# LocalApiService — a verified model of the in-memory banking service

The service holds a fixed directory of users. Each user has an identifier, a plaintext
password and an ordered list of accounts. It offers three operations over that directory:

- **login**: succeeds when the first user with the given identifier has the given password.
- **accounts**: lists a user's accounts, or returns the empty list for an unknown
  identifier.
- **transfer**: moves an amount from the sender's main account to the recipient's. It
  runs three argument checks, in this order:
  1. the sender exists;
  2. the recipient exists;
  3. the amount is not negative.

  Each failed check throws an exception with a fixed message. The transfer then picks
  each user's *first* account flagged main. Next it either reports `false` and changes
  nothing, or debits the sender's main account in place, then credits the recipient's.

The model is split into four modules:

- `Lists` (`lists.dfy`): `Option` and `FirstOrNull`, the first-match search that every
  lookup is built on.
- `Model` (`model.dfy`):
  - `Account` is a class whose `balance` field is updated in place, shared by reference
    between the directory and the transfer.
  - `User` is a value holding `Account` references.
  - There are datatypes for the request and response payloads.
  - `TransferOutcome` stands for "threw `IllegalArgumentException(message)`" or
    "returned a `TransferResult`".
- `Directory` (`directory.dfy`): what it means to find the first user or first main
  account, and the invariants of a well-formed directory:
  - `UniqueIds`: identifiers are unique.
  - `Owned`: every account has one owner and appears once in that owner's list.

  It also holds the balances as a map from account to amount (`Balances`), the two-step
  debit-then-credit on such a map (`Settle`), and the sum of all balances with its
  conservation.
- `Service` (`service.dfy`):
  - The lookups `GetUserById`, `Login`, `Accounts` and `MainAccount`, as functions of the
    user list.
  - `Decide`, the transfer's decision on the current state, and the lemmas that say what
    it decides.
  - The `LocalApiService` class. Its constructor seeds the directory and its `Transfer`
    method carries out a transfer in place. `Transfer` is proved to return the outcome
    `Decide` gives on the old state and to leave exactly the balances that the decision,
    applied to the old balances, gives. On a valid directory it also keeps the total of
    all balances.

Money is counted in integer cents, so the seeded 2354.23 is `235423`.

## Model

| member | source | states |
|---|---|---|
| Lists.FirstOrNull | src/main/kotlin/com/aura/service/LocalApiService.kt:79 | None exactly when no element satisfies the predicate; otherwise an element that satisfies it, at a position with no satisfying element before it |
| Service.GetUserById | src/main/kotlin/com/aura/service/LocalApiService.kt:78-80 | None exactly when no user has the identifier; otherwise the first user with that identifier |
| Service.GetUserByIdFirst | src/main/kotlin/com/aura/service/LocalApiService.kt:78-80 | the user found is the first one with the identifier, whatever users with the same identifier follow it |
| Service.GetUserByIdUnique | src/main/kotlin/com/aura/service/LocalApiService.kt:78-80 | with unique identifiers, looking up a user's identifier finds that user |
| Service.Login | src/main/kotlin/com/aura/service/LocalApiService.kt:33-36 | success exactly when the first user with the identifier has the given password; an unknown identifier is a plain failure, not an error |
| Service.LoginWithUniqueIds | src/main/kotlin/com/aura/service/LocalApiService.kt:33-36 | with unique identifiers, success exactly when some user has both the identifier and the password |
| Service.Accounts | src/main/kotlin/com/aura/service/LocalApiService.kt:38-41 | the empty list for an unknown identifier; otherwise the first such user's accounts, the same objects in stored order |
| Service.MainAccount | src/main/kotlin/com/aura/service/LocalApiService.kt:53-54 | None exactly when no account is flagged main; otherwise the first account flagged main |
| Service.MainAccountFirst | src/main/kotlin/com/aura/service/LocalApiService.kt:53-54 | the account used is the first one flagged main, whatever main accounts follow it |
| Service.MainLookup | src/main/kotlin/com/aura/service/LocalApiService.kt:53-54 | the main account reached through the user lookup is the one `MainOf` describes, and the only one |
| Directory.MainOfUnique | src/main/kotlin/com/aura/service/LocalApiService.kt:53-54 | a user has at most one account that a transfer uses |
| Directory.OwnedMainsDiffer | src/main/kotlin/com/aura/service/LocalApiService.kt:53-54 | in a singly owned directory, two identifiers sharing the account a transfer uses are the same identifier |
| Service.Decide | src/main/kotlin/com/aura/service/LocalApiService.kt:44-61 | the transfer's checks and main-account choice on the current state: a rejection carries one of the three argument messages, and anything else means both users are known and the amount is non-negative; its full characterisation is `DecideRejects`, `DecideDeclines` and `DecideSettles` |
| Service.Apply | src/main/kotlin/com/aura/service/LocalApiService.kt:59-65 | the transfer's effect on the balances: keys are kept, a rejected or declined plan changes nothing, and a settled one keeps the pair's sum and every other balance; its full effect is `TransferEffect`, through `Settle` |
| Service.Outcome | src/main/kotlin/com/aura/service/LocalApiService.kt:43-71 | an error exactly for a rejected request, with that rejection's message; otherwise `success` is true exactly for a settled transfer |
| Service.DecideRejects | src/main/kotlin/com/aura/service/LocalApiService.kt:44-51 | the sender error exactly when the sender is unknown; the recipient error exactly when the sender is known and the recipient is not; the amount error exactly when both are known and the amount is negative (an amount of 0 passes) |
| Service.DecideSettles | src/main/kotlin/com/aura/service/LocalApiService.kt:53-63 | a transfer that goes ahead uses each user's first main account, and its amount lies between 0 and the sender's main balance |
| Service.DecideDeclines | src/main/kotlin/com/aura/service/LocalApiService.kt:59-61 | a valid request reports `false` exactly when a user lacks a main account or the sender's main balance is below the amount |
| Service.DecideInFootprint | src/main/kotlin/com/aura/service/LocalApiService.kt:53-54 | the accounts a transfer moves money between belong to the directory |
| Service.TransferEffect | src/main/kotlin/com/aura/service/LocalApiService.kt:59-69 | rejected or declined: no balance changes. Settled: the sender's main account is debited and the recipient's credited, the sender's balance ends non-negative, the two balances keep their sum, and no other account changes |
| Service.SharedMainMeansSelfTransfer | src/main/kotlin/com/aura/service/LocalApiService.kt:64-65 | in a singly owned directory, a transfer whose two accounts are one is a user paying themself, and it changes no balance |
| Service.TransferConservesTotal | src/main/kotlin/com/aura/service/LocalApiService.kt:64-65 | in a singly owned directory, no transfer changes the sum of all balances |
| Directory.Settle | src/main/kotlin/com/aura/service/LocalApiService.kt:64-65 | debit then credit: distinct accounts move by the amount in opposite directions, one account stays as it was, the pair's sum is kept, and no other balance changes |
| Directory.SettleConservesTotal | src/main/kotlin/com/aura/service/LocalApiService.kt:64-65 | in a singly owned directory, moving money between two of its accounts keeps the sum of all balances |
| Directory.OwnedOccursOnce | src/main/kotlin/com/aura/service/LocalApiService.kt:18-31 | in a singly owned directory every account is counted once in the sum of balances |
| Service.Move | src/main/kotlin/com/aura/service/LocalApiService.kt:64-65 | the two in-place updates leave exactly the balances `Settle` gives on the old ones |
| Service.LocalApiService.Pay | src/main/kotlin/com/aura/service/LocalApiService.kt:63-69 | the settled branch leaves the old balances with the decision applied, and keeps the total on a valid directory |
| Service.LocalApiService.Transfer | src/main/kotlin/com/aura/service/LocalApiService.kt:43-71 | the outcome is the one the decision on the old state gives; the new balances are the old ones with that decision applied, so nothing changes unless the transfer is settled; a valid directory keeps its total |
| Service.Seed | src/main/kotlin/com/aura/service/LocalApiService.kt:18-31 | the seeded directory reaches exactly its four accounts |
| Service.SeedValid | src/main/kotlin/com/aura/service/LocalApiService.kt:18-31 | the seeded directory has unique identifiers and singly owned accounts |
| Service.SeedSnapshot | src/main/kotlin/com/aura/service/LocalApiService.kt:18-31 | the seeded directory holds the seeded identifiers, passwords, flags and balances |
| Service.LocalApiService.constructor | src/main/kotlin/com/aura/service/LocalApiService.kt:18-31 | a new service holds the seeded directory, which is valid, over newly allocated accounts of its own |
| Service.SeedLookups | src/main/kotlin/com/aura/service/LocalApiService.kt:33-41 | on the seed: login with the right password succeeds, with a wrong one or an unknown identifier fails; account listing for a known and an unknown user |
| Service.SeedRejections | src/main/kotlin/com/aura/service/LocalApiService.kt:44-50 | on the seed: an unknown sender, an unknown recipient (even with a negative amount) and a negative amount each get their own error |
| Service.SeedViewSettles | src/main/kotlin/com/aura/service/LocalApiService.kt:53-65 | any directory holding the seed snapshot settles 100.00 from user 1234's first main account to user 5678's |
| Service.SeedTransfer | src/main/kotlin/com/aura/service/LocalApiService.kt:43-71 | a client seeds a new service and transfers 100.00 from 1234 to 5678: success, leaving balances of 2254.23 and 10132.21 |
| Service.SeedSettlements | src/main/kotlin/com/aura/service/LocalApiService.kt:53-65 | on the seed: one cent beyond the sender's balance is declined, the whole balance is settled, and a user paying themself is settled on one account |

## Left out

- `src/main/kotlin/com/aura/Main.kt` is not part of this model. It holds the server startup,
  CORS, JSON negotiation, routing and documentation serving, all of it transport code.
- The `println` traces in `transfer` (lines 46, 48, 56, 67) are output only and are not
  modelled.
- Balances and amounts are integers counting cents, not IEEE doubles. Rounding, NaN and
  infinities are out of scope, so the funds check and conservation are exact.
- Concurrency is not modelled. Each call is atomic; the unsynchronised in-place update
  could race under a concurrent server.
- The `ApiService` interface and the `ApiRepository` indirection are not part of this
  model. The source files of the `User` and `Account` classes are not part of it either.
  Their shapes in `Model` are inferred from the constructor calls and field uses in
  `LocalApiService.kt`.
- The users' first and last names are not modelled, because no operation reads them.
- `login`, `accounts` and `getUserById` are functions of the service's user list, which
  never changes, rather than members of the class. `Decide` is the transfer's checks
  written as one expression, and `Transfer` evaluates it before carrying out its
  decision. As in the source, the checks read balances only before the first write. The
  debit and the credit then happen one after the other, as in `Settle`.
- Service.LocalApiService.Transfer: the sum of all balances is promised only for a valid
  directory (unique identifiers, singly owned accounts). With an account shared between
  users, the total counts that account twice, so a transfer could change it.
