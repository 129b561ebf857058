/** The user directory: an ordered list of users, each holding references to the
    accounts the user owns. What it means to find something in it, the invariants a
    well-formed directory keeps, and its balances seen as a map from account to amount. */
module Directory {
  import opened Model

  // ---------------------------------------------------------------------------
  // Finding users and main accounts
  // ---------------------------------------------------------------------------

  /** Some user of the directory has identifier `id`. */
  predicate Known(users: seq<User>, id: string) {
    exists i :: 0 <= i < |users| && users[i].id == id
  }

  /** `users[i]` is the first user whose identifier is `id`. */
  predicate FirstUserAt(users: seq<User>, id: string, i: int) {
    0 <= i < |users| && users[i].id == id && forall j :: 0 <= j < i ==> users[j].id != id
  }

  /** `accounts[k]` is the first account flagged main. */
  predicate FirstMainAt(accounts: seq<Account>, k: int) {
    0 <= k < |accounts| && accounts[k].main && forall j :: 0 <= j < k ==> !accounts[j].main
  }

  /** `a` is the account a transfer uses for user `id`: the first main account of the
      first user with that identifier. */
  ghost predicate MainOf(users: seq<User>, id: string, a: Account) {
    exists i, k :: FirstUserAt(users, id, i) && FirstMainAt(users[i].accounts, k) && users[i].accounts[k] == a
  }

  /** There is only one first user with a given identifier. */
  lemma FirstUserAtUnique(users: seq<User>, id: string, i: int, i': int)
    requires FirstUserAt(users, id, i) && FirstUserAt(users, id, i')
    ensures i == i'
  {
  }

  /** There is only one first main account. */
  lemma FirstMainAtUnique(accounts: seq<Account>, k: int, k': int)
    requires FirstMainAt(accounts, k) && FirstMainAt(accounts, k')
    ensures k == k'
  {
  }

  /** The account a transfer uses for a user is unique. */
  lemma MainOfUnique(users: seq<User>, id: string, a: Account, b: Account)
    requires MainOf(users, id, a) && MainOf(users, id, b)
    ensures a == b
  {
    var i, k :| FirstUserAt(users, id, i) && FirstMainAt(users[i].accounts, k) && users[i].accounts[k] == a;
    var i', k' :| FirstUserAt(users, id, i') && FirstMainAt(users[i'].accounts, k') && users[i'].accounts[k'] == b;
    FirstUserAtUnique(users, id, i, i');
    FirstMainAtUnique(users[i].accounts, k, k');
  }

  // ---------------------------------------------------------------------------
  // Invariants of the seeded directory
  // ---------------------------------------------------------------------------

  /** No two users share an identifier. */
  ghost predicate UniqueIds(users: seq<User>) {
    forall i, j :: 0 <= i < j < |users| ==> users[i].id != users[j].id
  }

  /** Every account belongs to exactly one user and appears once in that user's list. */
  ghost predicate Owned(users: seq<User>) {
    forall i, j, k, l ::
      (0 <= i < |users| && 0 <= j < |users| && 0 <= k < |users[i].accounts| && 0 <= l < |users[j].accounts| &&
       users[i].accounts[k] == users[j].accounts[l]) ==> i == j && k == l
  }

  /** All accounts the directory reaches. */
  function Footprint(users: seq<User>): (r: set<Account>)
    ensures forall i, a :: 0 <= i < |users| && a in users[i].accounts ==> a in r
    ensures forall a :: a in r ==> exists i :: 0 <= i < |users| && a in users[i].accounts
  {
    if users == [] then {}
    else
      var rest := Footprint(users[1..]);
      assert forall i :: 1 <= i < |users| ==> users[i] == users[1..][i - 1];
      (set a | a in users[0].accounts) + rest
  }

  lemma MainOfInFootprint(users: seq<User>, id: string, a: Account)
    requires MainOf(users, id, a)
    ensures a in Footprint(users)
  {
  }

  /** When every account has one owner, two users share a main account only when they
      are the same user. */
  lemma OwnedMainsDiffer(users: seq<User>, id: string, id': string, a: Account)
    requires Owned(users) && MainOf(users, id, a) && MainOf(users, id', a)
    ensures id == id'
  {
    var i, k :| FirstUserAt(users, id, i) && FirstMainAt(users[i].accounts, k) && users[i].accounts[k] == a;
    var j, l :| FirstUserAt(users, id', j) && FirstMainAt(users[j].accounts, l) && users[j].accounts[l] == a;
    assert i == j;
  }

  // ---------------------------------------------------------------------------
  // Snapshots of the directory
  // ---------------------------------------------------------------------------

  /** The directory's current contents as values: each user's identifier, password and
      accounts, in order. */
  function View(users: seq<User>): (v: seq<UserView>)
    reads Footprint(users)
    ensures |v| == |users|
    ensures forall i :: 0 <= i < |users| ==>
      v[i] == UserView(users[i].id, users[i].password, AccountsView(users[i].accounts))
  {
    if users == [] then []
    else [UserView(users[0].id, users[0].password, AccountsView(users[0].accounts))] + View(users[1..])
  }

  /** A list of accounts as values: identifier, main flag and balance, in order. */
  function AccountsView(accounts: seq<Account>): (v: seq<AccountView>)
    reads set a | a in accounts
    ensures |v| == |accounts|
    ensures forall k :: 0 <= k < |accounts| ==>
      v[k] == AccountView(accounts[k].id, accounts[k].main, accounts[k].balance)
  {
    if accounts == [] then []
    else [AccountView(accounts[0].id, accounts[0].main, accounts[0].balance)] + AccountsView(accounts[1..])
  }

  /** The directory the service is seeded with (amounts in cents). */
  const SeedView := [
    UserView("1234", "p@sswOrd", [AccountView("1", true, 235423), AccountView("2", false, 23522)]),
    UserView("5678", "T0pSecr3t", [AccountView("3", false, 2453), AccountView("4", true, 1003221)])
  ]

  /** The current balance of every account of the directory. */
  function Balances(users: seq<User>): (m: map<Account, int>)
    reads Footprint(users)
    ensures m.Keys == Footprint(users)
  {
    map a | a in Footprint(users) :: a.balance
  }

  // ---------------------------------------------------------------------------
  // Moving money, and the totals it keeps
  // ---------------------------------------------------------------------------

  /** The balances after `amount` is debited from `from` and then credited to `to`, one
      update after the other, so that when both are the same account the credit sees the
      debited balance. */
  function Settle(bal: map<Account, int>, from: Account, to: Account, amount: int): (r: map<Account, int>)
    requires from in bal && to in bal
    ensures r.Keys == bal.Keys
    ensures from != to ==> r[from] == bal[from] - amount && r[to] == bal[to] + amount
    ensures from == to ==> r == bal
    ensures r[from] + r[to] == bal[from] + bal[to]
    ensures forall a :: a in bal && a != from && a != to ==> r[a] == bal[a]
  {
    var debited := bal[from := bal[from] - amount];
    debited[to := debited[to] + amount]
  }

  /** The sum, over the list `accounts`, of the balances `bal` gives them. */
  function SumIn(accounts: seq<Account>, bal: map<Account, int>): int {
    if accounts == [] then 0
    else (if accounts[0] in bal then bal[accounts[0]] else 0) + SumIn(accounts[1..], bal)
  }

  /** The sum, over all accounts of the directory, of the balances `bal` gives them. */
  function TotalIn(users: seq<User>, bal: map<Account, int>): int {
    if users == [] then 0 else SumIn(users[0].accounts, bal) + TotalIn(users[1..], bal)
  }

  /** The sum of all balances in the directory. */
  function TotalBalance(users: seq<User>): int
    reads Footprint(users)
  {
    TotalIn(users, Balances(users))
  }

  /** How many times `a` occurs in `accounts`. */
  function Count(accounts: seq<Account>, a: Account): nat {
    if accounts == [] then 0 else (if accounts[0] == a then 1 else 0) + Count(accounts[1..], a)
  }

  /** How many times `a` occurs among the directory's accounts. */
  function Occurrences(users: seq<User>, a: Account): nat {
    if users == [] then 0 else Count(users[0].accounts, a) + Occurrences(users[1..], a)
  }

  /** What moving `amount` from `from` to `to` adds to the balance of `a`. */
  function Delta(from: Account, to: Account, amount: int, a: Account): int {
    (if a == to then amount else 0) - (if a == from then amount else 0)
  }

  /** What the moved amount adds to a sum in which the credited account occurs
      `toCount` times and the debited one `fromCount` times, each at most once. */
  function Net(amount: int, toCount: nat, fromCount: nat): int
    requires toCount <= 1 && fromCount <= 1
  {
    (if toCount == 1 then amount else 0) - (if fromCount == 1 then amount else 0)
  }

  /** Shifting each balance of a list by Delta shifts their sum by the amount when the
      credited account is in the list, less the amount when the debited one is, provided
      neither occurs twice. */
  lemma {:induction false} SumInShift(accounts: seq<Account>, from: Account, to: Account, amount: int,
                                      bal: map<Account, int>, bal': map<Account, int>)
    requires forall a :: a in accounts ==> a in bal && a in bal' && bal'[a] == bal[a] + Delta(from, to, amount, a)
    requires Count(accounts, to) <= 1 && Count(accounts, from) <= 1
    ensures SumIn(accounts, bal') == SumIn(accounts, bal) + Net(amount, Count(accounts, to), Count(accounts, from))
  {
    if accounts != [] {
      SumInShift(accounts[1..], from, to, amount, bal, bal');
    }
  }

  /** The same over the whole directory. */
  lemma {:induction false} TotalInShift(users: seq<User>, from: Account, to: Account, amount: int,
                                        bal: map<Account, int>, bal': map<Account, int>)
    requires forall a :: a in Footprint(users) ==> a in bal && a in bal' && bal'[a] == bal[a] + Delta(from, to, amount, a)
    requires Occurrences(users, to) <= 1 && Occurrences(users, from) <= 1
    ensures TotalIn(users, bal') == TotalIn(users, bal) + Net(amount, Occurrences(users, to), Occurrences(users, from))
  {
    if users != [] {
      assert Footprint(users) == (set a | a in users[0].accounts) + Footprint(users[1..]);
      SumInShift(users[0].accounts, from, to, amount, bal, bal');
      TotalInShift(users[1..], from, to, amount, bal, bal');
    }
  }

  /** An account that occurs once in a list with no repeats is counted once. */
  lemma {:induction false} CountDistinct(accounts: seq<Account>, k: int)
    requires 0 <= k < |accounts|
    requires forall x, y :: 0 <= x < y < |accounts| ==> accounts[x] != accounts[y]
    ensures Count(accounts, accounts[k]) == 1
  {
    if k == 0 {
      CountAbsent(accounts[1..], accounts[0]);
    } else {
      CountDistinct(accounts[1..], k - 1);
    }
  }

  lemma {:induction false} CountAbsent(accounts: seq<Account>, a: Account)
    requires a !in accounts
    ensures Count(accounts, a) == 0
  {
    if accounts != [] {
      CountAbsent(accounts[1..], a);
    }
  }

  lemma {:induction false} OccurrencesAbsent(users: seq<User>, a: Account)
    requires a !in Footprint(users)
    ensures Occurrences(users, a) == 0
  {
    if users != [] {
      CountAbsent(users[0].accounts, a);
      OccurrencesAbsent(users[1..], a);
    }
  }

  /** Single ownership, split into the first user and the rest: the first user's list has
      no repeats, shares no account with the others, and the others are singly owned. */
  lemma OwnedSplit(users: seq<User>)
    requires Owned(users) && users != []
    ensures forall x, y :: 0 <= x < y < |users[0].accounts| ==> users[0].accounts[x] != users[0].accounts[y]
    ensures forall a :: a in users[0].accounts ==> a !in Footprint(users[1..])
    ensures Owned(users[1..])
  {
    var rest := users[1..];
    forall a | a in users[0].accounts
      ensures a !in Footprint(rest)
    {
      var k :| 0 <= k < |users[0].accounts| && users[0].accounts[k] == a;
      forall j, l | 0 <= j < |rest| && 0 <= l < |rest[j].accounts|
        ensures rest[j].accounts[l] != a
      {
        assert users[j + 1].accounts[l] == rest[j].accounts[l];
      }
    }
    forall i, j, k, l |
      0 <= i < |rest| && 0 <= j < |rest| && 0 <= k < |rest[i].accounts| && 0 <= l < |rest[j].accounts| &&
      rest[i].accounts[k] == rest[j].accounts[l]
      ensures i == j && k == l
    {
      assert users[i + 1].accounts[k] == users[j + 1].accounts[l];
    }
  }

  /** When every account has one owner, each account of the directory occurs in it once. */
  lemma {:induction false} OwnedOccursOnce(users: seq<User>, a: Account)
    requires Owned(users) && a in Footprint(users)
    ensures Occurrences(users, a) == 1
  {
    OwnedSplit(users);
    var i :| 0 <= i < |users| && a in users[i].accounts;
    if i == 0 {
      var k :| 0 <= k < |users[0].accounts| && users[0].accounts[k] == a;
      CountDistinct(users[0].accounts, k);
      OccurrencesAbsent(users[1..], a);
    } else {
      CountAbsent(users[0].accounts, a);
      assert users[1..][i - 1] == users[i];
      OwnedOccursOnce(users[1..], a);
    }
  }

  /** When every account has one owner, moving money between two of the directory's
      accounts leaves the sum of all its balances unchanged. */
  lemma SettleConservesTotal(users: seq<User>, bal: map<Account, int>, from: Account, to: Account, amount: int)
    requires Owned(users) && Footprint(users) <= bal.Keys
    requires from in Footprint(users) && to in Footprint(users)
    ensures TotalIn(users, Settle(bal, from, to, amount)) == TotalIn(users, bal)
  {
    var bal' := Settle(bal, from, to, amount);
    OwnedOccursOnce(users, from);
    OwnedOccursOnce(users, to);
    TotalInShift(users, from, to, amount, bal, bal');
  }
}
