/** The in-memory banking service: login, account listing and transfers between the
    users' main accounts, over the fixed directory it is seeded with. */
module Service {
  import opened Lists
  import opened Model
  import opened Directory

  const SenderNotFound := "The sender cannot be found"
  const RecipientNotFound := "The recipient cannot be found"
  const NegativeAmount := "The amount to send cannot be negative"

  // ---------------------------------------------------------------------------
  // Lookups: getUserById, login, accounts
  // ---------------------------------------------------------------------------

  /** The first user whose identifier is `id`, or None when there is none. */
  function GetUserById(users: seq<User>, id: string): (r: Option<User>)
    ensures r.None? <==> !Known(users, id)
    ensures r.Some? ==> exists i :: FirstUserAt(users, id, i) && users[i] == r.value
  {
    FirstOrNull(users, (u: User) => u.id == id)
  }

  /** The user found is the first one with the identifier, whatever follows it. */
  lemma GetUserByIdFirst(users: seq<User>, id: string, i: int)
    requires FirstUserAt(users, id, i)
    ensures GetUserById(users, id) == Some(users[i])
  {
    var j :| FirstUserAt(users, id, j) && users[j] == GetUserById(users, id).value;
    FirstUserAtUnique(users, id, i, j);
  }

  /** With unique identifiers, the user found is the one with that identifier. */
  lemma GetUserByIdUnique(users: seq<User>, i: int)
    requires UniqueIds(users) && 0 <= i < |users|
    ensures GetUserById(users, users[i].id) == Some(users[i])
  {
    assert FirstUserAt(users, users[i].id, i);
  }

  /** Login succeeds exactly when the first user with the given identifier has the
      given password; an unknown identifier is a plain failure. */
  function Login(users: seq<User>, c: Credentials): (r: CredentialsResult)
    ensures r.success <==> exists i :: FirstUserAt(users, c.id, i) && users[i].password == c.password
    ensures !Known(users, c.id) ==> !r.success
  {
    var user := GetUserById(users, c.id);
    CredentialsResult(user.Some? && user.value.password == c.password)
  }

  /** With unique identifiers, login succeeds exactly when some user has both the given
      identifier and the given password. */
  lemma LoginWithUniqueIds(users: seq<User>, c: Credentials)
    requires UniqueIds(users)
    ensures Login(users, c).success <==>
      exists i :: 0 <= i < |users| && users[i].id == c.id && users[i].password == c.password
  {
    if i :| 0 <= i < |users| && users[i].id == c.id && users[i].password == c.password {
      assert FirstUserAt(users, c.id, i);
    }
  }

  /** The accounts of the first user with identifier `id`, the same objects in the
      stored order, or the empty list for an unknown identifier. */
  function Accounts(users: seq<User>, id: string): (r: seq<Account>)
    ensures !Known(users, id) ==> r == []
    ensures forall i :: FirstUserAt(users, id, i) ==> r == users[i].accounts
  {
    var user := GetUserById(users, id);
    if user.Some? then user.value.accounts else []
  }

  /** The first account flagged main, or None when the user has none. */
  function MainAccount(accounts: seq<Account>): (r: Option<Account>)
    ensures r.None? <==> forall k :: 0 <= k < |accounts| ==> !accounts[k].main
    ensures r.Some? ==> exists k :: FirstMainAt(accounts, k) && accounts[k] == r.value
  {
    FirstOrNull(accounts, (a: Account) => a.main)
  }

  /** The main account found is the first one flagged main, whatever follows it. */
  lemma MainAccountFirst(accounts: seq<Account>, k: int)
    requires FirstMainAt(accounts, k)
    ensures MainAccount(accounts) == Some(accounts[k])
  {
    var j :| FirstMainAt(accounts, j) && accounts[j] == MainAccount(accounts).value;
    FirstMainAtUnique(accounts, k, j);
  }

  // ---------------------------------------------------------------------------
  // Transfer: the decision, its outcome and its effect on the balances
  // ---------------------------------------------------------------------------

  /** How a transfer request is settled: rejected with the message of the thrown
      exception, declined with no change, or money moved from one account to another. */
  datatype Plan = Rejected(message: string) | Declined | Settled(from: Account, to: Account)

  /** The decision the transfer operation takes on the current state: the three
      argument checks in order, then the first main account of each user, then the
      funds check. Its properties are the lemmas below. */
  function Decide(users: seq<User>, t: Transfer): (p: Plan)
    reads Footprint(users)
    ensures p.Rejected? ==>
      p.message == SenderNotFound || p.message == RecipientNotFound || p.message == NegativeAmount
    ensures !p.Rejected? ==> Known(users, t.senderId) && Known(users, t.recipientId) && 0 <= t.amount
  {
    var sender := GetUserById(users, t.senderId);
    if sender.None? then Rejected(SenderNotFound)
    else
      var recipient := GetUserById(users, t.recipientId);
      if recipient.None? then Rejected(RecipientNotFound)
      else if t.amount < 0 then Rejected(NegativeAmount)
      else
        var from := MainAccount(sender.value.accounts);
        var to := MainAccount(recipient.value.accounts);
        if from.None? || to.None? || from.value.balance - t.amount < 0 then Declined
        else Settled(from.value, to.value)
  }

  /** The result the caller sees for a plan. */
  function Outcome(p: Plan): (r: TransferOutcome)
    ensures r.InvalidArgument? <==> p.Rejected?
    ensures r.InvalidArgument? ==> r.message == p.message
    ensures r.Ok? ==> (r.result.success <==> p.Settled?)
  {
    match p
    case Rejected(message) => InvalidArgument(message)
    case Declined => Ok(TransferResult(false))
    case Settled(_, _) => Ok(TransferResult(true))
  }

  /** The balances once a plan is carried out: only a settled plan moves money. */
  function Apply(bal: map<Account, int>, p: Plan, amount: int): (r: map<Account, int>)
    ensures r.Keys == bal.Keys
    ensures !p.Settled? ==> r == bal
    ensures p.Settled? && p.from in bal && p.to in bal ==>
      r[p.from] + r[p.to] == bal[p.from] + bal[p.to] &&
      forall a :: a in bal && a != p.from && a != p.to ==> r[a] == bal[a]
  {
    if p.Settled? && p.from in bal && p.to in bal then Settle(bal, p.from, p.to, amount) else bal
  }

  /** The argument errors, each raised exactly when the earlier checks pass and its own fails. */
  lemma DecideRejects(users: seq<User>, t: Transfer)
    ensures Decide(users, t) == Rejected(SenderNotFound) <==> !Known(users, t.senderId)
    ensures Decide(users, t) == Rejected(RecipientNotFound) <==>
      Known(users, t.senderId) && !Known(users, t.recipientId)
    ensures Decide(users, t) == Rejected(NegativeAmount) <==>
      Known(users, t.senderId) && Known(users, t.recipientId) && t.amount < 0
  {
  }

  /** A transfer that goes ahead moves money between the first main accounts of the two
      users, for a non-negative amount the sender's main account covers. */
  lemma DecideSettles(users: seq<User>, t: Transfer)
    requires Decide(users, t).Settled?
    ensures MainOf(users, t.senderId, Decide(users, t).from)
    ensures MainOf(users, t.recipientId, Decide(users, t).to)
    ensures 0 <= t.amount <= Decide(users, t).from.balance
  {
    MainLookup(users, t.senderId);
    MainLookup(users, t.recipientId);
  }

  /** The main account found through a user's lookup is the one MainOf describes, and
      the only one. */
  lemma MainLookup(users: seq<User>, id: string)
    requires GetUserById(users, id).Some?
    ensures var m := MainAccount(GetUserById(users, id).value.accounts);
      && (m.Some? ==> MainOf(users, id, m.value))
      && forall a :: MainOf(users, id, a) ==> m == Some(a)
  {
    var user := GetUserById(users, id).value;
    var m := MainAccount(user.accounts);
    var i :| FirstUserAt(users, id, i) && users[i] == user;
    if m.Some? {
      var k :| FirstMainAt(user.accounts, k) && user.accounts[k] == m.value;
      assert FirstUserAt(users, id, i) && FirstMainAt(users[i].accounts, k);
    }
    forall a | MainOf(users, id, a)
      ensures m == Some(a)
    {
      var i', k :| FirstUserAt(users, id, i') && FirstMainAt(users[i'].accounts, k) && users[i'].accounts[k] == a;
      FirstUserAtUnique(users, id, i, i');
      if m.Some? {
        var k' :| FirstMainAt(user.accounts, k') && user.accounts[k'] == m.value;
        FirstMainAtUnique(user.accounts, k, k');
      }
    }
  }

  /** A valid request is declined exactly when a user has no main account or the
      sender's main account does not cover the amount. */
  lemma DecideDeclines(users: seq<User>, t: Transfer)
    ensures Decide(users, t) == Declined <==>
      Known(users, t.senderId) && Known(users, t.recipientId) && 0 <= t.amount &&
      forall a, b :: MainOf(users, t.senderId, a) && MainOf(users, t.recipientId, b) ==> a.balance < t.amount
  {
    if Known(users, t.senderId) && Known(users, t.recipientId) {
      MainLookup(users, t.senderId);
      MainLookup(users, t.recipientId);
    }
  }

  /** The plan only ever names accounts of the directory. */
  lemma DecideInFootprint(users: seq<User>, t: Transfer)
    ensures Decide(users, t).Settled? ==>
      Decide(users, t).from in Footprint(users) && Decide(users, t).to in Footprint(users)
  {
    if Decide(users, t).Settled? {
      DecideSettles(users, t);
      MainOfInFootprint(users, t.senderId, Decide(users, t).from);
      MainOfInFootprint(users, t.recipientId, Decide(users, t).to);
    }
  }

  /** A rejected or declined transfer changes no balance. A settled one debits the
      sender's main account and credits the recipient's, leaves the sender's main
      account not overdrawn, keeps the sum of the two touched balances, and changes no
      other account. */
  lemma TransferEffect(users: seq<User>, t: Transfer)
    ensures var p := Decide(users, t);
      !p.Settled? ==> Apply(Balances(users), p, t.amount) == Balances(users)
    ensures var p := Decide(users, t);
      var after := Apply(Balances(users), p, t.amount);
      p.Settled? ==>
        && (p.from != p.to ==> after[p.from] == p.from.balance - t.amount && after[p.to] == p.to.balance + t.amount)
        && after[p.from] >= 0
        && after[p.from] + after[p.to] == p.from.balance + p.to.balance
        && forall a :: a in Footprint(users) && a != p.from && a != p.to ==> after[a] == a.balance
  {
    if Decide(users, t).Settled? {
      DecideSettles(users, t);
      DecideInFootprint(users, t);
    }
  }

  /** When every account has one owner, sender and recipient share a main account only
      in a transfer a user makes to themself, which leaves every balance as it was. */
  lemma SharedMainMeansSelfTransfer(users: seq<User>, t: Transfer)
    requires Owned(users)
    requires Decide(users, t).Settled? && Decide(users, t).from == Decide(users, t).to
    ensures t.senderId == t.recipientId
    ensures Apply(Balances(users), Decide(users, t), t.amount) == Balances(users)
  {
    DecideSettles(users, t);
    DecideInFootprint(users, t);
    OwnedMainsDiffer(users, t.senderId, t.recipientId, Decide(users, t).from);
  }

  /** When every account has one owner, no transfer changes the sum of all balances. */
  lemma TransferConservesTotal(users: seq<User>, t: Transfer)
    requires Owned(users)
    ensures TotalIn(users, Apply(Balances(users), Decide(users, t), t.amount)) == TotalBalance(users)
  {
    var p := Decide(users, t);
    DecideInFootprint(users, t);
    if p.Settled? {
      SettleConservesTotal(users, Balances(users), p.from, p.to, t.amount);
    }
  }

  /** Once every account holds the balance a map gives it, that map is the directory's
      balances. */
  lemma SettledBalances(users: seq<User>, bal: map<Account, int>)
    requires bal.Keys == Footprint(users)
    requires forall a :: a in Footprint(users) ==> a.balance == bal[a]
    ensures Balances(users) == bal
  {
  }

  /** The seeded directory answers logins with the right password, a wrong one and an
      unknown identifier, and lists a known and an unknown user's accounts. */
  lemma SeedLookups(users: seq<User>, a1: Account, a2: Account, a3: Account, a4: Account)
    requires users == Seed(a1, a2, a3, a4)
    ensures Login(users, Credentials("1234", "p@sswOrd")).success
    ensures !Login(users, Credentials("1234", "T0pSecr3t")).success
    ensures !Login(users, Credentials("0000", "p@sswOrd")).success
    ensures Accounts(users, "5678") == [a3, a4] && Accounts(users, "0000") == []
  {
    assert !Known(users, "0000");
    GetUserByIdFirst(users, "1234", 0);
    GetUserByIdFirst(users, "5678", 1);
  }

  /** The seeded directory rejects a transfer for each argument error, in order. */
  lemma SeedRejections(users: seq<User>, a1: Account, a2: Account, a3: Account, a4: Account)
    requires users == Seed(a1, a2, a3, a4)
    ensures Decide(users, Transfer("0000", "5678", 100)) == Rejected(SenderNotFound)
    ensures Decide(users, Transfer("1234", "0000", -1)) == Rejected(RecipientNotFound)
    ensures Decide(users, Transfer("1234", "5678", -1)) == Rejected(NegativeAmount)
  {
    assert !Known(users, "0000");
    GetUserByIdFirst(users, "1234", 0);
    GetUserByIdFirst(users, "5678", 1);
  }

  /** The seeded directory declines a debit one cent beyond the sender's balance, settles
      one of the whole balance, and settles a user paying themself on the one account. */
  lemma SeedSettlements(users: seq<User>, a1: Account, a2: Account, a3: Account, a4: Account)
    requires users == Seed(a1, a2, a3, a4)
    requires a1.main && !a2.main && !a3.main && a4.main
    requires a1.balance == 235423 && a4.balance == 1003221
    ensures Decide(users, Transfer("1234", "5678", 235424)) == Declined
    ensures Decide(users, Transfer("1234", "5678", 235423)) == Settled(a1, a4)
    ensures Decide(users, Transfer("5678", "5678", 100)) == Settled(a4, a4)
  {
    GetUserByIdFirst(users, "1234", 0);
    GetUserByIdFirst(users, "5678", 1);
    MainAccountFirst(users[0].accounts, 0);
    MainAccountFirst(users[1].accounts, 1);
  }

  // ---------------------------------------------------------------------------
  // The service object
  // ---------------------------------------------------------------------------

  /** Debits one account and credits another, in that order, so that a transfer from
      an account to itself leaves its balance as it was. */
  method Move(ghost users: seq<User>, debit: Account, credit: Account, amount: int)
    requires debit in Footprint(users) && credit in Footprint(users)
    modifies debit, credit
    ensures Balances(users) == Settle(old(Balances(users)), debit, credit, amount)
  {
    ghost var before := Balances(users);
    ghost var after := Settle(before, debit, credit, amount);
    debit.balance := debit.balance - amount;
    credit.balance := credit.balance + amount;
    forall a | a in Footprint(users)
      ensures a.balance == after[a]
    {
      if a != debit && a != credit {
        assert a.balance == old(a.balance);
      }
    }
    SettledBalances(users, after);
  }

  // ---------------------------------------------------------------------------
  // The seeded directory
  // ---------------------------------------------------------------------------

  /** The two seeded users over four accounts: the first user owns the first two, the
      second the last two. */
  function Seed(a1: Account, a2: Account, a3: Account, a4: Account): (users: seq<User>)
    ensures Footprint(users) == {a1, a2, a3, a4}
  {
    [User("1234", "p@sswOrd", [a1, a2]), User("5678", "T0pSecr3t", [a3, a4])]
  }

  /** Over four distinct accounts, the seeded directory has unique identifiers and
      singly owned accounts. */
  lemma SeedValid(a1: Account, a2: Account, a3: Account, a4: Account)
    requires a1 != a2 && a1 != a3 && a1 != a4 && a2 != a3 && a2 != a4 && a3 != a4
    ensures UniqueIds(Seed(a1, a2, a3, a4)) && Owned(Seed(a1, a2, a3, a4))
  {
    var users := Seed(a1, a2, a3, a4);
    forall i, j, k, l |
      0 <= i < |users| && 0 <= j < |users| && 0 <= k < |users[i].accounts| && 0 <= l < |users[j].accounts| &&
      users[i].accounts[k] == users[j].accounts[l]
      ensures i == j && k == l
    {
      assert users[i].accounts[k] == if i == 0 then (if k == 0 then a1 else a2) else (if k == 0 then a3 else a4);
      assert users[j].accounts[l] == if j == 0 then (if l == 0 then a1 else a2) else (if l == 0 then a3 else a4);
    }
  }

  /** With the seeded identifiers, flags and balances, the seeded directory holds the
      seed snapshot. */
  lemma SeedSnapshot(a1: Account, a2: Account, a3: Account, a4: Account)
    requires a1.id == "1" && a1.main && a1.balance == 235423
    requires a2.id == "2" && !a2.main && a2.balance == 23522
    requires a3.id == "3" && !a3.main && a3.balance == 2453
    requires a4.id == "4" && a4.main && a4.balance == 1003221
    ensures View(Seed(a1, a2, a3, a4)) == SeedView
  {
    assert AccountsView([a1, a2]) == SeedView[0].accounts;
    assert AccountsView([a3, a4]) == SeedView[1].accounts;
  }

  /** A directory holding the seed snapshot settles a transfer of 100.00 from the first
      seeded user to the second between their main accounts. */
  lemma SeedViewSettles(users: seq<User>)
    requires View(users) == SeedView
    ensures |users| == 2 && |users[0].accounts| == 2 && |users[1].accounts| == 2
    ensures Decide(users, Transfer("1234", "5678", 10000)) == Settled(users[0].accounts[0], users[1].accounts[1])
  {
    assert View(users)[0] == SeedView[0] && View(users)[1] == SeedView[1];
    assert AccountsView(users[0].accounts)[0] == SeedView[0].accounts[0];
    assert AccountsView(users[1].accounts)[0] == SeedView[1].accounts[0];
    assert AccountsView(users[1].accounts)[1] == SeedView[1].accounts[1];
    GetUserByIdFirst(users, "1234", 0);
    GetUserByIdFirst(users, "5678", 1);
    MainAccountFirst(users[0].accounts, 0);
    MainAccountFirst(users[1].accounts, 1);
  }

  class LocalApiService {
    const users: seq<User>

    /** The seeded directory has unique identifiers and singly owned accounts. */
    ghost predicate Valid() {
      UniqueIds(users) && Owned(users)
    }

    /** Seeds the fixed directory. */
    constructor ()
      ensures Valid() && fresh(Footprint(users))
      ensures View(users) == SeedView
    {
      var a1 := new Account("1", true, 235423);
      var a2 := new Account("2", false, 23522);
      var a3 := new Account("3", false, 2453);
      var a4 := new Account("4", true, 1003221);
      users := Seed(a1, a2, a3, a4);
      new;
      forall a | a in Footprint(users)
        ensures fresh(a)
      {
        assert a in {a1, a2, a3, a4};
      }
      SeedValid(a1, a2, a3, a4);
      SeedSnapshot(a1, a2, a3, a4);
    }

    /** Carries out a transfer in place and reports it: the outcome is the one the
        decision on the old state gives, and the new balances are the old ones with that
        decision applied. */
    method Transfer(t: Transfer) returns (r: TransferOutcome)
      modifies Footprint(users)
      ensures r == Outcome(old(Decide(users, t)))
      ensures Balances(users) == Apply(old(Balances(users)), old(Decide(users, t)), t.amount)
      ensures Valid() ==> TotalBalance(users) == old(TotalBalance(users))
    {
      var p := Decide(users, t);
      match p
      case Rejected(message) =>
        return InvalidArgument(message);
      case Declined =>
        return Ok(TransferResult(false));
      case Settled(debit, credit) =>
        DecideInFootprint(users, t);
        Pay(t, debit, credit);
        return Ok(TransferResult(true));
    }

    /** The settled branch of a transfer: moves the amount between the two accounts the
        decision names, which changes no other balance and, over a valid directory, not
        the total either. */
    method Pay(t: Transfer, debit: Account, credit: Account)
      requires Decide(users, t) == Settled(debit, credit)
      modifies debit, credit
      ensures Balances(users) == Apply(old(Balances(users)), old(Decide(users, t)), t.amount)
      ensures Valid() ==> TotalBalance(users) == old(TotalBalance(users))
    {
      DecideInFootprint(users, t);
      if Valid() {
        TransferConservesTotal(users, t);
      }
      Move(users, debit, credit, t.amount);
    }
  }

  /** A client of the service: seeds a new service and transfers 100.00 from user 1234 to
      user 5678, which succeeds and moves the amount between their main accounts. */
  method SeedTransfer() returns (r: TransferOutcome, sender: int, recipient: int)
    ensures r == Ok(TransferResult(true))
    ensures sender == 235423 - 10000 && recipient == 1003221 + 10000
  {
    var service := new LocalApiService();
    var users := service.users;
    SeedViewSettles(users);
    ghost var debit, credit := users[0].accounts[0], users[1].accounts[1];
    assert debit != credit by {
      assert Owned(users);
    }
    assert debit.balance == 235423 && credit.balance == 1003221 by {
      assert View(users)[0].accounts[0] == SeedView[0].accounts[0];
      assert View(users)[1].accounts[1] == SeedView[1].accounts[1];
    }
    DecideInFootprint(users, Transfer("1234", "5678", 10000));
    ghost var after := Settle(Balances(users), debit, credit, 10000);
    assert after[debit] == 235423 - 10000 && after[credit] == 1003221 + 10000;
    r := service.Transfer(Transfer("1234", "5678", 10000));
    assert Balances(users) == after;
    sender := users[0].accounts[0].balance;
    recipient := users[1].accounts[1].balance;
  }
}
