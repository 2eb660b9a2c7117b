/** The SQLite ledger: its four tables, the constraints the schema declares, the
    update_balance_after_transaction trigger, and the CRUD helpers create_user,
    get_account_balance and update_account_balance.

    Each SQL statement is a function from the tables to Ok(new tables) or to
    Err(IntegrityError) when a PRIMARY KEY, UNIQUE or CHECK constraint rejects it. A statement
    that fails changes nothing; a caller's statements become durable only when it commits. */
module Database {
  import opened Wrappers

  datatype UserRow = UserRow(name: string, email: string, phone: string)

  datatype AccountRow = AccountRow(userId: int, accountNumber: string, accountType: string, balance: real)

  /** The transactionType column. */
  datatype TxKind = Deposit | Donation | Loan | TransferOut | TransferIn

  /** A transactions row; its id and transactionDate are not modelled. */
  datatype TxRow = TxRow(accountId: int, amount: real, kind: TxKind)

  datatype LoanRow = LoanRow(userId: int, loanAmount: real, durationMonths: int,
                             monthlyPayment: real, remainingBalance: real)

  /** users and accounts are keyed by their INTEGER PRIMARY KEY; transactions and loans are
      kept in insertion order. userSeq and accountSeq are the AUTOINCREMENT counters. */
  datatype Tables = Tables(users: map<int, UserRow>, accounts: map<int, AccountRow>,
                           transactions: seq<TxRow>, loans: seq<LoanRow>,
                           userSeq: int, accountSeq: int)

  /** sqlite3.IntegrityError: a PRIMARY KEY, UNIQUE or CHECK constraint failed. */
  datatype SqlError = IntegrityError

  /** The tables as initialize_database creates them in a new file. */
  const Empty: Tables := Tables(map[], map[], [], [], 0, 0)

  // ---------------------------------------------------------------------
  // Constraints
  // ---------------------------------------------------------------------

  /** CHECK (balance >= 0) */
  predicate BalanceOk(a: AccountRow) {
    a.balance >= 0.0
  }

  /** The CHECKs on loanAmount, durationMonths, monthlyPayment and remainingBalance. */
  predicate LoanOk(l: LoanRow) {
    l.loanAmount > 0.0 && l.durationMonths in {3, 6, 12}
    && l.monthlyPayment > 0.0 && l.remainingBalance >= 0.0
  }

  predicate EmailTaken(users: map<int, UserRow>, email: string) {
    exists id :: id in users && users[id].email == email
  }

  predicate NumberTaken(accounts: map<int, AccountRow>, number: string) {
    exists id :: id in accounts && accounts[id].accountNumber == number
  }

  /** What the schema guarantees of every committed state: the CHECKs, UNIQUE email,
      UNIQUE accountNumber, and AUTOINCREMENT counters at least every id in use. */
  ghost predicate Valid(t: Tables) {
    (forall id :: id in t.accounts ==> BalanceOk(t.accounts[id]))
    && (forall i :: 0 <= i < |t.loans| ==> LoanOk(t.loans[i]))
    && (forall a, b :: a in t.users && b in t.users && t.users[a].email == t.users[b].email ==> a == b)
    && (forall a, b :: (a in t.accounts && b in t.accounts
          && t.accounts[a].accountNumber == t.accounts[b].accountNumber) ==> a == b)
    && (forall id :: id in t.users ==> id <= t.userSeq)
    && (forall id :: id in t.accounts ==> id <= t.accountSeq)
  }

  lemma EmptyValid()
    ensures Valid(Empty)
  {
  }

  /** Invariants the schema does not enforce but the bot's writes keep: every account
      belongs to an existing user, and no user has two accounts. */
  ghost predicate OneAccountPerUser(t: Tables) {
    (forall id :: id in t.accounts ==> t.accounts[id].userId in t.users)
    && (forall a, b :: (a in t.accounts && b in t.accounts
          && t.accounts[a].userId == t.accounts[b].userId) ==> a == b)
  }

  // ---------------------------------------------------------------------
  // Statements
  // ---------------------------------------------------------------------

  function Credit(a: AccountRow, amount: real): AccountRow {
    a.(balance := a.balance + amount)
  }

  function Max(a: int, b: int): int {
    if a < b then b else a
  }

  /** A new users row under a given id: refused when the id or the email is taken; phone
      is not unique. */
  function InsertUser(t: Tables, id: int, row: UserRow): (r: Result<Tables, SqlError>)
    ensures r.Ok? <==> id !in t.users && !EmailTaken(t.users, row.email)
    ensures r.Ok? ==> r.value == t.(users := t.users[id := row], userSeq := Max(t.userSeq, id))
    ensures r.Ok? && Valid(t) ==> Valid(r.value)
  {
    if id in t.users || EmailTaken(t.users, row.email) then Err(IntegrityError)
    else Ok(t.(users := t.users[id := row], userSeq := Max(t.userSeq, id)))
  }

  /** The id AUTOINCREMENT gives the next users row inserted without one. */
  function NextUserId(t: Tables): int {
    t.userSeq + 1
  }

  /** The id AUTOINCREMENT gives the next accounts row. */
  function NextAccountId(t: Tables): int {
    t.accountSeq + 1
  }

  /** A new accounts row under the next id: refused when its number is taken or its
      balance is negative. The owner need not exist. */
  function InsertAccount(t: Tables, row: AccountRow): (r: Result<Tables, SqlError>)
    requires Valid(t)
    ensures r.Ok? <==> !NumberTaken(t.accounts, row.accountNumber) && BalanceOk(row)
    ensures r.Ok? ==> r.value == t.(accounts := t.accounts[NextAccountId(t) := row],
                                    accountSeq := NextAccountId(t))
    ensures r.Ok? ==> Valid(r.value)
  {
    if NumberTaken(t.accounts, row.accountNumber) || !BalanceOk(row) then Err(IntegrityError)
    else Ok(t.(accounts := t.accounts[NextAccountId(t) := row], accountSeq := NextAccountId(t)))
  }

  /** A new transactions row, followed by the trigger on it, which adds the amount to the
      account whose id is accountId. If that would make the balance negative, the whole
      insert is refused. accountId need not name an account. */
  function InsertTransaction(t: Tables, accountId: int, amount: real, kind: TxKind): (r: Result<Tables, SqlError>)
    ensures r.Err? <==> accountId in t.accounts && t.accounts[accountId].balance + amount < 0.0
    ensures r.Ok? ==> r.value.transactions == t.transactions + [TxRow(accountId, amount, kind)]
    ensures r.Ok? ==> r.value.accounts.Keys == t.accounts.Keys
    ensures r.Ok? ==> forall id :: id in t.accounts && id != accountId ==> r.value.accounts[id] == t.accounts[id]
    ensures r.Ok? && accountId in t.accounts ==> r.value.accounts[accountId] == Credit(t.accounts[accountId], amount)
    ensures r.Ok? && accountId !in t.accounts ==> r.value == t.(transactions := t.transactions + [TxRow(accountId, amount, kind)])
    ensures r.Ok? ==> r.value.users == t.users && r.value.loans == t.loans
                      && r.value.userSeq == t.userSeq && r.value.accountSeq == t.accountSeq
    ensures r.Ok? && Valid(t) ==> Valid(r.value)
  {
    var row := TxRow(accountId, amount, kind);
    if accountId !in t.accounts then
      Ok(t.(transactions := t.transactions + [row]))
    else
      var a := t.accounts[accountId];
      if a.balance + amount < 0.0 then Err(IntegrityError)
      else Ok(t.(transactions := t.transactions + [row], accounts := t.accounts[accountId := Credit(a, amount)]))
  }

  /** Every account owned by the user gains the amount; refused as a whole when one of
      them would go negative. */
  function UpdateBalanceWhereUser(t: Tables, userId: int, amount: real): (r: Result<Tables, SqlError>)
    ensures r.Err? <==> exists id :: id in t.accounts && t.accounts[id].userId == userId
                                    && t.accounts[id].balance + amount < 0.0
    ensures r.Ok? ==> r.value == t.(accounts := r.value.accounts) && r.value.accounts.Keys == t.accounts.Keys
    ensures r.Ok? ==> forall id :: id in t.accounts ==>
      r.value.accounts[id] == if t.accounts[id].userId == userId then Credit(t.accounts[id], amount) else t.accounts[id]
    ensures r.Ok? && Valid(t) ==> Valid(r.value)
  {
    if exists id :: id in t.accounts && t.accounts[id].userId == userId && t.accounts[id].balance + amount < 0.0 then
      Err(IntegrityError)
    else
      Ok(t.(accounts := map id | id in t.accounts ::
        if t.accounts[id].userId == userId then Credit(t.accounts[id], amount) else t.accounts[id]))
  }

  /** The account with this id gains the amount; an unknown id changes nothing. */
  function UpdateBalanceWhereId(t: Tables, accountId: int, amount: real): (r: Result<Tables, SqlError>)
    ensures r.Err? <==> accountId in t.accounts && t.accounts[accountId].balance + amount < 0.0
    ensures r.Ok? && accountId !in t.accounts ==> r.value == t
    ensures r.Ok? && accountId in t.accounts ==>
      r.value == t.(accounts := t.accounts[accountId := Credit(t.accounts[accountId], amount)])
    ensures r.Ok? && Valid(t) ==> Valid(r.value)
  {
    if accountId !in t.accounts then Ok(t)
    else if t.accounts[accountId].balance + amount < 0.0 then Err(IntegrityError)
    else Ok(t.(accounts := t.accounts[accountId := Credit(t.accounts[accountId], amount)]))
  }

  /** A new loans row, refused when it breaks a row check. The borrower need not exist. */
  function InsertLoan(t: Tables, row: LoanRow): (r: Result<Tables, SqlError>)
    ensures r.Ok? <==> LoanOk(row)
    ensures r.Ok? ==> r.value == t.(loans := t.loans + [row])
    ensures r.Ok? && Valid(t) ==> Valid(r.value)
  {
    if LoanOk(row) then Ok(t.(loans := t.loans + [row])) else Err(IntegrityError)
  }

  // ---------------------------------------------------------------------
  // Queries
  // ---------------------------------------------------------------------

  /** The remaining balances of a user's loans added up; 0 for a user with none. */
  function SumRemaining(loans: seq<LoanRow>, userId: int): real {
    if loans == [] then 0.0
    else (if loans[0].userId == userId then loans[0].remainingBalance else 0.0) + SumRemaining(loans[1..], userId)
  }

  /** A new loan row adds its remaining balance to its own user's sum and to no other. */
  lemma {:induction false} SumRemainingAppend(loans: seq<LoanRow>, row: LoanRow, userId: int)
    ensures SumRemaining(loans + [row], userId)
         == SumRemaining(loans, userId) + (if row.userId == userId then row.remainingBalance else 0.0)
  {
    if loans != [] {
      assert (loans + [row])[1..] == loans[1..] + [row];
      SumRemainingAppend(loans[1..], row, userId);
    }
  }

  /** Does the user own an account? */
  predicate HasAccount(t: Tables, userId: int) {
    exists id :: id in t.accounts && t.accounts[id].userId == userId
  }

  /** The id of an account the user owns; with one account per user it is the only one. */
  ghost function AccountIdOf(t: Tables, userId: int): (id: int)
    requires HasAccount(t, userId)
    ensures id in t.accounts && t.accounts[id].userId == userId
    ensures OneAccountPerUser(t) ==> forall a :: a in t.accounts && t.accounts[a].userId == userId ==> a == id
  {
    var id :| id in t.accounts && t.accounts[id].userId == userId; id
  }

  /** The commit that ends a run of statements: their result if none failed, otherwise the
      tables as last committed (the connection is closed without committing). */
  function Commit(work: Result<Tables, SqlError>, committed: Tables): (t: Tables)
    ensures work.Ok? ==> t == work.value
    ensures work.Err? ==> t == committed
  {
    match work
    case Ok(t') => t'
    case Err(_) => committed
  }

  // ---------------------------------------------------------------------
  // The money held in all accounts
  // ---------------------------------------------------------------------

  /** A non-empty set has a member: the witness Pick draws from. */
  lemma NonEmpty(keys: set<int>)
    requires keys != {}
    ensures exists k :: k in keys
  {
    if forall k :: k !in keys {
      assert false;
    }
  }

  ghost function Pick(keys: set<int>): (k: int)
    requires keys != {}
    ensures k in keys
  {
    NonEmpty(keys);
    var k :| k in keys; k
  }

  ghost function SumBalances(m: map<int, AccountRow>, keys: set<int>): real
    requires keys <= m.Keys
    decreases keys
  {
    if keys == {} then 0.0
    else var k := Pick(keys); m[k].balance + SumBalances(m, keys - {k})
  }

  /** The sum of the balances of all accounts. */
  ghost function Total(m: map<int, AccountRow>): real {
    SumBalances(m, m.Keys)
  }

  /** The sum may be split at any key, not only the one it picks. */
  lemma {:induction false} SumBalancesRemove(m: map<int, AccountRow>, keys: set<int>, k: int)
    requires keys <= m.Keys && k in keys
    ensures SumBalances(m, keys) == m[k].balance + SumBalances(m, keys - {k})
    decreases keys
  {
    var p := Pick(keys);
    if p != k {
      SumBalancesRemove(m, keys - {p}, k);
      SumBalancesRemove(m, keys - {k}, p);
      assert keys - {p} - {k} == keys - {k} - {p};
    }
  }

  /** Two maps whose balances agree on keys have the same sum over keys. */
  lemma {:induction false} SumBalancesAgree(m1: map<int, AccountRow>, m2: map<int, AccountRow>, keys: set<int>)
    requires keys <= m1.Keys && keys <= m2.Keys
    requires forall id :: id in keys ==> m1[id].balance == m2[id].balance
    ensures SumBalances(m1, keys) == SumBalances(m2, keys)
    decreases keys
  {
    if keys != {} {
      var p := Pick(keys);
      SumBalancesAgree(m1, m2, keys - {p});
    }
  }

  /** Replacing one account changes the total by the change in its balance. */
  lemma TotalUpdate(m: map<int, AccountRow>, k: int, a: AccountRow)
    requires k in m
    ensures Total(m[k := a]) == Total(m) - m[k].balance + a.balance
  {
    var m' := m[k := a];
    assert m'.Keys == m.Keys;
    SumBalancesRemove(m, m.Keys, k);
    SumBalancesRemove(m', m.Keys, k);
    SumBalancesAgree(m, m', m.Keys - {k});
  }

  /** The trigger puts exactly the row's amount into the bank when the row names an
      existing account, and nothing otherwise. */
  lemma InsertTransactionTotal(t: Tables, accountId: int, amount: real, kind: TxKind)
    requires InsertTransaction(t, accountId, amount, kind).Ok?
    ensures Total(InsertTransaction(t, accountId, amount, kind).value.accounts)
         == Total(t.accounts) + (if accountId in t.accounts then amount else 0.0)
  {
    if accountId in t.accounts {
      TotalUpdate(t.accounts, accountId, Credit(t.accounts[accountId], amount));
    }
  }

  /** With at most one account per user, an UPDATE ... WHERE userId changes the total by
      the amount if the user has an account, and not at all otherwise. */
  lemma UpdateBalanceWhereUserTotal(t: Tables, userId: int, amount: real)
    requires OneAccountPerUser(t)
    requires UpdateBalanceWhereUser(t, userId, amount).Ok?
    ensures Total(UpdateBalanceWhereUser(t, userId, amount).value.accounts)
         == Total(t.accounts) + (if HasAccount(t, userId) then amount else 0.0)
  {
    var m' := UpdateBalanceWhereUser(t, userId, amount).value.accounts;
    if HasAccount(t, userId) {
      var a :| a in t.accounts && t.accounts[a].userId == userId;
      assert forall id :: id in t.accounts ==> m'[id] == t.accounts[a := Credit(t.accounts[a], amount)][id];
      assert m' == t.accounts[a := Credit(t.accounts[a], amount)];
      TotalUpdate(t.accounts, a, Credit(t.accounts[a], amount));
    } else {
      assert forall id :: id in t.accounts ==> m'[id] == t.accounts[id];
      assert m' == t.accounts;
    }
  }

  // ---------------------------------------------------------------------
  // The CRUD helpers, each on its own connection
  // ---------------------------------------------------------------------

  /** The database file: what has been committed. */
  class Store {
    var tables: Tables

    /** initialize_database on a new file. */
    constructor ()
      ensures tables == Empty && Valid(tables)
    {
      tables := Empty;
    }

    /** create_user: one users row with an AUTOINCREMENT id and no account; a duplicate
        email is an IntegrityError that is logged, and nothing is written. */
    method CreateUser(name: string, email: string, phone: string)
      requires Valid(tables)
      modifies this
      ensures Valid(tables)
      ensures EmailTaken(old(tables).users, email) ==> tables == old(tables)
      ensures !EmailTaken(old(tables).users, email) ==>
        tables == old(tables).(users := old(tables).users[NextUserId(old(tables)) := UserRow(name, email, phone)],
                               userSeq := NextUserId(old(tables)))
    {
      var r := InsertUser(tables, NextUserId(tables), UserRow(name, email, phone));
      if r.Ok? {
        tables := r.value;  // committed
      }
    }

    /** get_account_balance: the stored balance, or None for an unknown id. */
    method GetAccountBalance(accountId: int) returns (balance: Option<real>)
      ensures balance.Some? <==> accountId in tables.accounts
      ensures balance.Some? ==> balance.value == tables.accounts[accountId].balance
    {
      if accountId in tables.accounts {
        balance := Some(tables.accounts[accountId].balance);
      } else {
        balance := None;
      }
    }

    /** update_account_balance: read the balance, refuse (ValueError, logged) when it would go
        negative, otherwise add amount to that one account and commit. */
    method UpdateAccountBalance(accountId: int, amount: real)
      requires Valid(tables)
      modifies this
      ensures Valid(tables)
      ensures accountId !in old(tables).accounts ==> tables == old(tables)
      ensures (accountId in old(tables).accounts && old(tables).accounts[accountId].balance + amount < 0.0)
                ==> tables == old(tables)
      ensures (accountId in old(tables).accounts && old(tables).accounts[accountId].balance + amount >= 0.0)
                ==> tables == old(tables).(accounts := old(tables).accounts[accountId :=
                                             Credit(old(tables).accounts[accountId], amount)])
    {
      var current := GetAccountBalance(accountId);
      if current.Some? && current.value + amount < 0.0 {
        return;  // refused as insufficient funds
      }
      var r := UpdateBalanceWhereId(tables, accountId, amount);
      if r.Ok? {
        tables := r.value;  // committed
      }
    }
  }
}
