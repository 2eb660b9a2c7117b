/** The statements each bot.py handler runs on its connection before it commits:
    registration, loan confirmation, deposit/donation and transfer. Each sequence is
    all-or-nothing: the first statement that fails makes the handler skip commit(), and
    closing the connection rolls the earlier statements back. */
module Writes {
  import opened Wrappers
  import opened Database
  import opened LoanQuote

  // ---------------------------------------------------------------------
  // Account numbers: the letters ACC followed by the Telegram id in decimal
  // ---------------------------------------------------------------------

  function DigitChar(d: int): (c: char)
    requires 0 <= d < 10
    ensures '0' <= c <= '9'
  {
    ('0' as int + d) as char
  }

  /** str() of a non-negative int. */
  function NatToString(n: nat): (s: string)
    ensures |s| >= 1 && (n < 10 <==> |s| == 1)
    ensures forall i :: 0 <= i < |s| ==> '0' <= s[i] <= '9'
  {
    if n < 10 then [DigitChar(n)] else NatToString(n / 10) + [DigitChar(n % 10)]
  }

  /** str() of an int. */
  function IntToString(n: int): string {
    if n < 0 then "-" + NatToString(-n) else NatToString(n)
  }

  function AccountNumber(telegramId: int): string {
    "ACC" + IntToString(telegramId)
  }

  lemma {:induction false} NatToStringInjective(a: nat, b: nat)
    requires NatToString(a) == NatToString(b)
    ensures a == b
  {
    if a >= 10 && b >= 10 {
      var sa, sb := NatToString(a), NatToString(b);
      assert sa[|sa| - 1] == sb[|sb| - 1];
      assert NatToString(a / 10) == sa[..|sa| - 1] == sb[..|sb| - 1] == NatToString(b / 10);
      NatToStringInjective(a / 10, b / 10);
    }
  }

  /** The text of a negative number, and only that, starts with '-'. */
  lemma IntToStringSign(n: int)
    ensures |IntToString(n)| >= 1 && (IntToString(n)[0] == '-' <==> n < 0)
  {
    if n >= 0 {
      assert '0' <= NatToString(n)[0] <= '9';
    }
  }

  /** Distinct Telegram ids give distinct account numbers. */
  lemma AccountNumberInjective(a: int, b: int)
    requires AccountNumber(a) == AccountNumber(b)
    ensures a == b
  {
    var sa, sb := IntToString(a), IntToString(b);
    assert sa == AccountNumber(a)[3..] && sb == AccountNumber(b)[3..];
    IntToStringSign(a);
    IntToStringSign(b);
    assert (a < 0) == (b < 0);
    if a < 0 {
      assert NatToString(-a) == sa[1..] == sb[1..] == NatToString(-b);
      NatToStringInjective(-a, -b);
    } else {
      NatToStringInjective(a, b);
    }
  }

  // ---------------------------------------------------------------------
  // Invariants the bot's writes keep beyond the schema's own
  // ---------------------------------------------------------------------

  /** Every account carries the number derived from its owner's id. */
  ghost predicate NumbersDerived(t: Tables) {
    forall id :: id in t.accounts ==> t.accounts[id].accountNumber == AccountNumber(t.accounts[id].userId)
  }

  /** Every loan is still at its principal (nothing repays it) and within the per-loan limit. */
  ghost predicate LoansAtPrincipal(loans: seq<LoanRow>) {
    forall i :: 0 <= i < |loans| ==> loans[i].remainingBalance == loans[i].loanAmount <= LoanLimit
  }

  /** No user owes more than the total cap. */
  ghost predicate LoansWithinCap(loans: seq<LoanRow>) {
    forall u :: SumRemaining(loans, u) <= TotalLoanCap
  }

  ghost predicate Consistent(t: Tables) {
    OneAccountPerUser(t) && NumbersDerived(t) && LoansAtPrincipal(t.loans) && LoansWithinCap(t.loans)
  }

  lemma EmptyConsistent()
    ensures Consistent(Empty)
  {
  }

  // ---------------------------------------------------------------------
  // Registration: one users row and its savings account
  // ---------------------------------------------------------------------

  function RegistrationWrites(t: Tables, telegramId: int, name: string, email: string, phone: string)
    : (r: Result<Tables, SqlError>)
    requires Valid(t)
  {
    match InsertUser(t, telegramId, UserRow(name, email, phone))
    case Err(e) => Err(e)
    case Ok(t1) => InsertAccount(t1, AccountRow(telegramId, AccountNumber(telegramId), "savings", 0.0))
  }

  /** Registration writes the user and an account numbered "ACC" + id with balance 0
      together, and changes nothing else; on consistent tables it succeeds exactly when the
      id is new and the email unused. */
  lemma RegistrationEffect(t: Tables, telegramId: int, name: string, email: string, phone: string)
    requires Valid(t) && Consistent(t)
    ensures var r := RegistrationWrites(t, telegramId, name, email, phone);
      && (r.Ok? <==> telegramId !in t.users && !EmailTaken(t.users, email))
      && (r.Ok? ==>
            && r.value.users == t.users[telegramId := UserRow(name, email, phone)]
            && r.value.accounts == t.accounts[NextAccountId(t) :=
                 AccountRow(telegramId, AccountNumber(telegramId), "savings", 0.0)]
            && r.value.transactions == t.transactions && r.value.loans == t.loans
            && Valid(r.value) && Consistent(r.value))
  {
    var row := UserRow(name, email, phone);
    if InsertUser(t, telegramId, row).Ok? {
      var t1 := t.(users := t.users[telegramId := row], userSeq := Max(t.userSeq, telegramId));
      assert InsertUser(t, telegramId, row) == Ok(t1);
      var number := AccountNumber(telegramId);
      if NumberTaken(t.accounts, number) {
        var id :| id in t.accounts && t.accounts[id].accountNumber == number;
        AccountNumberInjective(t.accounts[id].userId, telegramId);
        assert false;
      }
      var account := AccountRow(telegramId, number, "savings", 0.0);
      var t2 := t1.(accounts := t.accounts[NextAccountId(t) := account], accountSeq := NextAccountId(t));
      assert InsertAccount(t1, account) == Ok(t2);
      assert RegistrationWrites(t, telegramId, name, email, phone) == Ok(t2);
      NewUserConsistent(t, telegramId, row, t2);
    }
  }

  /** A new user with one fresh account, numbered from the user's id, keeps the ledger
      consistent. */
  lemma NewUserConsistent(t: Tables, telegramId: int, row: UserRow, t2: Tables)
    requires Valid(t) && Consistent(t) && telegramId !in t.users
    requires t2.users == t.users[telegramId := row] && t2.loans == t.loans
    requires t2.accounts == t.accounts[NextAccountId(t) :=
               AccountRow(telegramId, AccountNumber(telegramId), "savings", 0.0)]
    ensures Consistent(t2)
  {
    assert NextAccountId(t) !in t.accounts;
    assert forall id :: id in t2.accounts && id != NextAccountId(t) ==> id in t.accounts;
  }

  // ---------------------------------------------------------------------
  // Loan confirmation
  // ---------------------------------------------------------------------

  /** The loan row confirm_loan writes: the remaining balance starts at the principal. */
  function NewLoan(telegramId: int, amount: real, duration: int, monthlyPayment: real): LoanRow {
    LoanRow(telegramId, amount, duration, monthlyPayment, amount)
  }

  /** confirm_loan, as written: credit every account of the user, insert a 'Loan' row whose
      accountId is the Telegram id (so the trigger credits the account with that id, if any),
      and insert the loan. */
  function LoanWrites(t: Tables, telegramId: int, amount: real, duration: int, monthlyPayment: real)
    : (r: Result<Tables, SqlError>)
  {
    match UpdateBalanceWhereUser(t, telegramId, amount)
    case Err(e) => Err(e)
    case Ok(t1) =>
      match InsertTransaction(t1, telegramId, amount, Loan)
      case Err(e) => Err(e)
      case Ok(t2) => InsertLoan(t2, NewLoan(telegramId, amount, duration, monthlyPayment))
  }

  /** What confirm_loan commits: a positive loan always gets past the two credits, so it
      commits exactly when the loan row passes its CHECKs; then one loan row and one 'Loan'
      row are appended, and every account gains the amount once for belonging to the user
      and once more if its id equals the Telegram id. */
  lemma LoanWritesEffect(t: Tables, telegramId: int, amount: real, duration: int, monthlyPayment: real)
    requires Valid(t) && amount > 0.0
    ensures var r := LoanWrites(t, telegramId, amount, duration, monthlyPayment);
      && (r.Ok? <==> LoanOk(NewLoan(telegramId, amount, duration, monthlyPayment)))
      && (r.Ok? ==>
            && r.value.loans == t.loans + [NewLoan(telegramId, amount, duration, monthlyPayment)]
            && r.value.transactions == t.transactions + [TxRow(telegramId, amount, Loan)]
            && r.value.users == t.users && r.value.accounts.Keys == t.accounts.Keys
            && (forall id :: id in t.accounts ==>
                  r.value.accounts[id] == Credit(t.accounts[id],
                    (if t.accounts[id].userId == telegramId then amount else 0.0)
                    + (if id == telegramId then amount else 0.0)))
            && Valid(r.value))
  {
    var t1 := UpdateBalanceWhereUser(t, telegramId, amount).value;
    assert InsertTransaction(t1, telegramId, amount, Loan).Ok?;
    var t2 := InsertTransaction(t1, telegramId, amount, Loan).value;
    LoanStatementsCredit(t, telegramId, amount, t1, t2);
    var row := NewLoan(telegramId, amount, duration, monthlyPayment);
    if LoanOk(row) {
      assert LoanWrites(t, telegramId, amount, duration, monthlyPayment) == Ok(t2.(loans := t2.loans + [row]));
    }
  }

  /** The UPDATE and the 'Loan' row of confirm_loan credit each account once for its owner
      and once more if its id is the Telegram id. */
  lemma LoanStatementsCredit(t: Tables, telegramId: int, amount: real, t1: Tables, t2: Tables)
    requires UpdateBalanceWhereUser(t, telegramId, amount) == Ok(t1)
    requires InsertTransaction(t1, telegramId, amount, Loan) == Ok(t2)
    ensures forall id :: id in t.accounts ==>
      t2.accounts[id] == Credit(t.accounts[id],
        (if t.accounts[id].userId == telegramId then amount else 0.0) + (if id == telegramId then amount else 0.0))
  {
    forall id | id in t.accounts
      ensures t2.accounts[id] == Credit(t.accounts[id],
        (if t.accounts[id].userId == telegramId then amount else 0.0) + (if id == telegramId then amount else 0.0))
    {
      var owned := if t.accounts[id].userId == telegramId then amount else 0.0;
      assert t1.accounts[id] == Credit(t.accounts[id], owned);
      if id == telegramId {
        assert t2.accounts[id] == Credit(t1.accounts[id], amount);
      } else {
        assert t2.accounts[id] == t1.accounts[id];
      }
    }
  }

  /** A confirmed loan keeps the ledger consistent when its principal is within the limit
      and keeps the user's outstanding sum within the cap, as the amount step checked. */
  lemma LoanWritesConsistent(t: Tables, telegramId: int, amount: real, duration: int, monthlyPayment: real)
    requires Valid(t) && Consistent(t)
    requires 0.0 < amount <= LoanLimit
    requires SumRemaining(t.loans, telegramId) + amount <= TotalLoanCap
    requires LoanWrites(t, telegramId, amount, duration, monthlyPayment).Ok?
    ensures Consistent(LoanWrites(t, telegramId, amount, duration, monthlyPayment).value)
  {
    LoanWritesEffect(t, telegramId, amount, duration, monthlyPayment);
    var t' := LoanWrites(t, telegramId, amount, duration, monthlyPayment).value;
    var row := NewLoan(telegramId, amount, duration, monthlyPayment);
    LoanAppendKeepsCap(t.loans, row);
    LoanAppendAtPrincipal(t.loans, row);
    BalancesOnlyKeepOwnership(t, t');
  }

  /** The tables after confirm_loan's commit or rollback keep the schema's CHECKs and the
      ledger's consistency, as long as the principal passed the amount step. */
  lemma LoanCommitConsistent(t: Tables, telegramId: int, amount: real, duration: int, monthlyPayment: real)
    requires Valid(t) && Consistent(t)
    requires 0.0 < amount <= LoanLimit
    requires SumRemaining(t.loans, telegramId) + amount <= TotalLoanCap
    ensures var t' := Commit(LoanWrites(t, telegramId, amount, duration, monthlyPayment), t);
      Valid(t') && Consistent(t')
  {
    LoanWritesEffect(t, telegramId, amount, duration, monthlyPayment);
    if LoanWrites(t, telegramId, amount, duration, monthlyPayment).Ok? {
      LoanWritesConsistent(t, telegramId, amount, duration, monthlyPayment);
    }
  }

  /** Changing balances alone keeps account ownership and numbering as they were. */
  lemma BalancesOnlyKeepOwnership(t: Tables, t': Tables)
    requires OneAccountPerUser(t) && NumbersDerived(t)
    requires t'.users == t.users && t'.accounts.Keys == t.accounts.Keys
    requires forall id :: id in t.accounts ==> exists x :: t'.accounts[id] == Credit(t.accounts[id], x)
    ensures OneAccountPerUser(t') && NumbersDerived(t')
  {
    forall id | id in t.accounts
      ensures t'.accounts[id].userId == t.accounts[id].userId
      ensures t'.accounts[id].accountNumber == t.accounts[id].accountNumber
    {
      var x :| t'.accounts[id] == Credit(t.accounts[id], x);
    }
  }

  lemma LoanAppendAtPrincipal(loans: seq<LoanRow>, row: LoanRow)
    requires LoansAtPrincipal(loans) && row.remainingBalance == row.loanAmount <= LoanLimit
    ensures LoansAtPrincipal(loans + [row])
  {
    assert forall i :: 0 <= i < |loans| ==> (loans + [row])[i] == loans[i];
  }

  /** A new loan that keeps its own user within the cap keeps every user within it. */
  lemma LoanAppendKeepsCap(loans: seq<LoanRow>, row: LoanRow)
    requires LoansWithinCap(loans)
    requires SumRemaining(loans, row.userId) + row.remainingBalance <= TotalLoanCap
    ensures LoansWithinCap(loans + [row])
  {
    forall u ensures SumRemaining(loans + [row], u) <= TotalLoanCap {
      SumRemainingAppend(loans, row, u);
    }
  }

  /** With no account whose id equals the Telegram id, a confirmed loan credits the user's
      own account by exactly the principal and puts exactly the principal into the bank. */
  lemma LoanCreditsOnce(t: Tables, telegramId: int, amount: real, duration: int, monthlyPayment: real)
    requires Valid(t) && OneAccountPerUser(t) && amount > 0.0
    requires telegramId !in t.accounts
    requires LoanWrites(t, telegramId, amount, duration, monthlyPayment).Ok?
    ensures var t' := LoanWrites(t, telegramId, amount, duration, monthlyPayment).value;
      && (forall id :: id in t.accounts ==>
            t'.accounts[id].balance == t.accounts[id].balance
              + (if t.accounts[id].userId == telegramId then amount else 0.0))
      && Total(t'.accounts) == Total(t.accounts) + (if HasAccount(t, telegramId) then amount else 0.0)
  {
    LoanWritesEffect(t, telegramId, amount, duration, monthlyPayment);
    var t1 := UpdateBalanceWhereUser(t, telegramId, amount).value;
    UpdateBalanceWhereUserTotal(t, telegramId, amount);
    InsertTransactionTotal(t1, telegramId, amount, Loan);
  }

  /** Finding, as written: user 1 owns account 1, so the 'Loan' row keyed by the Telegram id
      lands on the user's own account, and a loan of 100 over 3 months at its quoted payment
      is credited twice. */
  lemma LoanCreditedTwice()
    ensures var t := Tables(map[1 := UserRow("Ana", "ana@x.com", "77021234567")],
                            map[1 := AccountRow(1, AccountNumber(1), "savings", 0.0)], [], [], 1, 1);
      var q := LoanQuote.LoanQuote(100.0, 3);
      var r := LoanWrites(t, 1, 100.0, 3, q.monthlyPayment);
      q.monthlyPayment == 35.25 && r.Ok? && r.value.accounts[1].balance == 200.0
  {
  }

  /** confirm_loan as intended: one 'Loan' row on the user's account, whose trigger does the
      crediting, and the loan row. */
  function LoanWritesFixed(t: Tables, accountId: int, telegramId: int, amount: real, duration: int,
                           monthlyPayment: real): (r: Result<Tables, SqlError>)
    ensures r.Ok? ==> r.value.loans == t.loans + [NewLoan(telegramId, amount, duration, monthlyPayment)]
  {
    match InsertTransaction(t, accountId, amount, Loan)
    case Err(e) => Err(e)
    case Ok(t1) => InsertLoan(t1, NewLoan(telegramId, amount, duration, monthlyPayment))
  }

  /** The intended loan credits the borrower's account by exactly the principal, touches no
      other account, records the row against that account, and adds exactly the principal
      to the bank. */
  lemma LoanFixedCreditsOnce(t: Tables, accountId: int, telegramId: int, amount: real, duration: int,
                             monthlyPayment: real)
    requires Valid(t) && amount > 0.0
    requires accountId in t.accounts && t.accounts[accountId].userId == telegramId
    ensures var r := LoanWritesFixed(t, accountId, telegramId, amount, duration, monthlyPayment);
      && (r.Ok? <==> LoanOk(NewLoan(telegramId, amount, duration, monthlyPayment)))
      && (r.Ok? ==>
            && r.value.accounts == t.accounts[accountId := Credit(t.accounts[accountId], amount)]
            && r.value.transactions == t.transactions + [TxRow(accountId, amount, Loan)]
            && r.value.loans == t.loans + [NewLoan(telegramId, amount, duration, monthlyPayment)]
            && Total(r.value.accounts) == Total(t.accounts) + amount)
  {
    var r1 := InsertTransaction(t, accountId, amount, Loan);
    InsertTransactionTotal(t, accountId, amount, Loan);
    assert r1.value.accounts == t.accounts[accountId := Credit(t.accounts[accountId], amount)];
  }

  /** An UPDATE ... WHERE userId that commits keeps the ledger consistent and leaves the
      users and loans as they were. */
  lemma UpdateWhereUserConsistent(t: Tables, userId: int, amount: real)
    requires Consistent(t) && UpdateBalanceWhereUser(t, userId, amount).Ok?
    ensures var t' := UpdateBalanceWhereUser(t, userId, amount).value;
      Consistent(t') && t'.users == t.users && t'.loans == t.loans
  {
    var t' := UpdateBalanceWhereUser(t, userId, amount).value;
    forall id | id in t.accounts
      ensures exists x :: t'.accounts[id] == Credit(t.accounts[id], x)
    {
      if t.accounts[id].userId == userId {
        assert t'.accounts[id] == Credit(t.accounts[id], amount);
      } else {
        assert t'.accounts[id] == Credit(t.accounts[id], 0.0);
      }
    }
    BalancesOnlyKeepOwnership(t, t');
  }

  /** An inserted transaction row that commits keeps the ledger consistent and leaves the
      users and loans as they were. */
  lemma InsertTransactionConsistent(t: Tables, accountId: int, amount: real, kind: TxKind)
    requires Consistent(t) && InsertTransaction(t, accountId, amount, kind).Ok?
    ensures var t' := InsertTransaction(t, accountId, amount, kind).value;
      Consistent(t') && t'.users == t.users && t'.loans == t.loans
  {
    var t' := InsertTransaction(t, accountId, amount, kind).value;
    forall id | id in t.accounts
      ensures exists x :: t'.accounts[id] == Credit(t.accounts[id], x)
    {
      if id == accountId {
        assert t'.accounts[id] == Credit(t.accounts[id], amount);
      } else {
        assert t'.accounts[id] == Credit(t.accounts[id], 0.0);
      }
    }
    BalancesOnlyKeepOwnership(t, t');
  }

  /** The tables after the intended confirm_loan's commit or rollback keep the schema's
      CHECKs and the ledger's consistency, as long as the principal passed the amount step. */
  lemma LoanFixedCommitConsistent(t: Tables, accountId: int, telegramId: int, amount: real, duration: int,
                                  monthlyPayment: real)
    requires Valid(t) && Consistent(t)
    requires 0.0 < amount <= LoanLimit
    requires SumRemaining(t.loans, telegramId) + amount <= TotalLoanCap
    ensures var t' := Commit(LoanWritesFixed(t, accountId, telegramId, amount, duration, monthlyPayment), t);
      Valid(t') && Consistent(t')
  {
    var r1 := InsertTransaction(t, accountId, amount, Loan);
    if r1.Ok? {
      InsertTransactionConsistent(t, accountId, amount, Loan);
      var row := NewLoan(telegramId, amount, duration, monthlyPayment);
      LoanAppendKeepsCap(r1.value.loans, row);
      LoanAppendAtPrincipal(r1.value.loans, row);
    }
  }

  // ---------------------------------------------------------------------
  // Deposit and donation (process_transaction_amount)
  // ---------------------------------------------------------------------

  /** The scratch value transaction_type. */
  datatype TransactionType = LoanTransaction | DonationTransaction | DepositTransaction

  /** The signed amount each transaction type writes. */
  function SignedAmount(kind: TransactionType, amount: real): real {
    if kind == DonationTransaction then -amount else amount
  }

  function KindOf(kind: TransactionType): TxKind {
    match kind
    case LoanTransaction => Loan
    case DonationTransaction => Donation
    case DepositTransaction => Deposit
  }

  /** One row on the account that was looked up by user id. */
  function SimpleTransactionWrites(t: Tables, accountId: int, kind: TransactionType, amount: real)
    : (r: Result<Tables, SqlError>)
  {
    InsertTransaction(t, accountId, SignedAmount(kind, amount), KindOf(kind))
  }

  /** A deposit or donation appends one row of +amount or -amount on the account and moves
      the account's balance, and the bank's total, by exactly that. */
  lemma SimpleTransactionEffect(t: Tables, accountId: int, kind: TransactionType, amount: real)
    requires accountId in t.accounts
    ensures var r := SimpleTransactionWrites(t, accountId, kind, amount);
      && (r.Ok? <==> t.accounts[accountId].balance + SignedAmount(kind, amount) >= 0.0)
      && (r.Ok? ==>
            && r.value.transactions == t.transactions + [TxRow(accountId, SignedAmount(kind, amount), KindOf(kind))]
            && r.value.accounts == t.accounts[accountId := Credit(t.accounts[accountId], SignedAmount(kind, amount))]
            && Total(r.value.accounts) == Total(t.accounts) + SignedAmount(kind, amount))
  {
    var r := SimpleTransactionWrites(t, accountId, kind, amount);
    if r.Ok? {
      InsertTransactionTotal(t, accountId, SignedAmount(kind, amount), KindOf(kind));
    }
  }

  /** A deposit, a donation the balance covers or a loan credit goes through and keeps the
      tables valid and consistent, leaving the loans as they were. */
  lemma SimpleTransactionConsistent(t: Tables, accountId: int, kind: TransactionType, amount: real)
    requires Valid(t) && Consistent(t) && accountId in t.accounts
    requires t.accounts[accountId].balance + SignedAmount(kind, amount) >= 0.0
    ensures var r := SimpleTransactionWrites(t, accountId, kind, amount);
      && r.Ok? && Valid(r.value) && Consistent(r.value) && r.value.loans == t.loans
      && r.value.accounts[accountId].balance == t.accounts[accountId].balance + SignedAmount(kind, amount)
  {
    SimpleTransactionEffect(t, accountId, kind, amount);
    InsertTransactionConsistent(t, accountId, SignedAmount(kind, amount), KindOf(kind));
  }

  // ---------------------------------------------------------------------
  // Transfer
  // ---------------------------------------------------------------------

  /** process_transfer_amount, as written: debit every account of the sender, credit every
      account of the recipient, then insert a 'Transfer Out' and a 'Transfer In' row keyed by
      the two Telegram ids, whose triggers adjust the accounts with those ids, if any. */
  function TransferWrites(t: Tables, senderId: int, recipientId: int, amount: real)
    : (r: Result<Tables, SqlError>)
  {
    match TransferUpdates(t, senderId, recipientId, amount)
    case Err(e) => Err(e)
    case Ok(t2) => TransferInserts(t2, senderId, recipientId, amount)
  }

  /** The two UPDATE ... WHERE userId statements of a transfer. */
  function TransferUpdates(t: Tables, senderId: int, recipientId: int, amount: real)
    : (r: Result<Tables, SqlError>)
    ensures r.Ok? && Valid(t) ==> Valid(r.value)
  {
    match UpdateBalanceWhereUser(t, senderId, -amount)
    case Err(e) => Err(e)
    case Ok(t1) => UpdateBalanceWhereUser(t1, recipientId, amount)
  }

  /** The two inserted rows of a transfer, keyed by the Telegram ids. */
  function TransferInserts(t: Tables, senderId: int, recipientId: int, amount: real)
    : (r: Result<Tables, SqlError>)
    ensures r.Ok? && Valid(t) ==> Valid(r.value)
    ensures r.Ok? ==> r.value.transactions == t.transactions + TransferRows(senderId, recipientId, amount)
  {
    match InsertTransaction(t, senderId, -amount, TransferOut)
    case Err(e) => Err(e)
    case Ok(t1) => InsertTransaction(t1, recipientId, amount, TransferIn)
  }

  /** The two rows a transfer appends, which cancel out. */
  function TransferRows(senderId: int, recipientId: int, amount: real): (rows: seq<TxRow>)
    ensures |rows| == 2 && rows[0].amount + rows[1].amount == 0.0
  {
    [TxRow(senderId, -amount, TransferOut), TxRow(recipientId, amount, TransferIn)]
  }

  /** An UPDATE ... WHERE userId on a user with exactly one account changes that account
      alone. */
  lemma UpdateOneAccount(t: Tables, userId: int, a: int, amount: real)
    requires OneAccountPerUser(t)
    requires a in t.accounts && t.accounts[a].userId == userId && t.accounts[a].balance + amount >= 0.0
    ensures UpdateBalanceWhereUser(t, userId, amount).Ok?
    ensures UpdateBalanceWhereUser(t, userId, amount).value
         == t.(accounts := t.accounts[a := Credit(t.accounts[a], amount)])
  {
    var r := UpdateBalanceWhereUser(t, userId, amount);
    assert r.Ok?;
    assert forall id :: id in t.accounts ==> r.value.accounts[id] == t.accounts[a := Credit(t.accounts[a], amount)][id];
    assert r.value.accounts == t.accounts[a := Credit(t.accounts[a], amount)];
  }

  /** Crediting one account keeps each user at one account. */
  lemma CreditKeepsOneAccount(t: Tables, a: int, amount: real)
    requires OneAccountPerUser(t) && a in t.accounts
    ensures OneAccountPerUser(t.(accounts := t.accounts[a := Credit(t.accounts[a], amount)]))
  {
    var m := t.accounts[a := Credit(t.accounts[a], amount)];
    assert forall id :: id in m ==> m[id].userId == t.accounts[id].userId;
  }

  /** The two UPDATEs of a transfer between users with one account each move the amount
      from one account to the other. */
  lemma TransferUpdatesMove(t: Tables, senderId: int, recipientId: int, sender: int, recipient: int, amount: real)
    requires OneAccountPerUser(t) && amount > 0.0
    requires sender in t.accounts && t.accounts[sender].userId == senderId
    requires recipient in t.accounts && t.accounts[recipient].userId == recipientId
    requires t.accounts[sender].balance >= amount && t.accounts[recipient].balance >= 0.0
    ensures var m1 := t.accounts[sender := Credit(t.accounts[sender], -amount)];
      TransferUpdates(t, senderId, recipientId, amount)
        == Ok(t.(accounts := m1[recipient := Credit(m1[recipient], amount)]))
  {
    var m1 := t.accounts[sender := Credit(t.accounts[sender], -amount)];
    var t1 := t.(accounts := m1);
    UpdateOneAccount(t, senderId, sender, -amount);
    assert UpdateBalanceWhereUser(t, senderId, -amount) == Ok(t1);
    CreditKeepsOneAccount(t, sender, -amount);
    UpdateOneAccount(t1, recipientId, recipient, amount);
  }

  /** Rows keyed by ids that are not account ids fire no trigger: they are only appended. */
  lemma TransferInsertsAppend(t: Tables, senderId: int, recipientId: int, amount: real)
    requires senderId !in t.accounts && recipientId !in t.accounts
    ensures TransferInserts(t, senderId, recipientId, amount)
         == Ok(t.(transactions := t.transactions + TransferRows(senderId, recipientId, amount)))
  {
    var t3 := t.(transactions := t.transactions + [TxRow(senderId, -amount, TransferOut)]);
    assert InsertTransaction(t, senderId, -amount, TransferOut) == Ok(t3);
    assert t3.(transactions := t3.transactions + [TxRow(recipientId, amount, TransferIn)])
        == t.(transactions := t.transactions + TransferRows(senderId, recipientId, amount));
  }

  /** The four statements of a transfer, when neither Telegram id is an account id: the two
      UPDATEs move the money and the two inserts only append their rows. */
  lemma TransferSteps(t: Tables, senderId: int, recipientId: int, sender: int, recipient: int, amount: real)
    requires Valid(t) && OneAccountPerUser(t) && amount > 0.0
    requires sender in t.accounts && t.accounts[sender].userId == senderId
    requires recipient in t.accounts && t.accounts[recipient].userId == recipientId
    requires t.accounts[sender].balance >= amount
    requires senderId !in t.accounts && recipientId !in t.accounts
    ensures var m1 := t.accounts[sender := Credit(t.accounts[sender], -amount)];
      var m2 := m1[recipient := Credit(m1[recipient], amount)];
      TransferWrites(t, senderId, recipientId, amount)
        == Ok(t.(accounts := m2, transactions := t.transactions + TransferRows(senderId, recipientId, amount)))
  {
    var m1 := t.accounts[sender := Credit(t.accounts[sender], -amount)];
    var t2 := t.(accounts := m1[recipient := Credit(m1[recipient], amount)]);
    TransferUpdatesMove(t, senderId, recipientId, sender, recipient, amount);
    TransferInsertsAppend(t2, senderId, recipientId, amount);
  }

  /** A transfer between users with accounts, when no account's id equals either Telegram
      id and the sender can cover it: it commits, takes the amount from the sender's account,
      gives it to the recipient's, changes no other account, appends the two rows, and keeps
      the bank's total. */
  lemma TransferEffect(t: Tables, senderId: int, recipientId: int, sender: int, recipient: int, amount: real)
    requires Valid(t) && OneAccountPerUser(t) && amount > 0.0
    requires sender in t.accounts && t.accounts[sender].userId == senderId
    requires recipient in t.accounts && t.accounts[recipient].userId == recipientId
    requires t.accounts[sender].balance >= amount
    requires senderId !in t.accounts && recipientId !in t.accounts
    ensures var r := TransferWrites(t, senderId, recipientId, amount);
      && r.Ok?
      && r.value.transactions == t.transactions + TransferRows(senderId, recipientId, amount)
      && r.value.users == t.users && r.value.loans == t.loans && r.value.accounts.Keys == t.accounts.Keys
      && (forall id :: id in t.accounts ==>
            r.value.accounts[id].balance == t.accounts[id].balance
              - (if id == sender then amount else 0.0) + (if id == recipient then amount else 0.0))
      && Total(r.value.accounts) == Total(t.accounts)
  {
    var m1 := t.accounts[sender := Credit(t.accounts[sender], -amount)];
    var m2 := m1[recipient := Credit(m1[recipient], amount)];
    TransferSteps(t, senderId, recipientId, sender, recipient, amount);
    MoveBalances(t.accounts, sender, recipient, amount);
    assert TransferWrites(t, senderId, recipientId, amount)
        == Ok(t.(accounts := m2, transactions := t.transactions + TransferRows(senderId, recipientId, amount)));
  }

  /** Whatever a committed transfer does to the balances, it keeps the schema's CHECKs and
      the ledger's consistency, and leaves the users and loans as they were. */
  lemma TransferWritesConsistent(t: Tables, senderId: int, recipientId: int, amount: real)
    requires Valid(t) && Consistent(t) && TransferWrites(t, senderId, recipientId, amount).Ok?
    ensures var t' := TransferWrites(t, senderId, recipientId, amount).value;
      Valid(t') && Consistent(t') && t'.users == t.users && t'.loans == t.loans
  {
    TransferUpdatesConsistent(t, senderId, recipientId, amount);
    TransferInsertsConsistent(TransferUpdates(t, senderId, recipientId, amount).value, senderId, recipientId, amount);
  }

  /** The tables after process_transfer_amount's commit or rollback. */
  lemma TransferCommitConsistent(t: Tables, senderId: int, recipientId: int, amount: real)
    requires Valid(t) && Consistent(t)
    ensures var t' := Commit(TransferWrites(t, senderId, recipientId, amount), t);
      Valid(t') && Consistent(t') && t'.loans == t.loans
  {
    if TransferWrites(t, senderId, recipientId, amount).Ok? {
      TransferWritesConsistent(t, senderId, recipientId, amount);
    }
  }

  /** The two UPDATEs that start a transfer. */
  lemma TransferUpdatesConsistent(t: Tables, senderId: int, recipientId: int, amount: real)
    requires Consistent(t) && TransferUpdates(t, senderId, recipientId, amount).Ok?
    ensures var t' := TransferUpdates(t, senderId, recipientId, amount).value;
      Consistent(t') && t'.users == t.users && t'.loans == t.loans
  {
    var r1 := UpdateBalanceWhereUser(t, senderId, -amount);
    UpdateWhereUserConsistent(t, senderId, -amount);
    UpdateWhereUserConsistent(r1.value, recipientId, amount);
  }

  /** The two inserts that end a transfer. */
  lemma TransferInsertsConsistent(t: Tables, senderId: int, recipientId: int, amount: real)
    requires Consistent(t) && TransferInserts(t, senderId, recipientId, amount).Ok?
    ensures var t' := TransferInserts(t, senderId, recipientId, amount).value;
      Consistent(t') && t'.users == t.users && t'.loans == t.loans
  {
    var r3 := InsertTransaction(t, senderId, -amount, TransferOut);
    assert r3.Ok?;
    var r4 := InsertTransaction(r3.value, recipientId, amount, TransferIn);
    assert TransferInserts(t, senderId, recipientId, amount) == r4;
    InsertTransactionConsistent(t, senderId, -amount, TransferOut);
    InsertTransactionConsistent(r3.value, recipientId, amount, TransferIn);
  }

  /** Finding, as written: user 1 owns account 1 (balance 100) and user 2 owns account 2.
      A transfer of 30 takes 60 from account 1 and gives 60 to account 2; a transfer of 60,
      which the balance covers, is refused by CHECK (balance >= 0) and rolled back. */
  lemma TransferAppliedTwice()
    ensures var t := Tables(map[1 := UserRow("Ana", "ana@x.com", "77021234567"),
                                2 := UserRow("Bo", "bo@x.com", "77021234568")],
                            map[1 := AccountRow(1, "ACC1", "savings", 100.0),
                                2 := AccountRow(2, "ACC2", "savings", 0.0)], [], [], 2, 2);
      var r := TransferWrites(t, 1, 2, 30.0);
      && r.Ok? && r.value.accounts[1].balance == 40.0 && r.value.accounts[2].balance == 60.0
      && TransferWrites(t, 1, 2, 60.0).Err?
  {
    var t := Tables(map[1 := UserRow("Ana", "ana@x.com", "77021234567"),
                        2 := UserRow("Bo", "bo@x.com", "77021234568")],
                    map[1 := AccountRow(1, "ACC1", "savings", 100.0),
                        2 := AccountRow(2, "ACC2", "savings", 0.0)], [], [], 2, 2);
    assert OneAccountPerUser(t);
    TransferThirty(t);
    TransferSixty(t);
  }

  /** The first half of TransferAppliedTwice: both UPDATEs, then both triggers. */
  lemma TransferThirty(t: Tables)
    requires OneAccountPerUser(t) && t.accounts.Keys == {1, 2}
    requires t.accounts[1].userId == 1 && t.accounts[1].balance == 100.0
    requires t.accounts[2].userId == 2 && t.accounts[2].balance == 0.0
    ensures var r := TransferWrites(t, 1, 2, 30.0);
      r.Ok? && r.value.accounts[1].balance == 40.0 && r.value.accounts[2].balance == 60.0
  {
    var t1 := t.(accounts := t.accounts[1 := Credit(t.accounts[1], -30.0)]);
    UpdateOneAccount(t, 1, 1, -30.0);
    assert UpdateBalanceWhereUser(t, 1, -30.0) == Ok(t1);
    CreditKeepsOneAccount(t, 1, -30.0);
    var t2 := t1.(accounts := t1.accounts[2 := Credit(t1.accounts[2], 30.0)]);
    UpdateOneAccount(t1, 2, 2, 30.0);
    assert UpdateBalanceWhereUser(t1, 2, 30.0) == Ok(t2);
    assert t2.accounts[1].balance == 70.0 && t2.accounts[2].balance == 30.0;
    var t3 := InsertTransaction(t2, 1, -30.0, TransferOut);
    assert t3.Ok? && t3.value.accounts[1].balance == 40.0 && t3.value.accounts[2].balance == 30.0;
    var t4 := InsertTransaction(t3.value, 2, 30.0, TransferIn);
    assert t4.Ok? && t4.value.accounts[1].balance == 40.0 && t4.value.accounts[2].balance == 60.0;
  }

  /** The second half of TransferAppliedTwice: the first trigger would take account 1 to -20. */
  lemma TransferSixty(t: Tables)
    requires OneAccountPerUser(t) && t.accounts.Keys == {1, 2}
    requires t.accounts[1].userId == 1 && t.accounts[1].balance == 100.0
    requires t.accounts[2].userId == 2 && t.accounts[2].balance == 0.0
    ensures TransferWrites(t, 1, 2, 60.0).Err?
  {
    var t1 := t.(accounts := t.accounts[1 := Credit(t.accounts[1], -60.0)]);
    UpdateOneAccount(t, 1, 1, -60.0);
    assert UpdateBalanceWhereUser(t, 1, -60.0) == Ok(t1);
    CreditKeepsOneAccount(t, 1, -60.0);
    var t2 := t1.(accounts := t1.accounts[2 := Credit(t1.accounts[2], 60.0)]);
    UpdateOneAccount(t1, 2, 2, 60.0);
    assert UpdateBalanceWhereUser(t1, 2, 60.0) == Ok(t2);
    assert t2.accounts[1].balance == 40.0;
    assert InsertTransaction(t2, 1, -60.0, TransferOut).Err?;
  }

  /** process_transfer_amount as intended: one row on each account, whose triggers move
      the money. */
  function TransferWritesFixed(t: Tables, sender: int, recipient: int, amount: real)
    : (r: Result<Tables, SqlError>)
  {
    TransferInserts(t, sender, recipient, amount)
  }

  /** The two rows of the intended transfer: the first trigger debits the sender's account,
      refused when it does not cover the amount, and the second credits the recipient's. */
  lemma TransferFixedSteps(t: Tables, sender: int, recipient: int, amount: real)
    requires Valid(t) && amount > 0.0
    requires sender in t.accounts && recipient in t.accounts
    ensures var m1 := t.accounts[sender := Credit(t.accounts[sender], -amount)];
      var rows := [TxRow(sender, -amount, TransferOut), TxRow(recipient, amount, TransferIn)];
      TransferWritesFixed(t, sender, recipient, amount)
        == if t.accounts[sender].balance >= amount
           then Ok(t.(accounts := m1[recipient := Credit(m1[recipient], amount)],
                      transactions := t.transactions + rows))
           else Err(IntegrityError)
  {
    var r1 := InsertTransaction(t, sender, -amount, TransferOut);
    if r1.Ok? {
      var m1 := t.accounts[sender := Credit(t.accounts[sender], -amount)];
      var t1 := t.(accounts := m1, transactions := t.transactions + [TxRow(sender, -amount, TransferOut)]);
      assert r1 == Ok(t1);
      assert InsertTransaction(t1, recipient, amount, TransferIn)
          == Ok(t1.(accounts := m1[recipient := Credit(m1[recipient], amount)],
                    transactions := t1.transactions + [TxRow(recipient, amount, TransferIn)]));
    }
  }

  /** The intended transfer commits exactly when the sender covers the amount, moves
      exactly the amount from the sender's account to the recipient's (a transfer to one's
      own account leaves it as it was), touches no other account, records each row against
      the account it moved, and keeps the bank's total. */
  lemma TransferFixedMovesOnce(t: Tables, sender: int, recipient: int, amount: real)
    requires Valid(t) && amount > 0.0
    requires sender in t.accounts && recipient in t.accounts
    ensures var r := TransferWritesFixed(t, sender, recipient, amount);
      && (r.Ok? <==> t.accounts[sender].balance >= amount)
      && (r.Ok? ==>
            && r.value.transactions == t.transactions + [TxRow(sender, -amount, TransferOut), TxRow(recipient, amount, TransferIn)]
            && r.value.accounts.Keys == t.accounts.Keys
            && (forall id :: id in t.accounts ==>
                  r.value.accounts[id] == Credit(t.accounts[id],
                    (if id == recipient then amount else 0.0) - (if id == sender then amount else 0.0)))
            && Total(r.value.accounts) == Total(t.accounts))
  {
    TransferFixedSteps(t, sender, recipient, amount);
    if t.accounts[sender].balance >= amount {
      CreditThenDebit(t.accounts, sender, recipient, amount);
      MoveBalances(t.accounts, sender, recipient, amount);
    }
  }

  /** Debiting one account and then crediting another (or the same one) by the same amount
      moves exactly that amount between them. */
  lemma CreditThenDebit(m: map<int, AccountRow>, sender: int, recipient: int, amount: real)
    requires sender in m && recipient in m
    ensures var m1 := m[sender := Credit(m[sender], -amount)];
      var m2 := m1[recipient := Credit(m1[recipient], amount)];
      && m2.Keys == m.Keys
      && forall id :: id in m ==>
           m2[id] == Credit(m[id], (if id == recipient then amount else 0.0) - (if id == sender then amount else 0.0))
  {
  }

  /** Moving an amount from one account to another (or to itself) changes only those two
      balances, by exactly the amount, and keeps the total. */
  lemma MoveBalances(m: map<int, AccountRow>, sender: int, recipient: int, amount: real)
    requires sender in m && recipient in m
    ensures var m1 := m[sender := Credit(m[sender], -amount)];
      var m2 := m1[recipient := Credit(m1[recipient], amount)];
      && m2.Keys == m.Keys
      && (forall id :: id in m ==>
            m2[id].balance == m[id].balance - (if id == sender then amount else 0.0) + (if id == recipient then amount else 0.0))
      && Total(m2) == Total(m)
  {
    var m1 := m[sender := Credit(m[sender], -amount)];
    CreditThenDebit(m, sender, recipient, amount);
    TotalUpdate(m, sender, Credit(m[sender], -amount));
    TotalUpdate(m1, recipient, Credit(m1[recipient], amount));
  }

  /** The tables after the intended process_transfer_amount's commit or rollback keep the
      schema's CHECKs and the ledger's consistency, and the loans as they were. */
  lemma TransferFixedCommitConsistent(t: Tables, sender: int, recipient: int, amount: real)
    requires Valid(t) && Consistent(t)
    ensures var t' := Commit(TransferWritesFixed(t, sender, recipient, amount), t);
      Valid(t') && Consistent(t') && t'.loans == t.loans
  {
    if TransferInserts(t, sender, recipient, amount).Ok? {
      TransferInsertsConsistent(t, sender, recipient, amount);
    }
  }
}
