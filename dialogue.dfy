/** The per-user dialogue of the bot: the aiogram states, the scratch data a conversation
    collects, the order in which the router tries its handlers, and each handler as one
    step over the session store and the ledger. */
module Dialogue {
  import opened Wrappers
  import opened Validators
  import opened LoanQuote
  import opened Database
  import opened Writes

  // ---------------------------------------------------------------------
  // States and scratch data
  // ---------------------------------------------------------------------

  /** The StatesGroup states, and Idle for a cleared context (state None). */
  datatype State =
    | Idle
    | AwaitingName | AwaitingEmail | AwaitingPhone
    | AwaitingTransactionType | AwaitingAmount
    | AwaitingRecipientPhone | AwaitingTransferAmount
    | AwaitingLoanAmount | AwaitingLoanDuration | ConfirmingLoan

  /** The keys update_data stores; None for a key not set since the last clear. */
  datatype Scratch = Scratch(
    telegramId: Option<int>,
    name: Option<string>,
    email: Option<string>,
    transactionType: Option<TransactionType>,
    loanAmount: Option<real>,
    loanDuration: Option<int>,
    monthlyPayment: Option<real>,
    totalRepayment: Option<real>,
    recipientId: Option<int>,
    recipientName: Option<string>)

  const NoData: Scratch := Scratch(None, None, None, None, None, None, None, None, None, None)

  datatype Session = Session(state: State, data: Scratch)

  /** What state.clear() leaves, and what a user who never wrote has. */
  const Cleared: Session := Session(Idle, NoData)

  // ---------------------------------------------------------------------
  // Message texts the router filters on
  // ---------------------------------------------------------------------

  const TakeLoanButton: string := "\U{1F4B8} Take a Loan"
  const RegisterButton: string := "\U{1F4DD} Register"
  const MyInfoButton: string := "\U{2139}\U{FE0F} My Info"
  const DonateButton: string := "\U{1F381} Donate to Charity"
  const DepositButton: string := "\U{1F4B5} Deposit"
  const TransferButton: string := "\U{1F4E4} Transfer"

  /** The longest prefix of s without whitespace. */
  function TakeWord(s: string): (w: string)
    ensures |w| <= |s| && w == s[..|w|]
    ensures forall i :: 0 <= i < |w| ==> !IsSpace(w[i])
    ensures |w| == |s| || IsSpace(s[|w|])
  {
    if s == [] || IsSpace(s[0]) then [] else [s[0]] + TakeWord(s[1..])
  }

  /** The Command filter: the first whitespace-separated word of the text is the slash
      and the command's name. */
  predicate IsCommand(text: string, name: string) {
    TakeWord(StripLeft(text)) == "/" + name
  }

  // ---------------------------------------------------------------------
  // Dispatch
  // ---------------------------------------------------------------------

  /** The handlers, in the order the router registers them. */
  datatype Handler =
    | ToInitiateLoan | ToProcessLoanAmount | ToProcessLoanDuration | ToConfirmLoan
    | ToStartBot | ToRegisterUser | ToRegisterButton
    | ToProcessName | ToProcessEmail | ToProcessPhone
    | ToGetUserInfo | ToInitiateTransaction | ToProcessTransactionAmount
    | ToInitiateDeposit | ToInitiateTransfer | ToGetTransferRecipient | ToProcessTransferAmount
    | Unhandled

  /** The state a state-filtered handler is registered for; the others run in any state. */
  predicate RunsIn(h: Handler, s: State) {
    match h
    case ToProcessLoanAmount => s == AwaitingLoanAmount
    case ToProcessLoanDuration => s == AwaitingLoanDuration
    case ToConfirmLoan => s == ConfirmingLoan
    case ToProcessName => s == AwaitingName
    case ToProcessEmail => s == AwaitingEmail
    case ToProcessPhone => s == AwaitingPhone
    case ToProcessTransactionAmount => s == AwaitingAmount
    case ToGetTransferRecipient => s == AwaitingRecipientPhone
    case ToProcessTransferAmount => s == AwaitingTransferAmount
    case _ => true
  }

  /** The handler a text message reaches: the first registered handler whose filter
      matches, where a handler without a state filter matches in every state. The second
      copies of initiate_loan and process_loan_amount never match first, and
      initiate_transaction only ever sees the donation button. */
  function Route(s: State, text: string): (h: Handler)
    ensures text == TakeLoanButton ==> h == ToInitiateLoan
    ensures RunsIn(h, s)
    ensures h == ToInitiateTransaction ==> text == DonateButton
    ensures h == ToProcessLoanAmount <==> s == AwaitingLoanAmount && text != TakeLoanButton
    ensures h == ToProcessLoanDuration <==> s == AwaitingLoanDuration && text != TakeLoanButton
    ensures h == ToConfirmLoan <==> s == ConfirmingLoan && text != TakeLoanButton
    ensures h == ToProcessName ==> s == AwaitingName
    ensures h == ToProcessEmail ==> s == AwaitingEmail
    ensures h == ToProcessPhone ==> s == AwaitingPhone
    ensures h == ToProcessTransactionAmount ==> s == AwaitingAmount
    ensures h == ToGetTransferRecipient ==> s == AwaitingRecipientPhone
    ensures h == ToProcessTransferAmount ==> s == AwaitingTransferAmount
    ensures (s == AwaitingName && !IsCommand(text, "start") && !IsCommand(text, "register")
             && text != RegisterButton && text != TakeLoanButton) ==> h == ToProcessName
  {
    if text == TakeLoanButton then ToInitiateLoan
    else if s == AwaitingLoanAmount then ToProcessLoanAmount
    else if s == AwaitingLoanDuration then ToProcessLoanDuration
    else if s == ConfirmingLoan then ToConfirmLoan
    else if IsCommand(text, "start") then ToStartBot
    else if IsCommand(text, "register") then ToRegisterUser
    else if text == RegisterButton then ToRegisterButton
    else if s == AwaitingName then ToProcessName
    else if s == AwaitingEmail then ToProcessEmail
    else if s == AwaitingPhone then ToProcessPhone
    else if text == MyInfoButton then ToGetUserInfo
    else if text == TakeLoanButton || text == DonateButton then ToInitiateTransaction
    else if s == AwaitingAmount then ToProcessTransactionAmount
    else if text == DepositButton then ToInitiateDeposit
    else if text == TransferButton then ToInitiateTransfer
    else if s == AwaitingRecipientPhone then ToGetTransferRecipient
    else if s == AwaitingTransferAmount then ToProcessTransferAmount
    else Unhandled
  }

  // ---------------------------------------------------------------------
  // What each state guarantees about its scratch data
  // ---------------------------------------------------------------------

  /** A loan amount the amount step accepted, still within the user's cap. */
  ghost predicate LoanAmountOk(loans: seq<LoanRow>, u: int, amount: Option<real>) {
    amount.Some? && 0.0 < amount.value <= LoanLimit
    && SumRemaining(loans, u) + amount.value <= TotalLoanCap
  }

  /** The keys a state's handler reads are set, and the loan values are the ones the
      earlier steps checked and computed. */
  ghost predicate SessionOk(loans: seq<LoanRow>, u: int, s: Session) {
    var d := s.data;
    match s.state
    case AwaitingName => d.telegramId == Some(u)
    case AwaitingEmail => d.telegramId == Some(u) && d.name.Some?
    case AwaitingPhone => d.telegramId == Some(u) && d.name.Some? && d.email.Some?
    case AwaitingAmount => d.transactionType.Some?
    case AwaitingTransferAmount => d.recipientId.Some? && d.recipientName.Some?
    case AwaitingLoanDuration => LoanAmountOk(loans, u, d.loanAmount)
    case ConfirmingLoan =>
      && LoanAmountOk(loans, u, d.loanAmount)
      && d.loanDuration.Some? && d.loanDuration.value in {3, 6, 12}
      && d.monthlyPayment == Some(LoanQuote.LoanQuote(d.loanAmount.value, d.loanDuration.value).monthlyPayment)
    case _ => true
  }

  ghost predicate SessionsOk(loans: seq<LoanRow>, sessions: map<int, Session>) {
    forall u :: u in sessions ==> SessionOk(loans, u, sessions[u])
  }

  /** A user's new loan leaves every other user's session as good as it was, and that
      user's own session is cleared. */
  lemma LoanKeepsSessions(loans: seq<LoanRow>, sessions: map<int, Session>, uid: int, row: LoanRow)
    requires SessionsOk(loans, sessions) && row.userId == uid
    ensures SessionsOk(loans + [row], sessions[uid := Cleared])
  {
    forall u | u in sessions && u != uid
      ensures SessionOk(loans + [row], u, sessions[u])
    {
      SumRemainingAppend(loans, row, u);
    }
  }

  /** Clearing a session keeps every session's checks true. */
  lemma ClearKeepsSessions(loans: seq<LoanRow>, sessions: map<int, Session>, uid: int)
    requires SessionsOk(loans, sessions)
    ensures SessionsOk(loans, sessions[uid := Cleared])
  {
  }

  /** Storing a session that meets its state's checks keeps every session's checks true. */
  lemma SetKeepsSessions(loans: seq<LoanRow>, sessions: map<int, Session>, uid: int, s: Session)
    requires SessionsOk(loans, sessions) && SessionOk(loans, uid, s)
    ensures SessionsOk(loans, sessions[uid := s])
  {
  }

  /** The users holding a phone number (phone is not unique). */
  function PhoneHolders(users: map<int, UserRow>, phone: string): (ids: set<int>)
    ensures forall id :: id in ids <==> id in users && users[id].phone == phone
  {
    set id | id in users && users[id].phone == phone
  }

  function Min(a: int, b: int): int {
    if a <= b then a else b
  }

  /** Every non-empty finite set of ids has a least element. */
  lemma {:induction false} LeastExists(s: set<int>)
    requires s != {}
    ensures exists m :: m in s && forall x :: x in s ==> m <= x
    decreases |s|
  {
    var x := Pick(s);
    if s - {x} != {} {
      LeastExists(s - {x});
      var m :| m in s - {x} && forall y :: y in s - {x} ==> m <= y;
      forall y | y in s
        ensures Min(x, m) <= y
      {
        if y != x {
          assert y in s - {x};
        }
      }
      assert Min(x, m) in s;
    } else {
      assert s == {x};
    }
  }

  /** The row a full scan of users meets first: users.id is the rowid, so the least id. */
  ghost function Least(s: set<int>): (m: int)
    requires s != {}
    ensures m in s && forall x :: x in s ==> m <= x
  {
    LeastExists(s);
    var m :| m in s && forall x :: x in s ==> m <= x; m
  }

  // ---------------------------------------------------------------------
  // The checks a handler passes before it advances or writes
  // ---------------------------------------------------------------------

  /** process_loan_amount: a positive amount within the per-loan limit that keeps the
      user's outstanding loans within the cap. */
  predicate LoanAmountAccepted(p: Option<real>, loans: seq<LoanRow>, uid: int) {
    IsPositiveAmount(p) && p.value <= LoanLimit && SumRemaining(loans, uid) + p.value <= TotalLoanCap
  }

  /** process_transaction_amount gets to its write: a positive amount, not a "loan" over
      the limit, a user with an account, and not a donation the balance does not cover. */
  ghost predicate TransactionProceeds(t: Tables, uid: int, kind: Option<TransactionType>, p: Option<real>) {
    && IsPositiveAmount(p) && kind.Some?
    && !(kind.value == LoanTransaction && p.value > LoanLimit)
    && HasAccount(t, uid)
    && !(kind.value == DonationTransaction && t.accounts[AccountIdOf(t, uid)].balance < p.value)
  }

  /** process_transfer_amount gets to its writes: a positive amount that the sender's
      account covers. Nothing is asked of the recipient. */
  ghost predicate TransferProceeds(t: Tables, uid: int, p: Option<real>) {
    IsPositiveAmount(p) && HasAccount(t, uid) && t.accounts[AccountIdOf(t, uid)].balance >= p.value
  }

  /** What one message leaves when the router gives it to handler h: the user's new
      session now and the new tables t2, from the user's session s and the tables t. */
  ghost predicate Outcome(h: Handler, uid: int, text: string, p: Option<real>,
                          s: Session, t: Tables, now: Session, t2: Tables)
    requires RunsIn(h, s.state) && Database.Valid(t) && SessionOk(t.loans, uid, s)
  {
    var d := s.data;
    match h
    case ToInitiateLoan => now == Session(AwaitingLoanAmount, d) && t2 == t
    case ToProcessLoanAmount =>
      && now == (if LoanAmountAccepted(p, t.loans, uid)
                 then Session(AwaitingLoanDuration, d.(loanAmount := p)) else s)
      && t2 == t
    case ToProcessLoanDuration =>
      && now == (if IsDurationText(text)
                 then var q := LoanQuote.LoanQuote(d.loanAmount.value, DurationOf(text));
                   Session(ConfirmingLoan, d.(loanDuration := Some(DurationOf(text)),
                     monthlyPayment := Some(q.monthlyPayment), totalRepayment := Some(q.totalRepayment)))
                 else s)
      && t2 == t
    case ToConfirmLoan =>
      && now == Cleared
      && (if IsYes(text)
          then LoanWrites(t, uid, d.loanAmount.value, d.loanDuration.value, d.monthlyPayment.value) == Ok(t2)
          else t2 == t)
    case ToRegisterUser | ToRegisterButton =>
      && now == (if uid in t.users then s else Session(AwaitingName, d.(telegramId := Some(uid))))
      && t2 == t
    case ToProcessName =>
      now == (if IsValidName(text) then Session(AwaitingEmail, d.(name := Some(text))) else s) && t2 == t
    case ToProcessEmail =>
      now == (if IsValidEmail(text) then Session(AwaitingPhone, d.(email := Some(text))) else s) && t2 == t
    case ToProcessPhone =>
      if IsValidPhone(text)
      then now == Cleared
        && t2 == Commit(RegistrationWrites(t, d.telegramId.value, d.name.value, d.email.value, text), t)
      else now == s && t2 == t
    case ToInitiateTransaction =>
      now == Session(AwaitingAmount, d.(transactionType := Some(DonationTransaction))) && t2 == t
    case ToProcessTransactionAmount =>
      if TransactionProceeds(t, uid, d.transactionType, p)
      then now == Cleared
        && SimpleTransactionWrites(t, AccountIdOf(t, uid), d.transactionType.value, p.value) == Ok(t2)
      else now == s && t2 == t
    case ToInitiateDeposit =>
      now == Session(AwaitingAmount, d.(transactionType := Some(DepositTransaction))) && t2 == t
    case ToInitiateTransfer => now == Session(AwaitingRecipientPhone, d) && t2 == t
    case ToGetTransferRecipient =>
      var holders := PhoneHolders(t.users, text);
      && now == (if holders == {} then Cleared
                 else Session(AwaitingTransferAmount,
                   d.(recipientId := Some(Least(holders)), recipientName := Some(t.users[Least(holders)].name))))
      && t2 == t
    case ToProcessTransferAmount =>
      if TransferProceeds(t, uid, p)
      then now == Cleared && t2 == Commit(TransferWrites(t, uid, d.recipientId.value, p.value), t)
      else now == s && t2 == t
    case ToStartBot | ToGetUserInfo | Unhandled => now == s && t2 == t
  }

  /** A confirmed loan, as Outcome gives it, clears the session, records the loan at the
      amount, duration and payment the conversation collected, and adds one 'Loan' row. */
  lemma ConfirmedLoanRecorded(uid: int, text: string, p: Option<real>,
                              s: Session, t: Tables, now: Session, t2: Tables)
    requires s.state == ConfirmingLoan && Database.Valid(t) && SessionOk(t.loans, uid, s)
    requires IsYes(text) && Outcome(ToConfirmLoan, uid, text, p, s, t, now, t2)
    ensures var d := s.data;
      && now == Cleared
      && t2.loans == t.loans + [NewLoan(uid, d.loanAmount.value, d.loanDuration.value, d.monthlyPayment.value)]
      && t2.transactions == t.transactions + [TxRow(uid, d.loanAmount.value, Loan)]
  {
    var d := s.data;
    LoanWritesEffect(t, uid, d.loanAmount.value, d.loanDuration.value, d.monthlyPayment.value);
  }

  // ---------------------------------------------------------------------
  // The bot
  // ---------------------------------------------------------------------

  /** The MemoryStorage of FSM contexts, one per user, and the database they write to. */
  class Bot {
    /** The database file. */
    const db: Store
    /** Python's float() on a message text: None where it raises ValueError. */
    const parseFloat: string -> Option<real>
    var sessions: map<int, Session>

    /** The FSM context of a user. */
    function SessionOf(uid: int): Session
      reads this
    {
      if uid in sessions then sessions[uid] else Cleared
    }

    ghost predicate Valid()
      reads this, db
    {
      Database.Valid(db.tables) && Consistent(db.tables) && SessionsOk(db.tables.loans, sessions)
    }

    /** No session holds transaction_type "loan": the router never lets initiate_transaction
        see the loan button. */
    ghost predicate NoLoanType()
      reads this
    {
      forall u :: u in sessions ==> sessions[u].data.transactionType != Some(LoanTransaction)
    }

    constructor (parse: string -> Option<real>)
      ensures Valid() && NoLoanType()
      ensures sessions == map[] && db.tables == Empty && parseFloat == parse
      ensures fresh(db)
    {
      db := new Store();
      parseFloat := parse;
      sessions := map[];
      EmptyConsistent();
    }

    /** initiate_loan: any state, on the loan button. */
    method InitiateLoan(uid: int)
      requires Valid()
      modifies this
      ensures Valid()
      ensures forall u :: u != uid ==> SessionOf(u) == old(SessionOf(u))
      ensures old(NoLoanType()) ==> NoLoanType()
      ensures sessions == old(sessions)[uid := Session(AwaitingLoanAmount, old(SessionOf(uid)).data)]
    {
      sessions := sessions[uid := Session(AwaitingLoanAmount, SessionOf(uid).data)];
    }

    /** process_loan_amount: advance only with a positive amount within the per-loan limit
        that keeps the user's outstanding loans within the cap; otherwise nothing changes. */
    method ProcessLoanAmount(uid: int, text: string)
      requires Valid() && SessionOf(uid).state == AwaitingLoanAmount
      modifies this
      ensures Valid()
      ensures forall u :: u != uid ==> SessionOf(u) == old(SessionOf(u))
      ensures old(NoLoanType()) ==> NoLoanType()
      ensures var p := parseFloat(text);
        sessions == if LoanAmountAccepted(p, db.tables.loans, uid)
                    then old(sessions)[uid := Session(AwaitingLoanDuration, old(SessionOf(uid)).data.(loanAmount := p))]
                    else old(sessions)
    {
      var parsed := parseFloat(text);
      if !IsPositiveAmount(parsed) {
        return;
      }
      var amount := parsed.value;
      if amount > LoanLimit {
        return;
      }
      var totalOutstanding := SumRemaining(db.tables.loans, uid);
      if totalOutstanding + amount > TotalLoanCap {
        return;
      }
      sessions := sessions[uid := Session(AwaitingLoanDuration, SessionOf(uid).data.(loanAmount := Some(amount)))];
    }

    /** process_loan_duration: advance only on "3", "6" or "12", storing the quote. */
    method ProcessLoanDuration(uid: int, text: string)
      requires Valid() && SessionOf(uid).state == AwaitingLoanDuration
      modifies this
      ensures Valid()
      ensures forall u :: u != uid ==> SessionOf(u) == old(SessionOf(u))
      ensures old(NoLoanType()) ==> NoLoanType()
      ensures var d := old(SessionOf(uid)).data;
        sessions == if IsDurationText(text)
                    then var q := LoanQuote.LoanQuote(d.loanAmount.value, DurationOf(text));
                      old(sessions)[uid := Session(ConfirmingLoan,
                        d.(loanDuration := Some(DurationOf(text)), monthlyPayment := Some(q.monthlyPayment),
                           totalRepayment := Some(q.totalRepayment)))]
                    else old(sessions)
    {
      if !IsDurationText(text) {
        return;
      }
      var duration := DurationOf(text);
      var data := SessionOf(uid).data;
      var q := LoanQuote.LoanQuote(data.loanAmount.value, duration);
      sessions := sessions[uid := Session(ConfirmingLoan,
        data.(loanDuration := Some(duration), monthlyPayment := Some(q.monthlyPayment),
              totalRepayment := Some(q.totalRepayment)))];
    }

    /** confirm_loan: anything but "yes" cancels. On "yes" the statements run as written:
        every account of the user is credited, a 'Loan' row keyed by the Telegram id fires
        the trigger on the account with that id, and the loan row is recorded at its
        principal; they commit together, and the session is cleared either way. Nothing
        checks that the user is registered, and the loan always passes the loans CHECKs. */
    method ConfirmLoan(uid: int, text: string)
      requires Valid() && SessionOf(uid).state == ConfirmingLoan
      modifies this, db
      ensures var d := old(SessionOf(uid)).data;
        var t := old(db.tables);
        var loan := NewLoan(uid, d.loanAmount.value, d.loanDuration.value, d.monthlyPayment.value);
        && sessions == old(sessions)[uid := Cleared]
        && (!IsYes(text) ==> db.tables == t)
        && (IsYes(text) ==>
              && LoanWrites(t, uid, loan.loanAmount, loan.durationMonths, loan.monthlyPayment) == Ok(db.tables)
              && db.tables.loans == t.loans + [loan]
              && db.tables.transactions == t.transactions + [TxRow(uid, loan.loanAmount, Loan)])
      ensures Valid()
      ensures forall u :: u != uid ==> SessionOf(u) == old(SessionOf(u))
      ensures old(NoLoanType()) ==> NoLoanType()
    {
      if IsYes(text) {
        var data := SessionOf(uid).data;
        var amount, duration, monthly := data.loanAmount.value, data.loanDuration.value, data.monthlyPayment.value;
        var t := db.tables;
        QuotePositive(amount, duration);
        LoanWritesEffect(t, uid, amount, duration, monthly);
        LoanCommitConsistent(t, uid, amount, duration, monthly);
        var work := LoanWrites(t, uid, amount, duration, monthly);
        assert work.Ok?;
        LoanKeepsSessions(t.loans, sessions, uid, NewLoan(uid, amount, duration, monthly));
        db.tables := Commit(work, t);
      }
      sessions := sessions[uid := Cleared];
    }

    /** register_user (and the Register button): a user not yet in users starts
        registration; a registered one changes nothing. */
    method RegisterUser(uid: int)
      requires Valid()
      modifies this
      ensures Valid()
      ensures forall u :: u != uid ==> SessionOf(u) == old(SessionOf(u))
      ensures old(NoLoanType()) ==> NoLoanType()
      ensures sessions == if uid in db.tables.users then old(sessions)
                          else old(sessions)[uid := Session(AwaitingName, old(SessionOf(uid)).data.(telegramId := Some(uid)))]
    {
      if uid in db.tables.users {
        return;
      }
      sessions := sessions[uid := Session(AwaitingName, SessionOf(uid).data.(telegramId := Some(uid)))];
    }

    /** process_name: an invalid name changes nothing. */
    method ProcessName(uid: int, text: string)
      requires Valid() && SessionOf(uid).state == AwaitingName
      modifies this
      ensures Valid()
      ensures forall u :: u != uid ==> SessionOf(u) == old(SessionOf(u))
      ensures old(NoLoanType()) ==> NoLoanType()
      ensures sessions == if IsValidName(text)
                          then old(sessions)[uid := Session(AwaitingEmail, old(SessionOf(uid)).data.(name := Some(text)))]
                          else old(sessions)
    {
      if IsValidName(text) {
        var next := Session(AwaitingEmail, SessionOf(uid).data.(name := Some(text)));
        SetKeepsSessions(db.tables.loans, sessions, uid, next);
        sessions := sessions[uid := next];
      }
    }

    /** process_email: an invalid email changes nothing. */
    method ProcessEmail(uid: int, text: string)
      requires Valid() && SessionOf(uid).state == AwaitingEmail
      modifies this
      ensures Valid()
      ensures forall u :: u != uid ==> SessionOf(u) == old(SessionOf(u))
      ensures old(NoLoanType()) ==> NoLoanType()
      ensures sessions == if IsValidEmail(text)
                          then old(sessions)[uid := Session(AwaitingPhone, old(SessionOf(uid)).data.(email := Some(text)))]
                          else old(sessions)
    {
      if IsValidEmail(text) {
        var next := Session(AwaitingPhone, SessionOf(uid).data.(email := Some(text)));
        SetKeepsSessions(db.tables.loans, sessions, uid, next);
        sessions := sessions[uid := next];
      }
    }

    /** process_phone: an invalid phone changes nothing; a valid one, stored as typed,
        commits the user and the account together or neither, and clears the session. */
    method ProcessPhone(uid: int, text: string)
      requires Valid() && SessionOf(uid).state == AwaitingPhone
      modifies this, db
      ensures Valid()
      ensures forall u :: u != uid ==> SessionOf(u) == old(SessionOf(u))
      ensures old(NoLoanType()) ==> NoLoanType()
      ensures var d := old(SessionOf(uid)).data;
        var work := RegistrationWrites(old(db.tables), d.telegramId.value, d.name.value, d.email.value, text);
        && sessions == (if IsValidPhone(text) then old(sessions)[uid := Cleared] else old(sessions))
        && db.tables == (if IsValidPhone(text) then Commit(work, old(db.tables)) else old(db.tables))
    {
      if !IsValidPhone(text) {
        return;
      }
      var data := SessionOf(uid).data;
      var t := db.tables;
      var work := RegistrationWrites(t, data.telegramId.value, data.name.value, data.email.value, text);
      RegistrationEffect(t, data.telegramId.value, data.name.value, data.email.value, text);
      if work.Ok? {
        db.tables := work.value;
      }
      sessions := sessions[uid := Cleared];
    }

    /** initiate_transaction: "loan" for the loan button, "donation" otherwise. */
    method InitiateTransaction(uid: int, text: string)
      requires Valid()
      modifies this
      ensures Valid()
      ensures forall u :: u != uid ==> SessionOf(u) == old(SessionOf(u))
      ensures text != TakeLoanButton && old(NoLoanType()) ==> NoLoanType()
      ensures var kind := if text == TakeLoanButton then LoanTransaction else DonationTransaction;
        sessions == old(sessions)[uid := Session(AwaitingAmount, old(SessionOf(uid)).data.(transactionType := Some(kind)))]
    {
      var kind := if text == TakeLoanButton then LoanTransaction else DonationTransaction;
      sessions := sessions[uid := Session(AwaitingAmount, SessionOf(uid).data.(transactionType := Some(kind)))];
    }

    /** process_transaction_amount: an invalid amount, a "loan" over the limit, or a
        donation the balance does not cover changes nothing and keeps the state; a user
        without an account makes the handler raise before any write. Otherwise one row of
        the signed amount lands on the user's account and the session is cleared. */
    method ProcessTransactionAmount(uid: int, text: string)
      requires Valid() && SessionOf(uid).state == AwaitingAmount
      modifies this, db
      ensures Valid()
      ensures forall u :: u != uid ==> SessionOf(u) == old(SessionOf(u))
      ensures old(NoLoanType()) ==> NoLoanType()
      ensures var p := parseFloat(text);
        var kind := old(SessionOf(uid)).data.transactionType.value;
        var t := old(db.tables);
        var proceeds := TransactionProceeds(t, uid, old(SessionOf(uid)).data.transactionType, p);
        && sessions == (if proceeds then old(sessions)[uid := Cleared] else old(sessions))
        && (!proceeds ==> db.tables == t)
        && (proceeds ==>
              && SimpleTransactionWrites(t, AccountIdOf(t, uid), kind, p.value) == Ok(db.tables)
              && db.tables.accounts[AccountIdOf(t, uid)].balance
                   == t.accounts[AccountIdOf(t, uid)].balance + SignedAmount(kind, p.value))
    {
      var parsed := parseFloat(text);
      var kind := SessionOf(uid).data.transactionType;
      var t := db.tables;
      if IsPositiveAmount(parsed) && !(kind.value == LoanTransaction && parsed.value > LoanLimit) && HasAccount(t, uid) {
        var amount := parsed.value;
        var accountId :| accountId in t.accounts && t.accounts[accountId].userId == uid;
        assert accountId == AccountIdOf(t, uid);
        if !(kind.value == DonationTransaction && t.accounts[accountId].balance < amount) {
          assert TransactionProceeds(t, uid, kind, parsed);
          SimpleTransactionConsistent(t, accountId, kind.value, amount);
          db.tables := SimpleTransactionWrites(t, accountId, kind.value, amount).value;
          ClearKeepsSessions(t.loans, sessions, uid);
          sessions := sessions[uid := Cleared];
        } else {
          assert !TransactionProceeds(t, uid, kind, parsed);
        }
      } else {
        assert !TransactionProceeds(t, uid, kind, parsed);
      }
    }

    /** initiate_deposit: any state, on the deposit button. */
    method InitiateDeposit(uid: int)
      requires Valid()
      modifies this
      ensures Valid()
      ensures forall u :: u != uid ==> SessionOf(u) == old(SessionOf(u))
      ensures old(NoLoanType()) ==> NoLoanType()
      ensures sessions == old(sessions)[uid := Session(AwaitingAmount,
                old(SessionOf(uid)).data.(transactionType := Some(DepositTransaction)))]
    {
      sessions := sessions[uid := Session(AwaitingAmount, SessionOf(uid).data.(transactionType := Some(DepositTransaction)))];
    }

    /** initiate_transfer: any state, on the transfer button. */
    method InitiateTransfer(uid: int)
      requires Valid()
      modifies this
      ensures Valid()
      ensures forall u :: u != uid ==> SessionOf(u) == old(SessionOf(u))
      ensures old(NoLoanType()) ==> NoLoanType()
      ensures sessions == old(sessions)[uid := Session(AwaitingRecipientPhone, old(SessionOf(uid)).data)]
    {
      sessions := sessions[uid := Session(AwaitingRecipientPhone, SessionOf(uid).data)];
    }

    /** get_transfer_recipient: the first user with exactly this phone becomes the
        recipient; an unknown phone clears the session. */
    method GetTransferRecipient(uid: int, text: string)
      requires Valid() && SessionOf(uid).state == AwaitingRecipientPhone
      modifies this
      ensures Valid()
      ensures forall u :: u != uid ==> SessionOf(u) == old(SessionOf(u))
      ensures old(NoLoanType()) ==> NoLoanType()
      ensures var holders := PhoneHolders(db.tables.users, text);
        sessions == if holders == {} then old(sessions)[uid := Cleared]
                    else var id := Least(holders);
                      old(sessions)[uid := Session(AwaitingTransferAmount,
                        old(SessionOf(uid)).data.(recipientId := Some(id), recipientName := Some(db.tables.users[id].name)))]
    {
      var holders := PhoneHolders(db.tables.users, text);
      if holders == {} {
        sessions := sessions[uid := Cleared];
        return;
      }
      LeastExists(holders);
      var id :| id in holders && forall x :: x in holders ==> id <= x;
      assert id == Least(holders);
      var name := db.tables.users[id].name;
      sessions := sessions[uid := Session(AwaitingTransferAmount,
        SessionOf(uid).data.(recipientId := Some(id), recipientName := Some(name)))];
    }

    /** process_transfer_amount: an invalid amount, or one the sender's balance does not
        cover, changes nothing and keeps the state (the early return skips the clear); a
        sender without an account makes the balance lookup raise before any write.
        Otherwise the four statements run as written, commit together or not at all, and
        the session is cleared either way. The recipient's account is not looked up. */
    method ProcessTransferAmount(uid: int, text: string)
      requires Valid() && SessionOf(uid).state == AwaitingTransferAmount
      modifies this, db
      ensures var p := parseFloat(text);
        var recipientId := old(SessionOf(uid)).data.recipientId.value;
        var t := old(db.tables);
        && sessions == (if TransferProceeds(t, uid, p) then old(sessions)[uid := Cleared] else old(sessions))
        && db.tables == (if TransferProceeds(t, uid, p) then Commit(TransferWrites(t, uid, recipientId, p.value), t) else t)
      ensures Valid()
      ensures forall u :: u != uid ==> SessionOf(u) == old(SessionOf(u))
      ensures old(NoLoanType()) ==> NoLoanType()
    {
      var parsed := parseFloat(text);
      var t := db.tables;
      if IsPositiveAmount(parsed) && HasAccount(t, uid) {
        var amount := parsed.value;
        var from :| from in t.accounts && t.accounts[from].userId == uid;
        assert from == AccountIdOf(t, uid);
        if t.accounts[from].balance >= amount {
          assert TransferProceeds(t, uid, parsed);
          var recipientId := SessionOf(uid).data.recipientId.value;
          TransferCommitConsistent(t, uid, recipientId, amount);
          ClearKeepsSessions(t.loans, sessions, uid);
          db.tables := Commit(TransferWrites(t, uid, recipientId, amount), t);
          sessions := sessions[uid := Cleared];
        } else {
          assert !TransferProceeds(t, uid, parsed);
        }
      } else {
        assert !TransferProceeds(t, uid, parsed);
      }
    }

    /** The loan conversation: the loan button, the amount, the duration, the confirmation. */
    method HandleLoan(uid: int, text: string)
      requires Route(SessionOf(uid).state, text) in {ToInitiateLoan, ToProcessLoanAmount, ToProcessLoanDuration, ToConfirmLoan}
      requires Valid()
      modifies this, db
      ensures Valid()
      ensures old(NoLoanType()) ==> NoLoanType()
      ensures forall u :: u != uid ==> SessionOf(u) == old(SessionOf(u))
      ensures db.tables != old(db.tables) ==>
        Route(old(SessionOf(uid)).state, text) in {ToConfirmLoan}
      ensures Outcome(Route(old(SessionOf(uid)).state, text), uid, text, parseFloat(text),
                      old(SessionOf(uid)), old(db.tables), SessionOf(uid), db.tables)
    {
      match Route(SessionOf(uid).state, text)
      case ToInitiateLoan => InitiateLoan(uid);
      case ToProcessLoanAmount => ProcessLoanAmount(uid, text);
      case ToProcessLoanDuration => ProcessLoanDuration(uid, text);
      case ToConfirmLoan => ConfirmLoan(uid, text);
    }

    /** Registration: the command or button, then name, e-mail and phone. */
    method HandleRegistration(uid: int, text: string)
      requires Route(SessionOf(uid).state, text) in {ToRegisterUser, ToRegisterButton, ToProcessName, ToProcessEmail, ToProcessPhone}
      requires Valid()
      modifies this, db
      ensures Valid()
      ensures old(NoLoanType()) ==> NoLoanType()
      ensures forall u :: u != uid ==> SessionOf(u) == old(SessionOf(u))
      ensures db.tables != old(db.tables) ==>
        Route(old(SessionOf(uid)).state, text) in {ToProcessPhone}
      ensures Outcome(Route(old(SessionOf(uid)).state, text), uid, text, parseFloat(text),
                      old(SessionOf(uid)), old(db.tables), SessionOf(uid), db.tables)
    {
      match Route(SessionOf(uid).state, text)
      case ToRegisterUser => RegisterUser(uid);
      case ToRegisterButton => RegisterUser(uid);
      case ToProcessName => ProcessName(uid, text);
      case ToProcessEmail => ProcessEmail(uid, text);
      case ToProcessPhone => ProcessPhone(uid, text);
    }

    /** Donations and deposits: the button, then the amount. */
    method HandleTransaction(uid: int, text: string)
      requires Route(SessionOf(uid).state, text) in {ToInitiateTransaction, ToProcessTransactionAmount, ToInitiateDeposit}
      requires Valid()
      modifies this, db
      ensures Valid()
      ensures old(NoLoanType()) ==> NoLoanType()
      ensures forall u :: u != uid ==> SessionOf(u) == old(SessionOf(u))
      ensures db.tables != old(db.tables) ==>
        Route(old(SessionOf(uid)).state, text) in {ToProcessTransactionAmount}
      ensures Outcome(Route(old(SessionOf(uid)).state, text), uid, text, parseFloat(text),
                      old(SessionOf(uid)), old(db.tables), SessionOf(uid), db.tables)
    {
      match Route(SessionOf(uid).state, text)
      case ToInitiateTransaction => InitiateTransaction(uid, text);
      case ToProcessTransactionAmount => ProcessTransactionAmount(uid, text);
      case ToInitiateDeposit => InitiateDeposit(uid);
    }

    /** Transfers: the button, the recipient's phone, then the amount. */
    method HandleTransfer(uid: int, text: string)
      requires Route(SessionOf(uid).state, text) in {ToInitiateTransfer, ToGetTransferRecipient, ToProcessTransferAmount}
      requires Valid()
      modifies this, db
      ensures Valid()
      ensures old(NoLoanType()) ==> NoLoanType()
      ensures forall u :: u != uid ==> SessionOf(u) == old(SessionOf(u))
      ensures db.tables != old(db.tables) ==>
        Route(old(SessionOf(uid)).state, text) in {ToProcessTransferAmount}
      ensures Outcome(Route(old(SessionOf(uid)).state, text), uid, text, parseFloat(text),
                      old(SessionOf(uid)), old(db.tables), SessionOf(uid), db.tables)
    {
      match Route(SessionOf(uid).state, text)
      case ToInitiateTransfer => InitiateTransfer(uid);
      case ToGetTransferRecipient => GetTransferRecipient(uid, text);
      case ToProcessTransferAmount => ProcessTransferAmount(uid, text);
    }

    /** One text message from a user, given to the handler the router picks: the user's
        new session and the new tables are the ones Outcome gives for that handler, the
        handlers that only reply change nothing, other users' sessions are untouched, only
        the four committing handlers write the ledger, and transaction_type "loan" never
        appears. */
    method Handle(uid: int, text: string)
      requires Valid()
      modifies this, db
      ensures Valid()
      ensures old(NoLoanType()) ==> NoLoanType()
      ensures forall u :: u != uid ==> SessionOf(u) == old(SessionOf(u))
      ensures db.tables != old(db.tables) ==>
        Route(old(SessionOf(uid)).state, text)
          in {ToConfirmLoan, ToProcessPhone, ToProcessTransactionAmount, ToProcessTransferAmount}
      ensures Route(old(SessionOf(uid)).state, text) in {ToStartBot, ToGetUserInfo, Unhandled} ==>
        sessions == old(sessions) && db.tables == old(db.tables)
      ensures Outcome(Route(old(SessionOf(uid)).state, text), uid, text, parseFloat(text),
                      old(SessionOf(uid)), old(db.tables), SessionOf(uid), db.tables)
    {
      var h := Route(SessionOf(uid).state, text);
      if h in {ToInitiateLoan, ToProcessLoanAmount, ToProcessLoanDuration, ToConfirmLoan} {
        HandleLoan(uid, text);
      } else if h in {ToRegisterUser, ToRegisterButton, ToProcessName, ToProcessEmail, ToProcessPhone} {
        HandleRegistration(uid, text);
      } else if h in {ToInitiateTransaction, ToProcessTransactionAmount, ToInitiateDeposit} {
        HandleTransaction(uid, text);
      } else if h !in {ToStartBot, ToGetUserInfo, Unhandled} {
        HandleTransfer(uid, text);
      }
    }
  }
}
