/**
  The single-account teller: its state (balance, statement, withdrawals made),
  its two fixed limits, and the pure transitions for a deposit, a withdrawal
  and a statement request. Every operation returns the next state together
  with an outcome, so refusals are values rather than console messages.
 */
module Account {

  /** Ceiling on the amount of one withdrawal (`limite`). */
  const WithdrawalCeiling: real := 500.0

  /** Number of withdrawals allowed in a session (`LIMITE_SAQUES`). */
  const MaxWithdrawals: nat := 3

  /** One line of the statement: which movement it was, and its amount. */
  datatype Movement = Deposit(amount: real) | Withdrawal(amount: real)

  /** The teller's three variables: `saldo`, `extrato`, `numero_saques`. */
  datatype State = State(balance: real, history: seq<Movement>, withdrawals: nat)

  /** What the teller answers to a deposit or a withdrawal. */
  datatype Outcome = Ok | InvalidAmount | InsufficientFunds | OverLimit | CountExceeded

  /** What the statement option shows: a "no movement" notice or the movements, then the balance. */
  datatype StatementView =
    | NoMovement(balance: real)
    | Movements(entries: seq<Movement>, balance: real)

  /** The state before any option is chosen. */
  function Initial(): (s: State)
    ensures Valid(s)
    ensures s.history == [] && s.balance == 0.0 && s.withdrawals == 0
  {
    State(0.0, [], 0)
  }

  /** The effect of one movement on the balance. */
  function Signed(m: Movement): real
  {
    match m
    case Deposit(a) => a
    case Withdrawal(a) => -a
  }

  /**
    Sum of deposits minus sum of withdrawals over a statement. It walks the
    history from its newest line, the end where the teller appends, so one
    unfolding relates a state to the state before its last movement.
   */
  function Net(h: seq<Movement>): real
  {
    if h == [] then 0.0 else Net(h[..|h| - 1]) + Signed(h[|h| - 1])
  }

  /** Number of withdrawal lines in a statement, walked from the newest line like `Net`. */
  function CountWithdrawals(h: seq<Movement>): nat
  {
    if h == [] then 0
    else CountWithdrawals(h[..|h| - 1]) + (if h[|h| - 1].Withdrawal? then 1 else 0)
  }

  /** A movement the teller can record: a positive amount, and a withdrawal within the ceiling. */
  predicate WellFormed(m: Movement)
  {
    m.amount > 0.0 && (m.Withdrawal? ==> m.amount <= WithdrawalCeiling)
  }

  /**
    The invariant of every reachable state: the balance is never negative, the
    withdrawal counter stays within its limit and agrees with the statement, the
    balance is exactly what the statement adds up to, and every recorded line is
    one the teller could have accepted.
   */
  ghost predicate Valid(s: State)
  {
    && s.balance >= 0.0
    && s.withdrawals <= MaxWithdrawals
    && s.withdrawals == CountWithdrawals(s.history)
    && s.balance == Net(s.history)
    && forall i :: 0 <= i < |s.history| ==> WellFormed(s.history[i])
  }

  /** Option 1: a positive amount is credited and logged; anything else is refused. */
  function MakeDeposit(s: State, amount: real): (r: (State, Outcome))
    ensures r.1 == Ok <==> amount > 0.0
    ensures r.1 != Ok ==> r.1 == InvalidAmount && r.0 == s
    ensures r.1 == Ok ==>
      && r.0.balance == s.balance + amount
      && r.0.history == s.history + [Deposit(amount)]
      && r.0.withdrawals == s.withdrawals
  {
    if amount > 0.0 then
      (State(s.balance + amount, s.history + [Deposit(amount)], s.withdrawals), Ok)
    else
      (s, InvalidAmount)
  }

  /**
    Option 2: the guards run in a fixed order (funds, ceiling, count, positive
    amount) and the first one that fails names the refusal. Only when all pass
    is the amount debited, logged and counted.
   */
  function MakeWithdrawal(s: State, amount: real): (r: (State, Outcome))
    ensures r.1 == InsufficientFunds <==> amount > s.balance
    ensures r.1 == OverLimit <==> amount <= s.balance && amount > WithdrawalCeiling
    ensures r.1 == CountExceeded <==>
      amount <= s.balance && amount <= WithdrawalCeiling && s.withdrawals >= MaxWithdrawals
    ensures r.1 == InvalidAmount <==>
      amount <= s.balance && amount <= 0.0 && s.withdrawals < MaxWithdrawals
    ensures r.1 == Ok <==>
      0.0 < amount <= s.balance && amount <= WithdrawalCeiling && s.withdrawals < MaxWithdrawals
    ensures r.1 != Ok ==> r.0 == s
    ensures r.1 == Ok ==>
      && r.0.balance == s.balance - amount
      && r.0.history == s.history + [Withdrawal(amount)]
      && r.0.withdrawals == s.withdrawals + 1
  {
    if amount > s.balance then (s, InsufficientFunds)
    else if amount > WithdrawalCeiling then (s, OverLimit)
    else if s.withdrawals >= MaxWithdrawals then (s, CountExceeded)
    else if amount > 0.0 then
      (State(s.balance - amount, s.history + [Withdrawal(amount)], s.withdrawals + 1), Ok)
    else (s, InvalidAmount)
  }

  /** Option 3: read-only; "no movement" exactly when nothing was ever recorded. */
  function Statement(s: State): (v: StatementView)
    ensures v.balance == s.balance
    ensures v.NoMovement? <==> s.history == []
    ensures v.Movements? ==> v.entries == s.history
  {
    if s.history == [] then NoMovement(s.balance) else Movements(s.history, s.balance)
  }

  lemma DepositPreservesValid(s: State, amount: real)
    requires Valid(s)
    ensures Valid(MakeDeposit(s, amount).0)
  {
  }

  lemma WithdrawalPreservesValid(s: State, amount: real)
    requires Valid(s)
    ensures Valid(MakeWithdrawal(s, amount).0)
  {
  }

  /**
    A withdrawal of an amount just deposited is accepted when it is within the
    ceiling and the counter allows it, and it brings the balance and the
    statement's net total back to where they were.
   */
  lemma WithdrawalUndoesDeposit(s: State, amount: real)
    requires 0.0 < amount <= WithdrawalCeiling
    requires s.balance >= 0.0 && s.withdrawals < MaxWithdrawals
    ensures var d := MakeDeposit(s, amount).0;
            var w := MakeWithdrawal(d, amount);
            && w.1 == Ok
            && w.0.balance == s.balance
            && Net(w.0.history) == Net(s.history)
            && w.0.withdrawals == s.withdrawals + 1
  {
  }
}
