# Single-account teller, modelled in Dafny

`banco.py` is a console teller for one account. It keeps three variables:
the balance (`saldo`), the statement text (`extrato`) and the number of
withdrawals made (`numero_saques`). It has two fixed limits: 500 per
withdrawal (`limite`) and 3 withdrawals in all (`LIMITE_SAQUES`). A menu
loop offers four options: deposit, withdraw, show the statement, exit.

This project lifts that loop out of its console I/O into pure transitions:

- `account.dfy` (module `Account`) holds the state and the limits.
  `MakeDeposit` and `MakeWithdrawal` take a state and an amount and return
  the next state with an `Outcome`: `Ok`, `InvalidAmount`,
  `InsufficientFunds`, `OverLimit` or `CountExceeded`. `Statement` returns
  what option 3 shows. The invariant `Valid` says four things:
  - the balance is never negative;
  - the counter is at most 3 and equals the number of withdrawal lines;
  - the balance equals deposits minus withdrawals over the statement;
  - every recorded line has a positive amount, and a withdrawal line is within the ceiling.
- `statement_text.dfy` (module `StatementText`) renders the statement as
  the text the program accumulates. The two-decimal amount formatter is a
  parameter. Lemmas tie the text to the model: each accepted movement
  appends exactly its line, and the text is empty exactly when option 3
  reports no movement.
- `menu.dfy` (module `Menu`) turns typed options into commands. `Run` is a
  whole session that stops at the first exit. `Teller` is the same loop
  written as a `while` loop and is proved equal to `Run`. The session lemmas
  cover three things:
  - every reachable state satisfies `Valid`;
  - no session accepts more than three withdrawals;
  - nothing after an exit runs.

Amounts are Dafny `real`s, so arithmetic is exact.

The withdrawal guards follow `banco.py`: funds first, then the ceiling, then
the count, then the amount's sign. The class-based program in
`Otimizando Sistema Bancario.py` checks in a different order (count, ceiling,
then funds). Where the two differ, this model follows `banco.py`.

The refusal message for the counter says "daily", but the counter never
resets: it counts every withdrawal of the session. The model keeps that
behaviour.

## Model

| member | source | states |
|---|---|---|
| `Account.Initial` | banco.py:9-13 | The session starts with balance 0, an empty statement and no withdrawals, and that state satisfies the invariant. |
| `Account.MakeDeposit` | banco.py:18-24 | A deposit is accepted exactly when the amount is positive. It then raises the balance by exactly the amount, appends one deposit line and leaves the counter alone. Otherwise it reports an invalid amount and changes nothing. |
| `Account.MakeWithdrawal` | banco.py:26-39 | The refusal reported is the first failing guard in the code's order. Insufficient funds exactly when amount > balance, whatever the ceiling or counter say. Over the limit exactly when amount <= balance but > 500. Count exceeded exactly when both pass but 3 withdrawals were already made. Invalid amount when those pass and amount <= 0. Acceptance exactly when 0 < amount <= balance, amount <= 500 and the count < 3: it debits the amount, appends one withdrawal line and adds 1 to the counter. Every refusal leaves the state unchanged. |
| `Account.Statement` | banco.py:41-48 | The statement reports "no movement" exactly when nothing was ever recorded. Otherwise it shows the recorded lines in order. Both forms show the current balance. |
| `Account.DepositPreservesValid` | banco.py:18-24 | A deposit, accepted or refused, keeps the invariant: the balance is non-negative and equals the statement's net total, and the counter matches the withdrawal lines. |
| `Account.WithdrawalPreservesValid` | banco.py:26-39 | A withdrawal, accepted or refused, keeps the invariant. In particular the funds guard keeps the balance non-negative and the count guard keeps the counter at most 3. |
| `Account.WithdrawalUndoesDeposit` | banco.py:20-37 | Take an amount within the ceiling, a counter below 3 and a non-negative balance. A withdrawal of that amount just after depositing it is always accepted, and with exact amounts it restores both the balance and the statement's net total. |
| `StatementText.Render` | banco.py:11-46 | The statement text is the history's lines, oldest first. It is empty exactly when nothing was recorded, which is what the `if not extrato` test relies on. |
| `StatementText.RenderConcat` | banco.py:22-36 | The statement text of two histories in sequence is the first's text followed by the second's. Appending to `extrato` line by line is the same as rendering the whole history. |
| `StatementText.DepositAppendsLine` | banco.py:22 | An accepted deposit extends the statement text by exactly one "Depósito: R$ <amount>" line. |
| `StatementText.WithdrawalAppendsLine` | banco.py:34-36 | An accepted withdrawal extends the statement text by exactly one "Saque: R$ <amount>" line. A refused one leaves the text as it was. |
| `StatementText.NoMovementIffTextEmpty` | banco.py:43-46 | The "no movement" notice is shown exactly when the statement text is empty. |
| `Menu.Dispatch` | banco.py:16-54 | The typed option can always be recovered from the command it becomes. It is unknown exactly when it is not one of "1".."4". Deposit and withdrawal commands carry the amount that was typed. |
| `Menu.DispatchRoundTrip` | banco.py:18-53 | Every command the menu can produce is what its own key and amount dispatch to. |
| `Menu.Step` | banco.py:18-54 | One pass of the loop body. Option 1 gives exactly the deposit's new state and outcome, option 2 exactly the withdrawal's, and option 3 shows the current statement. The statement only grows, by at most one line, and never changes its earlier lines. The counter advances exactly when a withdrawal is accepted. The statement option and an unknown option leave the state untouched. |
| `Menu.StepPreservesValid` | banco.py:18-54 | Every option other than exit keeps the invariant. |
| `Menu.Run` | banco.py:15-54 | A session gives exactly one reply per command typed before the first exit. The statement only grows and keeps its earlier lines. The counter never goes down. |
| `Menu.BeforeExit` | banco.py:50-51 | Counts the commands before the first exit: none of them is an exit, and the command right after them, if any, is one. |
| `Menu.RunOne` | banco.py:15-54 | A session of a single non-exit command is exactly one pass of the loop body. |
| `Menu.RunSplit` | banco.py:15-54 | Commands run in order: a session splits at any point before the first exit. The second part starts from the state the first left, and the replies are the first part's followed by the second's. |
| `Menu.RunPreservesValid` | banco.py:15-54 | From a valid state, any sequence of options leads to a valid state. |
| `Menu.ReachableStateIsValid` | banco.py:9-37 | From the initial state, after any options, the whole invariant holds. The balance is >= 0. The counter is <= 3. The counter equals the number of withdrawal lines. The balance equals deposits minus withdrawals. Every recorded amount is positive, and every withdrawal is within the ceiling. |
| `Menu.RunStopsAtExit` | banco.py:50-51 | Exit ends the session. The commands after the first exit affect neither the final state nor the replies. |
| `Menu.InertCommandLeavesRun` | banco.py:41-54 | Inserting a statement request or an unknown option anywhere before the first exit adds one reply and does not change the final state. |
| `Menu.RunCountsWithdrawals` | banco.py:32-37 | Over a session, the counter advances by exactly the number of accepted withdrawals. |
| `Menu.AtMostThreeWithdrawals` | banco.py:12-37 | No session, whatever is typed, has more than three withdrawals accepted. |
| `Menu.Teller` | banco.py:15-54 | The loop version of the menu computes exactly the final state and replies of `Run`, and it ends in a valid state. |

## Left out

- Console I/O: the `input()` prompts and every `print` message are left out. Messages are represented by the `Outcome` and `Reply` values, and the statement's header, balance line and footer are represented by `StatementView`.
- Parsing amounts with `float(...)`: the model receives an already-parsed amount. An unparsable amount makes the program stop with an exception, and the model does not include that.
- Floating point: amounts and the balance are exact `real`s. IEEE-754 rounding of `saldo += valor` and `saldo -= valor` is not modelled, and neither are NaN or infinite inputs.
- The two-decimal formatting of amounts in statement lines is not modelled: the formatter is a function parameter of `StatementText.Render`, and every lemma holds for any formatter.
- `Otimizando Sistema Bancario.py` is not part of this model. It is a separate class-based program with clients, several accounts, a daily transaction cap and per-account history timestamps.
- The program waits for input forever until option 4 is chosen. The model takes a finite list of commands, and a session also ends when that list runs out. End of input is not modelled: in the program it raises an exception.
