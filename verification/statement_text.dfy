/**
  The statement as the teller keeps it: a text that grows by one line per
  accepted movement. The amount formatter (two decimals) is a parameter, so
  every property here holds whatever that formatting is.
 */
module StatementText {
  import Account

  /** The fixed prefix of a statement line for each kind of movement. */
  function Label(m: Account.Movement): string
  {
    match m
    case Deposit(_) => "Depósito: R$ "
    case Withdrawal(_) => "Saque: R$ "
  }

  /** The line appended to the statement text when a movement is accepted. */
  function Line(m: Account.Movement, fmt: real -> string): string
  {
    Label(m) + fmt(m.amount) + "\n"
  }

  /** The statement text for a history: its lines, oldest first. */
  function Render(h: seq<Account.Movement>, fmt: real -> string): (text: string)
    ensures text == "" <==> h == []
  {
    if h == [] then "" else Line(h[0], fmt) + Render(h[1..], fmt)
  }

  /** Rendering distributes over concatenating histories. */
  lemma {:induction false} RenderConcat(a: seq<Account.Movement>, b: seq<Account.Movement>, fmt: real -> string)
    ensures Render(a + b, fmt) == Render(a, fmt) + Render(b, fmt)
    decreases |a|
  {
    if a == [] {
      assert a + b == b;
    } else {
      assert (a + b)[0] == a[0];
      assert (a + b)[1..] == a[1..] + b;
      RenderConcat(a[1..], b, fmt);
    }
  }

  /** An accepted deposit adds exactly its "Depósito" line to the end of the text. */
  lemma DepositAppendsLine(s: Account.State, amount: real, fmt: real -> string)
    requires amount > 0.0
    ensures Render(Account.MakeDeposit(s, amount).0.history, fmt)
         == Render(s.history, fmt) + ("Depósito: R$ " + fmt(amount) + "\n")
  {
    var m := Account.Deposit(amount);
    RenderConcat(s.history, [m], fmt);
    assert [m][1..] == [];
    assert Render([m], fmt) == Line(m, fmt);
  }

  /** An accepted withdrawal adds exactly its "Saque" line; a refused one leaves the text alone. */
  lemma WithdrawalAppendsLine(s: Account.State, amount: real, fmt: real -> string)
    ensures var r := Account.MakeWithdrawal(s, amount);
            Render(r.0.history, fmt) ==
              if r.1 == Account.Ok then Render(s.history, fmt) + ("Saque: R$ " + fmt(amount) + "\n")
              else Render(s.history, fmt)
  {
    var r := Account.MakeWithdrawal(s, amount);
    if r.1 == Account.Ok {
      var m := Account.Withdrawal(amount);
      assert r.0.history == s.history + [m];
      RenderConcat(s.history, [m], fmt);
      assert [m][1..] == [];
      assert Render([m], fmt) == Line(m, fmt);
    }
  }

  /** The statement option reports "no movement" exactly when the statement text is empty. */
  lemma NoMovementIffTextEmpty(s: Account.State, fmt: real -> string)
    ensures Account.Statement(s).NoMovement? <==> Render(s.history, fmt) == ""
  {
  }
}
