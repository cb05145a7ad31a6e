/**
  The menu loop of the teller: each chosen option becomes a command, each
  command is one transition of the account state, and the session ends at the
  first "exit" (option 4). `Run` is the session as a function; `Teller` is the
  same loop written as a loop, proved to compute what `Run` computes.
 */
module Menu {
  import Account

  /** A menu choice, with the amount read for options 1 and 2. */
  datatype Command =
    | Deposit(amount: real)
    | Withdraw(amount: real)
    | ShowStatement
    | Exit
    | Unknown(option: string)

  /** What the teller answers to one command (exit has no answer: the loop stops). */
  datatype Reply =
    | Deposited(outcome: Account.Outcome)
    | Withdrew(outcome: Account.Outcome)
    | Shown(view: Account.StatementView)
    | InvalidOption

  /** The menu keys the loop recognises. */
  const Keys: set<string> := {"1", "2", "3", "4"}

  /** The key typed to choose a command; an unrecognised choice keeps what was typed. */
  function Key(c: Command): string
  {
    match c
    case Deposit(_) => "1"
    case Withdraw(_) => "2"
    case ShowStatement => "3"
    case Exit => "4"
    case Unknown(o) => o
  }

  /** The amount a command carries; zero for the options that read none. */
  function AmountOf(c: Command): real
  {
    match c
    case Deposit(a) => a
    case Withdraw(a) => a
    case _ => 0.0
  }

  /** A command the menu can actually produce: an unknown one never carries a valid key. */
  predicate Canonical(c: Command)
  {
    c.Unknown? ==> c.option !in Keys
  }

  /**
    Turns the typed option (and, for options 1 and 2, the amount typed next)
    into a command. The typed text is always recovered from the command.
   */
  function Dispatch(option: string, amount: real): (c: Command)
    ensures Key(c) == option
    ensures Canonical(c)
    ensures c.Unknown? <==> option !in Keys
    ensures c.Deposit? || c.Withdraw? ==> AmountOf(c) == amount
  {
    if option == "1" then Deposit(amount)
    else if option == "2" then Withdraw(amount)
    else if option == "3" then ShowStatement
    else if option == "4" then Exit
    else Unknown(option)
  }

  /** Every command the menu can produce is what its own key and amount dispatch to. */
  lemma DispatchRoundTrip(c: Command)
    requires Canonical(c)
    ensures Dispatch(Key(c), AmountOf(c)) == c
  {
  }

  /**
    One pass of the loop body for any option but exit. Option 1 runs the
    deposit, option 2 the withdrawal, option 3 shows the current statement.
    The statement is only ever extended, by at most one line; the withdrawal
    counter moves exactly when a withdrawal is accepted; the statement option
    and an unknown option change nothing.
   */
  function Step(s: Account.State, c: Command): (r: (Account.State, Reply))
    requires !c.Exit?
    ensures |s.history| <= |r.0.history| <= |s.history| + 1
    ensures r.0.history[..|s.history|] == s.history
    ensures r.0.withdrawals == s.withdrawals + (if r.1 == Withdrew(Account.Ok) then 1 else 0)
    ensures c.ShowStatement? || c.Unknown? ==> r.0 == s
    ensures r.1.InvalidOption? <==> c.Unknown?
    ensures r.1.Shown? <==> c.ShowStatement?
    ensures c.Deposit? ==>
      var d := Account.MakeDeposit(s, c.amount); r == (d.0, Deposited(d.1))
    ensures c.Withdraw? ==>
      var w := Account.MakeWithdrawal(s, c.amount); r == (w.0, Withdrew(w.1))
    ensures c.ShowStatement? ==> r.1 == Shown(Account.Statement(s))
  {
    match c
    case Deposit(a) =>
      var (s', o) := Account.MakeDeposit(s, a);
      (s', Deposited(o))
    case Withdraw(a) =>
      var (s', o) := Account.MakeWithdrawal(s, a);
      (s', Withdrew(o))
    case ShowStatement => (s, Shown(Account.Statement(s)))
    case Unknown(_) => (s, InvalidOption)
  }

  lemma StepPreservesValid(s: Account.State, c: Command)
    requires !c.Exit?
    requires Account.Valid(s)
    ensures Account.Valid(Step(s, c).0)
  {
  }

  /** Number of commands typed before the first exit (all of them if there is none). */
  function BeforeExit(cmds: seq<Command>): (n: nat)
    ensures n <= |cmds|
    ensures forall i :: 0 <= i < n ==> !cmds[i].Exit?
    ensures n < |cmds| ==> cmds[n].Exit?
  {
    if cmds == [] || cmds[0].Exit? then 0 else 1 + BeforeExit(cmds[1..])
  }

  /**
    A session from state `s`: the commands are applied in order up to, not
    including, the first exit; the replies are collected in order, one per
    command before the exit. The statement only grows, and the withdrawal
    counter never goes down.
   */
  function Run(s: Account.State, cmds: seq<Command>): (r: (Account.State, seq<Reply>))
    ensures |r.1| == BeforeExit(cmds)
    ensures |s.history| <= |r.0.history| && r.0.history[..|s.history|] == s.history
    ensures s.withdrawals <= r.0.withdrawals
    decreases |cmds|
  {
    if cmds == [] || cmds[0].Exit? then (s, [])
    else
      var (s', reply) := Step(s, cmds[0]);
      var (t, replies) := Run(s', cmds[1..]);
      (t, [reply] + replies)
  }

  /** A session of one command other than exit is exactly one pass of the loop body. */
  lemma RunOne(s: Account.State, c: Command)
    requires !c.Exit?
    ensures Run(s, [c]) == (Step(s, c).0, [Step(s, c).1])
  {
    assert [c][0] == c && [c][1..] == [];
    assert Run(Step(s, c).0, []) == (Step(s, c).0, []);
    assert [Step(s, c).1] + [] == [Step(s, c).1];
  }

  /**
    A session splits at any point before the first exit: the second part
    starts from the state the first part left, and the replies are those of
    the first part followed by those of the second.
   */
  lemma {:induction false} RunSplit(s: Account.State, a: seq<Command>, b: seq<Command>)
    requires forall i :: 0 <= i < |a| ==> !a[i].Exit?
    ensures var first := Run(s, a);
            var second := Run(first.0, b);
            Run(s, a + b) == (second.0, first.1 + second.1)
    decreases |a|
  {
    if a == [] {
      assert a + b == b;
      assert [] + Run(s, b).1 == Run(s, b).1;
    } else {
      var s1 := Step(s, a[0]).0;
      var reply := Step(s, a[0]).1;
      assert (a + b)[0] == a[0];
      assert (a + b)[1..] == a[1..] + b;
      RunSplit(s1, a[1..], b);
      var rest := Run(s1, a[1..]);
      var second := Run(rest.0, b);
      assert Run(s, a) == (rest.0, [reply] + rest.1);
      assert Run(s, a + b) == (second.0, [reply] + (rest.1 + second.1));
      assert [reply] + (rest.1 + second.1) == ([reply] + rest.1) + second.1;
    }
  }

  lemma {:induction false} RunPreservesValid(s: Account.State, cmds: seq<Command>)
    requires Account.Valid(s)
    ensures Account.Valid(Run(s, cmds).0)
    decreases |cmds|
  {
    if cmds != [] && !cmds[0].Exit? {
      StepPreservesValid(s, cmds[0]);
      RunPreservesValid(Step(s, cmds[0]).0, cmds[1..]);
    }
  }

  /**
    Whatever options are chosen from the start, the balance is never negative,
    at most three withdrawals are recorded, the counter equals the number of
    withdrawal lines, the balance is what the statement adds up to, and every
    recorded line is one the teller could have accepted.
   */
  lemma ReachableStateIsValid(cmds: seq<Command>)
    ensures var f := Run(Account.Initial(), cmds).0;
            && f.balance >= 0.0
            && f.withdrawals <= Account.MaxWithdrawals
            && f.withdrawals == Account.CountWithdrawals(f.history)
            && f.balance == Account.Net(f.history)
            && Account.Valid(f)
  {
    RunPreservesValid(Account.Initial(), cmds);
  }

  /** Exit ends the session: nothing after the first exit is ever executed. */
  lemma {:induction false} RunStopsAtExit(s: Account.State, cmds: seq<Command>, rest: seq<Command>)
    requires forall i :: 0 <= i < |cmds| ==> !cmds[i].Exit?
    ensures Run(s, cmds + [Exit] + rest) == Run(s, cmds)
    decreases |cmds|
  {
    var all := cmds + [Exit] + rest;
    if cmds == [] {
      assert all[0] == Exit;
    } else {
      assert all[0] == cmds[0];
      assert all[1..] == cmds[1..] + [Exit] + rest;
      RunStopsAtExit(Step(s, cmds[0]).0, cmds[1..], rest);
    }
  }

  /**
    A statement request or an unknown option typed anywhere before the first
    exit adds one reply and leaves the session's final state as it was.
   */
  lemma {:induction false} InertCommandLeavesRun(s: Account.State, a: seq<Command>, c: Command, b: seq<Command>)
    requires forall i :: 0 <= i < |a| ==> !a[i].Exit?
    requires c.ShowStatement? || c.Unknown?
    ensures Run(s, a + [c] + b).0 == Run(s, a + b).0
    ensures |Run(s, a + [c] + b).1| == |Run(s, a + b).1| + 1
    decreases |a|
  {
    if a == [] {
      assert a + [c] + b == [c] + b;
      assert ([c] + b)[1..] == b;
      assert a + b == b;
    } else {
      assert (a + [c] + b)[0] == a[0] && (a + b)[0] == a[0];
      assert (a + [c] + b)[1..] == a[1..] + [c] + b;
      assert (a + b)[1..] == a[1..] + b;
      InertCommandLeavesRun(Step(s, a[0]).0, a[1..], c, b);
    }
  }

  /** Number of accepted withdrawals among a sequence of replies. */
  function AcceptedWithdrawals(replies: seq<Reply>): nat
  {
    if replies == [] then 0
    else (if replies[0] == Withdrew(Account.Ok) then 1 else 0) + AcceptedWithdrawals(replies[1..])
  }

  /** The withdrawal counter advances by exactly the number of accepted withdrawals replied. */
  lemma {:induction false} RunCountsWithdrawals(s: Account.State, cmds: seq<Command>)
    ensures AcceptedWithdrawals(Run(s, cmds).1) == Run(s, cmds).0.withdrawals - s.withdrawals
    decreases |cmds|
  {
    if cmds != [] && !cmds[0].Exit? {
      var (s', reply) := Step(s, cmds[0]);
      var (t, replies) := Run(s', cmds[1..]);
      assert Run(s, cmds) == (t, [reply] + replies);
      assert ([reply] + replies)[1..] == replies;
      RunCountsWithdrawals(s', cmds[1..]);
    }
  }

  /** No session accepts more than three withdrawals, whatever is typed. */
  lemma AtMostThreeWithdrawals(cmds: seq<Command>)
    ensures AcceptedWithdrawals(Run(Account.Initial(), cmds).1) <= Account.MaxWithdrawals
  {
    RunCountsWithdrawals(Account.Initial(), cmds);
    RunPreservesValid(Account.Initial(), cmds);
  }

  /**
    The loop of the teller: read commands until exit or until the input runs
    out, answering each one. It computes exactly the session `Run` describes,
    and it never leaves the account in a state that breaks the invariant.
   */
  method Teller(cmds: seq<Command>) returns (s: Account.State, replies: seq<Reply>)
    ensures (s, replies) == Run(Account.Initial(), cmds)
    ensures Account.Valid(s)
  {
    s := Account.Initial();
    replies := [];
    var i := 0;
    assert cmds[i..] == cmds;
    assert replies + Run(s, cmds).1 == Run(s, cmds).1;
    while i < |cmds| && !cmds[i].Exit?
      invariant 0 <= i <= |cmds|
      invariant Account.Valid(s)
      invariant Run(Account.Initial(), cmds) == (Run(s, cmds[i..]).0, replies + Run(s, cmds[i..]).1)
      decreases |cmds| - i
    {
      var (s', reply) := Step(s, cmds[i]);
      StepPreservesValid(s, cmds[i]);
      assert cmds[i..][1..] == cmds[i + 1..];
      assert replies + ([reply] + Run(s', cmds[i + 1..]).1) == (replies + [reply]) + Run(s', cmds[i + 1..]).1;
      s, replies := s', replies + [reply];
      i := i + 1;
    }
    assert i < |cmds| ==> cmds[i..][0] == cmds[i];
    assert replies + [] == replies;
  }
}
