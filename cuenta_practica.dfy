/**
 * The second bank account (`cuenta_bancaria` of `practic.py`). Its deposit and withdrawal
 * follow the same guards as `CuentaBancaria`, but its `nuevo_saldo` writes an attribute
 * `_saldo` that nothing reads, so the reported balance `__saldo_inicial` is untouched.
 */
module CashAccount {
  import opened Wrappers
  import opened BankAccount

  /** `cuenta_bancaria`. */
  class Account {
    /** `__titular`. */
    const holder: string
    /** `__saldo_inicial`: the balance `consultar_saldo` and `mostrar_informacion` report. */
    var balance: real
    /** `_saldo`: absent until `nuevo_saldo` first accepts a value. */
    var saved: Option<real>

    /** The holder and the opening balance `__init__` reads; the balance is not checked. */
    constructor (holder: string, opening: real)
      ensures this.holder == holder && balance == opening && saved.None?
    {
      this.holder := holder;
      balance := opening;
      saved := None;
    }

    /** `consultar_saldo`, which prints the balance; returning it stands for that print. */
    method ConsultBalance() returns (r: real)
      ensures r == balance
    {
      r := balance;
    }

    /** `nuevo_saldo`: a non-negative value is stored in `_saldo`; the reported balance never changes. */
    method NewBalance(value: real)
      modifies this
      ensures balance == old(balance)
      ensures saved == if value >= 0.0 then Some(value) else old(saved)
    {
      if value >= 0.0 {
        saved := Some(value);
      }
    }

    /** `depositar_cash`. */
    method DepositCash(amount: real)
      modifies this
      ensures balance == AfterDeposit(old(balance), amount) && saved == old(saved)
    {
      if amount > 0.0 {
        balance := balance + amount;
      }
    }

    /** `retirar`. */
    method Withdraw(amount: real)
      modifies this
      ensures balance == AfterWithdraw(old(balance), amount) && saved == old(saved)
    {
      if 0.0 < amount <= balance {
        balance := balance - amount;
      }
    }
  }

  /** The calls this account accepts; `nuevo_saldo` is one that leaves the balance alone. */
  datatype Call = DepositCall(amount: real) | WithdrawCall(amount: real) | NewBalanceCall(value: real)

  /** The reported balance after one call. */
  function Step(balance: real, call: Call): real {
    match call
    case DepositCall(a) => AfterDeposit(balance, a)
    case WithdrawCall(a) => AfterWithdraw(balance, a)
    case NewBalanceCall(_) => balance
  }

  /** The reported balance after a sequence of calls. */
  function ReportedAfter(balance: real, calls: seq<Call>): real
    decreases |calls|
  {
    if calls == [] then balance else ReportedAfter(Step(balance, calls[0]), calls[1..])
  }

  /** The same calls on `CuentaBancaria`, where `set_saldo` does change the balance. */
  function AsBankOperations(calls: seq<Call>): seq<Operation>
    decreases |calls|
  {
    if calls == [] then []
    else
      var op := match calls[0]
        case DepositCall(a) => DepositOp(a)
        case WithdrawCall(a) => WithdrawOp(a)
        case NewBalanceCall(v) => SetOp(v);
      [op] + AsBankOperations(calls[1..])
  }

  /** Without `nuevo_saldo` the two accounts agree call for call. */
  lemma {:induction false} AgreesWithBankAccount(balance: real, calls: seq<Call>)
    requires forall i :: 0 <= i < |calls| ==> !calls[i].NewBalanceCall?
    ensures ReportedAfter(balance, calls) == Run(balance, AsBankOperations(calls))
    decreases |calls|
  {
    if calls != [] {
      assert forall i :: 0 <= i < |calls[1..]| ==> !calls[1..][i].NewBalanceCall? by {
        forall i | 0 <= i < |calls[1..]| ensures !calls[1..][i].NewBalanceCall? {
          assert calls[1..][i] == calls[i + 1];
        }
      }
      var ops := AsBankOperations(calls);
      assert ops[1..] == AsBankOperations(calls[1..]);
      AgreesWithBankAccount(Apply(balance, ops[0]), calls[1..]);
    }
  }

  /** The reported balance never goes from non-negative to negative. */
  lemma {:induction false} ReportedKeepsNonNegative(balance: real, calls: seq<Call>)
    requires balance >= 0.0
    ensures ReportedAfter(balance, calls) >= 0.0
    decreases |calls|
  {
    if calls != [] {
      match calls[0] {
        case DepositCall(a) => OperationsKeepNonNegative(balance, a);
        case WithdrawCall(a) => OperationsKeepNonNegative(balance, a);
        case NewBalanceCall(_) =>
      }
      ReportedKeepsNonNegative(Step(balance, calls[0]), calls[1..]);
    }
  }

  /** `nuevo_saldo` is never seen in the report: dropping it changes nothing. */
  lemma NewBalanceIsInvisible(balance: real, value: real, calls: seq<Call>)
    ensures ReportedAfter(balance, [NewBalanceCall(value)] + calls) == ReportedAfter(balance, calls)
  {
    assert ([NewBalanceCall(value)] + calls)[1..] == calls;
  }
}
