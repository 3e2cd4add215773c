/**
 * The bank account of `jn.py` (`CuentaBancaria`): a holder fixed at construction and a
 * balance that the guarded operations change. Amounts are Python floats, modelled as reals;
 * the messages the operations print are not modelled.
 */
module BankAccount {

  /** The balance after `depositar(amount)`: raised by positive amounts only. */
  function AfterDeposit(balance: real, amount: real): real {
    if amount > 0.0 then balance + amount else balance
  }

  /** The balance after `retirar(amount)`: lowered only by a positive amount it covers. */
  function AfterWithdraw(balance: real, amount: real): real {
    if 0.0 < amount <= balance then balance - amount else balance
  }

  /** The balance after `set_saldo(value)`: replaced only by a non-negative value. */
  function AfterSet(balance: real, value: real): real {
    if value >= 0.0 then value else balance
  }

  /** Each operation changes the balance exactly when its guard holds. */
  lemma GuardsDecide(balance: real, amount: real)
    ensures AfterDeposit(balance, amount) != balance <==> amount > 0.0
    ensures AfterDeposit(balance, amount) >= balance
    ensures AfterWithdraw(balance, amount) != balance <==> 0.0 < amount <= balance
    ensures AfterWithdraw(balance, amount) <= balance
    ensures AfterSet(balance, amount) != balance ==> amount >= 0.0
    ensures amount >= 0.0 ==> AfterSet(balance, amount) == amount
  {
  }

  /** None of the operations makes a non-negative balance negative. */
  lemma OperationsKeepNonNegative(balance: real, amount: real)
    requires balance >= 0.0
    ensures AfterDeposit(balance, amount) >= 0.0
    ensures AfterWithdraw(balance, amount) >= 0.0
    ensures AfterSet(balance, amount) >= 0.0
  {
  }

  /**
   * Withdrawing a positive amount just deposited gives a non-negative balance back; an
   * opening balance below zero (the constructor does not check it) keeps the deposit.
   */
  lemma DepositThenWithdraw(balance: real, amount: real)
    requires amount > 0.0
    ensures balance >= 0.0 ==> AfterWithdraw(AfterDeposit(balance, amount), amount) == balance
    ensures balance < 0.0 ==> AfterWithdraw(AfterDeposit(balance, amount), amount) == balance + amount
  {
  }

  /** One call on the account. */
  datatype Operation = DepositOp(amount: real) | WithdrawOp(amount: real) | SetOp(value: real)

  function Apply(balance: real, op: Operation): real {
    match op
    case DepositOp(a) => AfterDeposit(balance, a)
    case WithdrawOp(a) => AfterWithdraw(balance, a)
    case SetOp(v) => AfterSet(balance, v)
  }

  /** The balance after a sequence of calls, in order. */
  function Run(balance: real, ops: seq<Operation>): real
    decreases |ops|
  {
    if ops == [] then balance else Run(Apply(balance, ops[0]), ops[1..])
  }

  /** However the account is used, a non-negative balance never goes negative. */
  lemma {:induction false} RunKeepsNonNegative(balance: real, ops: seq<Operation>)
    requires balance >= 0.0
    ensures Run(balance, ops) >= 0.0
    decreases |ops|
  {
    if ops != [] {
      match ops[0] {
        case DepositOp(a) => OperationsKeepNonNegative(balance, a);
        case WithdrawOp(a) => OperationsKeepNonNegative(balance, a);
        case SetOp(v) => OperationsKeepNonNegative(balance, v);
      }
      RunKeepsNonNegative(Apply(balance, ops[0]), ops[1..]);
    }
  }

  /**
   * Without `set_saldo`, the balance never exceeds the opening balance plus everything
   * offered for deposit.
   */
  lemma {:induction false} RunBoundedByDeposits(balance: real, ops: seq<Operation>)
    requires forall i :: 0 <= i < |ops| ==> !ops[i].SetOp?
    ensures Run(balance, ops) <= balance + Offered(ops)
    decreases |ops|
  {
    if ops != [] {
      assert forall i :: 0 <= i < |ops[1..]| ==> !ops[1..][i].SetOp? by {
        forall i | 0 <= i < |ops[1..]| ensures !ops[1..][i].SetOp? {
          assert ops[1..][i] == ops[i + 1];
        }
      }
      RunBoundedByDeposits(Apply(balance, ops[0]), ops[1..]);
    }
  }

  /** The sum of the positive amounts offered for deposit. */
  function Offered(ops: seq<Operation>): real
    decreases |ops|
  {
    if ops == [] then 0.0
    else (if ops[0].DepositOp? && ops[0].amount > 0.0 then ops[0].amount else 0.0) + Offered(ops[1..])
  }

  /** `CuentaBancaria`. */
  class Account {
    /** `__titular`: no operation changes it. */
    const holder: string
    /** `__saldo`. */
    var balance: real

    /** The holder and the opening balance `__init__` reads; the balance is not checked. */
    constructor (holder: string, opening: real)
      ensures this.holder == holder && balance == opening
    {
      this.holder := holder;
      balance := opening;
    }

    /** `get_saldo`. */
    method GetBalance() returns (r: real)
      ensures r == balance
    {
      r := balance;
    }

    /** `set_saldo`. */
    method SetTo(value: real)
      modifies this
      ensures balance == AfterSet(old(balance), value)
    {
      if value >= 0.0 {
        balance := value;
      }
    }

    /** `depositar`. */
    method Deposit(amount: real)
      modifies this
      ensures balance == AfterDeposit(old(balance), amount)
    {
      if amount > 0.0 {
        balance := balance + amount;
      }
    }

    /** `retirar`. */
    method Withdraw(amount: real)
      modifies this
      ensures balance == AfterWithdraw(old(balance), amount)
    {
      if 0.0 < amount <= balance {
        balance := balance - amount;
      }
    }
  }
}
