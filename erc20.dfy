/** The fungible token ledger traded on an exchange: balances, allowances and a
    total supply fixed at construction. */
module Erc20 {
  import opened Base
  import opened Ledger

  class Erc20 {
    /** Fixed at construction; no message writes it again. */
    var totalSupply: nat
    var balances: Balances
    var allowances: map<(AccountId, AccountId), nat>

    /** Every token ever minted sits in some balance. */
    ghost predicate Valid()
      reads this
    {
      Sum(balances) == totalSupply
    }

    /** `new`: the deploying caller holds the whole initial supply. */
    constructor (caller: AccountId, initialSupply: nat)
      ensures Valid()
      ensures totalSupply == initialSupply
      ensures balances == map[caller := initialSupply] && allowances == map[]
    {
      totalSupply := initialSupply;
      balances := map[caller := initialSupply];
      allowances := map[];
      new;
      SumSingleton(caller, initialSupply);
    }

    /** `balance_of`: absent accounts hold zero. */
    function BalanceOf(owner: AccountId): (r: nat)
      reads this
      ensures owner !in balances ==> r == 0
      ensures owner in balances ==> r == balances[owner]
    {
      Get(balances, owner)
    }

    /** `allowance`: absent (owner, spender) pairs are allowed zero. */
    function Allowance(owner: AccountId, spender: AccountId): (r: nat)
      reads this
      ensures (owner, spender) !in allowances ==> r == 0
      ensures (owner, spender) in allowances ==> r == allowances[(owner, spender)]
    {
      Get(allowances, (owner, spender))
    }

    /** `approve`: overwrite (not add to) the caller's allowance for spender. */
    method Approve(caller: AccountId, spender: AccountId, value: nat) returns (ok: bool)
      modifies this`allowances
      ensures ok
      ensures allowances == old(allowances)[(caller, spender) := value]
      ensures Allowance(caller, spender) == value
    {
      allowances := allowances[(caller, spender) := value];
      ok := true;
    }

    /** `transfer_from_to`: refuse (false, nothing changed) when the sender is
        short; otherwise move value and keep the sum of balances. */
    method TransferFromTo(from: AccountId, to: AccountId, value: nat) returns (ok: bool)
      requires Valid()
      modifies this`balances
      ensures Valid()
      ensures ok <==> value <= old(BalanceOf(from))
      ensures ok ==> balances == Move(old(balances), from, to, value)
      ensures !ok ==> balances == old(balances)
    {
      var fromBalance := BalanceOf(from);
      if fromBalance < value {
        return false;
      }
      balances := balances[from := fromBalance - value];
      var toBalance := BalanceOf(to);
      balances := balances[to := toBalance + value];
      MovePreservesSum(old(balances), from, to, value);
      ok := true;
    }

    /** `transfer`: a move out of the caller's own balance. */
    method Transfer(caller: AccountId, to: AccountId, value: nat) returns (ok: bool)
      requires Valid()
      modifies this`balances
      ensures Valid()
      ensures ok <==> value <= old(BalanceOf(caller))
      ensures balances == if ok then Move(old(balances), caller, to, value) else old(balances)
    {
      ok := TransferFromTo(caller, to, value);
    }

    /** `transfer_from`: the allowance checks are commented out in this ledger,
        so any caller may move any holder's tokens; no allowance is read or
        spent, and the caller does not take part. */
    method TransferFrom(from: AccountId, to: AccountId, value: nat) returns (ok: bool)
      requires Valid()
      modifies this`balances
      ensures Valid()
      ensures ok <==> value <= old(BalanceOf(from))
      ensures balances == if ok then Move(old(balances), from, to, value) else old(balances)
    {
      ok := TransferFromTo(from, to, value);
    }
  }

  /** The ledger's own unit tests: a 100-token ledger lets its owner send 10,
      then refuses a second transfer of 100; a transfer_from moves the owner's
      tokens although nobody ever approved anything. */
  method TransferScenario(owner: AccountId, other: AccountId)
    returns (sent: bool, refused: bool, unapproved: bool)
    requires owner != other
    ensures sent && refused && unapproved
  {
    var t := new Erc20(owner, 100);
    assert t.BalanceOf(owner) == 100 && t.BalanceOf(other) == 0;
    sent := t.Transfer(owner, other, 10);
    assert t.BalanceOf(other) == 10 && t.BalanceOf(owner) == 90;
    var again := t.Transfer(owner, other, 100);
    refused := !again;
    assert t.BalanceOf(other) == 10 && t.allowances == map[];
    unapproved := t.TransferFrom(owner, other, 10);
    assert t.BalanceOf(other) == 20 && t.totalSupply == 100;
  }
}
