/** The token bridge: `withdraw` debits the caller and queues a transfer on
    the token contract (WDLT); `deposit` credits the caller for a token
    transfer to this contract, once per transaction. What the host's
    network clients would answer is passed in as a `DepositOracle`. */
module Bridge {
  import opened AnsTypes
  import opened Lookup
  import opened Validation
  import opened Invariants
  import opened LabelEconomy
  import Registry

  /** `_validateDepositTransaction`: the transaction is new, the caller owns
      it, and the token contract marks it valid; checked in that order. */
  function ValidateDepositTransaction(deposits: seq<string>, tx: string, caller: string,
                                      oracle: DepositOracle): (r: Result<()>)
    ensures r.Ok? <==> tx !in deposits && oracle.ownerAddress == caller
                       && tx in oracle.validity && oracle.validity[tx]
    ensures tx in deposits ==> r == Err(DuplicatedTx)
    ensures tx !in deposits && oracle.ownerAddress != caller ==> r == Err(InvalidDepositor)
    ensures tx !in deposits && oracle.ownerAddress == caller && !(tx in oracle.validity && oracle.validity[tx])
            ==> r == Err(InvalidDepositTx)
  {
    if tx in deposits then Err(DuplicatedTx)
    else if oracle.ownerAddress != caller then Err(InvalidDepositor)
    else if tx !in oracle.validity || !oracle.validity[tx] then Err(InvalidDepositTx)
    else Ok(())
  }

  /** The decoded `Input` of a deposit names the token contract's `transfer`
      with this contract as its target. */
  predicate IsTransferToContract(input: DepositInput, contractId: string)
  {
    input.qty.Some? && input.func == Str("transfer") && input.target == Str(contractId)
  }

  /** `_getDepositQty`: the `qty` of the transaction's `Input` tag, when that
      input calls `transfer` with this contract as target. */
  function GetDepositQty(oracle: DepositOracle, contractId: string): (r: Result<int>)
    ensures r.Ok? <==> oracle.input.Some? && IsTransferToContract(oracle.input.value, contractId)
    ensures r.Ok? ==> r.value == oracle.input.value.qty.value
    ensures oracle.input.None? ==> r == Err(MissingRequiredTag)
    ensures oracle.input.Some? && (oracle.input.value.qty.None? || oracle.input.value.func == Undefined)
            ==> r == Err(MissingInputProperty)
    ensures (oracle.input.Some? && oracle.input.value.qty.Some? && oracle.input.value.func != Undefined
             && oracle.input.value.func != Str("transfer")) ==> r == Err(WrongFcpFunction)
    ensures (oracle.input.Some? && oracle.input.value.qty.Some? && oracle.input.value.func == Str("transfer")
             && oracle.input.value.target != Str(contractId)) ==> r == Err(InvalidTarget)
  {
    if oracle.input.None? then Err(MissingRequiredTag)
    else
      var input := oracle.input.value;
      if input.qty.None? then Err(MissingInputProperty)
      else if input.func == Undefined then Err(MissingInputProperty)
      else if input.func != Str("transfer") then Err(WrongFcpFunction)
      else if input.target != Str(contractId) then Err(InvalidTarget)
      else Ok(input.qty.value)
  }

  /** The foreign call a withdrawal of `qty` by `caller` queues. */
  function WithdrawalCall(caller: string, qty: real): (c: ForeignCall)
    ensures c.contract == WDLT
    ensures c.input.name == "transfer" && c.input.target == caller && c.input.qty == qty
  {
    ForeignCall(WDLT, Invocation("transfer", caller, qty))
  }

  /** `withdraw`: a registered caller takes a whole, positive amount no larger
      than its balance out of the contract. */
  function Withdraw(s: State, caller: string, qty: Value, host: Host): (r: Result<State>)
    ensures r.Ok? <==> Registered(s.balances, caller) && qty.Num? && IsInteger(qty.n)
                       && 0.0 < qty.n <= s.balances[caller]
    ensures !Registered(s.balances, caller) ==> r == Err(CallerNotRegistered)
    ensures Registered(s.balances, caller) && ValidateWithdrawQty(qty, s.balances[caller]).Err?
            ==> r == Err(ValidateWithdrawQty(qty, s.balances[caller]).error)
    ensures r.Ok? ==> r.value == s.(balances := s.balances[caller := s.balances[caller] - qty.n],
                                    foreignCalls := s.foreignCalls + [WithdrawalCall(caller, qty.n)],
                                    withdrawals := s.withdrawals + [host.txId])
  {
    if !Registered(s.balances, caller) then Err(CallerNotRegistered)
    else
      var amount :- ValidateWithdrawQty(qty, s.balances[caller]);
      Ok(s.(balances := s.balances[caller := s.balances[caller] - amount],
            foreignCalls := s.foreignCalls + [WithdrawalCall(caller, amount)],
            withdrawals := s.withdrawals + [host.txId]))
  }

  /** `deposit`: credits the caller (starting from zero when it has no
      truthy balance) with the amount of a valid, not yet counted token
      transfer, and records the transaction. */
  function Deposit(s: State, caller: string, tx: string, oracle: DepositOracle, host: Host): (r: Result<State>)
    ensures r.Ok? <==> ValidateDepositTransaction(s.deposits, tx, caller, oracle).Ok?
                       && GetDepositQty(oracle, host.contractId).Ok?
    ensures r.Ok? ==>
      var qty := oracle.input.value.qty.value;
      var base := if Registered(s.balances, caller) then s.balances[caller] else 0.0;
      r.value == s.(balances := s.balances[caller := base + qty as real], deposits := s.deposits + [tx])
    ensures ValidateDepositTransaction(s.deposits, tx, caller, oracle).Err?
            ==> r == Err(ValidateDepositTransaction(s.deposits, tx, caller, oracle).error)
    ensures ValidateDepositTransaction(s.deposits, tx, caller, oracle).Ok? && GetDepositQty(oracle, host.contractId).Err?
            ==> r == Err(GetDepositQty(oracle, host.contractId).error)
  {
    var _ :- ValidateDepositTransaction(s.deposits, tx, caller, oracle);
    var qty :- GetDepositQty(oracle, host.contractId);
    var base := if Registered(s.balances, caller) then s.balances[caller] else 0.0;
    Ok(s.(balances := s.balances[caller := base + qty as real], deposits := s.deposits + [tx]))
  }

  // ----- properties -----

  /** A withdrawal keeps the invariant, moves exactly the debited amount to
      the queued call and leaves every other balance alone. */
  lemma WithdrawPreservesValid(s: State, caller: string, qty: Value, host: Host)
    requires Valid(s)
    requires Withdraw(s, caller, qty, host).Ok?
    ensures var s' := Withdraw(s, caller, qty, host).value;
            && Valid(s')
            && s'.balances[caller] >= 0.0
            && s'.balances[caller] + s'.foreignCalls[|s'.foreignCalls| - 1].input.qty == s.balances[caller]
            && s'.foreignCalls[|s'.foreignCalls| - 1].input.target == caller
            && s'.foreignCalls[|s'.foreignCalls| - 1].contract == WDLT
            && (forall a :: a in s.balances && a != caller ==> a in s'.balances && s'.balances[a] == s.balances[a])
  {
  }

  /** A deposit of a non-negative amount keeps the invariant. The amount
      comes from the token contract's own input and is not checked by this
      contract, so the lemma assumes what that contract guarantees. */
  lemma DepositPreservesValid(s: State, caller: string, tx: string, oracle: DepositOracle, host: Host)
    requires Valid(s)
    requires Deposit(s, caller, tx, oracle, host).Ok?
    requires oracle.input.value.qty.value >= 0
    ensures Valid(Deposit(s, caller, tx, oracle, host).value)
    ensures Deposit(s, caller, tx, oracle, host).value.users == s.users
  {
  }

  /** A counted deposit cannot be counted again, whoever calls and whatever
      the oracles say: depositing is idempotent per transaction. */
  lemma DepositReplayRejected(s: State, caller: string, tx: string, oracle: DepositOracle, host: Host,
                              caller': string, oracle': DepositOracle, host': Host)
    requires Deposit(s, caller, tx, oracle, host).Ok?
    ensures Deposit(Deposit(s, caller, tx, oracle, host).value, caller', tx, oracle', host') == Err(DuplicatedTx)
  {
  }

  /** The zero-balance rule: a caller that withdraws its whole balance keeps
      an entry of zero, which the source's `!balances[caller]` reads as "not
      registered". A second withdrawal then fails with the not-registered
      error, and so does a mint that gets as far as the payment, although the
      caller still has its account. */
  lemma EmptiedBalanceUnregisters(s: State, caller: string, qty: Value, host: Host,
                                  qty': Value, host': Host, username: Value, host'': Host)
    requires Withdraw(s, caller, qty, host).Ok?
    requires qty.n == s.balances[caller]
    ensures var s' := Withdraw(s, caller, qty, host).value;
            && caller in s'.balances && s'.balances[caller] == 0.0
            && !Registered(s'.balances, caller)
            && s'.users == s.users
            && Withdraw(s', caller, qty', host') == Err(CallerNotRegistered)
    ensures var s' := Withdraw(s, caller, qty, host).value;
            Registry.MintInputsOk(s', caller, username, host''.nfkc)
            && s'.availableLabels[GetUsernameScarcity(Normalize(username.s, host''.nfkc)).value] > 0
            && UserIndex(s'.users, caller) != -1
            ==> Registry.Mint(s', caller, username, host'') == Err(CallerNotRegistered)
  {
    var s' := Withdraw(s, caller, qty, host).value;
    if Registry.MintInputsOk(s', caller, username, host''.nfkc) {
      var lbl := Normalize(username.s, host''.nfkc);
      assert Registry.Mint(s', caller, username, host'') == Registry.AddLabel(s', caller, lbl, host'');
    }
  }

  /** Withdrawing an amount and depositing a transfer of that same amount
      back restores every balance, even when the withdrawal emptied the
      caller's balance and so unregistered it. */
  lemma WithdrawDepositRoundTrip(s: State, caller: string, q: int, host: Host,
                                 tx: string, oracle: DepositOracle, host': Host)
    requires Withdraw(s, caller, Num(q as real), host).Ok?
    requires tx !in s.deposits
    requires oracle.ownerAddress == caller && tx in oracle.validity && oracle.validity[tx]
    requires oracle.input == Some(DepositInput(Some(q), Str("transfer"), Str(host'.contractId)))
    ensures var s1 := Withdraw(s, caller, Num(q as real), host).value;
            && Deposit(s1, caller, tx, oracle, host').Ok?
            && Deposit(s1, caller, tx, oracle, host').value.balances == s.balances
  {
    var s1 := Withdraw(s, caller, Num(q as real), host).value;
    var s2 := Deposit(s1, caller, tx, oracle, host').value;
    assert s2.balances[caller] == s.balances[caller];
    assert s2.balances.Keys == s.balances.Keys;
  }
}
