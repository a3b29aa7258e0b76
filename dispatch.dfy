/** `handle`: one interaction with the contract. The source dispatches on
    the string `input.function`; here each function name is a constructor of
    `Action` carrying that function's inputs (and, where the source asks the
    network, the answers it would get). */
module Dispatch {
  import opened AnsTypes
  import opened Validation
  import opened Registry
  import opened Bridge
  import opened Invariants
  import opened TransferProofs

  datatype Action =
    | SetProfileCall(username: Value, bio: Value, avatar: Value, avatarTags: map<string, string>)
    | MintCall(username: Value)
    | SwitchCall(lbl: Value)
    | TransferCall(target: Value, lbl: Value)
    | GetAddressOfCall(reference: Value)
    | WithdrawCall(qty: Value)
    | DepositCall(tx: string, oracle: DepositOracle)

  /** What a successful call returns: the new state, or for `getAddressOf`
      the resolved address (the state is then unchanged). */
  datatype Outcome = NewState(state: State) | Resolved(address: string)

  /** `handle(state, action)` for the function `action` names. */
  function Handle(s: State, caller: string, action: Action, host: Host): (r: Result<Outcome>)
    ensures r.Ok? ==> (r.value.Resolved? <==> action.GetAddressOfCall?)
    ensures action.GetAddressOfCall? ==>
      (r.Ok? <==> GetAddressOf(s, action.reference, host).Ok?)
    ensures r.Ok? && (action.WithdrawCall? || action.DepositCall?) ==>
      r.value.state.users == s.users && r.value.state.availableLabels == s.availableLabels
    ensures r.Ok? && (action.SwitchCall? || action.TransferCall?) ==>
      r.value.state.balances == s.balances && r.value.state.availableLabels == s.availableLabels
  {
    match action
    case SetProfileCall(username, bio, avatar, tags) =>
      var s' :- SetProfile(s, caller, username, bio, avatar, tags, host);
      Ok(NewState(s'))
    case MintCall(username) =>
      var s' :- Mint(s, caller, username, host);
      Ok(NewState(s'))
    case SwitchCall(lbl) =>
      var s' :- Switch(s, caller, lbl, host);
      Ok(NewState(s'))
    case TransferCall(target, lbl) =>
      var s' :- Transfer(s, caller, target, lbl, host);
      Ok(NewState(s'))
    case GetAddressOfCall(reference) =>
      var address :- GetAddressOf(s, reference, host);
      Ok(Resolved(address))
    case WithdrawCall(qty) =>
      var s' :- Withdraw(s, caller, qty, host);
      Ok(NewState(s'))
    case DepositCall(tx, oracle) =>
      var s' :- Deposit(s, caller, tx, oracle, host);
      Ok(NewState(s'))
  }

  /** The state the host keeps after a call: a throw discards every change. */
  function Next(s: State, caller: string, action: Action, host: Host): (s': State)
    ensures Handle(s, caller, action, host).Err? ==> s' == s
    ensures action.GetAddressOfCall? ==> s' == s
  {
    match Handle(s, caller, action, host)
    case Ok(NewState(s')) => s'
    case _ => s
  }

  /** The amount a deposit credits is the token contract's to check; the
      invariant holds as long as it is not negative. */
  predicate TrustedDeposit(action: Action)
  {
    action.DepositCall? && action.oracle.input.Some? && action.oracle.input.value.qty.Some?
    ==> action.oracle.input.value.qty.value >= 0
  }

  /** Every call, successful or not, keeps the invariant. */
  lemma {:induction false} HandlePreservesValid(s: State, caller: string, action: Action, host: Host)
    requires Valid(s)
    requires TrustedDeposit(action)
    ensures Valid(Next(s, caller, action, host))
  {
    if action.SetProfileCall? || action.MintCall? {
      NewLabelKeepsValid(s, caller, action, host);
    } else if action.SwitchCall? || action.TransferCall? {
      MovedLabelKeepsValid(s, caller, action, host);
    } else {
      BridgeKeepsValid(s, caller, action, host);
    }
  }

  lemma {:induction false} NewLabelKeepsValid(s: State, caller: string, action: Action, host: Host)
    requires Valid(s)
    requires action.SetProfileCall? || action.MintCall?
    ensures Valid(Next(s, caller, action, host))
  {
    if Handle(s, caller, action, host).Ok? {
      match action
      case SetProfileCall(username, bio, avatar, tags) =>
        SetProfilePreservesValid(s, caller, username, bio, avatar, tags, host);
      case MintCall(username) =>
        MintPreservesValid(s, caller, username, host);
    }
  }

  lemma {:induction false} MovedLabelKeepsValid(s: State, caller: string, action: Action, host: Host)
    requires Valid(s)
    requires action.SwitchCall? || action.TransferCall?
    ensures Valid(Next(s, caller, action, host))
  {
    if Handle(s, caller, action, host).Ok? {
      match action
      case SwitchCall(lbl) =>
        SwitchPreservesValid(s, caller, lbl, host);
      case TransferCall(target, lbl) =>
        TransferPreservesValid(s, caller, target, lbl, host);
    }
  }

  lemma {:induction false} BridgeKeepsValid(s: State, caller: string, action: Action, host: Host)
    requires Valid(s)
    requires TrustedDeposit(action)
    requires !(action.SetProfileCall? || action.MintCall? || action.SwitchCall? || action.TransferCall?)
    ensures Valid(Next(s, caller, action, host))
  {
    if Handle(s, caller, action, host).Ok? {
      match action
      case GetAddressOfCall(_) =>
      case WithdrawCall(qty) =>
        WithdrawPreservesValid(s, caller, qty, host);
      case DepositCall(tx, oracle) =>
        DepositPreservesValid(s, caller, tx, oracle, host);
    }
  }

  /** Only `setProfile` and `mint` create labels, each exactly one that
      nobody held. */
  lemma {:induction false} HandleAddsLabel(s: State, caller: string, action: Action, host: Host)
    requires Valid(s)
    requires action.SetProfileCall? || action.MintCall?
    requires Handle(s, caller, action, host).Ok?
    ensures var l := Normalize(action.username.s, host.nfkc);
            l !in LabelBag(s.users) && LabelBag(Next(s, caller, action, host).users) == LabelBag(s.users) + multiset{l}
  {
    match action
    case SetProfileCall(username, bio, avatar, tags) =>
      SetProfilePreservesValid(s, caller, username, bio, avatar, tags, host);
    case MintCall(username) =>
      MintPreservesValid(s, caller, username, host);
  }

  /** Every other call keeps the held labels as they were, except that a
      self-transfer of a sole label destroys that label. */
  lemma {:induction false} HandleKeepsLabels(s: State, caller: string, action: Action, host: Host)
    requires Valid(s)
    requires !action.SetProfileCall? && !action.MintCall?
    ensures !(action.TransferCall? && action.target == Str(caller)) ==>
      LabelBag(Next(s, caller, action, host).users) == LabelBag(s.users)
    ensures action.TransferCall? && action.target == Str(caller) ==>
      LabelBag(Next(s, caller, action, host).users) <= LabelBag(s.users)
  {
    match action
    case SwitchCall(lbl) =>
      SwitchKeepsLabels(s, caller, lbl, host);
    case TransferCall(target, lbl) =>
      TransferMovesLabels(s, caller, target, lbl, host);
    case GetAddressOfCall(_) =>
    case WithdrawCall(_) =>
    case DepositCall(_, _) =>
  }

  lemma {:induction false} SwitchKeepsLabels(s: State, caller: string, lbl: Value, host: Host)
    requires Valid(s)
    ensures LabelBag(Next(s, caller, SwitchCall(lbl), host).users) == LabelBag(s.users)
  {
    var s' := Next(s, caller, SwitchCall(lbl), host);
    if Switch(s, caller, lbl, host).Ok? {
      assert s' == Switch(s, caller, lbl, host).value;
      SwitchPreservesValid(s, caller, lbl, host);
    } else {
      assert s' == s;
    }
  }

  lemma {:induction false} TransferMovesLabels(s: State, caller: string, target: Value, lbl: Value, host: Host)
    requires Valid(s)
    ensures target != Str(caller) ==>
      LabelBag(Next(s, caller, TransferCall(target, lbl), host).users) == LabelBag(s.users)
    ensures LabelBag(Next(s, caller, TransferCall(target, lbl), host).users) <= LabelBag(s.users)
  {
    var s' := Next(s, caller, TransferCall(target, lbl), host);
    if Transfer(s, caller, target, lbl, host).Ok? {
      assert s' == Transfer(s, caller, target, lbl, host).value;
      TransferPreservesValid(s, caller, target, lbl, host);
    } else {
      assert s' == s;
    }
  }
}
