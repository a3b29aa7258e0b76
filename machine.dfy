/** The contract as the source runs it: one object whose fields are the
    state's lists and tables, updated in place by each branch of `handle`.
    The searches over the accounts and over a caller's grants, the code
    table's `includes` and the character-code loop are loops here. Each
    method is proved to do what the matching function of `Registry`,
    `Bridge` or `Dispatch` says, so the lemmas about those functions hold of
    the object too; in particular every branch keeps `Valid()` (a deposit as
    long as its amount is not negative). A method that throws leaves the fields as they were, as the
    host does by discarding the state of a throwing call; the checks that
    can throw therefore run before the first update. */
module Machine {
  import opened AnsTypes
  import opened Lookup
  import opened Validation
  import opened LabelEconomy
  import Registry
  import Bridge
  import Dispatch
  import Invariants
  import TransferProofs

  /** `includes` on the code table. */
  method Includes(codes: seq<int>, c: int) returns (found: bool)
    ensures found <==> c in codes
  {
    found := false;
    var i := 0;
    while i < |codes|
      invariant 0 <= i <= |codes|
      invariant c !in codes[..i]
    {
      if codes[i] == c {
        return true;
      }
      i := i + 1;
    }
    assert codes[..i] == codes;
  }

  /** The `for (let charCode of stringCharcodes)` loop of `_validateUsername`. */
  method CheckCharCodes(s: string) returns (ok: bool)
    ensures ok <==> AllAllowed(s)
  {
    var i := 0;
    while i < |s|
      invariant 0 <= i <= |s|
      invariant forall j :: 0 <= j < i ==> IsAllowedChar(s[j])
    {
      var allowed := Includes(ALLOWED_CHAR_CODES, s[i] as int);
      if !allowed {
        return false;
      }
      i := i + 1;
    }
    return true;
  }

  /** `ownedLabels.findIndex(labels => labels.label === lbl)`. */
  method FindGrantIndex(grants: seq<Grant>, lbl: string) returns (k: int)
    ensures k == GrantIndex(grants, lbl)
  {
    k := 0;
    while k < |grants|
      invariant 0 <= k <= |grants|
      invariant forall j :: 0 <= j < k ==> grants[j].name != lbl
    {
      if grants[k].name == lbl {
        return;
      }
      k := k + 1;
    }
    k := -1;
  }

  /** How a state-changing method reports the outcome `spec` of its
      specification: on success the fields hold the new state, on an error
      the same error is returned and the fields are untouched. */
  ghost predicate Reflects(spec: Result<State>, r: Result<()>, before: State, after: State)
  {
    if spec.Ok? then r == Ok(()) && after == spec.value
    else r == Err(spec.error) && after == before
  }

  class AnsContract {
    var users: seq<User>
    var balances: map<string, real>
    var availableLabels: Supply
    var foreignCalls: seq<ForeignCall>
    var deposits: seq<string>
    var withdrawals: seq<string>

    /** The fields as one state value. */
    function Snapshot(): State
      reads this
    {
      State(users, balances, availableLabels, foreignCalls, deposits, withdrawals)
    }

    ghost predicate Valid()
      reads this
    {
      Invariants.Valid(Snapshot())
    }

    /** A contract with no accounts, no balances, no queued calls and the
        given label supply. */
    constructor(supply: Supply)
      ensures Snapshot() == State([], map[], supply, [], [], [])
      ensures Valid()
    {
      users := [];
      balances := map[];
      availableLabels := supply;
      foreignCalls := [];
      deposits := [];
      withdrawals := [];
      assert Invariants.LabelBag([]) == multiset{};
    }

    // ----- the searches over `users` -----

    /** `users.findIndex(user => user.user === addr)`. */
    method FindUserIndex(addr: string) returns (i: int)
      ensures i == UserIndex(users, addr)
    {
      i := 0;
      while i < |users|
        invariant 0 <= i <= |users|
        invariant forall j :: 0 <= j < i ==> users[j].user != addr
      {
        if users[i].user == addr {
          return;
        }
        i := i + 1;
      }
      i := -1;
    }

    /** `users.find(user => user.currentLabel === lbl)`, as an index. */
    method FindCurrentLabelIndex(lbl: string) returns (i: int)
      ensures i == CurrentLabelIndex(users, lbl)
    {
      i := 0;
      while i < |users|
        invariant 0 <= i <= |users|
        invariant forall j :: 0 <= j < i ==> users[j].currentLabel != lbl
      {
        if users[i].currentLabel == lbl {
          return;
        }
        i := i + 1;
      }
      i := -1;
    }

    /** The `users.find` of `_validateUsername`'s claim check. */
    method FindClaimant(lbl: string) returns (taken: bool)
      ensures taken <==> LabelTaken(users, lbl)
    {
      var i := 0;
      while i < |users|
        invariant 0 <= i <= |users|
        invariant forall j :: 0 <= j < i ==> !Claims(users[j], lbl)
      {
        var k := FindGrantIndex(users[i].ownedLabels, lbl);
        if users[i].currentLabel == lbl || k != -1 {
          return true;
        }
        i := i + 1;
      }
      return false;
    }

    /** `_validateUsername`. */
    method CheckUsername(username: string, mode: Mode, nfkc: string -> string) returns (r: Result<string>)
      ensures r == ValidateUsername(users, username, mode, nfkc)
    {
      var normalized := Normalize(username, nfkc);
      var ok := CheckCharCodes(normalized);
      if !ok {
        return Err(InvalidCharCode);
      }
      if |normalized| < 2 || |normalized| > 7 {
        return Err(InvalidStringLength);
      }
      if mode == Read {
        return Ok(normalized);
      }
      var taken := FindClaimant(normalized);
      if taken {
        return Err(LabelAlreadyAcquired);
      }
      return Ok(normalized);
    }

    /** `_validateLabelSwitching`. */
    method CheckLabelSwitching(lbl: string, caller: string) returns (r: Result<nat>)
      ensures r == Registry.ValidateLabelSwitching(users, lbl, caller)
    {
      var i := FindUserIndex(caller);
      if i == -1 {
        return Err(TypeError);
      }
      if |users[i].ownedLabels| < 2 {
        return Err(NoExtraLabelOwned);
      }
      var k := FindGrantIndex(users[i].ownedLabels, lbl);
      if k == -1 {
        return Err(LabelNotOwned);
      }
      return Ok(i);
    }

    // ----- the branches of `handle` -----

    /** `setProfile`: the address, bio, username and label checks, then
        `OpenAccount`. */
    method SetProfile(caller: string, username: Value, bio: Value, avatar: Value,
                      avatarTags: map<string, string>, host: Host) returns (r: Result<()>)
      modifies this
      ensures Reflects(Registry.SetProfile(old(Snapshot()), caller, username, bio, avatar, avatarTags, host),
                       r, old(Snapshot()), Snapshot())
      ensures old(Valid()) ==> Valid()
    {
      var _ :- ValidateArweaveAddress(Str(caller));
      var bioText :- ValidateStringTypeLength(bio, Some(0), Some(75));
      var name :- ValidateStringTypeLength(username, Some(2), Some(7));
      var lbl :- CheckUsername(name, Claim, host.nfkc);
      r := OpenAccount(caller, lbl, bioText, avatar, avatarTags, host);
      if old(Valid()) && r.Ok? {
        Invariants.SetProfilePreservesValid(old(Snapshot()), caller, username, bio, avatar, avatarTags, host);
      }
    }

    /** The rest of `setProfile`: takes one label of the tier from the
        supply, debits the caller and pushes its new account. */
    method OpenAccount(caller: string, lbl: string, bioText: string, avatar: Value,
                       avatarTags: map<string, string>, host: Host) returns (r: Result<()>)
      requires 2 <= |lbl| <= 7
      modifies this
      ensures Reflects(Registry.OpenAccount(old(Snapshot()), caller, lbl, bioText, avatar, avatarTags, host),
                       r, old(Snapshot()), Snapshot())
    {
      var tier := GetUsernameScarcity(lbl).value;
      var cost := GetMintingCost(lbl).value;
      if availableLabels[tier] == 0 {
        return Err(LabelSupplyIsZero);
      }
      var i := FindUserIndex(caller);
      if i != -1 {
        return Err(CallerExist);
      }
      var avatarRef :- ResolveAvatar(avatar, avatarTags);
      var debited :- CheckAndSubtractMintingCost(balances, cost, caller);
      availableLabels := availableLabels[tier := availableLabels[tier] - 1];
      balances := debited;
      users := users + [User(caller, lbl, [Grant(lbl, tier, host.blockHeight, cost)], bioText, avatarRef)];
      r := Ok(());
      assert Snapshot() == Registry.OpenAccount(old(Snapshot()), caller, lbl, bioText, avatar, avatarTags, host).value;
    }

    /** `mint`: the address, username and label checks, then `AddLabel`. */
    method Mint(caller: string, username: Value, host: Host) returns (r: Result<()>)
      modifies this
      ensures Reflects(Registry.Mint(old(Snapshot()), caller, username, host), r, old(Snapshot()), Snapshot())
      ensures old(Valid()) ==> Valid()
    {
      var _ :- ValidateArweaveAddress(Str(caller));
      var name :- ValidateStringTypeLength(username, Some(2), Some(7));
      var lbl :- CheckUsername(name, Claim, host.nfkc);
      r := AddLabel(caller, lbl, host);
      if old(Valid()) && r.Ok? {
        Invariants.MintPreservesValid(old(Snapshot()), caller, username, host);
      }
    }

    /** The rest of `mint`: takes one label of the tier from the supply,
        debits the caller and pushes the grant onto its labels. */
    method AddLabel(caller: string, lbl: string, host: Host) returns (r: Result<()>)
      requires 2 <= |lbl| <= 7
      modifies this
      ensures Reflects(Registry.AddLabel(old(Snapshot()), caller, lbl, host), r, old(Snapshot()), Snapshot())
    {
      var tier := GetUsernameScarcity(lbl).value;
      var cost := GetMintingCost(lbl).value;
      if availableLabels[tier] == 0 {
        return Err(LabelSupplyIsZero);
      }
      var i := FindUserIndex(caller);
      if i == -1 {
        return Err(UserHasNotRegistered);
      }
      var grant := Grant(lbl, tier, host.blockHeight, cost);
      var debited :- CheckAndSubtractMintingCost(balances, cost, caller);
      availableLabels := availableLabels[tier := availableLabels[tier] - 1];
      balances := debited;
      users := users[i := users[i].(ownedLabels := users[i].ownedLabels + [grant])];
      r := Ok(());
      assert Snapshot() == Registry.AddLabel(old(Snapshot()), caller, lbl, host).value;
    }

    /** `switch`. */
    method Switch(caller: string, lbl: Value, host: Host) returns (r: Result<()>)
      modifies this
      ensures Reflects(Registry.Switch(old(Snapshot()), caller, lbl, host), r, old(Snapshot()), Snapshot())
      ensures old(Valid()) ==> Valid()
    {
      var _ :- ValidateArweaveAddress(Str(caller));
      if !lbl.Str? {
        return Err(TypeError);
      }
      var desired :- CheckUsername(lbl.s, Read, host.nfkc);
      var i :- CheckLabelSwitching(desired, caller);
      users := users[i := users[i].(currentLabel := desired)];
      r := Ok(());
      if old(Valid()) {
        Invariants.SwitchPreservesValid(old(Snapshot()), caller, lbl, host);
      }
    }

    /** `transfer`: the target gets the grant first (a new account when it
        has none), then the caller loses its account or the grant. */
    method Transfer(caller: string, target: Value, lbl: Value, host: Host) returns (r: Result<()>)
      modifies this
      ensures Reflects(Registry.Transfer(old(Snapshot()), caller, target, lbl, host), r, old(Snapshot()), Snapshot())
      ensures old(Valid()) ==> Valid()
    {
      var _ :- ValidateArweaveAddress(Str(caller));
      var targetAddr :- ValidateArweaveAddress(target);
      if !lbl.Str? {
        return Err(TypeError);
      }
      var desired :- CheckUsername(lbl.s, Read, host.nfkc);
      var ci := FindUserIndex(caller);
      if ci == -1 {
        return Err(TypeError);
      }
      var status :- Registry.GetTransferabilityStatus(users[ci], desired);
      var k := FindGrantIndex(users[ci].ownedLabels, desired);
      if k == -1 {
        return Err(UndefinedGrant);
      }
      GrantIndexFinds(users[ci].ownedLabels, desired);
      MoveGrant(ci, k, status, targetAddr);
      r := Ok(());
      if old(Valid()) {
        TransferProofs.TransferPreservesValid(old(Snapshot()), caller, target, lbl, host);
      }
    }

    /** The pushes and splices of `transfer`: the target (created when it has
        no account) receives the caller's grant `k`, then the caller loses
        its account (a sole current label) or that grant. */
    method MoveGrant(ci: nat, k: nat, status: Registry.OwnedIn, targetAddr: string)
      requires ci < |users| && k < |users[ci].ownedLabels|
      modifies this
      ensures users == Registry.MoveGrant(old(users), ci, k, status, targetAddr)
      ensures balances == old(balances) && availableLabels == old(availableLabels)
      ensures foreignCalls == old(foreignCalls) && deposits == old(deposits) && withdrawals == old(withdrawals)
    {
      var grant := users[ci].ownedLabels[k];
      var ti := FindUserIndex(targetAddr);
      if ti == -1 {
        var auto := Registry.AutoGeneratedAccount(targetAddr, grant);
        match status
        case InCurrentLabel =>
          users := RemoveAt(users, ci);
          users := users + [auto];
        case InOwnedLabels =>
          users := users[ci := users[ci].(ownedLabels := RemoveAt(users[ci].ownedLabels, k))];
          users := users + [auto];
      } else {
        users := users[ti := users[ti].(ownedLabels := users[ti].ownedLabels + [grant])];
        match status
        case InCurrentLabel =>
          users := RemoveAt(users, ci);
        case InOwnedLabels =>
          users := users[ci := users[ci].(ownedLabels := RemoveAt(users[ci].ownedLabels, k))];
      }
    }

    /** `getAddressOf`: reads the state and changes nothing. */
    method GetAddressOf(reference: Value, host: Host) returns (r: Result<string>)
      ensures r == Registry.GetAddressOf(Snapshot(), reference, host)
    {
      var validated :- GetLabel(reference, host.nfkc);
      var i := FindCurrentLabelIndex(validated);
      if i == -1 {
        return Err(LabelDoesNotResolve);
      }
      return Ok(users[i].user);
    }

    /** `withdraw`. */
    method Withdraw(caller: string, qty: Value, host: Host) returns (r: Result<()>)
      modifies this
      ensures Reflects(Bridge.Withdraw(old(Snapshot()), caller, qty, host), r, old(Snapshot()), Snapshot())
      ensures old(Valid()) ==> Valid()
    {
      if !Registered(balances, caller) {
        return Err(CallerNotRegistered);
      }
      var amount :- ValidateWithdrawQty(qty, balances[caller]);
      balances := balances[caller := balances[caller] - amount];
      foreignCalls := foreignCalls + [Bridge.WithdrawalCall(caller, amount)];
      withdrawals := withdrawals + [host.txId];
      r := Ok(());
    }

    /** `deposit`; the invariant survives when the token contract's amount
        is not negative. */
    method Deposit(caller: string, tx: string, oracle: DepositOracle, host: Host) returns (r: Result<()>)
      modifies this
      ensures Reflects(Bridge.Deposit(old(Snapshot()), caller, tx, oracle, host), r, old(Snapshot()), Snapshot())
      ensures old(Valid()) && (oracle.input.Some? && oracle.input.value.qty.Some? ==> oracle.input.value.qty.value >= 0)
              ==> Valid()
    {
      var _ :- Bridge.ValidateDepositTransaction(deposits, tx, caller, oracle);
      var qty :- Bridge.GetDepositQty(oracle, host.contractId);
      if !Registered(balances, caller) {
        balances := balances[caller := 0.0];
      }
      balances := balances[caller := balances[caller] + qty as real];
      deposits := deposits + [tx];
      r := Ok(());
    }

    /** `handle`: runs the branch the action names. */
    method Handle(caller: string, action: Dispatch.Action, host: Host) returns (r: Result<Dispatch.Outcome>)
      modifies this
      ensures r == Dispatch.Handle(old(Snapshot()), caller, action, host)
      ensures Snapshot() == Dispatch.Next(old(Snapshot()), caller, action, host)
    {
      var done: Result<()>;
      match action {
        case SetProfileCall(username, bio, avatar, tags) =>
          done := SetProfile(caller, username, bio, avatar, tags, host);
        case MintCall(username) =>
          done := Mint(caller, username, host);
        case SwitchCall(lbl) =>
          done := Switch(caller, lbl, host);
        case TransferCall(target, lbl) =>
          done := Transfer(caller, target, lbl, host);
        case GetAddressOfCall(reference) =>
          var address :- GetAddressOf(reference, host);
          return Ok(Dispatch.Resolved(address));
        case WithdrawCall(qty) =>
          done := Withdraw(caller, qty, host);
        case DepositCall(tx, oracle) =>
          done := Deposit(caller, tx, oracle, host);
      }
      if done.Err? {
        return Err(done.error);
      }
      return Ok(Dispatch.NewState(Snapshot()));
    }
  }
}
