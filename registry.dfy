/** The identity registry: the `setProfile`, `mint`, `switch`, `transfer`
    and `getAddressOf` branches of `handle`, each a function from the state
    before the call to the state after it (or to the error it throws, which
    leaves the state as it was). */
module Registry {
  import opened AnsTypes
  import opened Lookup
  import opened Validation
  import opened LabelEconomy

  /** The grant a mint of `lbl` produces at block height `height`. */
  function MintedGrant(lbl: string, height: int): (g: Grant)
    requires 2 <= |lbl| <= 7
  {
    Grant(lbl, GetUsernameScarcity(lbl).value, height, GetMintingCost(lbl).value)
  }

  /** A minted grant carries the label, the block height, the tier whose
      rank is the length minus two and the cost 10^-(n-2) of a label of
      length n. */
  lemma MintedGrantStamps(lbl: string, height: int)
    requires 2 <= |lbl| <= 7
    ensures var g := MintedGrant(lbl, height);
            && g.name == lbl && g.acquisationBlock == height
            && Rank(g.scarcity) == |lbl| - 2
            && 0.0 < g.mintedFor <= 1.0 && g.mintedFor * Pow10(|lbl| - 2) == 1.0
  {
    CostClosedForm(lbl);
  }

  /** The supply table with one label of `lbl`'s tier taken. */
  function TakeOne(supply: Supply, lbl: string): Supply
    requires 2 <= |lbl| <= 7
    requires supply[GetUsernameScarcity(lbl).value] > 0
  {
    var tier := GetUsernameScarcity(lbl).value;
    supply[tier := supply[tier] - 1]
  }

  /** Taking a label lowers its own tier's supply by one and leaves every
      other tier's supply as it was. */
  lemma TakeOneTakesOne(supply: Supply, lbl: string)
    requires 2 <= |lbl| <= 7
    requires supply[GetUsernameScarcity(lbl).value] > 0
    ensures TakeOne(supply, lbl)[GetUsernameScarcity(lbl).value] + 1 == supply[GetUsernameScarcity(lbl).value]
    ensures forall t: Tier :: t != GetUsernameScarcity(lbl).value ==> TakeOne(supply, lbl)[t] == supply[t]
  {
  }

  /** The checks `setProfile` makes on its inputs, before it reads the
      supply and the accounts: the caller's address, the bio, the raw
      username's length, and the normalised label's syntax and freedom. */
  predicate ProfileInputsOk(s: State, caller: string, username: Value, bio: Value, nfkc: string -> string)
  {
    && Utf16Length(caller) == 43
    && bio.Str? && Utf16Length(bio.s) <= 75
    && username.Str? && 2 <= Utf16Length(username.s) <= 7
    && LabelSyntax(Normalize(username.s, nfkc)) && !LabelTaken(s.users, Normalize(username.s, nfkc))
  }

  /** What `setProfile` then demands: a label of the tier is left, the caller
      has no account, the avatar is acceptable and the balance covers the cost. */
  predicate CanOpenAccount(s: State, caller: string, lbl: string, avatar: Value, avatarTags: map<string, string>)
    requires 2 <= |lbl| <= 7
  {
    && s.availableLabels[GetUsernameScarcity(lbl).value] > 0
    && UserIndex(s.users, caller) == -1
    && ResolveAvatar(avatar, avatarTags).Ok?
    && Registered(s.balances, caller) && s.balances[caller] >= GetMintingCost(lbl).value
  }

  /** `setProfile`: registers the caller with a first label, paid for from
      its balance and taken from its tier's supply. */
  function SetProfile(s: State, caller: string, username: Value, bio: Value, avatar: Value,
                      avatarTags: map<string, string>, host: Host): (r: Result<State>)
    ensures r.Ok? <==> ProfileInputsOk(s, caller, username, bio, host.nfkc)
                       && CanOpenAccount(s, caller, Normalize(username.s, host.nfkc), avatar, avatarTags)
    ensures r.Ok? ==>
      && var lbl := Normalize(username.s, host.nfkc);
      && r.value == s.(
           users := s.users + [User(caller, lbl, [MintedGrant(lbl, host.blockHeight)], bio.s,
                                    ResolveAvatar(avatar, avatarTags).value)],
           balances := s.balances[caller := s.balances[caller] - GetMintingCost(lbl).value],
           availableLabels := TakeOne(s.availableLabels, lbl))
    ensures Utf16Length(caller) != 43 ==> r == Err(InvalidArweaveAddress)
    ensures ProfileInputsOk(s, caller, username, bio, host.nfkc) ==>
      r == OpenAccount(s, caller, Normalize(username.s, host.nfkc), bio.s, avatar, avatarTags, host)
  {
    var _ :- ValidateArweaveAddress(Str(caller));
    var bioText :- ValidateStringTypeLength(bio, Some(0), Some(75));
    var name :- ValidateStringTypeLength(username, Some(2), Some(7));
    var lbl :- ValidateUsername(s.users, name, Claim, host.nfkc);
    OpenAccount(s, caller, lbl, bioText, avatar, avatarTags, host)
  }

  /** The input errors of `setProfile`, in the source's order: after the
      address, a bad bio, a bad raw username and an ill-formed or claimed
      label each throw their validator's own error. */
  lemma {:induction false} SetProfileErrors(s: State, caller: string, username: Value, bio: Value, avatar: Value,
                                            avatarTags: map<string, string>, host: Host)
    ensures Utf16Length(caller) == 43 && ValidateStringTypeLength(bio, Some(0), Some(75)).Err?
            ==> SetProfile(s, caller, username, bio, avatar, avatarTags, host) == Err(ValidateStringTypeLength(bio, Some(0), Some(75)).error)
    ensures Utf16Length(caller) == 43 && ValidateStringTypeLength(bio, Some(0), Some(75)).Ok?
            && ValidateStringTypeLength(username, Some(2), Some(7)).Err?
            ==> SetProfile(s, caller, username, bio, avatar, avatarTags, host) == Err(ValidateStringTypeLength(username, Some(2), Some(7)).error)
    ensures Utf16Length(caller) == 43 && ValidateStringTypeLength(bio, Some(0), Some(75)).Ok?
            && ValidateStringTypeLength(username, Some(2), Some(7)).Ok?
            && ValidateUsername(s.users, username.s, Claim, host.nfkc).Err?
            ==> SetProfile(s, caller, username, bio, avatar, avatarTags, host)
                == Err(ValidateUsername(s.users, username.s, Claim, host.nfkc).error)
  {
  }

  /** The rest of `setProfile` once the label is claimable: the supply, the
      caller's absence, the avatar and the balance are checked in the
      source's order; then the tier's supply drops by one, the caller is
      debited the cost and its account is pushed. */
  function OpenAccount(s: State, caller: string, lbl: string, bioText: string, avatar: Value,
                       avatarTags: map<string, string>, host: Host): (r: Result<State>)
    requires 2 <= |lbl| <= 7
    ensures r.Ok? <==> CanOpenAccount(s, caller, lbl, avatar, avatarTags)
    ensures r.Ok? ==>
      r.value == s.(
        users := s.users + [User(caller, lbl, [MintedGrant(lbl, host.blockHeight)], bioText,
                                 ResolveAvatar(avatar, avatarTags).value)],
        balances := s.balances[caller := s.balances[caller] - GetMintingCost(lbl).value],
        availableLabels := TakeOne(s.availableLabels, lbl))
    ensures s.availableLabels[GetUsernameScarcity(lbl).value] == 0 ==> r == Err(LabelSupplyIsZero)
    ensures s.availableLabels[GetUsernameScarcity(lbl).value] > 0 && UserIndex(s.users, caller) != -1
            ==> r == Err(CallerExist)
    ensures s.availableLabels[GetUsernameScarcity(lbl).value] > 0 && UserIndex(s.users, caller) == -1
            && ResolveAvatar(avatar, avatarTags).Err?
            ==> r == Err(ResolveAvatar(avatar, avatarTags).error)
    ensures s.availableLabels[GetUsernameScarcity(lbl).value] > 0 && UserIndex(s.users, caller) == -1
            && ResolveAvatar(avatar, avatarTags).Ok? && !Registered(s.balances, caller)
            ==> r == Err(CallerNotRegistered)
    ensures s.availableLabels[GetUsernameScarcity(lbl).value] > 0 && UserIndex(s.users, caller) == -1
            && ResolveAvatar(avatar, avatarTags).Ok? && Registered(s.balances, caller)
            && s.balances[caller] < GetMintingCost(lbl).value
            ==> r == Err(InsufficientBalance)
  {
    var tier := GetUsernameScarcity(lbl).value;
    var cost := GetMintingCost(lbl).value;
    if s.availableLabels[tier] == 0 then Err(LabelSupplyIsZero)
    else if UserIndex(s.users, caller) != -1 then Err(CallerExist)
    else
      var avatarRef :- ResolveAvatar(avatar, avatarTags);
      var balances :- CheckAndSubtractMintingCost(s.balances, cost, caller);
      var grant := Grant(lbl, tier, host.blockHeight, cost);
      Ok(s.(users := s.users + [User(caller, lbl, [grant], bioText, avatarRef)],
            balances := balances,
            availableLabels := s.availableLabels[tier := s.availableLabels[tier] - 1]))
  }

  /** The checks `mint` makes on its inputs: the caller's address, the raw
      username's length, and the normalised label's syntax and freedom. */
  predicate MintInputsOk(s: State, caller: string, username: Value, nfkc: string -> string)
  {
    && Utf16Length(caller) == 43
    && username.Str? && 2 <= Utf16Length(username.s) <= 7
    && LabelSyntax(Normalize(username.s, nfkc)) && !LabelTaken(s.users, Normalize(username.s, nfkc))
  }

  /** What `mint` then demands: a label of the tier is left, the caller has
      an account and its balance covers the cost. */
  predicate CanAddLabel(s: State, caller: string, lbl: string)
    requires 2 <= |lbl| <= 7
  {
    && s.availableLabels[GetUsernameScarcity(lbl).value] > 0
    && UserIndex(s.users, caller) != -1
    && Registered(s.balances, caller) && s.balances[caller] >= GetMintingCost(lbl).value
  }

  /** `mint`: a registered caller buys one more label; its current label
      stays as it was. */
  function Mint(s: State, caller: string, username: Value, host: Host): (r: Result<State>)
    ensures r.Ok? <==> MintInputsOk(s, caller, username, host.nfkc)
                       && CanAddLabel(s, caller, Normalize(username.s, host.nfkc))
    ensures r.Ok? ==>
      && var lbl := Normalize(username.s, host.nfkc);
      && var i := UserIndex(s.users, caller);
      && r.value == s.(
           users := s.users[i := s.users[i].(ownedLabels := s.users[i].ownedLabels + [MintedGrant(lbl, host.blockHeight)])],
           balances := s.balances[caller := s.balances[caller] - GetMintingCost(lbl).value],
           availableLabels := TakeOne(s.availableLabels, lbl))
    ensures Utf16Length(caller) != 43 ==> r == Err(InvalidArweaveAddress)
    ensures MintInputsOk(s, caller, username, host.nfkc) ==>
      r == AddLabel(s, caller, Normalize(username.s, host.nfkc), host)
  {
    MintInputsPass(s, caller, username, host.nfkc);
    var _ :- ValidateArweaveAddress(Str(caller));
    var name :- ValidateStringTypeLength(username, Some(2), Some(7));
    var lbl :- ValidateUsername(s.users, name, Claim, host.nfkc);
    AddLabel(s, caller, lbl, host)
  }

  /** `mint`'s three input checks pass exactly when `MintInputsOk` holds,
      and the label they return is the normalised username. */
  lemma {:induction false} MintInputsPass(s: State, caller: string, username: Value, nfkc: string -> string)
    ensures MintInputsOk(s, caller, username, nfkc) <==>
              && ValidateArweaveAddress(Str(caller)).Ok?
              && ValidateStringTypeLength(username, Some(2), Some(7)).Ok?
              && ValidateUsername(s.users, username.s, Claim, nfkc).Ok?
    ensures MintInputsOk(s, caller, username, nfkc) ==>
              ValidateUsername(s.users, username.s, Claim, nfkc).value == Normalize(username.s, nfkc)
  {
  }

  /** The input errors of `mint`, in the source's order: after the address,
      a bad raw username and then an ill-formed or claimed label each throw
      their validator's own error. */
  lemma {:induction false} MintErrors(s: State, caller: string, username: Value, host: Host)
    ensures Utf16Length(caller) == 43 && ValidateStringTypeLength(username, Some(2), Some(7)).Err?
            ==> Mint(s, caller, username, host) == Err(ValidateStringTypeLength(username, Some(2), Some(7)).error)
    ensures Utf16Length(caller) == 43 && ValidateStringTypeLength(username, Some(2), Some(7)).Ok?
            && ValidateUsername(s.users, username.s, Claim, host.nfkc).Err?
            ==> Mint(s, caller, username, host) == Err(ValidateUsername(s.users, username.s, Claim, host.nfkc).error)
  {
  }

  /** The rest of `mint` once the label is claimable: the supply, the
      caller's account and the balance are checked in the source's order;
      then the tier's supply drops by one, the caller is debited the cost and
      the grant is pushed onto its labels. */
  function AddLabel(s: State, caller: string, lbl: string, host: Host): (r: Result<State>)
    requires 2 <= |lbl| <= 7
    ensures r.Ok? <==> CanAddLabel(s, caller, lbl)
    ensures r.Ok? ==>
      && var i := UserIndex(s.users, caller);
      && r.value == s.(
           users := s.users[i := s.users[i].(ownedLabels := s.users[i].ownedLabels + [MintedGrant(lbl, host.blockHeight)])],
           balances := s.balances[caller := s.balances[caller] - GetMintingCost(lbl).value],
           availableLabels := TakeOne(s.availableLabels, lbl))
    ensures s.availableLabels[GetUsernameScarcity(lbl).value] == 0 ==> r == Err(LabelSupplyIsZero)
    ensures s.availableLabels[GetUsernameScarcity(lbl).value] > 0 && UserIndex(s.users, caller) == -1
            ==> r == Err(UserHasNotRegistered)
    ensures s.availableLabels[GetUsernameScarcity(lbl).value] > 0 && UserIndex(s.users, caller) != -1
            && !Registered(s.balances, caller)
            ==> r == Err(CallerNotRegistered)
    ensures s.availableLabels[GetUsernameScarcity(lbl).value] > 0 && UserIndex(s.users, caller) != -1
            && Registered(s.balances, caller) && s.balances[caller] < GetMintingCost(lbl).value
            ==> r == Err(InsufficientBalance)
  {
    var tier := GetUsernameScarcity(lbl).value;
    var cost := GetMintingCost(lbl).value;
    if s.availableLabels[tier] == 0 then Err(LabelSupplyIsZero)
    else
      var i := UserIndex(s.users, caller);
      if i == -1 then Err(UserHasNotRegistered)
      else
        var grant := Grant(lbl, tier, host.blockHeight, cost);
        var balances :- CheckAndSubtractMintingCost(s.balances, cost, caller);
        var u := s.users[i];
        Ok(s.(users := s.users[i := u.(ownedLabels := u.ownedLabels + [grant])],
              balances := balances,
              availableLabels := s.availableLabels[tier := s.availableLabels[tier] - 1]))
  }

  /** `_validateLabelSwitching`: the caller's index, when it owns at least two
      labels and `lbl` is one of them. An unregistered caller makes the source
      read a property of `undefined`. */
  function ValidateLabelSwitching(users: seq<User>, lbl: string, caller: string): (r: Result<nat>)
    ensures r.Ok? ==> r.value == UserIndex(users, caller) && r.value < |users|
    ensures r.Ok? ==> |users[r.value].ownedLabels| >= 2 && lbl in LabelsOf(users[r.value].ownedLabels)
    ensures UserIndex(users, caller) == -1 ==> r == Err(TypeError)
    ensures r.Ok? <==> UserIndex(users, caller) != -1 && |users[UserIndex(users, caller)].ownedLabels| >= 2
                       && lbl in LabelsOf(users[UserIndex(users, caller)].ownedLabels)
    ensures UserIndex(users, caller) != -1 && |users[UserIndex(users, caller)].ownedLabels| < 2 ==> r == Err(NoExtraLabelOwned)
    ensures UserIndex(users, caller) != -1 && |users[UserIndex(users, caller)].ownedLabels| >= 2
            && lbl !in LabelsOf(users[UserIndex(users, caller)].ownedLabels)
            ==> r == Err(LabelNotOwned)
  {
    var i := UserIndex(users, caller);
    if i == -1 then Err(TypeError)
    else
      GrantIndexFinds(users[i].ownedLabels, lbl);
      if |users[i].ownedLabels| < 2 then Err(NoExtraLabelOwned)
      else if GrantIndex(users[i].ownedLabels, lbl) == -1 then Err(LabelNotOwned)
      else Ok(i)
  }

  /** `switch`: the caller makes another of its labels the current one. */
  function Switch(s: State, caller: string, lbl: Value, host: Host): (r: Result<State>)
    ensures r.Ok? ==>
      && lbl.Str? && Utf16Length(caller) == 43
      && var desired := Normalize(lbl.s, host.nfkc);
      && var i := UserIndex(s.users, caller);
      && LabelSyntax(desired) && i != -1
      && |s.users[i].ownedLabels| >= 2 && desired in LabelsOf(s.users[i].ownedLabels)
      && r.value == s.(users := s.users[i := s.users[i].(currentLabel := desired)])
    ensures Utf16Length(caller) == 43 && lbl.Str? && LabelSyntax(Normalize(lbl.s, host.nfkc)) ==>
      var desired := Normalize(lbl.s, host.nfkc);
      var i := UserIndex(s.users, caller);
      && (i != -1 && |s.users[i].ownedLabels| >= 2 && desired in LabelsOf(s.users[i].ownedLabels) ==> r.Ok?)
      && (r.Err? ==> r.error == ValidateLabelSwitching(s.users, desired, caller).error)
    ensures Utf16Length(caller) != 43 ==> r == Err(InvalidArweaveAddress)
    ensures Utf16Length(caller) == 43 && !lbl.Str? ==> r == Err(TypeError)
    ensures Utf16Length(caller) == 43 && lbl.Str? && ValidateUsername(s.users, lbl.s, Read, host.nfkc).Err?
            ==> r == Err(ValidateUsername(s.users, lbl.s, Read, host.nfkc).error)
  {
    var _ :- ValidateArweaveAddress(Str(caller));
    if !lbl.Str? then Err(TypeError)
    else
      var desired :- ValidateUsername(s.users, lbl.s, Read, host.nfkc);
      var i :- ValidateLabelSwitching(s.users, desired, caller);
      Ok(s.(users := s.users[i := s.users[i].(currentLabel := desired)]))
  }

  /** Where `_getTransferablityStatus` finds the label. */
  datatype OwnedIn = InCurrentLabel | InOwnedLabels

  /** `_getTransferablityStatus`: a label other than the current one must be
      owned; the current one may only go when it is the sole label. */
  function GetTransferabilityStatus(u: User, lbl: string): (r: Result<OwnedIn>)
    ensures r == Ok(InOwnedLabels) <==> u.currentLabel != lbl && lbl in LabelsOf(u.ownedLabels)
    ensures r == Ok(InCurrentLabel) <==> u.currentLabel == lbl && |u.ownedLabels| <= 1
    ensures u.currentLabel != lbl && lbl !in LabelsOf(u.ownedLabels) ==> r == Err(LabelNotOwned)
    ensures u.currentLabel == lbl && |u.ownedLabels| > 1 ==> r == Err(TransferingCurrentLabel)
  {
    GrantIndexFinds(u.ownedLabels, lbl);
    if u.currentLabel != lbl then
      if GrantIndex(u.ownedLabels, lbl) == -1 then Err(LabelNotOwned) else Ok(InOwnedLabels)
    else if |u.ownedLabels| > 1 then Err(TransferingCurrentLabel)
    else Ok(InCurrentLabel)
  }

  /** The account a transfer creates for an unregistered target. */
  function AutoGeneratedAccount(target: string, grant: Grant): (u: User)
    ensures u.user == target && LabelsOf(u.ownedLabels) == [grant.name] && u.ownedLabels[0] == grant
    ensures u.currentLabel in LabelsOf(u.ownedLabels)
    ensures u.bio == AUTO_BIO && u.avatar == DEFAULT_AVATAR
  {
    User(target, grant.name, [grant], AUTO_BIO, DEFAULT_AVATAR)
  }

  /** The users list after moving `grant` from the caller at index `ci` to
      `target`: the target (created if unregistered) receives the grant, and
      then the caller loses either its whole account (a sole current label)
      or the grant at index `k`. The steps run in the source's order, which
      matters when the caller is its own target. */
  function MoveGrant(users: seq<User>, ci: nat, k: nat, status: OwnedIn, target: string): (r: seq<User>)
    requires ci < |users| && k < |users[ci].ownedLabels|
    ensures |r| == |users| + (if UserIndex(users, target) == -1 then 1 else 0)
                           - (if status == InCurrentLabel then 1 else 0)
    ensures UserIndex(users, target) == -1 ==> r[|r| - 1] == AutoGeneratedAccount(target, users[ci].ownedLabels[k])
  {
    var grant := users[ci].ownedLabels[k];
    var ti := UserIndex(users, target);
    if ti == -1 then
      match status
      case InCurrentLabel => RemoveAt(users, ci) + [AutoGeneratedAccount(target, grant)]
      case InOwnedLabels =>
        users[ci := users[ci].(ownedLabels := RemoveAt(users[ci].ownedLabels, k))] + [AutoGeneratedAccount(target, grant)]
    else
      var pushed := users[ti := users[ti].(ownedLabels := users[ti].ownedLabels + [grant])];
      match status
      case InCurrentLabel => RemoveAt(pushed, ci)
      case InOwnedLabels => pushed[ci := pushed[ci].(ownedLabels := RemoveAt(pushed[ci].ownedLabels, k))]
  }

  /** `transfer`: the caller hands one of its labels to `target`. */
  function Transfer(s: State, caller: string, target: Value, lbl: Value, host: Host): (r: Result<State>)
    ensures Utf16Length(caller) != 43 ==> r == Err(InvalidArweaveAddress)
    ensures Utf16Length(caller) == 43 && !(target.Str? && Utf16Length(target.s) == 43) ==> r == Err(InvalidArweaveAddress)
    ensures Utf16Length(caller) == 43 && target.Str? && Utf16Length(target.s) == 43 && !lbl.Str? ==> r == Err(TypeError)
    ensures Utf16Length(caller) == 43 && target.Str? && Utf16Length(target.s) == 43 && lbl.Str?
            && ValidateUsername(s.users, lbl.s, Read, host.nfkc).Err?
            ==> r == Err(ValidateUsername(s.users, lbl.s, Read, host.nfkc).error)
    ensures Utf16Length(caller) == 43 && target.Str? && Utf16Length(target.s) == 43 && lbl.Str?
            && LabelSyntax(Normalize(lbl.s, host.nfkc)) && UserIndex(s.users, caller) == -1
            ==> r == Err(TypeError)
    ensures Utf16Length(caller) == 43 && target.Str? && Utf16Length(target.s) == 43 && lbl.Str?
            && LabelSyntax(Normalize(lbl.s, host.nfkc)) && UserIndex(s.users, caller) != -1
            && GetTransferabilityStatus(s.users[UserIndex(s.users, caller)], Normalize(lbl.s, host.nfkc)).Err?
            ==> r == Err(GetTransferabilityStatus(s.users[UserIndex(s.users, caller)], Normalize(lbl.s, host.nfkc)).error)
    ensures Utf16Length(caller) == 43 && target.Str? && Utf16Length(target.s) == 43 && lbl.Str?
            && LabelSyntax(Normalize(lbl.s, host.nfkc)) && UserIndex(s.users, caller) != -1
            && GetTransferabilityStatus(s.users[UserIndex(s.users, caller)], Normalize(lbl.s, host.nfkc)).Ok?
            && Normalize(lbl.s, host.nfkc) !in LabelsOf(s.users[UserIndex(s.users, caller)].ownedLabels)
            ==> r == Err(UndefinedGrant)
  {
    var _ :- ValidateArweaveAddress(Str(caller));
    var targetAddr :- ValidateArweaveAddress(target);
    if !lbl.Str? then Err(TypeError)
    else
      var desired :- ValidateUsername(s.users, lbl.s, Read, host.nfkc);
      var ci := UserIndex(s.users, caller);
      if ci == -1 then Err(TypeError)
      else
        var status :- GetTransferabilityStatus(s.users[ci], desired);
        var k := GrantIndex(s.users[ci].ownedLabels, desired);
        if k == -1 then Err(UndefinedGrant)
        else
          GrantIndexFinds(s.users[ci].ownedLabels, desired);
          Ok(s.(users := MoveGrant(s.users, ci, k, status, targetAddr)))
  }

  /** What a successful `transfer` has checked, and its new state: the
      caller's grant for the label is moved to the target. */
  lemma {:induction false} TransferOutcome(s: State, caller: string, target: Value, lbl: Value, host: Host)
    requires Transfer(s, caller, target, lbl, host).Ok?
    ensures
      && lbl.Str? && target.Str? && Utf16Length(caller) == 43 && Utf16Length(target.s) == 43
      && var desired := Normalize(lbl.s, host.nfkc);
      && var ci := UserIndex(s.users, caller);
      && LabelSyntax(desired) && ci != -1
      && desired in LabelsOf(s.users[ci].ownedLabels)
      && (desired == s.users[ci].currentLabel ==> |s.users[ci].ownedLabels| == 1)
      && var k := GrantIndex(s.users[ci].ownedLabels, desired);
      && Transfer(s, caller, target, lbl, host).value ==
         s.(users := MoveGrant(s.users, ci, k,
                               if desired == s.users[ci].currentLabel then InCurrentLabel else InOwnedLabels,
                               target.s))
  {
    assert ValidateArweaveAddress(Str(caller)).Ok? && ValidateArweaveAddress(target).Ok? && lbl.Str?;
    var desired :| ValidateUsername(s.users, lbl.s, Read, host.nfkc) == Ok(desired);
    var ci := UserIndex(s.users, caller);
    assert ci != -1;
    var status :| GetTransferabilityStatus(s.users[ci], desired) == Ok(status);
    GrantIndexFinds(s.users[ci].ownedLabels, desired);
  }

  /** The converse of `TransferOutcome`: a transfer that passes every check
      of the source succeeds, whether or not the target is registered. */
  lemma {:induction false} TransferSucceeds(s: State, caller: string, target: Value, lbl: Value, host: Host)
    requires Utf16Length(caller) == 43 && target.Str? && Utf16Length(target.s) == 43 && lbl.Str?
    requires LabelSyntax(Normalize(lbl.s, host.nfkc))
    requires UserIndex(s.users, caller) != -1
    requires var u := s.users[UserIndex(s.users, caller)];
             var desired := Normalize(lbl.s, host.nfkc);
             desired in LabelsOf(u.ownedLabels) && (desired == u.currentLabel ==> |u.ownedLabels| == 1)
    ensures Transfer(s, caller, target, lbl, host).Ok?
  {
    var ci := UserIndex(s.users, caller);
    GrantIndexFinds(s.users[ci].ownedLabels, Normalize(lbl.s, host.nfkc));
  }

  /** `switch` and `transfer` look the caller up among the accounts only:
      two states with the same accounts give the same errors and succeed
      together, whatever the balances (`_validateLabelSwitching` and
      `_getTransferablityStatus` search `users`, not `balances`). */
  lemma {:induction false} AccountsAloneGateSwitchAndTransfer(s: State, t: State, caller: string,
                                                             target: Value, lbl: Value, host: Host)
    requires s.users == t.users
    ensures Switch(s, caller, lbl, host).Ok? <==> Switch(t, caller, lbl, host).Ok?
    ensures Switch(s, caller, lbl, host).Err? ==> Switch(t, caller, lbl, host) == Switch(s, caller, lbl, host)
    ensures Transfer(s, caller, target, lbl, host).Ok? <==> Transfer(t, caller, target, lbl, host).Ok?
    ensures Transfer(s, caller, target, lbl, host).Err? ==>
              Transfer(t, caller, target, lbl, host) == Transfer(s, caller, target, lbl, host)
  {
  }

  /** `getAddressOf`: the address of the first account whose current label
      is the one `<label>.ar` names. */
  function GetAddressOf(s: State, reference: Value, host: Host): (r: Result<string>)
    ensures r.Ok? <==> GetLabel(reference, host.nfkc).Ok?
                       && CurrentLabelIndex(s.users, GetLabel(reference, host.nfkc).value) != -1
    ensures r.Ok? ==>
      && GetLabel(reference, host.nfkc).Ok?
      && var i := CurrentLabelIndex(s.users, GetLabel(reference, host.nfkc).value);
      && i != -1 && r.value == s.users[i].user
    ensures GetLabel(reference, host.nfkc).Err? ==> r == Err(GetLabel(reference, host.nfkc).error)
    ensures GetLabel(reference, host.nfkc).Ok? &&
            (forall j :: 0 <= j < |s.users| ==> s.users[j].currentLabel != GetLabel(reference, host.nfkc).value)
            ==> r == Err(LabelDoesNotResolve)
  {
    var validated :- GetLabel(reference, host.nfkc);
    var i := CurrentLabelIndex(s.users, validated);
    if i == -1 then Err(LabelDoesNotResolve) else Ok(s.users[i].user)
  }
}
