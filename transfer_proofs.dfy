/** What a `transfer` does to the registry: which account loses the label,
    which gains it, that the invariants survive every branch, and that the
    held labels are conserved except when a caller hands its sole label to
    itself. */
module TransferProofs {
  import opened AnsTypes
  import opened Lookup
  import opened Validation
  import opened Registry
  import opened Invariants

  lemma {:induction false} AutoAccountHolds(target: string, g: Grant)
    ensures Held(AutoGeneratedAccount(target, g)) == multiset{g.name}
    ensures AutoGeneratedAccount(target, g).currentLabel in LabelsOf(AutoGeneratedAccount(target, g).ownedLabels)
  {
    HeldSingle(g);
    assert LabelsOf([g]) == [g.name];
  }

  /** Taking one label out of an account and putting it back elsewhere
      leaves the bag as it was. */
  lemma {:induction false} ReplaceHeld(bag: multiset<string>, held: multiset<string>, x: string)
    requires held <= bag && x in held
    ensures bag - held + (held - multiset{x}) + multiset{x} == bag
  {
    forall y
      ensures (bag - held + (held - multiset{x}) + multiset{x})[y] == bag[y]
    {
    }
  }

  /** Removing an account that held `x` twice after a push leaves the bag
      without `x`. */
  lemma {:induction false} DropPushedTwice(bag: multiset<string>, x: string)
    ensures bag + multiset{x} - multiset{x, x} == bag - multiset{x}
  {
    forall y
      ensures (bag + multiset{x} - multiset{x, x})[y] == (bag - multiset{x})[y]
    {
    }
  }

  // ----- the four branches of MoveGrant: the held labels -----

  lemma {:induction false} SoleToNewAccountBag(users: seq<User>, ci: nat, target: string)
    requires ci < |users| && |users[ci].ownedLabels| == 1
    ensures LabelBag(RemoveAt(users, ci) + [AutoGeneratedAccount(target, users[ci].ownedLabels[0])]) == LabelBag(users)
  {
    var g := users[ci].ownedLabels[0];
    var rest := RemoveAt(users, ci);
    var auto := AutoGeneratedAccount(target, g);
    AutoAccountHolds(target, g);
    assert users[ci].ownedLabels == [g];
    HeldSingle(g);
    HeldInBag(users, ci);
    BagRemoveAt(users, ci);
    BagPush(rest, auto);
  }

  lemma {:induction false} GrantToNewAccountBag(users: seq<User>, ci: nat, k: nat, target: string)
    requires ci < |users| && k < |users[ci].ownedLabels|
    ensures var c' := users[ci].(ownedLabels := RemoveAt(users[ci].ownedLabels, k));
            LabelBag(users[ci := c'] + [AutoGeneratedAccount(target, users[ci].ownedLabels[k])]) == LabelBag(users)
  {
    var c := users[ci];
    var g := c.ownedLabels[k];
    var c' := c.(ownedLabels := RemoveAt(c.ownedLabels, k));
    var auto := AutoGeneratedAccount(target, g);
    AutoAccountHolds(target, g);
    GrantHeld(c, k);
    HeldInBag(users, ci);
    HeldAfterRemove(c.ownedLabels, k);
    BagUpdate(users, ci, c');
    BagPush(users[ci := c'], auto);
    ReplaceHeld(LabelBag(users), Held(c), g.name);
  }

  /** Handing a sole label to oneself and then removing one's account
      leaves the other accounts, so the label is gone. */
  lemma {:induction false} SoleToSelfBag(users: seq<User>, ci: nat)
    requires ci < |users| && |users[ci].ownedLabels| == 1
    ensures var g := users[ci].ownedLabels[0];
            LabelBag(RemoveAt(users[ci := users[ci].(ownedLabels := users[ci].ownedLabels + [g])], ci))
            == LabelBag(users) - multiset{g.name}
  {
    var c := users[ci];
    var g := c.ownedLabels[0];
    var pushed := users[ci := c.(ownedLabels := c.ownedLabels + [g])];
    assert RemoveAt(pushed, ci) == RemoveAt(users, ci);
    BagRemoveAt(users, ci);
    assert c.ownedLabels == [g];
    HeldSingle(g);
  }

  lemma {:induction false} SoleToOtherBag(users: seq<User>, ci: nat, ti: nat)
    requires ci < |users| && ti < |users| && ti != ci && |users[ci].ownedLabels| == 1
    ensures var g := users[ci].ownedLabels[0];
            LabelBag(RemoveAt(users[ti := users[ti].(ownedLabels := users[ti].ownedLabels + [g])], ci))
            == LabelBag(users)
  {
    var g := users[ci].ownedLabels[0];
    var pushed := users[ti := users[ti].(ownedLabels := users[ti].ownedLabels + [g])];
    PushGrantBag(users, ti, g);
    BagRemoveAt(pushed, ci);
    assert pushed[ci] == users[ci];
    assert users[ci].ownedLabels == [g];
    HeldSingle(g);
  }

  lemma {:induction false} GrantToRegisteredAccountBag(users: seq<User>, ci: nat, k: nat, ti: nat)
    requires ci < |users| && ti < |users| && k < |users[ci].ownedLabels|
    ensures var g := users[ci].ownedLabels[k];
            var pushed := users[ti := users[ti].(ownedLabels := users[ti].ownedLabels + [g])];
            LabelBag(pushed[ci := pushed[ci].(ownedLabels := RemoveAt(pushed[ci].ownedLabels, k))]) == LabelBag(users)
  {
    var g := users[ci].ownedLabels[k];
    var pushed := users[ti := users[ti].(ownedLabels := users[ti].ownedLabels + [g])];
    var p := pushed[ci];
    var p' := p.(ownedLabels := RemoveAt(p.ownedLabels, k));
    PushGrantBag(users, ti, g);
    assert p.ownedLabels[k] == g;
    GrantHeld(p, k);
    HeldInBag(pushed, ci);
    HeldAfterRemove(p.ownedLabels, k);
    BagUpdate(pushed, ci, p');
  }

  // ----- the four branches of MoveGrant: addresses and current labels -----

  lemma {:induction false} SoleToNewAccountShape(users: seq<User>, ci: nat, target: string)
    requires WellShaped(users) && ci < |users| && |users[ci].ownedLabels| == 1
    requires forall j :: 0 <= j < |users| ==> users[j].user != target
    ensures WellShaped(RemoveAt(users, ci) + [AutoGeneratedAccount(target, users[ci].ownedLabels[0])])
  {
    var g := users[ci].ownedLabels[0];
    var rest := RemoveAt(users, ci);
    var auto := AutoGeneratedAccount(target, g);
    AutoAccountHolds(target, g);
    RemoveAtKeepsAddressesUnique(users, ci);
    RemoveAtKeepsAbsent(users, ci, target);
    AppendKeepsAddresses(rest, auto);
    RemoveAtKeepsCurrentOwned(users, ci);
    AppendKeepsCurrentOwned(rest, auto);
  }

  lemma {:induction false} GrantToNewAccountShape(users: seq<User>, ci: nat, k: nat, target: string)
    requires WellShaped(users) && ci < |users| && k < |users[ci].ownedLabels|
    requires users[ci].ownedLabels[k].name != users[ci].currentLabel
    requires forall j :: 0 <= j < |users| ==> users[j].user != target
    ensures var c' := users[ci].(ownedLabels := RemoveAt(users[ci].ownedLabels, k));
            WellShaped(users[ci := c'] + [AutoGeneratedAccount(target, users[ci].ownedLabels[k])])
  {
    var c := users[ci];
    var g := c.ownedLabels[k];
    var c' := c.(ownedLabels := RemoveAt(c.ownedLabels, k));
    var rest := users[ci := c'];
    var auto := AutoGeneratedAccount(target, g);
    AutoAccountHolds(target, g);
    KeptAfterRemove(c.ownedLabels, k, c.currentLabel);
    UpdateKeepsAddresses(users, ci, c');
    UpdateKeepsCurrentOwned(users, ci, c');
    assert forall j :: 0 <= j < |rest| ==> rest[j].user == users[j].user;
    AppendKeepsAddresses(rest, auto);
    AppendKeepsCurrentOwned(rest, auto);
  }

  lemma {:induction false} SoleToRegisteredAccountShape(users: seq<User>, ci: nat, ti: nat)
    requires WellShaped(users) && ci < |users| && ti < |users|
    ensures var g := users[ci].ownedLabels;
            WellShaped(RemoveAt(users[ti := users[ti].(ownedLabels := users[ti].ownedLabels + g)], ci))
  {
    var pushed := users[ti := users[ti].(ownedLabels := users[ti].ownedLabels + users[ci].ownedLabels)];
    var t := users[ti];
    var t' := t.(ownedLabels := t.ownedLabels + users[ci].ownedLabels);
    LabelsOfAppend(t.ownedLabels, users[ci].ownedLabels);
    UpdateKeepsAddresses(users, ti, t');
    UpdateKeepsCurrentOwned(users, ti, t');
    RemoveAtKeepsAddressesUnique(pushed, ci);
    RemoveAtKeepsCurrentOwned(pushed, ci);
  }

  lemma {:induction false} GrantToRegisteredAccountShape(users: seq<User>, ci: nat, k: nat, ti: nat)
    requires WellShaped(users) && ci < |users| && ti < |users| && k < |users[ci].ownedLabels|
    requires users[ci].ownedLabels[k].name != users[ci].currentLabel
    ensures var g := users[ci].ownedLabels[k];
            var pushed := users[ti := users[ti].(ownedLabels := users[ti].ownedLabels + [g])];
            WellShaped(pushed[ci := pushed[ci].(ownedLabels := RemoveAt(pushed[ci].ownedLabels, k))])
  {
    var g := users[ci].ownedLabels[k];
    var pushed := users[ti := users[ti].(ownedLabels := users[ti].ownedLabels + [g])];
    var p := pushed[ci];
    var p' := p.(ownedLabels := RemoveAt(p.ownedLabels, k));
    PushGrantShape(users, ti, g);
    assert p.ownedLabels[k] == g;
    assert p.currentLabel == users[ci].currentLabel;
    KeptAfterRemove(p.ownedLabels, k, p.currentLabel);
    UpdateKeepsAddresses(pushed, ci, p');
    UpdateKeepsCurrentOwned(pushed, ci, p');
  }

  /** What `Transfer` has established when it calls `MoveGrant`. */
  ghost predicate Movable(users: seq<User>, ci: nat, k: nat, status: OwnedIn)
  {
    && ci < |users| && k < |users[ci].ownedLabels|
    && (status == InOwnedLabels ==> users[ci].ownedLabels[k].name != users[ci].currentLabel)
    && (status == InCurrentLabel ==> |users[ci].ownedLabels| == 1)
  }

  /** A move to an address with no account keeps the invariant and the
      held labels. */
  lemma {:induction false} MoveToNewAccount(users: seq<User>, ci: nat, k: nat, status: OwnedIn, target: string)
    requires RegistryValid(users) && Movable(users, ci, k, status)
    requires UserIndex(users, target) == -1
    ensures RegistryValid(MoveGrant(users, ci, k, status, target))
    ensures LabelBag(MoveGrant(users, ci, k, status, target)) == LabelBag(users)
  {
    var r := MoveGrant(users, ci, k, status, target);
    var g := users[ci].ownedLabels[k];
    match status
    case InCurrentLabel =>
      assert r == RemoveAt(users, ci) + [AutoGeneratedAccount(target, users[ci].ownedLabels[0])];
      SoleToNewAccountBag(users, ci, target);
      SoleToNewAccountShape(users, ci, target);
    case InOwnedLabels =>
      assert r == users[ci := users[ci].(ownedLabels := RemoveAt(users[ci].ownedLabels, k))] + [AutoGeneratedAccount(target, g)];
      GrantToNewAccountBag(users, ci, k, target);
      GrantToNewAccountShape(users, ci, k, target);
      SmallerBagUnique(r, users);
  }

  /** A move to an existing account keeps the invariant; the held labels are
      kept unless a sole label goes to its own holder. */
  lemma {:induction false} MoveToRegisteredAccount(users: seq<User>, ci: nat, k: nat, status: OwnedIn, ti: nat)
    requires RegistryValid(users) && Movable(users, ci, k, status) && ti < |users|
    requires UserIndex(users, users[ti].user) == ti
    ensures RegistryValid(MoveGrant(users, ci, k, status, users[ti].user))
    ensures LabelBag(MoveGrant(users, ci, k, status, users[ti].user)) ==
            if status == InCurrentLabel && ti == ci
            then LabelBag(users) - multiset{users[ci].ownedLabels[k].name}
            else LabelBag(users)
  {
    var r := MoveGrant(users, ci, k, status, users[ti].user);
    match status
    case InCurrentLabel =>
      assert users[ci].ownedLabels == [users[ci].ownedLabels[k]];
      if ti == ci {
        SoleToSelfBag(users, ci);
      } else {
        SoleToOtherBag(users, ci, ti);
      }
      SoleToRegisteredAccountShape(users, ci, ti);
      SmallerBagUnique(r, users);
    case InOwnedLabels =>
      GrantToRegisteredAccountBag(users, ci, k, ti);
      GrantToRegisteredAccountShape(users, ci, k, ti);
      SmallerBagUnique(r, users);
  }

  /** `MoveGrant` keeps the invariant; the held labels are kept, except that
      a caller giving its sole label to itself loses that label. */
  lemma {:induction false} MoveGrantPreservesValid(users: seq<User>, ci: nat, k: nat, status: OwnedIn, target: string)
    requires RegistryValid(users) && Movable(users, ci, k, status)
    ensures RegistryValid(MoveGrant(users, ci, k, status, target))
    ensures LabelBag(MoveGrant(users, ci, k, status, target)) ==
            if status == InCurrentLabel && target == users[ci].user
            then LabelBag(users) - multiset{users[ci].ownedLabels[k].name}
            else LabelBag(users)
  {
    var ti := UserIndex(users, target);
    if ti == -1 {
      MoveToNewAccount(users, ci, k, status, target);
    } else {
      UniqueIndex(users, ci);
      assert target == users[ci].user <==> ti == ci;
      MoveToRegisteredAccount(users, ci, k, status, ti);
    }
  }

  /** `Transfer` moves a grant that satisfies `Movable`. */
  lemma {:induction false} TransferIsMovable(s: State, caller: string, target: Value, lbl: Value, host: Host)
    requires Transfer(s, caller, target, lbl, host).Ok?
    ensures var desired := Normalize(lbl.s, host.nfkc);
            var ci := UserIndex(s.users, caller);
            && 0 <= ci
            && var k := GrantIndex(s.users[ci].ownedLabels, desired);
            && 0 <= k
            && var status := if desired == s.users[ci].currentLabel then InCurrentLabel else InOwnedLabels;
            && Movable(s.users, ci, k, status)
            && s.users[ci].ownedLabels[k].name == desired
            && target.Str?
            && Transfer(s, caller, target, lbl, host).value == s.(users := MoveGrant(s.users, ci, k, status, target.s))
  {
    var desired := Normalize(lbl.s, host.nfkc);
    var ci := UserIndex(s.users, caller);
    TransferOutcome(s, caller, target, lbl, host);
    GrantIndexFinds(s.users[ci].ownedLabels, desired);
  }

  /** `transfer` keeps the invariant in every branch. It conserves the held
      labels when caller and target differ; a caller that gives its sole
      label to itself deletes that label from the registry. */
  lemma {:induction false} TransferPreservesValid(s: State, caller: string, target: Value, lbl: Value, host: Host)
    requires Valid(s)
    requires Transfer(s, caller, target, lbl, host).Ok?
    ensures Valid(Transfer(s, caller, target, lbl, host).value)
    ensures caller != target.s ==> LabelBag(Transfer(s, caller, target, lbl, host).value.users) == LabelBag(s.users)
    ensures caller == target.s ==>
      var desired := Normalize(lbl.s, host.nfkc);
      LabelBag(Transfer(s, caller, target, lbl, host).value.users) ==
        if desired == s.users[UserIndex(s.users, caller)].currentLabel
        then LabelBag(s.users) - multiset{desired}
        else LabelBag(s.users)
  {
    var desired := Normalize(lbl.s, host.nfkc);
    var ci := UserIndex(s.users, caller);
    TransferIsMovable(s, caller, target, lbl, host);
    var k := GrantIndex(s.users[ci].ownedLabels, desired);
    var status := if desired == s.users[ci].currentLabel then InCurrentLabel else InOwnedLabels;
    MoveGrantPreservesValid(s.users, ci, k, status, target.s);
  }

  /** A self-transfer of a sole current label leaves nobody holding it. */
  lemma {:induction false} SelfTransferLosesLabel(s: State, caller: string, lbl: Value, host: Host)
    requires Valid(s)
    requires Transfer(s, caller, Str(caller), lbl, host).Ok?
    requires Normalize(lbl.s, host.nfkc) == s.users[UserIndex(s.users, caller)].currentLabel
    ensures Normalize(lbl.s, host.nfkc) in LabelBag(s.users)
    ensures Normalize(lbl.s, host.nfkc) !in LabelBag(Transfer(s, caller, Str(caller), lbl, host).value.users)
    ensures UserIndex(Transfer(s, caller, Str(caller), lbl, host).value.users, caller) == -1
  {
    var desired := Normalize(lbl.s, host.nfkc);
    var ci := UserIndex(s.users, caller);
    TransferPreservesValid(s, caller, Str(caller), lbl, host);
    TransferIsMovable(s, caller, Str(caller), lbl, host);
    SoleBagCount(s.users, ci);
    SoleToSelfIndex(s.users, ci);
  }

  /** A transfer touches only the caller's and the target's accounts: every
      other account keeps its record, at the same index, or one lower when
      the caller's account was removed before it. */
  lemma {:induction false} MoveGrantBystanders(users: seq<User>, ci: nat, k: nat, status: OwnedIn, target: string)
    requires ci < |users| && k < |users[ci].ownedLabels|
    ensures var r := MoveGrant(users, ci, k, status, target);
            forall j :: 0 <= j < |users| && j != ci && users[j].user != target ==>
              r[if status == InCurrentLabel && j > ci then j - 1 else j] == users[j]
  {
    var r := MoveGrant(users, ci, k, status, target);
    var g := users[ci].ownedLabels[k];
    var ti := UserIndex(users, target);
    forall j | 0 <= j < |users| && j != ci && users[j].user != target
      ensures r[if status == InCurrentLabel && j > ci then j - 1 else j] == users[j]
    {
      assert j != ti;
      if ti != -1 {
        var pushed := users[ti := users[ti].(ownedLabels := users[ti].ownedLabels + [g])];
        assert pushed[j] == users[j];
      }
    }
  }

  /** A caller handing one of its other labels to itself (ans.js pushes the
      grant, then splices the old index) keeps its account, with the grant
      moved to the end of its list. */
  lemma {:induction false} SelfTransferMovesGrantLast(users: seq<User>, ci: nat, k: nat)
    requires ci < |users| && k < |users[ci].ownedLabels|
    requires UserIndex(users, users[ci].user) == ci
    ensures var r := MoveGrant(users, ci, k, InOwnedLabels, users[ci].user);
            && |r| == |users|
            && r[ci] == users[ci].(ownedLabels := RemoveAt(users[ci].ownedLabels + [users[ci].ownedLabels[k]], k))
            && r[ci].ownedLabels[|r[ci].ownedLabels| - 1] == users[ci].ownedLabels[k]
            && |r[ci].ownedLabels| == |users[ci].ownedLabels|
  {
  }

  /** A sole current label is in the bag exactly once. */
  lemma {:induction false} SoleBagCount(users: seq<User>, ci: nat)
    requires LabelsUnique(users) && CurrentLabelOwned(users) && ci < |users|
    ensures LabelBag(users)[users[ci].currentLabel] == 1
  {
    HeldInBag(users, ci);
    assert users[ci].currentLabel in Held(users[ci]);
  }

  /** A caller giving its sole label to itself no longer has an account. */
  lemma {:induction false} SoleToSelfIndex(users: seq<User>, ci: nat)
    requires UniqueAddresses(users) && ci < |users| && |users[ci].ownedLabels| == 1
    ensures UserIndex(MoveGrant(users, ci, 0, InCurrentLabel, users[ci].user), users[ci].user) == -1
  {
    UniqueIndex(users, ci);
    var pushed := users[ci := users[ci].(ownedLabels := users[ci].ownedLabels + [users[ci].ownedLabels[0]])];
    UpdateKeepsAddresses(users, ci, pushed[ci]);
    RemoveAtKeepsAddressesUnique(pushed, ci);
  }

  // ----- the four branches of MoveGrant: where caller and target end up -----

  lemma {:induction false} SoleToNewAccountIndices(users: seq<User>, ci: nat, target: string)
    requires UniqueAddresses(users) && ci < |users| && |users[ci].ownedLabels| == 1
    requires forall j :: 0 <= j < |users| ==> users[j].user != target
    ensures var r := RemoveAt(users, ci) + [AutoGeneratedAccount(target, users[ci].ownedLabels[0])];
            UserIndex(r, target) == |r| - 1 && UserIndex(r, users[ci].user) == -1
  {
    var rest := RemoveAt(users, ci);
    var auto := AutoGeneratedAccount(target, users[ci].ownedLabels[0]);
    RemoveAtKeepsAddressesUnique(users, ci);
    RemoveAtKeepsAbsent(users, ci, target);
    AppendKeepsAddresses(rest, auto);
    UniqueIndex(rest + [auto], |rest|);
    assert forall j :: 0 <= j < |rest| + 1 ==> (rest + [auto])[j].user != users[ci].user;
  }

  lemma {:induction false} GrantToNewAccountIndices(users: seq<User>, ci: nat, k: nat, target: string)
    requires UniqueAddresses(users) && ci < |users| && k < |users[ci].ownedLabels|
    requires forall j :: 0 <= j < |users| ==> users[j].user != target
    ensures var c' := users[ci].(ownedLabels := RemoveAt(users[ci].ownedLabels, k));
            var r := users[ci := c'] + [AutoGeneratedAccount(target, users[ci].ownedLabels[k])];
            UserIndex(r, target) == |users| && UserIndex(r, users[ci].user) == ci
  {
    var c' := users[ci].(ownedLabels := RemoveAt(users[ci].ownedLabels, k));
    var rest := users[ci := c'];
    var auto := AutoGeneratedAccount(target, users[ci].ownedLabels[k]);
    UpdateKeepsAddresses(users, ci, c');
    assert forall j :: 0 <= j < |rest| ==> rest[j].user == users[j].user;
    AppendKeepsAddresses(rest, auto);
    UniqueIndex(rest + [auto], |rest|);
    UniqueIndex(rest + [auto], ci);
  }

  lemma {:induction false} SoleToRegisteredAccountIndices(users: seq<User>, ci: nat, ti: nat, g: Grant)
    requires UniqueAddresses(users) && ci < |users| && ti < |users| && ti != ci
    ensures var pushed := users[ti := users[ti].(ownedLabels := users[ti].ownedLabels + [g])];
            var r := RemoveAt(pushed, ci);
            var tj := if ti < ci then ti else ti - 1;
            && UserIndex(r, users[ti].user) == tj && r[tj] == pushed[ti]
            && UserIndex(r, users[ci].user) == -1
  {
    var pushed := users[ti := users[ti].(ownedLabels := users[ti].ownedLabels + [g])];
    var r := RemoveAt(pushed, ci);
    var tj := if ti < ci then ti else ti - 1;
    UpdateKeepsAddresses(users, ti, pushed[ti]);
    RemoveAtKeepsAddressesUnique(pushed, ci);
    assert r[tj] == pushed[ti];
    UniqueIndex(r, tj);
  }

  lemma {:induction false} GrantToRegisteredAccountIndices(users: seq<User>, ci: nat, k: nat, ti: nat, g: Grant)
    requires UniqueAddresses(users) && ci < |users| && ti < |users| && ti != ci
    requires k < |users[ci].ownedLabels|
    ensures var pushed := users[ti := users[ti].(ownedLabels := users[ti].ownedLabels + [g])];
            var r := pushed[ci := pushed[ci].(ownedLabels := RemoveAt(pushed[ci].ownedLabels, k))];
            && UserIndex(r, users[ti].user) == ti && r[ti] == pushed[ti]
            && UserIndex(r, users[ci].user) == ci && r[ci] == users[ci].(ownedLabels := RemoveAt(users[ci].ownedLabels, k))
  {
    var pushed := users[ti := users[ti].(ownedLabels := users[ti].ownedLabels + [g])];
    var r := pushed[ci := pushed[ci].(ownedLabels := RemoveAt(pushed[ci].ownedLabels, k))];
    UpdateKeepsAddresses(users, ti, pushed[ti]);
    UpdateKeepsAddresses(pushed, ci, r[ci]);
    UniqueIndex(r, ti);
    UniqueIndex(r, ci);
  }

  /** After moving a grant to another address, the target's account holds it
      (a new account, or the old one with the grant pushed), and the caller
      has either lost its account (a sole current label) or just the grant. */
  lemma {:induction false} MoveGrantAccounts(users: seq<User>, ci: nat, k: nat, status: OwnedIn, target: string)
    requires UniqueAddresses(users) && Movable(users, ci, k, status)
    requires target != users[ci].user
    ensures var r := MoveGrant(users, ci, k, status, target);
            var c := users[ci];
            var g := c.ownedLabels[k];
            var ti := UserIndex(users, target);
            var tj := UserIndex(r, target);
            var cj := UserIndex(r, c.user);
            && 0 <= tj
            && r[tj] == (if ti == -1 then AutoGeneratedAccount(target, g)
                         else users[ti].(ownedLabels := users[ti].ownedLabels + [g]))
            && (status == InCurrentLabel ==> cj == -1)
            && (status == InOwnedLabels ==> 0 <= cj && r[cj] == c.(ownedLabels := RemoveAt(c.ownedLabels, k)))
  {
    var r := MoveGrant(users, ci, k, status, target);
    var ti := UserIndex(users, target);
    var g := users[ci].ownedLabels[k];
    if ti == -1 {
      match status
      case InCurrentLabel =>
        assert r == RemoveAt(users, ci) + [AutoGeneratedAccount(target, users[ci].ownedLabels[0])];
        SoleToNewAccountIndices(users, ci, target);
      case InOwnedLabels =>
        assert r == users[ci := users[ci].(ownedLabels := RemoveAt(users[ci].ownedLabels, k))] + [AutoGeneratedAccount(target, g)];
        GrantToNewAccountIndices(users, ci, k, target);
    } else {
      var pushed := users[ti := users[ti].(ownedLabels := users[ti].ownedLabels + [g])];
      match status
      case InCurrentLabel =>
        assert r == RemoveAt(pushed, ci);
        SoleToRegisteredAccountIndices(users, ci, ti, g);
      case InOwnedLabels =>
        assert r == pushed[ci := pushed[ci].(ownedLabels := RemoveAt(pushed[ci].ownedLabels, k))];
        GrantToRegisteredAccountIndices(users, ci, k, ti, g);
    }
  }

  /** The account of a transfer's target, when it is not the caller: the
      label's grant ends up there, in a new account carrying the transfer's
      auto-generated metadata if the target had none. */
  lemma {:induction false} TransferTargetAccount(s: State, caller: string, target: Value, lbl: Value, host: Host)
    requires Valid(s)
    requires Transfer(s, caller, target, lbl, host).Ok?
    requires caller != target.s
    ensures var s' := Transfer(s, caller, target, lbl, host).value;
            var desired := Normalize(lbl.s, host.nfkc);
            var c := s.users[UserIndex(s.users, caller)];
            var g := c.ownedLabels[GrantIndex(c.ownedLabels, desired)];
            var ti := UserIndex(s.users, target.s);
            var tj := UserIndex(s'.users, target.s);
            && g.name == desired
            && 0 <= tj
            && s'.users[tj] == (if ti == -1 then User(target.s, desired, [g], AUTO_BIO, DEFAULT_AVATAR)
                                else s.users[ti].(ownedLabels := s.users[ti].ownedLabels + [g]))
  {
    var desired := Normalize(lbl.s, host.nfkc);
    var ci := UserIndex(s.users, caller);
    TransferIsMovable(s, caller, target, lbl, host);
    var k := GrantIndex(s.users[ci].ownedLabels, desired);
    var status := if desired == s.users[ci].currentLabel then InCurrentLabel else InOwnedLabels;
    MoveGrantAccounts(s.users, ci, k, status, target.s);
  }

  /** Dropping one grant from an account of a valid registry takes exactly
      that label from the account's holdings, and none of its remaining
      grants carries it. */
  lemma {:induction false} DropGrant(users: seq<User>, ci: nat, k: nat)
    requires RegistryValid(users) && ci < |users| && k < |users[ci].ownedLabels|
    ensures var c := users[ci];
            var d := c.ownedLabels[k].name;
            var c' := c.(ownedLabels := RemoveAt(c.ownedLabels, k));
            && Held(c') == Held(c) - multiset{d}
            && d !in LabelsOf(c'.ownedLabels)
  {
    var c := users[ci];
    var d := c.ownedLabels[k].name;
    HeldAfterRemove(c.ownedLabels, k);
    GrantHeld(c, k);
    HeldInBag(users, ci);
    assert Held(c)[d] <= LabelBag(users)[d] <= 1;
    assert multiset(LabelsOf(RemoveAt(c.ownedLabels, k)))[d] == 0;
  }

  /** The caller of a transfer to another address: giving away its sole
      current label removes its account; giving away another label removes
      just that grant and keeps the current label. */
  lemma {:induction false} TransferCallerAccount(s: State, caller: string, target: Value, lbl: Value, host: Host)
    requires Valid(s)
    requires Transfer(s, caller, target, lbl, host).Ok?
    requires caller != target.s
    ensures var s' := Transfer(s, caller, target, lbl, host).value;
            var desired := Normalize(lbl.s, host.nfkc);
            var c := s.users[UserIndex(s.users, caller)];
            var cj := UserIndex(s'.users, caller);
            && (desired == c.currentLabel ==> cj == -1)
            && (desired != c.currentLabel ==>
                  && 0 <= cj
                  && s'.users[cj].currentLabel == c.currentLabel
                  && Held(s'.users[cj]) == Held(c) - multiset{desired}
                  && desired !in LabelsOf(s'.users[cj].ownedLabels))
  {
    var desired := Normalize(lbl.s, host.nfkc);
    var ci := UserIndex(s.users, caller);
    TransferIsMovable(s, caller, target, lbl, host);
    var k := GrantIndex(s.users[ci].ownedLabels, desired);
    var status := if desired == s.users[ci].currentLabel then InCurrentLabel else InOwnedLabels;
    MoveGrantAccounts(s.users, ci, k, status, target.s);
    DropGrant(s.users, ci, k);
  }

}
