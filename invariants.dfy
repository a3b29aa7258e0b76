/** The registry's global invariants and their preservation by `setProfile`,
    `mint` and `switch`: addresses are unique, every account's current label
    is one of its grants, no label is held twice (counted in the multiset
    of all held labels), and no balance is negative. */
module Invariants {
  import opened AnsTypes
  import opened Lookup
  import opened Validation
  import opened Registry

  /** The labels one account holds, with multiplicity. */
  function Held(u: User): multiset<string>
  {
    multiset(LabelsOf(u.ownedLabels))
  }

  /** The labels all accounts hold, with multiplicity. */
  function LabelBag(users: seq<User>): multiset<string>
  {
    if users == [] then multiset{} else Held(users[0]) + LabelBag(users[1..])
  }

  ghost predicate UniqueAddresses(users: seq<User>)
  {
    forall i, j :: 0 <= i < j < |users| ==> users[i].user != users[j].user
  }

  ghost predicate CurrentLabelOwned(users: seq<User>)
  {
    forall i :: 0 <= i < |users| ==> users[i].currentLabel in LabelsOf(users[i].ownedLabels)
  }

  /** No label appears twice among all grants, in one account or in two. */
  ghost predicate LabelsUnique(users: seq<User>)
  {
    forall l :: LabelBag(users)[l] <= 1
  }

  ghost predicate BalancesNonNegative(balances: map<string, real>)
  {
    forall a :: a in balances ==> balances[a] >= 0.0
  }

  ghost predicate RegistryValid(users: seq<User>)
  {
    UniqueAddresses(users) && CurrentLabelOwned(users) && LabelsUnique(users)
  }

  /** The state invariant every branch of `handle` keeps. */
  ghost predicate Valid(s: State)
  {
    RegistryValid(s.users) && BalancesNonNegative(s.balances)
  }

  // ----- the labels of grant lists -----

  lemma {:induction false} LabelsOfAppend(a: seq<Grant>, b: seq<Grant>)
    ensures LabelsOf(a + b) == LabelsOf(a) + LabelsOf(b)
  {
  }

  lemma {:induction false} HeldSingle(g: Grant)
    ensures multiset(LabelsOf([g])) == multiset{g.name}
  {
    assert LabelsOf([g]) == [g.name];
  }

  /** Pushing a grant adds exactly its label. */
  lemma {:induction false} HeldAfterPush(grants: seq<Grant>, g: Grant)
    ensures multiset(LabelsOf(grants + [g])) == multiset(LabelsOf(grants)) + multiset{g.name}
  {
    LabelsOfAppend(grants, [g]);
    HeldSingle(g);
  }

  /** Splicing out a grant removes exactly its label. */
  lemma {:induction false} HeldAfterRemove(grants: seq<Grant>, k: nat)
    requires k < |grants|
    ensures multiset(LabelsOf(RemoveAt(grants, k))) == multiset(LabelsOf(grants)) - multiset{grants[k].name}
  {
    assert grants == grants[..k] + [grants[k]] + grants[k + 1..];
    LabelsOfAppend(grants[..k] + [grants[k]], grants[k + 1..]);
    LabelsOfAppend(grants[..k], [grants[k]]);
    LabelsOfAppend(grants[..k], grants[k + 1..]);
    HeldSingle(grants[k]);
  }

  /** Splicing out another label's grant keeps a label. */
  lemma {:induction false} KeptAfterRemove(grants: seq<Grant>, k: nat, l: string)
    requires k < |grants| && l in LabelsOf(grants) && l != grants[k].name
    ensures l in LabelsOf(RemoveAt(grants, k))
  {
    var j :| 0 <= j < |grants| && LabelsOf(grants)[j] == l;
    if j < k {
      assert LabelsOf(RemoveAt(grants, k))[j] == l;
    } else {
      assert LabelsOf(RemoveAt(grants, k))[j - 1] == l;
    }
  }

  lemma {:induction false} KeptAfterPush(grants: seq<Grant>, g: Grant, l: string)
    requires l in LabelsOf(grants)
    ensures l in LabelsOf(grants + [g])
  {
    LabelsOfAppend(grants, [g]);
  }

  // ----- the multiset of all held labels -----

  lemma {:induction false} BagAppend(a: seq<User>, b: seq<User>)
    ensures LabelBag(a + b) == LabelBag(a) + LabelBag(b)
    decreases |a|
  {
    if a == [] {
      assert a + b == b;
    } else {
      assert (a + b)[0] == a[0];
      assert (a + b)[1..] == a[1..] + b;
      BagAppend(a[1..], b);
    }
  }

  lemma {:induction false} BagSingle(u: User)
    ensures LabelBag([u]) == Held(u)
  {
    assert [u][1..] == [];
  }

  lemma {:induction false} BagSplit(users: seq<User>, i: nat)
    requires i < |users|
    ensures LabelBag(users) == LabelBag(users[..i]) + Held(users[i]) + LabelBag(users[i + 1..])
  {
    var front, back := users[..i], users[i + 1..];
    assert users == front + ([users[i]] + back);
    BagAppend(front, [users[i]] + back);
    BagAppend([users[i]], back);
    BagSingle(users[i]);
    assert LabelBag(users) == LabelBag(front) + (Held(users[i]) + LabelBag(back));
  }

  lemma {:induction false} BagRemoveAt(users: seq<User>, i: nat)
    requires i < |users|
    ensures LabelBag(RemoveAt(users, i)) == LabelBag(users) - Held(users[i])
  {
    BagSplit(users, i);
    BagAppend(users[..i], users[i + 1..]);
  }

  lemma {:induction false} BagUpdate(users: seq<User>, i: nat, u: User)
    requires i < |users|
    ensures LabelBag(users[i := u]) == LabelBag(users) - Held(users[i]) + Held(u)
  {
    BagSplit(users, i);
    BagSplit(users[i := u], i);
    assert users[i := u][..i] == users[..i];
    assert users[i := u][i + 1..] == users[i + 1..];
  }

  lemma {:induction false} BagPush(users: seq<User>, u: User)
    ensures LabelBag(users + [u]) == LabelBag(users) + Held(u)
  {
    BagAppend(users, [u]);
    BagSingle(u);
  }

  /** A label is held by somebody exactly when it is in the bag. */
  lemma {:induction false} BagMember(users: seq<User>, l: string)
    ensures l in LabelBag(users) <==> exists i :: 0 <= i < |users| && l in LabelsOf(users[i].ownedLabels)
    decreases |users|
  {
    if users != [] {
      BagMember(users[1..], l);
      if l in LabelBag(users[1..]) {
        var i :| 0 <= i < |users[1..]| && l in LabelsOf(users[1..][i].ownedLabels);
        assert users[i + 1] == users[1..][i];
      }
      if exists i :: 0 <= i < |users| && l in LabelsOf(users[i].ownedLabels) {
        var i :| 0 <= i < |users| && l in LabelsOf(users[i].ownedLabels);
        if i > 0 {
          assert users[1..][i - 1] == users[i];
        }
      }
    }
  }

  /** Each account's labels are part of the bag. */
  lemma {:induction false} HeldInBag(users: seq<User>, i: nat)
    requires i < |users|
    ensures Held(users[i]) <= LabelBag(users)
  {
    BagSplit(users, i);
  }

  /** With current labels owned, the claim check of `_validateUsername` finds
      exactly the labels in the bag. */
  lemma {:induction false} TakenIffHeld(users: seq<User>, l: string)
    requires CurrentLabelOwned(users)
    ensures LabelTaken(users, l) <==> l in LabelBag(users)
  {
    BagMember(users, l);
    if LabelTaken(users, l) {
      var i :| 0 <= i < |users| && Claims(users[i], l);
      GrantIndexFinds(users[i].ownedLabels, l);
      assert l in LabelsOf(users[i].ownedLabels);
    }
    if l in LabelBag(users) {
      var i :| 0 <= i < |users| && l in LabelsOf(users[i].ownedLabels);
      GrantIndexFinds(users[i].ownedLabels, l);
      assert Claims(users[i], l);
    }
  }

  /** The uniqueness invariant, stated on accounts: a label held by one
      account is held by no other. */
  lemma {:induction false} SingleHolder(users: seq<User>, i: nat, j: nat, l: string)
    requires LabelsUnique(users)
    requires i < j < |users|
    requires l in LabelsOf(users[i].ownedLabels)
    ensures l !in LabelsOf(users[j].ownedLabels)
  {
    BagSplit(users, j);
    BagMember(users[..j], l);
    assert users[..j][i] == users[i];
    assert l in LabelBag(users[..j]);
    assert LabelBag(users)[l] <= 1;
    assert LabelBag(users)[l] == LabelBag(users[..j])[l] + Held(users[j])[l] + LabelBag(users[j + 1..])[l];
    assert Held(users[j])[l] == 0;
  }

  /** The first account with an address is the only one. */
  lemma {:induction false} UniqueIndex(users: seq<User>, i: nat)
    requires UniqueAddresses(users) && i < |users|
    ensures UserIndex(users, users[i].user) == i
  {
  }

  lemma {:induction false} RemoveAtKeepsAddressesUnique(users: seq<User>, i: nat)
    requires UniqueAddresses(users) && i < |users|
    ensures UniqueAddresses(RemoveAt(users, i))
    ensures forall j :: 0 <= j < |users| - 1 ==> RemoveAt(users, i)[j].user != users[i].user
  {
    var r := RemoveAt(users, i);
    forall a, b | 0 <= a < b < |r|
      ensures r[a].user != r[b].user
    {
      var a' := if a < i then a else a + 1;
      var b' := if b < i then b else b + 1;
      assert r[a] == users[a'] && r[b] == users[b'];
    }
  }

  // ----- how the invariant's parts survive edits of the accounts list -----

  lemma {:induction false} AppendKeepsAddresses(rest: seq<User>, u: User)
    requires UniqueAddresses(rest)
    requires forall j :: 0 <= j < |rest| ==> rest[j].user != u.user
    ensures UniqueAddresses(rest + [u])
  {
    var r := rest + [u];
    forall a, b | 0 <= a < b < |r|
      ensures r[a].user != r[b].user
    {
      assert r[a] == rest[a];
    }
  }

  lemma {:induction false} AppendKeepsCurrentOwned(rest: seq<User>, u: User)
    requires CurrentLabelOwned(rest) && u.currentLabel in LabelsOf(u.ownedLabels)
    ensures CurrentLabelOwned(rest + [u])
  {
    var r := rest + [u];
    forall j | 0 <= j < |r|
      ensures r[j].currentLabel in LabelsOf(r[j].ownedLabels)
    {
      if j < |rest| {
        assert r[j] == rest[j];
      }
    }
  }

  lemma {:induction false} RemoveAtKeepsCurrentOwned(users: seq<User>, i: nat)
    requires CurrentLabelOwned(users) && i < |users|
    ensures CurrentLabelOwned(RemoveAt(users, i))
  {
    var r := RemoveAt(users, i);
    forall j | 0 <= j < |r|
      ensures r[j].currentLabel in LabelsOf(r[j].ownedLabels)
    {
      var j' := if j < i then j else j + 1;
      assert r[j] == users[j'];
    }
  }

  /** Every account left after a removal was there before. */
  lemma {:induction false} RemoveAtKeepsAbsent(users: seq<User>, i: nat, addr: string)
    requires i < |users|
    requires forall j :: 0 <= j < |users| ==> users[j].user != addr
    ensures forall j :: 0 <= j < |users| - 1 ==> RemoveAt(users, i)[j].user != addr
  {
    var r := RemoveAt(users, i);
    forall j | 0 <= j < |r|
      ensures r[j].user != addr
    {
      var j' := if j < i then j else j + 1;
      assert r[j] == users[j'];
    }
  }

  lemma {:induction false} UpdateKeepsAddresses(users: seq<User>, i: nat, u: User)
    requires UniqueAddresses(users) && i < |users| && u.user == users[i].user
    ensures UniqueAddresses(users[i := u])
  {
    assert forall j :: 0 <= j < |users| ==> users[i := u][j].user == users[j].user;
  }

  lemma {:induction false} UpdateKeepsCurrentOwned(users: seq<User>, i: nat, u: User)
    requires CurrentLabelOwned(users) && i < |users| && u.currentLabel in LabelsOf(u.ownedLabels)
    ensures CurrentLabelOwned(users[i := u])
  {
  }

  /** A bag no larger than a unique one is unique. */
  lemma {:induction false} SmallerBagUnique(users: seq<User>, before: seq<User>)
    requires LabelsUnique(before) && LabelBag(users) <= LabelBag(before)
    ensures LabelsUnique(users)
  {
    forall l
      ensures LabelBag(users)[l] <= 1
    {
      assert LabelBag(users)[l] <= LabelBag(before)[l];
    }
  }

  /** A grant's label is part of its holder's labels. */
  lemma {:induction false} GrantHeld(u: User, k: nat)
    requires k < |u.ownedLabels|
    ensures u.ownedLabels[k].name in Held(u)
  {
    assert LabelsOf(u.ownedLabels)[k] == u.ownedLabels[k].name;
  }

  /** Unique addresses, and every current label among its account's grants. */
  ghost predicate WellShaped(users: seq<User>)
  {
    UniqueAddresses(users) && CurrentLabelOwned(users)
  }

  /** Adding one label nobody holds keeps the labels unique. */
  lemma {:induction false} AddFreshUnique(users: seq<User>, before: seq<User>, l: string)
    requires LabelsUnique(before) && l !in LabelBag(before)
    requires LabelBag(users) == LabelBag(before) + multiset{l}
    ensures LabelsUnique(users)
  {
    forall x
      ensures LabelBag(users)[x] <= 1
    {
      assert LabelBag(users)[x] == LabelBag(before)[x] + multiset{l}[x];
    }
  }

  /** Pushing a grant onto an account adds its label to the bag once more. */
  lemma {:induction false} PushGrantBag(users: seq<User>, ti: nat, g: Grant)
    requires ti < |users|
    ensures LabelBag(users[ti := users[ti].(ownedLabels := users[ti].ownedLabels + [g])])
            == LabelBag(users) + multiset{g.name}
  {
    var t := users[ti];
    var t' := t.(ownedLabels := t.ownedLabels + [g]);
    BagUpdate(users, ti, t');
    HeldAfterPush(t.ownedLabels, g);
    HeldInBag(users, ti);
  }

  lemma {:induction false} PushGrantShape(users: seq<User>, ti: nat, g: Grant)
    requires WellShaped(users) && ti < |users|
    ensures WellShaped(users[ti := users[ti].(ownedLabels := users[ti].ownedLabels + [g])])
  {
    var t := users[ti];
    var t' := t.(ownedLabels := t.ownedLabels + [g]);
    KeptAfterPush(t.ownedLabels, g, t.currentLabel);
    UpdateKeepsAddresses(users, ti, t');
    UpdateKeepsCurrentOwned(users, ti, t');
  }

  // ----- preservation by setProfile, mint, switch -----

  /** Appending a new account for a new address, holding one label nobody
      holds as its current label, keeps the registry invariant. */
  lemma {:induction false} RegisterAccount(users: seq<User>, u: User, g: Grant)
    requires RegistryValid(users)
    requires forall j :: 0 <= j < |users| ==> users[j].user != u.user
    requires u.ownedLabels == [g] && u.currentLabel == g.name && g.name !in LabelBag(users)
    ensures RegistryValid(users + [u])
    ensures LabelBag(users + [u]) == LabelBag(users) + multiset{g.name}
  {
    BagPush(users, u);
    HeldSingle(g);
    assert LabelsOf(u.ownedLabels) == [g.name];
    AppendKeepsAddresses(users, u);
    AppendKeepsCurrentOwned(users, u);
    AddFreshUnique(users + [u], users, g.name);
  }

  /** `setProfile` keeps the invariant and adds exactly the new label. */
  lemma {:induction false} SetProfilePreservesValid(s: State, caller: string, username: Value, bio: Value, avatar: Value,
                                 avatarTags: map<string, string>, host: Host)
    requires Valid(s)
    requires SetProfile(s, caller, username, bio, avatar, avatarTags, host).Ok?
    ensures var s' := SetProfile(s, caller, username, bio, avatar, avatarTags, host).value;
            && Valid(s')
            && LabelBag(s'.users) == LabelBag(s.users) + multiset{Normalize(username.s, host.nfkc)}
            && Normalize(username.s, host.nfkc) !in LabelBag(s.users)
  {
    var s' := SetProfile(s, caller, username, bio, avatar, avatarTags, host).value;
    var lbl := Normalize(username.s, host.nfkc);
    var u := s'.users[|s.users|];
    assert s'.users == s.users + [u];
    TakenIffHeld(s.users, lbl);
    RegisterAccount(s.users, u, MintedGrant(lbl, host.blockHeight));
  }

  /** Pushing a grant for a label nobody holds keeps the registry invariant. */
  lemma {:induction false} AddGrant(users: seq<User>, i: nat, g: Grant)
    requires RegistryValid(users) && i < |users| && g.name !in LabelBag(users)
    ensures RegistryValid(users[i := users[i].(ownedLabels := users[i].ownedLabels + [g])])
    ensures LabelBag(users[i := users[i].(ownedLabels := users[i].ownedLabels + [g])]) == LabelBag(users) + multiset{g.name}
  {
    PushGrantBag(users, i, g);
    PushGrantShape(users, i, g);
    AddFreshUnique(users[i := users[i].(ownedLabels := users[i].ownedLabels + [g])], users, g.name);
  }

  /** `mint` keeps the invariant and adds exactly the new label. */
  lemma {:induction false} MintPreservesValid(s: State, caller: string, username: Value, host: Host)
    requires Valid(s)
    requires Mint(s, caller, username, host).Ok?
    ensures var s' := Mint(s, caller, username, host).value;
            && Valid(s')
            && LabelBag(s'.users) == LabelBag(s.users) + multiset{Normalize(username.s, host.nfkc)}
            && Normalize(username.s, host.nfkc) !in LabelBag(s.users)
  {
    var lbl := Normalize(username.s, host.nfkc);
    TakenIffHeld(s.users, lbl);
    AddGrant(s.users, UserIndex(s.users, caller), MintedGrant(lbl, host.blockHeight));
  }

  /** Making one of an account's own labels its current one keeps the
      registry invariant and the held labels. */
  lemma {:induction false} SwitchCurrent(users: seq<User>, i: nat, l: string)
    requires RegistryValid(users) && i < |users| && l in LabelsOf(users[i].ownedLabels)
    ensures RegistryValid(users[i := users[i].(currentLabel := l)])
    ensures LabelBag(users[i := users[i].(currentLabel := l)]) == LabelBag(users)
  {
    var u := users[i].(currentLabel := l);
    BagUpdate(users, i, u);
    HeldInBag(users, i);
    assert Held(u) == Held(users[i]);
    UpdateKeepsAddresses(users, i, u);
    UpdateKeepsCurrentOwned(users, i, u);
    SmallerBagUnique(users[i := u], users);
  }

  /** `switch` keeps the invariant and the held labels. */
  lemma {:induction false} SwitchPreservesValid(s: State, caller: string, lbl: Value, host: Host)
    requires Valid(s)
    requires Switch(s, caller, lbl, host).Ok?
    ensures Valid(Switch(s, caller, lbl, host).value)
    ensures LabelBag(Switch(s, caller, lbl, host).value.users) == LabelBag(s.users)
  {
    SwitchCurrent(s.users, UserIndex(s.users, caller), Normalize(lbl.s, host.nfkc));
  }
}
