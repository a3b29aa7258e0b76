/** The searches the contract runs over its state: `users.findIndex` by
    address or by current label, `ownedLabels.findIndex` by label, and the
    truthiness test the source applies to balances. */
module Lookup {
  import opened AnsTypes

  /** `users.findIndex(u => u.user === addr)`: the first account with that
      address, or -1. */
  function UserIndex(users: seq<User>, addr: string): (i: int)
    ensures -1 <= i < |users|
    ensures i >= 0 ==> users[i].user == addr
    ensures forall j :: 0 <= j < |users| && (i == -1 || j < i) ==> users[j].user != addr
  {
    if users == [] then -1
    else if users[0].user == addr then 0
    else
      var j := UserIndex(users[1..], addr);
      if j == -1 then -1 else j + 1
  }

  /** `users.find(u => u.currentLabel === lbl)`, as an index: the first
      account whose active label is `lbl`, or -1. */
  function CurrentLabelIndex(users: seq<User>, lbl: string): (i: int)
    ensures -1 <= i < |users|
    ensures i >= 0 ==> users[i].currentLabel == lbl
    ensures forall j :: 0 <= j < |users| && (i == -1 || j < i) ==> users[j].currentLabel != lbl
  {
    if users == [] then -1
    else if users[0].currentLabel == lbl then 0
    else
      var j := CurrentLabelIndex(users[1..], lbl);
      if j == -1 then -1 else j + 1
  }

  /** `ownedLabels.findIndex(g => g.name === lbl)`: the first grant for
      `lbl`, or -1. */
  function GrantIndex(grants: seq<Grant>, lbl: string): (k: int)
    ensures -1 <= k < |grants|
    ensures k >= 0 ==> grants[k].name == lbl
    ensures forall j :: 0 <= j < |grants| && (k == -1 || j < k) ==> grants[j].name != lbl
  {
    if grants == [] then -1
    else if grants[0].name == lbl then 0
    else
      var j := GrantIndex(grants[1..], lbl);
      if j == -1 then -1 else j + 1
  }

  /** The labels of a list of grants, in order. */
  function LabelsOf(grants: seq<Grant>): seq<string>
  {
    seq(|grants|, k requires 0 <= k < |grants| => grants[k].name)
  }

  /** A grant for `lbl` is found exactly when `lbl` is among the labels. */
  lemma GrantIndexFinds(grants: seq<Grant>, lbl: string)
    ensures GrantIndex(grants, lbl) != -1 <==> lbl in LabelsOf(grants)
  {
    var k := GrantIndex(grants, lbl);
    if k != -1 {
      assert LabelsOf(grants)[k] == lbl;
    } else {
      assert forall j :: 0 <= j < |grants| ==> LabelsOf(grants)[j] != lbl;
    }
  }

  /** `s.splice(i, 1)`: the list without its element at `i`. */
  function RemoveAt<T>(s: seq<T>, i: int): (r: seq<T>)
    requires 0 <= i < |s|
    ensures |r| == |s| - 1
    ensures forall j :: 0 <= j < i ==> r[j] == s[j]
    ensures forall j :: i <= j < |r| ==> r[j] == s[j + 1]
  {
    s[..i] + s[i + 1..]
  }

  /** `!balances[addr]` is false: the address has an entry and it is not
      zero (JavaScript treats a zero balance as falsy). */
  predicate Registered(balances: map<string, real>, addr: string)
  {
    addr in balances && balances[addr] != 0.0
  }
}
