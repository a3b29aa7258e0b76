/** The label economy: a label's length fixes its scarcity tier and its
    minting cost, and a mint debits that cost from the caller's balance.
    Amounts are exact decimals; the source computes with binary floats. */
module LabelEconomy {
  import opened AnsTypes
  import opened Lookup

  /** The tiers in order of length: 0 for the rarest (two characters). */
  function Rank(t: Tier): nat
  {
    match t
    case Ni => 0
    case San => 1
    case Shi => 2
    case Go => 3
    case Roku => 4
    case Shichi => 5
  }

  /** `_getUsernameScarcity`: the tier of a label of length 2 .. 7. */
  function GetUsernameScarcity(lbl: string): (r: Result<Tier>)
    ensures r.Ok? <==> 2 <= |lbl| <= 7
    ensures r.Ok? ==> Rank(r.value) == |lbl| - 2
    ensures r.Err? ==> r.error == InvalidStringLength
  {
    match |lbl|
    case 2 => Ok(Ni)
    case 3 => Ok(San)
    case 4 => Ok(Shi)
    case 5 => Ok(Go)
    case 6 => Ok(Roku)
    case 7 => Ok(Shichi)
    case _ => Err(InvalidStringLength)
  }

  /** `_getMintingCost`: defined (not `undefined`) for lengths 2 .. 7 only. */
  function GetMintingCost(lbl: string): (c: Option<real>)
    ensures c.Some? <==> 2 <= |lbl| <= 7
    ensures c.Some? ==> 0.0 < c.value <= 1.0
  {
    match |lbl|
    case 2 => Some(1.0)
    case 3 => Some(0.1)
    case 4 => Some(0.01)
    case 5 => Some(0.001)
    case 6 => Some(0.0001)
    case 7 => Some(0.00001)
    case _ => None
  }

  /** The tier names the supply table uses, shortest label first. */
  lemma TierNames(lbl: string)
    requires 2 <= |lbl| <= 7
    ensures GetUsernameScarcity(lbl).value.Name() == ["ni", "san", "shi", "go", "roku", "shichi"][|lbl| - 2]
  {
  }

  /** Two labels share a tier exactly when they have the same length. */
  lemma SameTierIffSameLength(a: string, b: string)
    requires 2 <= |a| <= 7 && 2 <= |b| <= 7
    ensures GetUsernameScarcity(a).value == GetUsernameScarcity(b).value <==> |a| == |b|
  {
    assert Rank(GetUsernameScarcity(a).value) == |a| - 2;
    assert Rank(GetUsernameScarcity(b).value) == |b| - 2;
  }

  /** One more character makes a label ten times cheaper. */
  lemma CostTenfold(a: string, b: string)
    requires 2 <= |a| && |b| == |a| + 1 <= 7
    ensures GetMintingCost(a).value == 10.0 * GetMintingCost(b).value
  {
  }

  /** The cost falls strictly as the label grows. */
  lemma {:induction false} CostDecreasing(a: string, b: string)
    requires 2 <= |a| < |b| <= 7
    ensures GetMintingCost(b).value < GetMintingCost(a).value
    decreases |b| - |a|
  {
    var c := b[..|b| - 1];
    CostTenfold(c, b);
    if |c| > |a| {
      CostDecreasing(a, c);
    }
  }

  /** `10^n` as a real. */
  function Pow10(n: nat): real
  {
    if n == 0 then 1.0 else 10.0 * Pow10(n - 1)
  }

  /** Closed form: a label of length n costs 1 / 10^(n-2). */
  lemma {:induction false} CostClosedForm(lbl: string)
    requires 2 <= |lbl| <= 7
    ensures GetMintingCost(lbl).value * Pow10(|lbl| - 2) == 1.0
    decreases |lbl|
  {
    if |lbl| > 2 {
      var shorter := lbl[..|lbl| - 1];
      CostClosedForm(shorter);
      CostTenfold(shorter, lbl);
    }
  }

  /** `_checkAndSubstractMintingCost`: the caller must hold a non-zero balance
      that covers the cost; the cost is then debited. */
  function CheckAndSubtractMintingCost(balances: map<string, real>, cost: real, addr: string): (r: Result<map<string, real>>)
    ensures r.Ok? <==> Registered(balances, addr) && balances[addr] >= cost
    ensures r.Ok? ==> addr in r.value && r.value[addr] == balances[addr] - cost
    ensures !Registered(balances, addr) ==> r == Err(CallerNotRegistered)
    ensures Registered(balances, addr) && balances[addr] < cost ==> r == Err(InsufficientBalance)
  {
    if !Registered(balances, addr) then Err(CallerNotRegistered)
    else if balances[addr] < cost then Err(InsufficientBalance)
    else Ok(balances[addr := balances[addr] - cost])
  }

  /** A debit touches the payer's balance only: every other address keeps
      its balance, and no address gains or loses an entry. */
  lemma DebitTouchesOnlyPayer(balances: map<string, real>, cost: real, addr: string)
    requires CheckAndSubtractMintingCost(balances, cost, addr).Ok?
    ensures var debited := CheckAndSubtractMintingCost(balances, cost, addr).value;
            && debited.Keys == balances.Keys
            && forall a :: a in balances && a != addr ==> debited[a] == balances[a]
  {
  }
}
