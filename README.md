# ANS contract model

This project is a Dafny model of the Arweave Name Service (ANS) SmartWeave contract, `contracts/ans.js`. Its single entry point `handle(state, action)` runs one interaction against the contract state. The state holds:

- `users`, a list of accounts. Each account has an address, a current label, a list of owned label grants, a bio and an avatar.
- `balances`, a map from address to token balance.
- `availableLabels`, the remaining supply of each label tier.
- the append-only logs `foreignCalls`, `deposits` and `withdrawals`.

The interactions are:

- `setProfile` creates an account and buys its first label.
- `mint` buys another label.
- `switch` changes the current label.
- `transfer` hands a label to another address.
- `getAddressOf` resolves `<label>.ar`.
- `withdraw` and `deposit` move tokens between the contract and the WDLT token contract.

The model has two layers.

- **Values.** The modules `Registry`, `Bridge` and `Dispatch` give each branch of `handle` as a function from a `State` value to `Result<State>`. `Invariants` and `TransferProofs` hold the lemmas about those functions. The source's pure helpers sit in `Validation`, `LabelEconomy` and `Lookup`, except for four: `_validateLabelSwitching` and `_getTransferablityStatus` are in `Registry`, and `_validateDepositTransaction` and `_getDepositQty` are in `Bridge`.
- **The running contract.** `Machine.AnsContract` is a class whose fields are the state's lists and tables. Each branch is a method that updates them in place. The searches over the accounts (`findIndex` and `find` by address and by current label, the claim scan of `_validateUsername`), the `findIndex` over a caller's grants, the `includes` on the code table and the character-code loop are methods with `while` loops. Two searches are not loops: the `deposits.includes(txid)` check is the membership test `tx in deposits` inside `Bridge.ValidateDepositTransaction`, and the `ownedLabels.find` of `_getTransferablityStatus` is evaluated through `Registry.GetTransferabilityStatus`.
  - The pushes and splices of `transfer` form their own method, `MoveGrant`.
  - Every state-changing method is proved to land exactly on the state the matching function computes, or to leave the fields untouched and return the same error.
  - The branch methods `SetProfile`, `Mint`, `Switch`, `Transfer` and `Withdraw` keep the invariant `Valid()`. `Deposit` keeps it when the deposited amount is not negative. The step methods `OpenAccount` and `AddLabel` state only their new state; `SetProfile` and `Mint` prove the invariant around them.
  - `Machine.AnsContract.Handle` is proved equal to `Dispatch.Handle` and `Dispatch.Next`.

The invariant `Invariants.Valid` has four parts:

- account addresses are unique;
- every account's current label is among its owned labels;
- no label is held twice, counted in the multiset `LabelBag` of all held labels;
- no balance is negative.

Lengths are measured as JavaScript's `length` does, in UTF-16 code units (`Validation.Utf16Length`): a character above U+FFFF counts twice.

## Model

| member | source | states |
|---|---|---|
| Validation.Utf16Length | contracts/ans.js:306 | JavaScript's `length`: at least the number of characters and at most twice it, equal to it when no character lies above U+FFFF and larger when one does; the exact count is fixed by `Utf16LengthAppend` and `Utf16LengthSingle` |
| Validation.Utf16LengthAppend | contracts/ans.js:306 | the UTF-16 length of a concatenation is the sum of its parts' lengths |
| Validation.Utf16LengthSingle | contracts/ans.js:306 | one character is two code units above U+FFFF and one otherwise; with additivity this fixes the length of every string |
| Validation.ValidateArweaveAddress | contracts/ans.js:305-309 | accepts exactly a string whose UTF-16 length is 43 and returns it; anything else fails with the invalid-address error |
| Validation.ValidateStringTypeLength | contracts/ans.js:311-323 | accepts exactly a string whose UTF-16 length is within both given bounds; a non-string, a missing bound and an out-of-bounds length give the primitive-type, missing-parameter and length errors, in the source's order |
| Validation.AllowedCharsAreDigitsAndLowerCase | contracts/ans.js:20-24 | the allowed code table admits exactly the ASCII digits and the lower-case letters a-z |
| Validation.AsciiLower | contracts/ans.js:326 | case folding keeps the length, turns each A-Z into the matching a-z (code plus 32), leaves no upper-case ASCII letter and changes no other character |
| Validation.ValidateUsername | contracts/ans.js:325-362 | success iff the normalised name has 2-7 characters, all digits or a-z, and (when claiming) no account uses it as current label or grant; the result is the normalised name; each failure gives the source's error in the source's order |
| Validation.Normalize | contracts/ans.js:326-327 | a name with no upper-case ASCII letter is handed to NFKC unchanged: case folding touches only A-Z |
| Validation.NormalizeIgnoresCase | contracts/ans.js:326-327 | a name and its ASCII lower-case form normalise to the same label: the case folding happens before NFKC |
| Validation.ValidateUsernameIgnoresCase | contracts/ans.js:325-327 | a name and its ASCII lower-case form get the same validation result, label or error |
| Validation.Claims | contracts/ans.js:351-354 | an account claims a label exactly when it is its current label or among its grants' labels |
| Validation.LabelTaken | contracts/ans.js:348-358 | the claim check's `find` hits exactly when some account has the label as current label or among its grants' labels |
| Validation.IndexOfFrom | contracts/ans.js:425 | the first position at or after `from` where the pattern occurs, or -1 when it occurs nowhere there |
| Validation.EndsWithFound | contracts/ans.js:421-425 | a reference that ends with `.ar` contains `.ar`, so the slice before the first occurrence exists |
| Validation.GetLabel | contracts/ans.js:420-429 | a string ending in `.ar` is accepted iff the normalised text before the first `.ar` is a well-formed label, which is then the result; anything else fails with the label-format error; the only errors are the format, character and length errors; a prefix with a character outside 0-9 and a-z gives the character error, and one with allowed characters but the wrong length gives the length error, as `_validateUsername` throws them |
| Validation.ValidateAvatar | contracts/ans.js:364-382 | accepts iff the avatar transaction's tags have a Content-Type starting with `image/`; a missing tag and a wrong type give their distinct errors |
| Validation.ResolveAvatar | contracts/ans.js:96-100 | an empty avatar becomes the default avatar id without a lookup; a non-empty one is kept exactly when its tags pass the avatar check, and otherwise gives the avatar check's own error (missing tag or wrong type); a non-string gives `TypeError` |
| Validation.ValidateWithdrawQty | contracts/ans.js:515-527 | accepts exactly a whole number with 0 < qty <= balance; the not-integer, too-high and non-positive errors come in the source's order |
| LabelEconomy.GetUsernameScarcity | contracts/ans.js:384-401 | defined exactly on lengths 2..7; the tier's rank is the length minus two; any other length fails with the length error |
| LabelEconomy.TierNames | contracts/ans.js:384-401 | lengths 2..7 map to the tiers ni, san, shi, go, roku, shichi in that order |
| LabelEconomy.SameTierIffSameLength | contracts/ans.js:384-401 | two labels share a tier exactly when they have the same length |
| LabelEconomy.GetMintingCost | contracts/ans.js:403-418 | a cost exists exactly for lengths 2..7, and it lies in (0, 1] |
| LabelEconomy.CostTenfold | contracts/ans.js:403-418 | each extra character makes a label ten times cheaper |
| LabelEconomy.CostDecreasing | contracts/ans.js:403-418 | the cost strictly decreases with the label's length |
| LabelEconomy.CostClosedForm | contracts/ans.js:403-418 | the cost of a label of length n is 10^-(n-2) |
| LabelEconomy.CheckAndSubtractMintingCost | contracts/ans.js:529-539 | succeeds iff the payer has a non-zero balance of at least the cost, then debits exactly the cost; an absent or zero balance and a short balance give their distinct errors |
| LabelEconomy.DebitTouchesOnlyPayer | contracts/ans.js:529-539 | a debit keeps the set of addresses with a balance and every other address's balance |
| Lookup.UserIndex | contracts/ans.js:138 | the index of the first account with the address, or -1 when no account has it |
| Lookup.CurrentLabelIndex | contracts/ans.js:244-246 | the index of the first account whose current label is the label, or -1 when none has it |
| Lookup.GrantIndex | contracts/ans.js:218-220 | the index of the first grant for the label, or -1 when there is none |
| Lookup.GrantIndexFinds | contracts/ans.js:549-553 | a grant search succeeds exactly when the label is among the grants' labels |
| Lookup.RemoveAt | contracts/ans.js:225 | `splice(i, 1)` drops exactly element i and keeps the others in order |
| Registry.SetProfile | contracts/ans.js:75-122 | succeeds iff the caller's address has length 43, the bio is a string of at most 75 units, the raw username has 2-7 units, its normalised label is well formed and unclaimed, the tier has supply, the caller has no account, the avatar is empty or an image, and the balance covers the cost; then one account is appended with that label as current label, the resolved avatar and one grant stamped with tier, block height and cost, the tier's supply drops by one and the caller is debited the cost; a bad address gives the address error; the bio, username and label errors are stated by `SetProfileErrors`; once the inputs pass, its errors are those of `OpenAccount` |
| Registry.SetProfileErrors | contracts/ans.js:80-84 | after the address check, a bad bio, then a bad raw username, then an ill-formed or claimed label each throw that validator's own error, in the source's order |
| Registry.MintedGrantStamps | contracts/ans.js:106-111 | a minted grant carries the label, the block height, the tier whose rank is the length minus two and the cost 10^-(n-2) for length n |
| Registry.TakeOneTakesOne | contracts/ans.js:103 | taking a label lowers its own tier's supply by exactly one and leaves every other tier's supply alone |
| Registry.OpenAccount | contracts/ans.js:88-119 | succeeds iff the tier has supply, the caller has no account, the avatar resolves and the balance covers the cost, with the exact new accounts, supply and balances; the first failing check gives its error, in the source's order: supply, existing caller, avatar, missing balance, short balance |
| Registry.Mint | contracts/ans.js:124-156 | succeeds iff the caller's address has length 43, the raw username has 2-7 units, its normalised label is well formed and unclaimed, the tier has supply, the caller has an account and the balance covers the cost; then the caller's grants gain one grant while its current label stays, the supply drops by one and the caller is debited the cost; a bad address gives the address error; the username and label errors are stated by `MintErrors`; once the inputs pass, its errors are those of `AddLabel` |
| Registry.MintErrors | contracts/ans.js:127-130 | after the address check, a bad raw username and then an ill-formed or claimed label each throw that validator's own error, in the source's order |
| Registry.AddLabel | contracts/ans.js:134-153 | succeeds iff the tier has supply, the caller has an account and the balance covers the cost, with the exact new grants, supply and balances; the first failing check gives its error, in the source's order: supply, unregistered caller, missing balance, short balance |
| Registry.ValidateLabelSwitching | contracts/ans.js:541-556 | succeeds with the caller's index iff the caller has an account with at least two labels, one of them the requested one; otherwise the unregistered-caller (`undefined` read), no-extra-label or not-owned error, in that order |
| Registry.Switch | contracts/ans.js:158-168 | a valid caller address and a well-formed label owned by a caller with at least two labels always succeed, and success implies exactly these; only the caller's current label changes, to that label; a bad address gives the address error, a non-string label `TypeError`, an ill-formed label the label check's own error, and a failure after the label check the label-switching error |
| Registry.GetTransferabilityStatus | contracts/ans.js:558-588 | a label other than the current one is movable iff owned; the current label is movable iff it is the only one; otherwise the not-owned or transferring-current error |
| Registry.AutoGeneratedAccount | contracts/ans.js:190-203 | the account created for an unregistered target belongs to the target, holds exactly the moved grant, has it as current label, and has the auto-generated bio and the default avatar |
| Registry.MoveGrant | contracts/ans.js:184-236 | the accounts list grows by one for an unregistered target and shrinks by one when the caller gives away its sole current label; an unregistered target's new account is appended last; every other account is kept by `TransferProofs.MoveGrantBystanders` |
| Registry.Transfer | contracts/ans.js:170-237 | each failure throws the source's error in the source's order: a bad caller or target address the address error, a non-string label `TypeError`, an ill-formed label the label check's error, an unregistered caller `TypeError`, then the transferability error (not owned, or transferring the current label while holding others) |
| Registry.TransferOutcome | contracts/ans.js:170-238 | a successful transfer had valid caller and target addresses and a well-formed label the caller owns, which is its current label only when it is the sole one; the new accounts list is the caller's grant moved to the target |
| Registry.TransferSucceeds | contracts/ans.js:170-238 | a transfer whose caller and target addresses have length 43 and whose well-formed label the registered caller owns (as its sole label, if it is the current one) succeeds |
| Registry.AccountsAloneGateSwitchAndTransfer | contracts/ans.js:541-564 | `switch` and `transfer` give the same errors and succeed together on any two states with the same accounts: balances play no part in them |
| Registry.GetAddressOf | contracts/ans.js:241-259 | succeeds iff the reference names a well-formed label that some account holds as current label, and returns the address of the first such account; a bad reference carries the label error and an unheld label gives the does-not-resolve error |
| Invariants.TakenIffHeld | contracts/ans.js:344-352 | while current labels are owned, the claim check rejects exactly the labels in the bag of held labels |
| Invariants.SingleHolder | contracts/ans.js:344-352 | under the uniqueness invariant, a label held by one account is held by no other |
| Invariants.SetProfilePreservesValid | contracts/ans.js:75-122 | `setProfile` keeps the invariant and adds exactly one label, one that nobody held |
| Invariants.MintPreservesValid | contracts/ans.js:124-156 | `mint` keeps the invariant and adds exactly one label, one that nobody held |
| Invariants.SwitchPreservesValid | contracts/ans.js:158-168 | `switch` keeps the invariant and the held labels |
| TransferProofs.MoveGrantPreservesValid | contracts/ans.js:185-237 | all four transfer branches keep the invariant; the held labels are conserved except that a sole label handed to its own holder is removed |
| TransferProofs.TransferPreservesValid | contracts/ans.js:170-238 | `transfer` keeps the invariant; between two addresses it conserves the held labels; a self-transfer of the current label removes exactly that label |
| TransferProofs.SelfTransferLosesLabel | contracts/ans.js:210-212 | a caller that transfers its sole label to itself ends with no account and the label held by nobody, although it was held before |
| TransferProofs.MoveGrantBystanders | contracts/ans.js:184-236 | every account other than the caller's and the target's keeps its record, at its old index or one lower when the caller's account was removed before it |
| TransferProofs.SelfTransferMovesGrantLast | contracts/ans.js:218-233 | a caller handing a non-current label to itself keeps its account and its number of grants, and the grant moves to the end of its list (push, then splice of the old index) |
| TransferProofs.MoveGrantAccounts | contracts/ans.js:185-237 | after a move to another address, the target's account holds the grant (a new auto-generated account, or the old one with the grant pushed); the caller's account is gone (sole label) or has lost just that grant |
| TransferProofs.TransferTargetAccount | contracts/ans.js:185-237 | the target of a transfer ends with the grant: an unregistered one as a new account with that label current, the default bio and avatar, and only that grant; a registered one with the grant appended |
| TransferProofs.DropGrant | contracts/ans.js:225 | in a valid registry, splicing one grant out of an account removes exactly that label from the account's holdings, and no remaining grant carries it |
| TransferProofs.TransferCallerAccount | contracts/ans.js:194-237 | handing away a sole current label removes the caller's account; handing away another label removes just that grant, keeps the current label and leaves the label among none of the caller's grants |
| Bridge.ValidateDepositTransaction | contracts/ans.js:449-474 | accepts iff the tx is not yet deposited, its owner is the caller and the token contract marks it valid; the duplicate, depositor and validity errors come in that order |
| Bridge.GetDepositQty | contracts/ans.js:476-513 | returns the Input's qty iff the tag is present with qty and function set, the function is `transfer` and the target is this contract; a missing tag, a missing qty or function, any function other than the string `transfer` (null and numbers included) and a wrong target give their distinct errors, in the source's order |
| Bridge.WithdrawalCall | contracts/ans.js:272-281 | the queued call asks the WDLT contract to `transfer` qty to the caller |
| Bridge.Withdraw | contracts/ans.js:261-286 | succeeds iff the caller has a non-zero balance and qty is a whole number in (0, balance]; then the balance drops by qty, one WDLT `transfer` call to the caller for qty is queued and the tx id is logged; an unregistered caller gives the not-registered error, and otherwise a bad qty gives the qty check's own error (not integer, too high, not positive) |
| Bridge.Deposit | contracts/ans.js:288-301 | succeeds iff the deposit tx checks and the Input checks pass; then the caller is credited qty on top of its balance (zero when absent or zero) and the tx is logged; the transaction checks run first and their error wins, and only then an Input check's error is thrown |
| Bridge.WithdrawPreservesValid | contracts/ans.js:261-286 | a withdrawal keeps the invariant, leaves the caller's balance non-negative, moves exactly the debited amount into the queued call and leaves every other balance alone |
| Bridge.DepositPreservesValid | contracts/ans.js:288-301 | a deposit of a non-negative amount keeps the invariant and the accounts |
| Bridge.DepositReplayRejected | contracts/ans.js:288-301 | once a deposit is counted, depositing the same tx again fails with the duplicate error, whoever calls and whatever the oracles answer |
| Bridge.EmptiedBalanceUnregisters | contracts/ans.js:264-270 | after withdrawing its whole balance, the caller keeps a zero entry that counts as unregistered: its accounts are untouched, a second withdrawal fails with the not-registered error, and so does a mint that reaches the payment |
| Bridge.WithdrawDepositRoundTrip | contracts/ans.js:261-301 | withdrawing q and depositing a transfer of q back succeeds and restores every balance |
| Dispatch.Handle | contracts/ans.js:3-301 | only `getAddressOf` resolves an address, and it succeeds exactly when the lookup does; `withdraw` and `deposit` leave the accounts and supply alone; `switch` and `transfer` leave balances and supply alone |
| Dispatch.Next | contracts/ans.js:3-301 | a throwing call and `getAddressOf` leave the state unchanged |
| Dispatch.HandlePreservesValid | contracts/ans.js:3-301 | every call, failing or not, keeps the invariant, given the token contract's non-negative deposit amount |
| Dispatch.HandleAddsLabel | contracts/ans.js:75-156 | a successful `setProfile` or `mint` adds exactly one label, which nobody held before |
| Dispatch.HandleKeepsLabels | contracts/ans.js:158-301 | every other call keeps the held labels; a self-transfer can only shrink them |
| Machine.Includes | contracts/ans.js:334 | the `includes` loop finds the code iff it is in the table |
| Machine.CheckCharCodes | contracts/ans.js:329-338 | the character-code loop accepts iff every character is a digit or a-z |
| Machine.FindGrantIndex | contracts/ans.js:218-220 | the `findIndex` loop over grants returns the first grant for the label, or -1 |
| Machine.AnsContract.FindUserIndex | contracts/ans.js:138 | the `findIndex` loop over accounts returns the first account with the address, or -1 |
| Machine.AnsContract.FindCurrentLabelIndex | contracts/ans.js:244-246 | the `find` loop returns the first account whose current label is the label, or -1 |
| Machine.AnsContract.FindClaimant | contracts/ans.js:344-352 | the claim scan reports a hit iff some account uses the label as current label or grant |
| Machine.AnsContract.CheckUsername | contracts/ans.js:325-362 | the loop-based `_validateUsername` returns what `Validation.ValidateUsername` does for the current accounts |
| Machine.AnsContract.CheckLabelSwitching | contracts/ans.js:541-556 | the loop-based `_validateLabelSwitching` returns what `Registry.ValidateLabelSwitching` does |
| Machine.AnsContract.SetProfile | contracts/ans.js:75-122 | lands on `Registry.SetProfile`'s new state, or leaves every field untouched and returns its error; keeps `Valid()` |
| Machine.AnsContract.OpenAccount | contracts/ans.js:88-119 | the supply decrement, debit and push land on `Registry.OpenAccount`'s state, or nothing changes and its error is returned |
| Machine.AnsContract.Mint | contracts/ans.js:124-156 | lands on `Registry.Mint`'s new state, or leaves every field untouched and returns its error; keeps `Valid()` |
| Machine.AnsContract.AddLabel | contracts/ans.js:134-153 | the supply decrement, debit and grant push land on `Registry.AddLabel`'s state, or nothing changes and its error is returned |
| Machine.AnsContract.Switch | contracts/ans.js:158-168 | the in-place current-label update lands on `Registry.Switch`'s state, or nothing changes; keeps `Valid()` |
| Machine.AnsContract.Transfer | contracts/ans.js:170-238 | the in-place push and splice sequence of each branch lands on `Registry.Transfer`'s state, or nothing changes; keeps `Valid()` |
| Machine.AnsContract.MoveGrant | contracts/ans.js:185-236 | the in-place pushes and splices of the four transfer branches leave the accounts list equal to `Registry.MoveGrant` and every other field untouched |
| Machine.AnsContract.GetAddressOf | contracts/ans.js:241-259 | the search returns what `Registry.GetAddressOf` does and changes nothing |
| Machine.AnsContract.Withdraw | contracts/ans.js:261-286 | the in-place debit and pushes land on `Bridge.Withdraw`'s state, or nothing changes; keeps `Valid()` |
| Machine.AnsContract.Deposit | contracts/ans.js:288-301 | the in-place credit and push land on `Bridge.Deposit`'s state, or nothing changes; keeps `Valid()` when the deposited amount is not negative |
| Machine.AnsContract.Handle | contracts/ans.js:3-301 | running a branch on the object returns `Dispatch.Handle`'s result and leaves the fields equal to `Dispatch.Next` |

## Left out

- Network and host calls are not modelled. The avatar transaction's tags, the deposit transaction's owner address, the token contract's `validity` table and the decoded `Input` tag are passed in as parameters (`avatarTags`, `DepositOracle`). The block height, transaction id and contract id come in a `Host` value. The `async`/`await` plumbing is dropped.
- `JSON.parse` of the `Input` tag is not modelled; the tag arrives decoded. `qty` is a whole number there. A string `qty`, which JavaScript would concatenate onto the balance, is not modelled.
- Unicode is handled only in part. `toLowerCase` is modelled for ASCII letters only. `normalize("NFKC")` (Unicode Standard Annex #15) is a host-supplied function `nfkc` of which nothing is assumed. The alphabet and length checks that follow are modelled.
- Amounts are exact `real`s. JavaScript's floating-point rounding of costs and balances is not reproduced.
- Dispatch on the string `input.function` is replaced by the `Action` datatype. The source's fall-through for an unknown function name, which returns `undefined`, is not modelled.
- `state.invocations` is read by the source but never used, so it is not part of the state.
- `_validateInteger` is never called and is not modelled.
- The supply table is assumed to hold all six tiers. The `NaN` arithmetic that a missing tier key would cause is not modelled.
- A non-string label in `switch` and `transfer`, where the source calls `toLowerCase`, gives `TypeError`. An unregistered caller in `switch` and `transfer`, which makes the source read a property of `undefined`, also gives `TypeError`.
- Validation.ResolveAvatar: every non-string avatar gives `TypeError`. In the source only `undefined` and `null` throw when `avatar.length` is read. An empty array passes the `length === 0` test and is replaced by the default avatar, and a number or another object goes on to the avatar lookup. The model's accounts hold string avatars only.
- Strings are sequences of Unicode scalar values. A JavaScript string holding an unpaired surrogate code unit cannot be written down in the model.
- The source throws with the undefined constant `ERROR_UNSUFFICIENT_BALANCE`. The model gives the error `InsufficientBalance` instead of a `ReferenceError`.
- A zero balance counts as no balance, as JavaScript's `!balances[x]` does.
- `setProfile` and `mint` decrement the supply before the balance check can throw. The host discards the state of a throwing call, so the model runs every check before the first update and the observable result is the same.
- In `transfer`, a grant that should exist but is not found would push `undefined` in the source. This only happens when the invariant is already broken. The model reports it as the error `UndefinedGrant`.
- Bridge.DepositPreservesValid: needs the deposited amount to be non-negative. The contract takes that amount unchecked from the token contract's transaction, so this is a trust assumption, not something the contract checks. Dispatch.HandlePreservesValid (`TrustedDeposit`) and Machine.AnsContract.Deposit carry the same assumption.
- Machine.AnsContract.SetProfile and Machine.AnsContract.Mint: the address, bio, username and label checks run in the method itself. The supply, account, avatar, balance and update steps are delegated to `OpenAccount` and `AddLabel`, which carry the same order of checks.
- A caller that transfers its sole current label to itself loses the label: it is pushed onto the caller's own record, which is then removed. The model keeps this behaviour. TransferProofs.SelfTransferLosesLabel states it, and TransferProofs.TransferPreservesValid proves only the invariant for this case, not label conservation.
