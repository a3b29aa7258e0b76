/** Values shared by every part of the ANS contract model: the contract's
    persisted state, the inputs of an action, the answers of the host's
    oracles and the errors the contract throws. */
module AnsTypes {

  datatype Option<+T> = None | Some(value: T)

  /** Every branch of `handle` either produces a value or throws one of the
      contract's errors; the host discards the state of a call that throws. */
  datatype Result<+T> = Ok(value: T) | Err(error: Error) {
    predicate IsFailure() { Err? }
    function PropagateFailure<U>(): Result<U>
      requires Err?
    {
      Err(error)
    }
    function Extract(): T
      requires Ok?
    {
      value
    }
  }

  /** The errors of `contracts/ans.js`, one per thrown constant. */
  datatype Error =
    | InvalidArweaveAddress
    | InvalidPrimitiveType
    | MissingRequiredParameter
    | InvalidStringLength
    | InvalidCharCode
    | LabelSupplyIsZero
    | LabelAlreadyAcquired
    | MissingRequiredTag
    | InvalidAvatarType
    | CallerExist
    | UserHasNotRegistered
    | InvalidLabelFormat
    | LabelDoesNotResolve
    | DuplicatedTx
    | InvalidDepositor
    | InvalidDepositTx
    | MissingInputProperty
    | WrongFcpFunction
    | InvalidTarget
    | CallerNotRegistered
    | NotInteger
    | AmountTooHigh
    | InvalidWithdrawalAmount
    | LabelNotOwned
    | NoExtraLabelOwned
    | TransferingCurrentLabel
      /** The source throws with an undefined constant here, which the
          runtime turns into a ReferenceError: a rejection all the same. */
    | InsufficientBalance
      /** A runtime TypeError: a property read on `undefined` (an
          unregistered caller's profile) or a string method on a non-string. */
    | TypeError
      /** The sole-label transfer finds no grant for the caller's current
          label; only a state breaking the registry invariant reaches it. */
    | UndefinedGrant

  /** A field of an action's JSON input, before any type check. */
  datatype Value = Undefined | Str(s: string) | Num(n: real) | Other

  /** Scarcity tiers, keyed by label length 2 .. 7. */
  datatype Tier = Ni | San | Shi | Go | Roku | Shichi {
    /** The key under which the source stores the tier's supply. */
    function Name(): string {
      match this
      case Ni => "ni"
      case San => "san"
      case Shi => "shi"
      case Go => "go"
      case Roku => "roku"
      case Shichi => "shichi"
    }
  }

  /** The supply table `availableLabels`: a remaining count for every tier. */
  type Supply = m: map<Tier, nat> | forall t: Tier :: t in m
    witness map t: Tier | true :: 0

  /** One held label and the data stamped on it when it was minted. */
  datatype Grant = Grant(name: string, scarcity: Tier, acquisationBlock: int, mintedFor: real)

  /** A registered account. */
  datatype User = User(user: string, currentLabel: string, ownedLabels: seq<Grant>, bio: string, avatar: string)

  /** The instruction a withdrawal asks the token contract to run. */
  datatype Invocation = Invocation(name: string, target: string, qty: real)

  /** An entry of the outbound call queue `foreignCalls`. */
  datatype ForeignCall = ForeignCall(contract: string, input: Invocation)

  /** The contract's persisted state (the unused `invocations` list is not kept). */
  datatype State = State(
    users: seq<User>,
    balances: map<string, real>,
    availableLabels: Supply,
    foreignCalls: seq<ForeignCall>,
    deposits: seq<string>,
    withdrawals: seq<string>)

  /** What the host supplies to one call: the block height, the id of the
      interaction transaction, this contract's id, and Unicode NFKC
      normalisation, which the model takes as a given function. */
  datatype Host = Host(blockHeight: int, txId: string, contractId: string, nfkc: string -> string)

  /** The decoded `Input` tag of a deposit transaction; `Undefined` or
      `None` stands for an absent key. */
  datatype DepositInput = DepositInput(qty: Option<int>, func: Value, target: Value)

  /** The oracle answers a deposit needs: the address owning the
      transaction, the token contract's `validity` table, and the decoded
      `Input` tag if the transaction carries one. */
  datatype DepositOracle = DepositOracle(ownerAddress: string, validity: map<string, bool>, input: Option<DepositInput>)

  /** The token contract the bridge talks to (WDLT). */
  const WDLT: string := "FdY68iYqTvA40U34aXQBBYseGmIUmLV-u57bT7LZWm0"

  /** The avatar used when a profile gives none. */
  const DEFAULT_AVATAR: string := "78WdrVhNZ2i_KbimqcV4j-drX04HJr3E6UyD7xWc84Q"

  /** The bio of an account created by a transfer. */
  const AUTO_BIO: string := "account's metadata auto-generated at a transfer event"
}
