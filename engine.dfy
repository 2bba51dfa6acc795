/**
 * The LiteSVM engine and the Solana crates the Deno binding calls into.
 * Their internals are not part of this model: each engine type is opaque and
 * each engine operation is a field of `Ops`, a total function whose result is
 * whatever the engine returns. An operation that takes `&mut LiteSVM` returns
 * the instance's new state beside its result; one that takes `&LiteSVM`
 * returns only its result.
 */
module Engine {
  import opened Wrappers
  import opened Primitives

  /** A `litesvm::LiteSVM` instance, seen as a value: the binding allocates nothing inside it. */
  type Svm(!new)
  /** A legacy `solana_transaction::Transaction`. */
  type Transaction
  /** A `solana_transaction::versioned::VersionedTransaction`. */
  type VersionedTransaction
  /** `litesvm::types::TransactionMetadata`. */
  type TransactionMetadata
  /** `litesvm::types::FailedTransactionMetadata`. */
  type FailedTransactionMetadata
  /** `litesvm::types::SimulatedTransactionInfo`. */
  type SimulatedTransactionInfo
  /** `litesvm::error::LiteSVMError`. */
  type LiteSvmError

  /** `litesvm::types::TransactionResult`. */
  type TransactionResult = Result<TransactionMetadata, FailedTransactionMetadata>

  /** A blockhash: 32 bytes. */
  type Hash = s: seq<byte> | |s| == 32 witness seq(32, _ => 0)

  /** `solana_account::AccountSharedData`, through its `ReadableAccount` getters. */
  datatype AccountSharedData = AccountSharedData(
    lamports: u64,
    data: seq<byte>,
    owner: Pubkey,
    executable: bool,
    rentEpoch: u64)

  /** `AccountSharedData::new`: zero-filled data of the given length, not executable, rent epoch 0. */
  function NewAccount(lamports: u64, space: nat, owner: Pubkey): (a: AccountSharedData)
    ensures a.lamports == lamports && a.owner == owner && |a.data| == space
    ensures forall i :: 0 <= i < space ==> a.data[i] == 0
    ensures !a.executable && a.rentEpoch == 0
  {
    AccountSharedData(lamports, seq(space, _ => 0), owner, false, 0)
  }

  /** `WritableAccount::set_data_from_slice`: the data becomes a copy of `data`. */
  function SetDataFromSlice(a: AccountSharedData, data: seq<byte>): (r: AccountSharedData)
    ensures r.data == data
    ensures r.lamports == a.lamports && r.owner == a.owner && r.executable == a.executable && r.rentEpoch == a.rentEpoch
  {
    a.(data := data)
  }

  /** `WritableAccount::set_executable`. */
  function SetExecutable(a: AccountSharedData, executable: bool): (r: AccountSharedData)
    ensures r.executable == executable
    ensures r.lamports == a.lamports && r.data == a.data && r.owner == a.owner && r.rentEpoch == a.rentEpoch
  {
    a.(executable := executable)
  }

  /** `WritableAccount::set_rent_epoch`. */
  function SetRentEpoch(a: AccountSharedData, rentEpoch: u64): (r: AccountSharedData)
    ensures r.rentEpoch == rentEpoch
    ensures r.lamports == a.lamports && r.data == a.data && r.owner == a.owner && r.executable == a.executable
  {
    a.(rentEpoch := rentEpoch)
  }

  /** The engine's operations that the binding uses, and the foreign formatting and decoding it relies on. */
  datatype Ops = Ops(
    // `LiteSVM::default()` and `LiteSVM::new()`
    defaultSvm: Svm,
    basicSvm: Svm,
    // `&mut self` configuration steps
    setDefaultPrograms: Svm -> Svm,
    setPrecompiles: Svm -> Svm,
    setBuiltins: Svm -> Svm,
    setSysvars: Svm -> Svm,
    expireBlockhash: Svm -> Svm,
    setTransactionHistory: (Svm, nat) -> Svm,
    // `&self` queries
    latestBlockhash: Svm -> Hash,
    minimumBalanceForRentExemption: (Svm, nat) -> u64,
    getAccount: (Svm, Pubkey) -> Option<AccountSharedData>,
    simulateTransaction: (Svm, VersionedTransaction) -> Result<SimulatedTransactionInfo, FailedTransactionMetadata>,
    // `&mut self` operations with an outcome
    airdrop: (Svm, Pubkey, u64) -> (Svm, TransactionResult),
    setAccount: (Svm, Pubkey, AccountSharedData) -> (Svm, Result<(), LiteSvmError>),
    addProgram: (Svm, Pubkey, seq<byte>) -> (Svm, Result<(), LiteSvmError>),
    sendTransaction: (Svm, VersionedTransaction) -> (Svm, TransactionResult),
    // `Into<VersionedTransaction>` for a legacy transaction
    toVersioned: Transaction -> VersionedTransaction,
    // `bincode::deserialize`, its error already rendered with `Display`
    decodeLegacy: seq<byte> -> Result<Transaction, string>,
    decodeVersioned: seq<byte> -> Result<VersionedTransaction, string>,
    // `Display` of a hash (base-58), `Debug` of a failed transaction, `Display` of an engine error
    hashToString: Hash -> string,
    debugFailed: FailedTransactionMetadata -> string,
    displayError: LiteSvmError -> string)
}
