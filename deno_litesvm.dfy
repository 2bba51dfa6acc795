/**
 * The Deno binding of LiteSVM: a registry of engine instances addressed by
 * numeric handles, and the glue that validates arguments, calls the engine
 * and wraps its outcome into `{value?, error?}` records for JavaScript.
 */
module DenoLitesvm {
  import opened Wrappers
  import opened Primitives
  import opened Engine

  /** `LiteSvmHandle`, a u32 in the source; wrap-around is not modelled. */
  type Handle = nat

  const PubkeyLengthError: string := "expected 32 byte public key"
  const HandleNotFound: string := "LiteSVM handle not found"
  const DecodeLegacyPrefix: string := "Failed to decode transaction: "
  const DecodeVersionedPrefix: string := "Failed to decode versioned transaction: "
  const AirdropPrefix: string := "Failed to airdrop: "
  const SetAccountMessage: string := "Failed to set account"
  const AddProgramMessage: string := "Failed to add program"

  // ---------------------------------------------------------------------
  // Argument validation and error formatting

  /** `convert_pubkey`: a public key is exactly 32 bytes. */
  function ConvertPubkey(bytes: seq<byte>): (r: Result<Pubkey, string>)
    ensures r.Ok? <==> |bytes| == 32
    ensures r.Ok? ==> r.value == bytes
    ensures r.Err? ==> r.error == PubkeyLengthError
  {
    if |bytes| != 32 then Err(PubkeyLengthError) else Ok(bytes)
  }

  /** `to_js_error`: "<msg>: <err>". */
  function ToJsError(msg: string, err: LiteSvmError, display: LiteSvmError -> string): (s: string)
    ensures |s| == |msg| + 2 + |display(err)|
    ensures s[..|msg|] == msg && s[|msg|..|msg| + 2] == ": " && s[|msg| + 2..] == display(err)
  {
    msg + ": " + display(err)
  }

  // ---------------------------------------------------------------------
  // Result records handed to JavaScript

  /** `OperationResult`: only an optional error. */
  datatype OperationResult = OperationResult(error: Option<string>)

  /**
   * `BytesResult`, `AccountResult`, `TransactionResponse`, `SimulationResponse`,
   * `U64Result` and `StringResult`: an optional value and an optional error.
   */
  datatype ValueResult<T> = ValueResult(value: Option<T>, error: Option<string>)

  /** `into_operation_result`: `Ok(())` has no error; `Err(e)` carries `e` verbatim. */
  function IntoOperationResult(value: Result<(), string>): (r: OperationResult)
    ensures r.error.None? <==> value.Ok?
    ensures value.Err? ==> r.error == Some(value.error)
  {
    match value
    case Ok(_) => OperationResult(None)
    case Err(error) => OperationResult(Some(error))
  }

  /** `wrap_value`: exactly one of value and error is set. */
  function WrapValue<T>(value: Result<T, string>): (r: ValueResult<T>)
    ensures r.value.Some? <==> r.error.None?
    ensures r.value.Some? <==> value.Ok?
    ensures value.Ok? ==> r.value == Some(value.value)
    ensures value.Err? ==> r.error == Some(value.error)
  {
    match value
    case Ok(v) => ValueResult(Some(v), None)
    case Err(error) => ValueResult(None, Some(error))
  }

  /**
   * How a caller reads a record back: a present error wins before any
   * value is looked at. This is the inverse of `WrapValue`.
   */
  function UnwrapValue<T>(r: ValueResult<T>): (u: Result<Option<T>, string>)
    ensures u.Err? <==> r.error.Some?
    ensures u.Err? ==> u.error == r.error.value
    ensures u.Ok? ==> u.value == r.value
  {
    if r.error.Some? then Err(r.error.value) else Ok(r.value)
  }

  lemma UnwrapWrapValue<T>(value: Result<T, string>)
    ensures UnwrapValue(WrapValue(value)) == (match value case Ok(v) => Ok(Some(v)) case Err(e) => Err(e))
  {
  }

  /** Reading an operation result back: `error` is present exactly when the call failed. */
  lemma OperationResultRoundTrip(value: Result<(), string>)
    ensures (match IntoOperationResult(value).error case None => Ok(()) case Some(e) => Err(e)) == value
  {
    match value
    case Ok(u) => assert u == ();
    case Err(_) =>
  }

  // ---------------------------------------------------------------------
  // Status-tagged envelopes (serde `tag = "status"`, snake_case variants)

  /** `TransactionResultEnvelope`. */
  datatype TransactionResultEnvelope =
    | TxOk(meta: TransactionMetadata)
    | TxErr(failure: FailedTransactionMetadata)
  {
    /** The serialized `status` tag. */
    function Status(): string
    {
      if TxOk? then "ok" else "err"
    }
  }

  /** `SimulationResultEnvelope`. */
  datatype SimulationResultEnvelope =
    | SimOk(info: SimulatedTransactionInfo)
    | SimErr(failure: FailedTransactionMetadata)
  {
    /** The serialized `status` tag. */
    function Status(): string
    {
      if SimOk? then "ok" else "err"
    }
  }

  /** `impl From<TransactionResult> for TransactionResultEnvelope`. */
  function TransactionEnvelopeFrom(value: TransactionResult): (e: TransactionResultEnvelope)
    ensures e.Status() == "ok" <==> value.Ok?
    ensures value.Ok? ==> e == TxOk(value.value)
    ensures value.Err? ==> e == TxErr(value.error)
  {
    match value
    case Ok(meta) => TxOk(meta)
    case Err(err) => TxErr(err)
  }

  /** `wrap_simulation_result`. */
  function WrapSimulationResult(value: Result<SimulatedTransactionInfo, FailedTransactionMetadata>): (e: SimulationResultEnvelope)
    ensures e.Status() == "ok" <==> value.Ok?
    ensures value.Ok? ==> e == SimOk(value.value)
    ensures value.Err? ==> e == SimErr(value.error)
  {
    match value
    case Ok(meta) => SimOk(meta)
    case Err(err) => SimErr(err)
  }

  /** The envelope loses nothing: the engine outcome can be read back from it. */
  lemma TransactionEnvelopeRoundTrip(value: TransactionResult)
    ensures (match TransactionEnvelopeFrom(value) case TxOk(m) => Ok(m) case TxErr(f) => Err(f)) == value
  {
  }

  lemma SimulationEnvelopeRoundTrip(value: Result<SimulatedTransactionInfo, FailedTransactionMetadata>)
    ensures (match WrapSimulationResult(value) case SimOk(i) => Ok(i) case SimErr(f) => Err(f)) == value
  {
  }

  // ---------------------------------------------------------------------
  // Accounts

  /** `SerializableAccount`. */
  datatype SerializableAccount = SerializableAccount(
    lamports: u64,
    data: seq<byte>,
    owner: Pubkey,
    executable: bool,
    rentEpoch: u64)

  /** `impl From<AccountSharedData> for SerializableAccount`: read each field. */
  function SerializableFromShared(a: AccountSharedData): (s: SerializableAccount)
    ensures s.lamports == a.lamports && s.data == a.data && s.owner == a.owner
    ensures s.executable == a.executable && s.rentEpoch == a.rentEpoch
  {
    SerializableAccount(a.lamports, a.data, a.owner, a.executable, a.rentEpoch)
  }

  /**
   * `impl From<SerializableAccount> for AccountSharedData`: allocate an account
   * of the right size, then copy in the data and set the remaining fields.
   */
  function SharedFromSerializable(s: SerializableAccount): (a: AccountSharedData)
    ensures a.lamports == s.lamports && a.data == s.data && a.owner == s.owner
    ensures a.executable == s.executable && a.rentEpoch == s.rentEpoch
  {
    var account := NewAccount(s.lamports, |s.data|, s.owner);
    var account := SetDataFromSlice(account, s.data);
    var account := SetExecutable(account, s.executable);
    SetRentEpoch(account, s.rentEpoch)
  }

  /** The two conversions are mutually inverse. */
  lemma AccountConversionsRoundTrip(s: SerializableAccount, a: AccountSharedData)
    ensures SerializableFromShared(SharedFromSerializable(s)) == s
    ensures SharedFromSerializable(SerializableFromShared(a)) == a
  {
  }

  // ---------------------------------------------------------------------
  // Transaction decoding

  /** `deserialize_transaction`: a decoding failure is reported with a fixed prefix. */
  function DeserializeTransaction(ops: Ops, txBytes: seq<byte>): (r: Result<Transaction, string>)
    ensures r.Ok? <==> ops.decodeLegacy(txBytes).Ok?
    ensures r.Ok? ==> r.value == ops.decodeLegacy(txBytes).value
    ensures r.Err? ==> r.error == DecodeLegacyPrefix + ops.decodeLegacy(txBytes).error
  {
    match ops.decodeLegacy(txBytes)
    case Ok(tx) => Ok(tx)
    case Err(e) => Err(DecodeLegacyPrefix + e)
  }

  /** `deserialize_versioned_transaction`. */
  function DeserializeVersionedTransaction(ops: Ops, txBytes: seq<byte>): (r: Result<VersionedTransaction, string>)
    ensures r.Ok? <==> ops.decodeVersioned(txBytes).Ok?
    ensures r.Ok? ==> r.value == ops.decodeVersioned(txBytes).value
    ensures r.Err? ==> r.error == DecodeVersionedPrefix + ops.decodeVersioned(txBytes).error
  {
    match ops.decodeVersioned(txBytes)
    case Ok(tx) => Ok(tx)
    case Err(e) => Err(DecodeVersionedPrefix + e)
  }

  // ---------------------------------------------------------------------
  // `with_instance_mut` and the callbacks handed to it

  /** A callback given the handle's instance: its new state and its result. */
  type Callback<R> = Svm -> (Svm, Result<R, string>)

  /**
   * `with_instance_mut` on the registry's contents: an unknown handle fails
   * without running the callback; a known one stores the callback's new state.
   */
  function Apply<R>(instances: map<Handle, Svm>, handle: Handle, f: Callback<R>): (r: (map<Handle, Svm>, Result<R, string>))
    ensures r.0.Keys == instances.Keys
    ensures handle !in instances ==> r.0 == instances && r.1 == Err(HandleNotFound)
    ensures handle in instances ==> r.1 == f(instances[handle]).1 && r.0[handle] == f(instances[handle]).0
    ensures forall h :: h in instances && h != handle ==> r.0[h] == instances[h]
  {
    if handle in instances then
      var (svm, result) := f(instances[handle]);
      (instances[handle := svm], result)
    else
      (instances, Err(HandleNotFound))
  }

  /** A callback that leaves its instance as it found it leaves the registry as it found it. */
  lemma ApplyReadOnly<R>(instances: map<Handle, Svm>, handle: Handle, f: Callback<R>)
    requires handle in instances ==> f(instances[handle]).0 == instances[handle]
    ensures Apply(instances, handle, f).0 == instances
  {
    if handle in instances {
      assert instances[handle := instances[handle]] == instances;
    }
  }

  /** A `&mut self` step that cannot fail (`set_default_programs`, `expire_blockhash`, …). */
  function Configure(step: Svm -> Svm): (f: Callback<()>)
    ensures forall svm :: f(svm).0 == step(svm) && f(svm).1.Ok?
  {
    svm => (step(svm), Ok(()))
  }

  /** A `&self` query that cannot fail (`latest_blockhash`, `minimum_balance_for_rent_exemption`, …). */
  function Query<T>(read: Svm -> T): (f: Callback<T>)
    ensures forall svm :: f(svm).0 == svm && f(svm).1 == Ok(read(svm))
  {
    svm => (svm, Ok(read(svm)))
  }

  /** The closure of `airdrop`: the engine's outcome with its metadata dropped and its failure rendered. */
  function AirdropCallback(ops: Ops, pubkey: Pubkey, lamports: u64): (f: Callback<()>)
    ensures forall svm ::
              && f(svm).0 == ops.airdrop(svm, pubkey, lamports).0
              && (f(svm).1.Ok? <==> ops.airdrop(svm, pubkey, lamports).1.Ok?)
              && (f(svm).1.Err? ==> f(svm).1.error == AirdropPrefix + ops.debugFailed(ops.airdrop(svm, pubkey, lamports).1.error))
  {
    svm =>
      var (svm', outcome) := ops.airdrop(svm, pubkey, lamports);
      (svm', match outcome
             case Ok(_) => Ok(())
             case Err(e) => Err(AirdropPrefix + ops.debugFailed(e)))
  }

  /** The closure of `get_account`: never fails, leaves the instance alone, converts a found account. */
  function GetAccountCallback(ops: Ops, pubkey: Pubkey): (f: Callback<Option<SerializableAccount>>)
    ensures forall svm ::
              && f(svm).0 == svm
              && f(svm).1.Ok?
              && (f(svm).1.value.Some? <==> ops.getAccount(svm, pubkey).Some?)
              && (f(svm).1.value.Some? ==> f(svm).1.value.value == SerializableFromShared(ops.getAccount(svm, pubkey).value))
  {
    svm =>
      (svm, Ok(match ops.getAccount(svm, pubkey)
               case None => None
               case Some(account) => Some(SerializableFromShared(account))))
  }

  /** The closure of `set_account`: stores the converted account; a failure reads "Failed to set account: …". */
  function SetAccountCallback(ops: Ops, pubkey: Pubkey, account: SerializableAccount): (f: Callback<()>)
    ensures forall svm ::
              var (svm', outcome) := ops.setAccount(svm, pubkey, SharedFromSerializable(account));
              && f(svm).0 == svm'
              && (f(svm).1.Ok? <==> outcome.Ok?)
              && (f(svm).1.Err? ==> f(svm).1.error == ToJsError(SetAccountMessage, outcome.error, ops.displayError))
  {
    svm =>
      var (svm', outcome) := ops.setAccount(svm, pubkey, SharedFromSerializable(account));
      (svm', match outcome
             case Ok(_) => Ok(())
             case Err(e) => Err(ToJsError(SetAccountMessage, e, ops.displayError)))
  }

  /** The closure of `add_program`: a failure reads "Failed to add program: …". */
  function AddProgramCallback(ops: Ops, pubkey: Pubkey, programBytes: seq<byte>): (f: Callback<()>)
    ensures forall svm ::
              var (svm', outcome) := ops.addProgram(svm, pubkey, programBytes);
              && f(svm).0 == svm'
              && (f(svm).1.Ok? <==> outcome.Ok?)
              && (f(svm).1.Err? ==> f(svm).1.error == ToJsError(AddProgramMessage, outcome.error, ops.displayError))
  {
    svm =>
      var (svm', outcome) := ops.addProgram(svm, pubkey, programBytes);
      (svm', match outcome
             case Ok(_) => Ok(())
             case Err(e) => Err(ToJsError(AddProgramMessage, e, ops.displayError)))
  }

  /** The closure of the send functions: never fails; the engine's outcome, success or not, becomes an envelope. */
  function SendCallback(ops: Ops, tx: VersionedTransaction): (f: Callback<TransactionResultEnvelope>)
    ensures forall svm ::
              && f(svm).0 == ops.sendTransaction(svm, tx).0
              && f(svm).1.Ok?
              && (f(svm).1.value.Status() == "ok" <==> ops.sendTransaction(svm, tx).1.Ok?)
              && f(svm).1.value == TransactionEnvelopeFrom(ops.sendTransaction(svm, tx).1)
  {
    svm =>
      var (svm', outcome) := ops.sendTransaction(svm, tx);
      (svm', Ok(TransactionEnvelopeFrom(outcome)))
  }

  /** The closure of the simulate functions: never fails and leaves the instance alone. */
  function SimulateCallback(ops: Ops, tx: VersionedTransaction): (f: Callback<SimulationResultEnvelope>)
    ensures forall svm ::
              && f(svm).0 == svm
              && f(svm).1.Ok?
              && (f(svm).1.value.Status() == "ok" <==> ops.simulateTransaction(svm, tx).Ok?)
              && f(svm).1.value == WrapSimulationResult(ops.simulateTransaction(svm, tx))
  {
    svm => (svm, Ok(WrapSimulationResult(ops.simulateTransaction(svm, tx))))
  }

  // ---------------------------------------------------------------------
  // The registry: `NEXT_ID` and `INSTANCES`, and the exported functions

  /**
   * The binding's global state. `nextId` is `NEXT_ID`, `instances` is the map
   * behind `INSTANCES`; `ops` is the engine the exported functions call into.
   */
  class Bindings {
    const ops: Ops
    var nextId: Handle
    var instances: map<Handle, Svm>

    /** Every live handle was handed out by the counter, which starts at 1. */
    ghost predicate Valid()
      reads this
    {
      && nextId >= 1
      && forall h :: h in instances ==> 1 <= h < nextId
    }

    /** The statics' initial values: `NEXT_ID` is 1 and `INSTANCES` is empty. */
    constructor (ops: Ops)
      ensures Valid()
      ensures this.ops == ops && nextId == 1 && instances == map[]
    {
      this.ops := ops;
      nextId := 1;
      instances := map[];
    }

    /** Take the next handle and register `svm` under it. */
    method Register(svm: Svm) returns (handle: Handle)
      requires Valid()
      modifies this
      ensures Valid()
      ensures handle == old(nextId) && nextId == old(nextId) + 1
      ensures handle !in old(instances)
      ensures instances == old(instances)[handle := svm]
    {
      handle := nextId;
      nextId := nextId + 1;
      instances := instances[handle := svm];
    }

    /** `create_default`: a fresh handle for `LiteSVM::default()`. */
    method CreateDefault() returns (handle: Handle)
      requires Valid()
      modifies this
      ensures Valid()
      ensures handle == old(nextId) && nextId == old(nextId) + 1
      ensures handle !in old(instances)
      ensures instances == old(instances)[handle := ops.defaultSvm]
    {
      handle := Register(ops.defaultSvm);
    }

    /** `create_basic`: a fresh handle for `LiteSVM::new()`. */
    method CreateBasic() returns (handle: Handle)
      requires Valid()
      modifies this
      ensures Valid()
      ensures handle == old(nextId) && nextId == old(nextId) + 1
      ensures handle !in old(instances)
      ensures instances == old(instances)[handle := ops.basicSvm]
    {
      handle := Register(ops.basicSvm);
    }

    /** `dispose`: forget one handle; an unknown handle is a no-op. */
    method Dispose(handle: Handle)
      requires Valid()
      modifies this
      ensures Valid() && nextId == old(nextId)
      ensures instances == old(instances) - {handle}
      ensures handle !in old(instances) ==> instances == old(instances)
      ensures forall h :: h in old(instances) && h != handle ==> h in instances && instances[h] == old(instances)[h]
    {
      instances := instances - {handle};
    }

    /** `with_instance_mut`. */
    method WithInstanceMut<R>(handle: Handle, f: Callback<R>) returns (r: Result<R, string>)
      requires Valid()
      modifies this
      ensures Valid() && nextId == old(nextId)
      ensures (instances, r) == Apply(old(instances), handle, f)
      ensures handle !in old(instances) ==> r == Err(HandleNotFound) && instances == old(instances)
      ensures handle in old(instances) ==>
                r == f(old(instances)[handle]).1 && instances == old(instances)[handle := f(old(instances)[handle]).0]
    {
      if handle !in instances {
        return Err(HandleNotFound);
      }
      var (svm, result) := f(instances[handle]);
      instances := instances[handle := svm];
      r := result;
    }

    /** `set_default_programs`, `set_precompiles`, `set_builtins`, `set_sysvars`, `expire_blockhash`. */
    method RunConfiguration(handle: Handle, step: Svm -> Svm) returns (r: OperationResult)
      requires Valid()
      modifies this
      ensures Valid() && nextId == old(nextId)
      ensures r.error.None? <==> handle in old(instances)
      ensures r.error.Some? ==> r.error.value == HandleNotFound && instances == old(instances)
      ensures handle in old(instances) ==> instances == old(instances)[handle := step(old(instances)[handle])]
    {
      var result := WithInstanceMut(handle, Configure(step));
      r := IntoOperationResult(result);
    }

    method SetDefaultPrograms(handle: Handle) returns (r: OperationResult)
      requires Valid()
      modifies this
      ensures Valid() && nextId == old(nextId)
      ensures (instances, r) == (var (m, res) := Apply(old(instances), handle, Configure(ops.setDefaultPrograms)); (m, IntoOperationResult(res)))
    {
      r := RunConfiguration(handle, ops.setDefaultPrograms);
    }

    method SetPrecompiles(handle: Handle) returns (r: OperationResult)
      requires Valid()
      modifies this
      ensures Valid() && nextId == old(nextId)
      ensures (instances, r) == (var (m, res) := Apply(old(instances), handle, Configure(ops.setPrecompiles)); (m, IntoOperationResult(res)))
    {
      r := RunConfiguration(handle, ops.setPrecompiles);
    }

    method SetBuiltins(handle: Handle) returns (r: OperationResult)
      requires Valid()
      modifies this
      ensures Valid() && nextId == old(nextId)
      ensures (instances, r) == (var (m, res) := Apply(old(instances), handle, Configure(ops.setBuiltins)); (m, IntoOperationResult(res)))
    {
      r := RunConfiguration(handle, ops.setBuiltins);
    }

    method SetSysvars(handle: Handle) returns (r: OperationResult)
      requires Valid()
      modifies this
      ensures Valid() && nextId == old(nextId)
      ensures (instances, r) == (var (m, res) := Apply(old(instances), handle, Configure(ops.setSysvars)); (m, IntoOperationResult(res)))
    {
      r := RunConfiguration(handle, ops.setSysvars);
    }

    method ExpireBlockhash(handle: Handle) returns (r: OperationResult)
      requires Valid()
      modifies this
      ensures Valid() && nextId == old(nextId)
      ensures (instances, r) == (var (m, res) := Apply(old(instances), handle, Configure(ops.expireBlockhash)); (m, IntoOperationResult(res)))
    {
      r := RunConfiguration(handle, ops.expireBlockhash);
    }

    /** `set_transaction_history`. */
    method SetTransactionHistory(handle: Handle, capacity: nat) returns (r: OperationResult)
      requires Valid()
      modifies this
      ensures Valid() && nextId == old(nextId)
      ensures r.error.None? <==> handle in old(instances)
      ensures handle in old(instances) ==>
                instances == old(instances)[handle := ops.setTransactionHistory(old(instances)[handle], capacity)]
      ensures handle !in old(instances) ==> r.error == Some(HandleNotFound) && instances == old(instances)
    {
      var ops := this.ops;
      r := RunConfiguration(handle, svm => ops.setTransactionHistory(svm, capacity));
    }

    /** `latest_blockhash`: the 32 hash bytes. */
    method LatestBlockhash(handle: Handle) returns (r: ValueResult<Hash>)
      requires Valid()
      modifies this
      ensures Valid() && nextId == old(nextId) && instances == old(instances)
      ensures handle in old(instances) ==> r == ValueResult(Some(ops.latestBlockhash(old(instances)[handle])), None)
      ensures handle !in old(instances) ==> r == ValueResult(None, Some(HandleNotFound))
    {
      var result := WithInstanceMut(handle, Query(ops.latestBlockhash));
      ApplyReadOnly(old(instances), handle, Query(ops.latestBlockhash));
      r := WrapValue(result);
    }

    /** `latest_blockhash_string`: the hash's text form. */
    method LatestBlockhashString(handle: Handle) returns (r: ValueResult<string>)
      requires Valid()
      modifies this
      ensures Valid() && nextId == old(nextId) && instances == old(instances)
      ensures handle in old(instances) ==>
                r == ValueResult(Some(ops.hashToString(ops.latestBlockhash(old(instances)[handle]))), None)
      ensures handle !in old(instances) ==> r == ValueResult(None, Some(HandleNotFound))
    {
      var ops := this.ops;
      var read := svm => ops.hashToString(ops.latestBlockhash(svm));
      var result := WithInstanceMut(handle, Query(read));
      ApplyReadOnly(old(instances), handle, Query(read));
      r := WrapValue(result);
    }

    /** `minimum_balance_for_rent_exemption`. */
    method MinimumBalanceForRentExemption(handle: Handle, dataLen: nat) returns (r: ValueResult<u64>)
      requires Valid()
      modifies this
      ensures Valid() && nextId == old(nextId) && instances == old(instances)
      ensures handle in old(instances) ==>
                r == ValueResult(Some(ops.minimumBalanceForRentExemption(old(instances)[handle], dataLen)), None)
      ensures handle !in old(instances) ==> r == ValueResult(None, Some(HandleNotFound))
    {
      var ops := this.ops;
      var read := svm => ops.minimumBalanceForRentExemption(svm, dataLen);
      var result := WithInstanceMut(handle, Query(read));
      ApplyReadOnly(old(instances), handle, Query(read));
      r := WrapValue(result);
    }

    /** `airdrop`: the public key is checked before the registry is consulted. */
    method Airdrop(handle: Handle, pubkey: seq<byte>, lamports: u64) returns (r: OperationResult)
      requires Valid()
      modifies this
      ensures Valid() && nextId == old(nextId)
      ensures |pubkey| != 32 ==> r == OperationResult(Some(PubkeyLengthError)) && instances == old(instances)
      ensures |pubkey| == 32 ==>
                (instances, r) == (var (m, res) := Apply(old(instances), handle, AirdropCallback(ops, pubkey, lamports));
                                   (m, IntoOperationResult(res)))
    {
      match ConvertPubkey(pubkey)
      case Err(error) =>
        return OperationResult(Some(error));
      case Ok(pk) =>
        var result := WithInstanceMut(handle, AirdropCallback(ops, pk, lamports));
        r := IntoOperationResult(result);
    }

    /**
     * `get_account`: a missing account is neither a value nor an error, so
     * unlike `WrapValue` both fields can be absent.
     */
    method GetAccount(handle: Handle, pubkey: seq<byte>) returns (r: ValueResult<SerializableAccount>)
      requires Valid()
      modifies this
      ensures Valid() && nextId == old(nextId) && instances == old(instances)
      ensures |pubkey| != 32 ==> r == ValueResult(None, Some(PubkeyLengthError))
      ensures |pubkey| == 32 && handle !in old(instances) ==> r == ValueResult(None, Some(HandleNotFound))
      ensures |pubkey| == 32 && handle in old(instances) ==>
                r.error == None &&
                r.value == match ops.getAccount(old(instances)[handle], pubkey)
                           case None => None
                           case Some(a) => Some(SerializableFromShared(a))
    {
      match ConvertPubkey(pubkey)
      case Err(error) =>
        return ValueResult(None, Some(error));
      case Ok(pk) =>
        var result := WithInstanceMut(handle, GetAccountCallback(ops, pk));
        ApplyReadOnly(old(instances), handle, GetAccountCallback(ops, pk));
        r := match result
             case Ok(value) => ValueResult(value, None)
             case Err(error) => ValueResult(None, Some(error));
    }

    /** `set_account`. */
    method SetAccount(handle: Handle, pubkey: seq<byte>, account: SerializableAccount) returns (r: OperationResult)
      requires Valid()
      modifies this
      ensures Valid() && nextId == old(nextId)
      ensures |pubkey| != 32 ==> r == OperationResult(Some(PubkeyLengthError)) && instances == old(instances)
      ensures |pubkey| == 32 ==>
                (instances, r) == (var (m, res) := Apply(old(instances), handle, SetAccountCallback(ops, pubkey, account));
                                   (m, IntoOperationResult(res)))
    {
      match ConvertPubkey(pubkey)
      case Err(error) =>
        return OperationResult(Some(error));
      case Ok(pk) =>
        var result := WithInstanceMut(handle, SetAccountCallback(ops, pk, account));
        r := IntoOperationResult(result);
    }

    /** `add_program`. */
    method AddProgram(handle: Handle, programId: seq<byte>, programBytes: seq<byte>) returns (r: OperationResult)
      requires Valid()
      modifies this
      ensures Valid() && nextId == old(nextId)
      ensures |programId| != 32 ==> r == OperationResult(Some(PubkeyLengthError)) && instances == old(instances)
      ensures |programId| == 32 ==>
                (instances, r) == (var (m, res) := Apply(old(instances), handle, AddProgramCallback(ops, programId, programBytes));
                                   (m, IntoOperationResult(res)))
    {
      match ConvertPubkey(programId)
      case Err(error) =>
        return OperationResult(Some(error));
      case Ok(pk) =>
        var result := WithInstanceMut(handle, AddProgramCallback(ops, pk, programBytes));
        r := IntoOperationResult(result);
    }

    /** `send_legacy_transaction`: decode first; the engine is reached only with a decoded transaction. */
    method SendLegacyTransaction(handle: Handle, txBytes: seq<byte>) returns (r: ValueResult<TransactionResultEnvelope>)
      requires Valid()
      modifies this
      ensures Valid() && nextId == old(nextId)
      ensures ops.decodeLegacy(txBytes).Err? ==>
                r == ValueResult(None, Some(DecodeLegacyPrefix + ops.decodeLegacy(txBytes).error))
                && instances == old(instances)
      ensures ops.decodeLegacy(txBytes).Ok? ==>
                (instances, r) == (var (m, res) := Apply(old(instances), handle,
                                                         SendCallback(ops, ops.toVersioned(ops.decodeLegacy(txBytes).value)));
                                   (m, WrapValue(res)))
    {
      match DeserializeTransaction(ops, txBytes)
      case Err(error) =>
        r := WrapValue(Err(error));
      case Ok(tx) =>
        var result := WithInstanceMut(handle, SendCallback(ops, ops.toVersioned(tx)));
        r := WrapValue(result);
    }

    /** `send_versioned_transaction`. */
    method SendVersionedTransaction(handle: Handle, txBytes: seq<byte>) returns (r: ValueResult<TransactionResultEnvelope>)
      requires Valid()
      modifies this
      ensures Valid() && nextId == old(nextId)
      ensures ops.decodeVersioned(txBytes).Err? ==>
                r == ValueResult(None, Some(DecodeVersionedPrefix + ops.decodeVersioned(txBytes).error))
                && instances == old(instances)
      ensures ops.decodeVersioned(txBytes).Ok? ==>
                (instances, r) == (var (m, res) := Apply(old(instances), handle,
                                                         SendCallback(ops, ops.decodeVersioned(txBytes).value));
                                   (m, WrapValue(res)))
    {
      match DeserializeVersionedTransaction(ops, txBytes)
      case Err(error) =>
        r := WrapValue(Err(error));
      case Ok(tx) =>
        var result := WithInstanceMut(handle, SendCallback(ops, tx));
        r := WrapValue(result);
    }

    /** `simulate_legacy_transaction`: never changes any instance. */
    method SimulateLegacyTransaction(handle: Handle, txBytes: seq<byte>) returns (r: ValueResult<SimulationResultEnvelope>)
      requires Valid()
      modifies this
      ensures Valid() && nextId == old(nextId) && instances == old(instances)
      ensures ops.decodeLegacy(txBytes).Err? ==>
                r == ValueResult(None, Some(DecodeLegacyPrefix + ops.decodeLegacy(txBytes).error))
      ensures ops.decodeLegacy(txBytes).Ok? && handle !in old(instances) ==>
                r == ValueResult(None, Some(HandleNotFound))
      ensures ops.decodeLegacy(txBytes).Ok? && handle in old(instances) ==>
                r == ValueResult(Some(WrapSimulationResult(
                       ops.simulateTransaction(old(instances)[handle], ops.toVersioned(ops.decodeLegacy(txBytes).value)))), None)
    {
      match DeserializeTransaction(ops, txBytes)
      case Err(error) =>
        r := WrapValue(Err(error));
      case Ok(tx) =>
        var result := WithInstanceMut(handle, SimulateCallback(ops, ops.toVersioned(tx)));
        ApplyReadOnly(old(instances), handle, SimulateCallback(ops, ops.toVersioned(tx)));
        r := WrapValue(result);
    }

    /** `simulate_versioned_transaction`: never changes any instance. */
    method SimulateVersionedTransaction(handle: Handle, txBytes: seq<byte>) returns (r: ValueResult<SimulationResultEnvelope>)
      requires Valid()
      modifies this
      ensures Valid() && nextId == old(nextId) && instances == old(instances)
      ensures ops.decodeVersioned(txBytes).Err? ==>
                r == ValueResult(None, Some(DecodeVersionedPrefix + ops.decodeVersioned(txBytes).error))
      ensures ops.decodeVersioned(txBytes).Ok? && handle !in old(instances) ==>
                r == ValueResult(None, Some(HandleNotFound))
      ensures ops.decodeVersioned(txBytes).Ok? && handle in old(instances) ==>
                r == ValueResult(Some(WrapSimulationResult(
                       ops.simulateTransaction(old(instances)[handle], ops.decodeVersioned(txBytes).value))), None)
    {
      match DeserializeVersionedTransaction(ops, txBytes)
      case Err(error) =>
        r := WrapValue(Err(error));
      case Ok(tx) =>
        var result := WithInstanceMut(handle, SimulateCallback(ops, tx));
        ApplyReadOnly(old(instances), handle, SimulateCallback(ops, tx));
        r := WrapValue(result);
    }
  }
}
