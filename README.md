# LiteSVM Deno binding and the `realloc-clock` program, in Dafny

This project models two pieces of the LiteSVM TypeScript/Deno repository.

1. **The Deno binding** (`crates/deno-litesvm/src/lib.rs`). It keeps a registry of
   LiteSVM engine instances behind numeric handles: a counter `NEXT_ID` that starts
   at 1 and a map `INSTANCES`. Each exported function does three things in order:
   - it validates its arguments (a public key must be 32 bytes; transaction bytes must decode);
   - it looks up the handle through `with_instance_mut`;
   - it calls the engine and wraps the outcome into a `{value?, error?}` record or a
     `status`-tagged envelope.

   The registry is the class `DenoLitesvm.Bindings`. Its fields are the counter and
   the map, and every exported function is a method on it. The pure glue consists of
   `convert_pubkey`, `wrap_value`, `into_operation_result`, the envelope conversions
   and the account conversions. Each is a function whose contract states what it
   promises.

   The engine itself is a foreign library. Module `Engine` gives each engine type as
   an opaque type. Each engine operation is a total function in the record
   `Engine.Ops`, which the registry holds. An operation that takes `&mut LiteSVM`
   returns the instance's new state. An operation that takes `&LiteSVM` does not, so
   the model shows by construction that `get_account`, the blockhash queries and the
   simulations leave every instance unchanged. `bincode` decoding is an opaque
   partial function `decodeLegacy` / `decodeVersioned` whose error is the already
   rendered message.

2. **The `realloc-clock` test program**
   (`crates/litesvm/test_programs/realloc-clock/src/lib.rs`). `process_instruction`
   runs a fixed chain of checks, parses a little-endian u32 length (32 by default),
   builds a buffer and folds it into a wrapping u8 checksum, then writes three
   values in place into the first account's data: the checksum, the clock's
   timestamp and the clock's slot. `ReallocClock.ProcessInstruction` works on an
   `array<byte>` and is proved against the specification functions `Outcome` and
   `Written`. `Clock::get()` is the parameter `clock`, which is either the clock or
   the syscall's error.

Module `Primitives` holds the fixed-width integer types, `Pubkey`, and the
little-endian codec that `to_le_bytes` / `from_le_bytes` use, with its round-trip
lemmas. Module `Wrappers` holds `Option` and `Result`.

The handles are never reused. `CreateDefault` and `CreateBasic` return the old
counter value and increase the counter. `Valid()` keeps every live handle below the
counter, so a new handle differs from every handle issued before, including disposed
ones.

## Model

| member | source | states |
|---|---|---|
| `DenoLitesvm.ConvertPubkey` | crates/deno-litesvm/src/lib.rs:32-37 | succeeds exactly when the input has 32 bytes and then yields those bytes; otherwise the error is "expected 32 byte public key" |
| `DenoLitesvm.ToJsError` | crates/deno-litesvm/src/lib.rs:39-41 | the message is the context text, then ": ", then the engine error's display text |
| `DenoLitesvm.IntoOperationResult` | crates/deno-litesvm/src/lib.rs:97-102 | the error field is absent exactly for `Ok(())`; `Err(e)` gives error `e` verbatim |
| `DenoLitesvm.OperationResultRoundTrip` | crates/deno-litesvm/src/lib.rs:97-102 | the original `Result` can be read back from the operation record |
| `DenoLitesvm.WrapValue` | crates/deno-litesvm/src/lib.rs:104-109 | exactly one of value/error is set; `Ok(v)` gives value `v`, `Err(e)` gives error `e` verbatim |
| `DenoLitesvm.UnwrapValue` | crates/deno-litesvm/src/lib.rs:104-109 | reading a record back: a present error wins and is returned; otherwise the value field is the result |
| `DenoLitesvm.UnwrapWrapValue` | crates/deno-litesvm/src/lib.rs:104-109 | a reader that lets a present error win recovers the wrapped `Result` exactly |
| `DenoLitesvm.TransactionEnvelopeFrom` | crates/deno-litesvm/src/lib.rs:111-125 | status is "ok" exactly for an engine `Ok`; each variant carries the engine's metadata unchanged |
| `DenoLitesvm.TransactionEnvelopeRoundTrip` | crates/deno-litesvm/src/lib.rs:118-125 | the engine outcome can be read back from the envelope |
| `DenoLitesvm.WrapSimulationResult` | crates/deno-litesvm/src/lib.rs:127-141 | status is "ok" exactly for a simulation `Ok`; each variant carries the simulation info or failure unchanged |
| `DenoLitesvm.SimulationEnvelopeRoundTrip` | crates/deno-litesvm/src/lib.rs:134-141 | the simulation outcome can be read back from the envelope |
| `DenoLitesvm.SerializableFromShared` | crates/deno-litesvm/src/lib.rs:152-162 | lamports, data, owner, executable and rent epoch are copied field by field |
| `DenoLitesvm.SharedFromSerializable` | crates/deno-litesvm/src/lib.rs:164-176 | allocating the account, copying the data in and setting the flags gives an account with all five fields of the input |
| `DenoLitesvm.AccountConversionsRoundTrip` | crates/deno-litesvm/src/lib.rs:143-176 | the two account conversions are mutually inverse |
| `Engine.NewAccount` | crates/deno-litesvm/src/lib.rs:166-170 | a new account has the given lamports and owner and zero-filled data of the requested length; it is not executable and its rent epoch is 0 |
| `Engine.SetDataFromSlice` | crates/deno-litesvm/src/lib.rs:171 | the data becomes the given bytes and no other field changes |
| `Engine.SetExecutable` | crates/deno-litesvm/src/lib.rs:172 | the executable flag becomes the given value and no other field changes |
| `Engine.SetRentEpoch` | crates/deno-litesvm/src/lib.rs:173 | the rent epoch becomes the given value and no other field changes |
| `DenoLitesvm.DeserializeTransaction` | crates/deno-litesvm/src/lib.rs:318-320 | succeeds exactly when the decoder does, with its transaction; a failure is "Failed to decode transaction: " followed by the decoder's message |
| `DenoLitesvm.DeserializeVersionedTransaction` | crates/deno-litesvm/src/lib.rs:322-324 | the same with the prefix "Failed to decode versioned transaction: " |
| `DenoLitesvm.Apply` | crates/deno-litesvm/src/lib.rs:43-54 | the lookup and store of `with_instance_mut` as a value: the set of handles is kept; an absent handle gives "LiteSVM handle not found" and nothing changes; a present one gets the callback's new state and result; every other instance is untouched |
| `DenoLitesvm.Configure` | crates/deno-litesvm/src/lib.rs:203-206 | the closure of a configuration step: it never fails and the instance becomes the step's new state |
| `DenoLitesvm.Query` | crates/deno-litesvm/src/lib.rs:235-237 | the closure of a `&self` query: it never fails, returns the read value and leaves the instance unchanged |
| `DenoLitesvm.AirdropCallback` | crates/deno-litesvm/src/lib.rs:255-259 | the instance takes the engine airdrop's new state; success exactly when the engine succeeds; a failure is "Failed to airdrop: " then the Debug text of the failed metadata |
| `DenoLitesvm.GetAccountCallback` | crates/deno-litesvm/src/lib.rs:273-277 | never fails and leaves the instance unchanged; a value exactly when the engine has the account, converted to a serializable account |
| `DenoLitesvm.SetAccountCallback` | crates/deno-litesvm/src/lib.rs:295-299 | the instance takes the engine's new state after storing the converted account; a failure is "Failed to set account: " then the engine error |
| `DenoLitesvm.AddProgramCallback` | crates/deno-litesvm/src/lib.rs:312-315 | the instance takes the engine's new state; a failure is "Failed to add program: " then the engine error |
| `DenoLitesvm.SendCallback` | crates/deno-litesvm/src/lib.rs:329-331 | never fails; the instance takes the engine's new state; the envelope is the engine outcome wrapped unchanged (its metadata or failed metadata), with status "ok" exactly when the engine succeeded |
| `DenoLitesvm.SimulateCallback` | crates/deno-litesvm/src/lib.rs:349-351 | never fails and leaves the instance unchanged; the envelope is the simulation outcome wrapped unchanged, with status "ok" exactly when the simulation succeeded |
| `DenoLitesvm.ApplyReadOnly` | crates/deno-litesvm/src/lib.rs:43-54 | a callback that does not change its instance leaves the whole registry unchanged |
| `DenoLitesvm.Bindings.constructor` | crates/deno-litesvm/src/lib.rs:28-30 | the counter starts at 1 and the registry starts empty |
| `DenoLitesvm.Bindings.Register` | crates/deno-litesvm/src/lib.rs:180-183 | the handle is the old counter value; the counter moves up by one; the handle was not live; only that entry is added |
| `DenoLitesvm.Bindings.CreateDefault` | crates/deno-litesvm/src/lib.rs:178-184 | returns the next counter value, never a live or earlier handle, and registers `LiteSVM::default()` under it, nothing else changing |
| `DenoLitesvm.Bindings.CreateBasic` | crates/deno-litesvm/src/lib.rs:186-192 | the same for `LiteSVM::new()` |
| `DenoLitesvm.Bindings.Dispose` | crates/deno-litesvm/src/lib.rs:194-199 | removes only the given handle and keeps every other instance; an unknown handle is a no-op; the counter is unchanged |
| `DenoLitesvm.Bindings.WithInstanceMut` | crates/deno-litesvm/src/lib.rs:43-54 | an absent handle gives "LiteSVM handle not found" and changes nothing; otherwise the result is exactly the callback's and only that instance takes the callback's new state |
| `DenoLitesvm.Bindings.RunConfiguration` | crates/deno-litesvm/src/lib.rs:201-231 | a configuration step succeeds exactly for a live handle and applies the step to that instance only |
| `DenoLitesvm.Bindings.SetDefaultPrograms` | crates/deno-litesvm/src/lib.rs:201-207 | runs `set_default_programs` on the handle's instance and reports the outcome as an operation record |
| `DenoLitesvm.Bindings.SetPrecompiles` | crates/deno-litesvm/src/lib.rs:209-215 | the same for `set_precompiles` |
| `DenoLitesvm.Bindings.SetBuiltins` | crates/deno-litesvm/src/lib.rs:217-223 | the same for `set_builtins` |
| `DenoLitesvm.Bindings.SetSysvars` | crates/deno-litesvm/src/lib.rs:225-231 | the same for `set_sysvars` |
| `DenoLitesvm.Bindings.ExpireBlockhash` | crates/deno-litesvm/src/lib.rs:241-247 | the same for `expire_blockhash` |
| `DenoLitesvm.Bindings.SetTransactionHistory` | crates/deno-litesvm/src/lib.rs:369-375 | sets the history capacity of a live handle's instance; an unknown handle gives the not-found error |
| `DenoLitesvm.Bindings.LatestBlockhash` | crates/deno-litesvm/src/lib.rs:233-239 | a live handle gives the instance's 32 blockhash bytes and no error; the registry is unchanged |
| `DenoLitesvm.Bindings.LatestBlockhashString` | crates/deno-litesvm/src/lib.rs:385-391 | a live handle gives the text form of the blockhash; the registry is unchanged |
| `DenoLitesvm.Bindings.MinimumBalanceForRentExemption` | crates/deno-litesvm/src/lib.rs:377-383 | a live handle gives the engine's rent-exempt minimum for the data length; the registry is unchanged |
| `DenoLitesvm.Bindings.Airdrop` | crates/deno-litesvm/src/lib.rs:249-260 | a key that is not 32 bytes gives the key error without touching the registry, even for an unknown handle; otherwise the engine airdrop runs through the handle and a failure reads "Failed to airdrop: …" |
| `DenoLitesvm.Bindings.GetAccount` | crates/deno-litesvm/src/lib.rs:262-283 | the key is checked first; a live handle gives no error and the engine's account converted to a serializable one, or no value for a missing account; the registry is unchanged |
| `DenoLitesvm.Bindings.SetAccount` | crates/deno-litesvm/src/lib.rs:285-300 | the key is checked first; then the converted account is stored through the handle, and an engine error reads "Failed to set account: …" |
| `DenoLitesvm.Bindings.AddProgram` | crates/deno-litesvm/src/lib.rs:302-316 | the program id is checked first; then the program is added through the handle, and an engine error reads "Failed to add program: …" |
| `DenoLitesvm.Bindings.SendLegacyTransaction` | crates/deno-litesvm/src/lib.rs:326-334 | undecodable bytes give the prefixed decode error and never reach the registry; otherwise the engine's outcome comes back as a status envelope |
| `DenoLitesvm.Bindings.SendVersionedTransaction` | crates/deno-litesvm/src/lib.rs:336-344 | the same for versioned transaction bytes |
| `DenoLitesvm.Bindings.SimulateLegacyTransaction` | crates/deno-litesvm/src/lib.rs:346-354 | decode first, then the not-found check, then the simulation envelope; no instance ever changes |
| `DenoLitesvm.Bindings.SimulateVersionedTransaction` | crates/deno-litesvm/src/lib.rs:356-367 | the same for versioned transaction bytes |
| `Primitives.FromLe` | crates/litesvm/test_programs/realloc-clock/src/lib.rs:33-34 | the little-endian value of n bytes is below 256^n |
| `Primitives.ToLe` | crates/litesvm/test_programs/realloc-clock/src/lib.rs:60-61 | the encoding has exactly the requested width |
| `Primitives.FromLeToLe` | crates/litesvm/test_programs/realloc-clock/src/lib.rs:60-61 | decoding an encoding gives the value back when it fits the width |
| `Primitives.ToLeFromLe` | crates/litesvm/test_programs/realloc-clock/src/lib.rs:33-34 | encoding a decoded byte string gives the bytes back |
| `Primitives.ToLeInjective` | crates/litesvm/test_programs/realloc-clock/src/lib.rs:60-61 | equal-width encodings are equal exactly when the values are |
| `Primitives.U32FromLe` | crates/litesvm/test_programs/realloc-clock/src/lib.rs:33-34 | `u32::from_le_bytes`: the result re-encodes to the four input bytes |
| `Primitives.U64ToLe` | crates/litesvm/test_programs/realloc-clock/src/lib.rs:61 | `u64::to_le_bytes`: eight bytes that decode back to the value |
| `Primitives.I64ToLe` | crates/litesvm/test_programs/realloc-clock/src/lib.rs:60 | `i64::to_le_bytes`: eight two's-complement bytes that read back as the value |
| `Primitives.I64FromLe` | crates/litesvm/test_programs/realloc-clock/src/lib.rs:60 | `i64::from_le_bytes`: the two's-complement pattern of the result is the input |
| `ReallocClock.RequestedLen` | crates/litesvm/test_programs/realloc-clock/src/lib.rs:32-37 | with at least four bytes, the length's u32 little-endian encoding is the first four bytes; with fewer, it is 32 |
| `ReallocClock.RequestedLenIgnoresTail` | crates/litesvm/test_programs/realloc-clock/src/lib.rs:32-34 | bytes after the fourth do not affect the requested length |
| `ReallocClock.Generated` | crates/litesvm/test_programs/realloc-clock/src/lib.rs:43-46 | the pushed buffer has the requested length and byte i is (i + 1) mod 256 |
| `ReallocClock.WrappingSum` | crates/litesvm/test_programs/realloc-clock/src/lib.rs:47-49 | the wrapping u8 fold is the plain byte sum reduced mod 256 |
| `ReallocClock.WrappingSumOfGenerated` | crates/litesvm/test_programs/realloc-clock/src/lib.rs:43-49 | the fold of the generated buffer equals the integer sum of ((i mod 256) + 1) reduced mod 256 |
| `ReallocClock.IntSumModClosedForm` | crates/litesvm/test_programs/realloc-clock/src/lib.rs:43-49 | reduced mod 256, each full block of 256 contributes 128 and the partial block its triangle number |
| `ReallocClock.Checksum` | crates/litesvm/test_programs/realloc-clock/src/lib.rs:43-49 | the checksum is the integer sum of ((i mod 256) + 1) mod 256, equal to (128 · ⌊n/256⌋ + T(n mod 256)) mod 256 |
| `ReallocClock.IntSumClosedForm` | crates/litesvm/test_programs/realloc-clock/src/lib.rs:43-49 | that integer sum is 32896 per full block of 256 plus the triangle number of the remainder |
| `ReallocClock.DefaultChecksum` | crates/litesvm/test_programs/realloc-clock/src/lib.rs:36-49 | the default length 32 gives checksum 16 |
| `ReallocClock.ComputeChecksum` | crates/litesvm/test_programs/realloc-clock/src/lib.rs:43-49 | the push loop and the fold compute the checksum function |
| `ReallocClock.Outcome` | crates/litesvm/test_programs/realloc-clock/src/lib.rs:18-51 | no account gives NotEnoughAccountKeys; success exactly when the account is owned by the program, writable, has at least 17 data bytes, the length is at least 8 and the clock is available; when every check passes but the clock fetch fails, its own error is returned |
| `ReallocClock.Written` | crates/litesvm/test_programs/realloc-clock/src/lib.rs:58-61 | the written data keeps its length; byte 0 is the checksum; bytes 1..9 read back as the timestamp; bytes 9..17 read back as the slot; bytes from 17 on are unchanged |
| `ReallocClock.CheckOrder` | crates/litesvm/test_programs/realloc-clock/src/lib.rs:21-51 | the first failing check decides the error: IncorrectProgramId, then InvalidAccountData, then AccountDataTooSmall, then InvalidInstructionData, and after all four the clock fetch's own error |
| `ReallocClock.CopyFromSlice` | crates/litesvm/test_programs/realloc-clock/src/lib.rs:60-61 | the target range becomes the source slice and no other byte changes |
| `ReallocClock.ProcessInstruction` | crates/litesvm/test_programs/realloc-clock/src/lib.rs:13-64 | the result is the first failing check (an empty account list gives NotEnoughAccountKeys); on success the first account's data becomes checksum, timestamp, slot, then the untouched rest; on every failure, including a failing clock fetch, no byte changes |

## Left out

- Mutex locking and poisoning ("LiteSVM instances poisoned", the `expect` in the create functions) and the atomic ordering of `NEXT_ID`: the registry is a single-threaded class.
- `DenoLitesvm.Bindings.Register`: handles are unbounded naturals, so wrap-around of the u32 `NEXT_ID` after 2^32 - 1 creations is not modelled.
- `DenoLitesvm.Bindings.CreateDefault`: the same u32 wrap-around is not modelled.
- `DenoLitesvm.Bindings.CreateBasic`: the same u32 wrap-around is not modelled.
- The LiteSVM engine, `bincode`, the hash's base-58 `Display`, and the `Debug`/`Display` renderings of engine errors are foreign code. Each is an opaque function in `Engine.Ops`.
- The engine's `Account` and `AccountSharedData` are one type here, so the `.into()` between them in `get_account` and `set_account` is the identity on the five fields.
- The `AccountSharedData` setters are field updates: `new`, `set_data_from_slice`, `set_executable` and `set_rent_epoch`.
- The `#[deno_bindgen]` FFI layer and the serde/JSON encoding of records: the records are datatypes. The `status` tag of the envelopes is given by `Status()`.
- `crates/deno-bindgen-cli/cargo.rs` and `crates/deno-bindgen-cli/main.rs` are not part of this model: they run `cargo`, parse its output and load a dynamic library.
- The repository's message compiler, base-58 codec and wire serializer are not part of this model. None of them appears in the two modelled files.
- In `realloc-clock`, `msg!` logging is dropped.
- `ReallocClock.ProcessInstruction`: running out of heap or compute for a large requested length is not modelled. The buffer grows one push at a time on the program's bump-allocated heap, 32 KiB by default, and the loops spend compute units. A length such as 65536 makes the real program abort with no byte written, while the model succeeds and writes.
- `ReallocClock.Outcome`: for the same reason, it succeeds for every requested length from 8 up to 2^32 - 1. The real program aborts when the buffer outgrows the heap or the compute budget.
- `ReallocClock.ProgramError` lists only the handler's own errors. Every other error that `Clock::get()` can return (`UnsupportedSysvar`, `InvalidArgument`, `Custom(n)`, …) is the single variant `Other(code)`.
- A failing `try_borrow_mut_data` is not modelled. It is a `RefCell` borrow, and it cannot fail here: the earlier borrow for `data_len()` has ended, and no other borrow of the first account's data is live.
- Of `AccountInfo` only the owner, the writable flag and the data are modelled; of `Clock` only `slot` and `unix_timestamp`.
