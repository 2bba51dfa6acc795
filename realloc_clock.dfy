/**
 * The `realloc-clock` test program: an instruction handler that validates
 * its first account, computes a checksum over a generated buffer, and writes
 * the checksum and the current clock into the first 17 bytes of the
 * account's data.
 */
module ReallocClock {
  import opened Wrappers
  import opened Primitives

  /**
   * `ProgramError`: the variants the handler returns itself, and `Other`
   * for any other error `Clock::get()` can turn its syscall's code into
   * (`UnsupportedSysvar`, `InvalidArgument`, `Custom(n)`, …).
   */
  datatype ProgramError =
    | NotEnoughAccountKeys
    | IncorrectProgramId
    | InvalidAccountData
    | AccountDataTooSmall
    | InvalidInstructionData
    | Other(code: nat)

  /** `ProgramResult`. */
  datatype ProgramResult = Success | Failure(error: ProgramError)

  /** The two `solana_clock::Clock` fields the handler reads. */
  datatype Clock = Clock(slot: u64, unixTimestamp: i64)

  /** What `Clock::get()` returns: the clock sysvar, or the syscall's error. */
  datatype ClockSysvar = Available(clock: Clock) | Failed(error: ProgramError)

  /** Fewest account-data bytes the handler writes into. */
  const WrittenLength: nat := 17
  /** Smallest accepted requested length. */
  const MinRequestedLen: nat := 8
  /** Requested length when the instruction data has fewer than four bytes. */
  const DefaultRequestedLen: nat := 32

  /** The fields of an `AccountInfo` the handler reads; the data is the borrowed mutable slice. */
  class AccountInfo {
    const owner: Pubkey
    const isWritable: bool
    const data: array<byte>

    constructor (owner: Pubkey, isWritable: bool, data: array<byte>)
      ensures this.owner == owner && this.isWritable == isWritable && this.data == data
    {
      this.owner := owner;
      this.isWritable := isWritable;
      this.data := data;
    }
  }

  /** An account as a value: what the checks see. */
  datatype AccountState = AccountState(owner: Pubkey, isWritable: bool, data: seq<byte>)

  function StateOf(account: AccountInfo): AccountState
    reads account.data
  {
    AccountState(account.owner, account.isWritable, account.data[..])
  }

  // ---------------------------------------------------------------------
  // Requested length

  /**
   * `requested_len`: the little-endian u32 in the first four instruction
   * bytes, or 32 when there are fewer than four.
   */
  function RequestedLen(instructionData: seq<byte>): (n: u32)
    ensures |instructionData| >= 4 ==> ToLe(n, 4) == instructionData[..4]
    ensures |instructionData| < 4 ==> n == DefaultRequestedLen
  {
    if |instructionData| >= 4 then U32FromLe(instructionData[..4]) else DefaultRequestedLen
  }

  /** Bytes after the fourth do not affect the requested length. */
  lemma RequestedLenIgnoresTail(instructionData: seq<byte>, tail: seq<byte>)
    requires |instructionData| >= 4
    ensures RequestedLen(instructionData[..4] + tail) == RequestedLen(instructionData)
  {
    assert (instructionData[..4] + tail)[..4] == instructionData[..4];
  }

  // ---------------------------------------------------------------------
  // Checksum

  /** The buffer the loop builds: byte i is `(i as u8).wrapping_add(1)`. */
  function Generated(n: nat): (s: seq<byte>)
    ensures |s| == n
    ensures forall i :: 0 <= i < n ==> s[i] == (i + 1) % 256
  {
    forall i | 0 <= i < n
      ensures ((i % 256) + 1) % 256 == (i + 1) % 256
    {
      ModSum(i, 1);
    }
    seq(n, i => ((i % 256) + 1) % 256)
  }

  /** The plain integer sum of a byte string. */
  function ByteSum(s: seq<byte>): nat
  {
    if s == [] then 0 else ByteSum(s[..|s| - 1]) + s[|s| - 1]
  }

  /** `fold(0u8, |acc, v| acc.wrapping_add(v))`, last element added last: the byte sum modulo 256. */
  function WrappingSum(s: seq<byte>): (r: byte)
    ensures r == ByteSum(s) % 256
  {
    if s == [] then 0
    else
      var prev := WrappingSum(s[..|s| - 1]);
      ModSum(ByteSum(s[..|s| - 1]), s[|s| - 1]);
      (prev + s[|s| - 1]) % 256
  }

  /** The exact integer sum of ((i mod 256) + 1) for i below n. */
  function IntSum(n: nat): nat
  {
    if n == 0 then 0 else IntSum(n - 1) + (n - 1) % 256 + 1
  }

  /** 1 + 2 + … + r. */
  function Triangle(r: nat): nat
  {
    if r == 0 then 0 else Triangle(r - 1) + r
  }

  /**
   * The checksum for a requested length: the integer sum reduced mod 256,
   * which is 128 per full block of 256 plus the partial block's triangle number.
   */
  function Checksum(n: nat): (r: byte)
    ensures r == IntSum(n) % 256
    ensures r == (128 * (n / 256) + Triangle(n % 256)) % 256
  {
    WrappingSumOfGenerated(n);
    IntSumModClosedForm(n);
    WrappingSum(Generated(n))
  }

  lemma {:induction false} TriangleFormula(r: nat)
    ensures 2 * Triangle(r) == r * (r + 1)
  {
    if r > 0 {
      TriangleFormula(r - 1);
    }
  }

  lemma ModAddMultiple(k: nat, x: nat)
    ensures (256 * k + x) % 256 == x % 256
  {
  }

  lemma ModSum(a: nat, b: nat)
    ensures (a % 256 + b) % 256 == (a + b) % 256
  {
  }

  /** The wrapping byte sum of the generated buffer is the integer sum reduced mod 256. */
  lemma {:induction false} WrappingSumOfGenerated(n: nat)
    ensures WrappingSum(Generated(n)) == IntSum(n) % 256
  {
    if n > 0 {
      WrappingSumOfGenerated(n - 1);
      var g := Generated(n);
      assert g[..n - 1] == Generated(n - 1);
      var a, b := IntSum(n - 1), (n - 1) % 256 + 1;
      assert WrappingSum(g) == (WrappingSum(Generated(n - 1)) + g[n - 1]) % 256;
      assert g[n - 1] == b % 256;
      assert (a % 256 + b % 256) % 256 == (a + b) % 256 by {
        ModAddMultiple(a / 256, a % 256 + b % 256);
        ModAddMultiple(b / 256, a + b % 256);
        assert a == 256 * (a / 256) + a % 256;
        assert b == 256 * (b / 256) + b % 256;
      }
    }
  }

  /** Closed form: each full block of 256 adds 32896, the partial block a triangle number. */
  lemma {:induction false} IntSumClosedForm(n: nat)
    ensures IntSum(n) == 32896 * (n / 256) + Triangle(n % 256)
  {
    if n > 0 {
      IntSumClosedForm(n - 1);
      var q, r := (n - 1) / 256, (n - 1) % 256;
      if r < 255 {
        assert n / 256 == q && n % 256 == r + 1;
      } else {
        assert n / 256 == q + 1 && n % 256 == 0;
        TriangleFormula(255);
      }
    }
  }

  /** Reduced mod 256, a full block of 256 contributes 128. */
  lemma IntSumModClosedForm(n: nat)
    ensures IntSum(n) % 256 == (128 * (n / 256) + Triangle(n % 256)) % 256
  {
    IntSumClosedForm(n);
    var q := n / 256;
    assert 32896 * q + Triangle(n % 256) == 256 * (128 * q) + (128 * q + Triangle(n % 256));
    ModAddMultiple(128 * q, 128 * q + Triangle(n % 256));
  }

  /** With the default length of 32 the checksum is 16. */
  lemma DefaultChecksum()
    ensures Checksum(DefaultRequestedLen) == 16
  {
    TriangleFormula(32);
  }

  /** The two loops of `process_instruction`: build the buffer, then fold it. */
  method ComputeChecksum(requestedLen: nat) returns (checksum: byte)
    ensures checksum == Checksum(requestedLen)
  {
    var buffer: seq<byte> := [];
    for index := 0 to requestedLen
      invariant buffer == Generated(index)
    {
      buffer := buffer + [((index % 256) + 1) % 256];
    }
    checksum := 0;
    for j := 0 to |buffer|
      invariant checksum == WrappingSum(buffer[..j])
    {
      assert buffer[..j + 1][..j] == buffer[..j];
      checksum := (checksum + buffer[j]) % 256;
    }
    assert buffer[..|buffer|] == buffer;
  }

  // ---------------------------------------------------------------------
  // The handler

  /**
   * The result of `process_instruction` given its first account (if any):
   * the first failing check, in source order, decides the error.
   */
  function Outcome(programId: Pubkey, first: Option<AccountState>, instructionData: seq<byte>, clock: ClockSysvar)
    : (r: ProgramResult)
    ensures first.None? ==> r == Failure(NotEnoughAccountKeys)
    ensures r == Success <==>
              && first.Some?
              && first.value.owner == programId
              && first.value.isWritable
              && |first.value.data| >= WrittenLength
              && RequestedLen(instructionData) >= MinRequestedLen
              && clock.Available?
    ensures (&& first.Some? && first.value.owner == programId && first.value.isWritable
             && |first.value.data| >= WrittenLength && RequestedLen(instructionData) >= MinRequestedLen
             && clock.Failed?) ==> r == Failure(clock.error)
  {
    match first
    case None => Failure(NotEnoughAccountKeys)
    case Some(account) =>
      if account.owner != programId then Failure(IncorrectProgramId)
      else if !account.isWritable then Failure(InvalidAccountData)
      else if |account.data| < WrittenLength then Failure(AccountDataTooSmall)
      else if RequestedLen(instructionData) < MinRequestedLen then Failure(InvalidInstructionData)
      else match clock
        case Failed(e) => Failure(e)
        case Available(_) => Success
  }

  /**
   * The account data after a successful call: the length is kept, byte 0 is
   * the checksum, bytes 1..9 read back as the timestamp, bytes 9..17 as the
   * slot, and bytes from 17 on are unchanged.
   */
  function Written(data: seq<byte>, checksum: byte, clock: Clock): (w: seq<byte>)
    requires |data| >= WrittenLength
    ensures |w| == |data|
    ensures w[0] == checksum
    ensures I64FromLe(w[1..9]) == clock.unixTimestamp
    ensures FromLe(w[9..17]) == clock.slot
    ensures forall i :: WrittenLength <= i < |data| ==> w[i] == data[i]
  {
    var w := [checksum] + I64ToLe(clock.unixTimestamp) + U64ToLe(clock.slot) + data[WrittenLength..];
    assert w[1..9] == I64ToLe(clock.unixTimestamp);
    assert w[9..17] == U64ToLe(clock.slot);
    w
  }

  /** Each check's error wins over every later check, whatever the later inputs are. */
  lemma CheckOrder(programId: Pubkey, account: AccountState, instructionData: seq<byte>, clock: ClockSysvar)
    ensures account.owner != programId ==>
              Outcome(programId, Some(account), instructionData, clock) == Failure(IncorrectProgramId)
    ensures account.owner == programId && !account.isWritable ==>
              Outcome(programId, Some(account), instructionData, clock) == Failure(InvalidAccountData)
    ensures account.owner == programId && account.isWritable && |account.data| < WrittenLength ==>
              Outcome(programId, Some(account), instructionData, clock) == Failure(AccountDataTooSmall)
    ensures account.owner == programId && account.isWritable && |account.data| >= WrittenLength
            && RequestedLen(instructionData) < MinRequestedLen ==>
              Outcome(programId, Some(account), instructionData, clock) == Failure(InvalidInstructionData)
    ensures account.owner == programId && account.isWritable && |account.data| >= WrittenLength
            && RequestedLen(instructionData) >= MinRequestedLen && clock.Failed? ==>
              Outcome(programId, Some(account), instructionData, clock) == Failure(clock.error)
  {
  }

  /** Byte `i` of the written data. */
  lemma WrittenAt(data: seq<byte>, checksum: byte, clock: Clock, i: nat)
    requires |data| >= WrittenLength && i < |data|
    ensures |Written(data, checksum, clock)| == |data|
    ensures Written(data, checksum, clock)[i] ==
              if i == 0 then checksum
              else if i < 9 then I64ToLe(clock.unixTimestamp)[i - 1]
              else if i < WrittenLength then U64ToLe(clock.slot)[i - 9]
              else data[i]
  {
  }

  /** `copy_from_slice` into `dst[start..start + |src|]`. */
  method CopyFromSlice(dst: array<byte>, start: nat, src: seq<byte>)
    requires start + |src| <= dst.Length
    modifies dst
    ensures dst[start..start + |src|] == src
    ensures forall i :: 0 <= i < dst.Length && !(start <= i < start + |src|) ==> dst[i] == old(dst[i])
  {
    for k := 0 to |src|
      invariant dst[start..start + k] == src[..k]
      invariant forall i :: 0 <= i < dst.Length && !(start <= i < start + k) ==> dst[i] == old(dst[i])
    {
      dst[start + k] := src[k];
    }
  }

  /** `process_instruction`, with `Clock::get()` passed in as `clock`. */
  method ProcessInstruction(programId: Pubkey, accounts: seq<AccountInfo>, instructionData: seq<byte>, clock: ClockSysvar)
    returns (r: ProgramResult)
    modifies if |accounts| == 0 then {} else {accounts[0].data}
    ensures r == Outcome(programId, if |accounts| == 0 then None else Some(old(StateOf(accounts[0]))),
                         instructionData, clock)
    ensures r.Success? ==>
              accounts[0].data[..] == Written(old(accounts[0].data[..]), Checksum(RequestedLen(instructionData)), clock.clock)
    ensures r.Failure? && |accounts| > 0 ==> accounts[0].data[..] == old(accounts[0].data[..])
  {
    if |accounts| == 0 {
      return Failure(NotEnoughAccountKeys);
    }
    var account := accounts[0];
    if account.owner != programId {
      return Failure(IncorrectProgramId);
    }
    if !account.isWritable {
      return Failure(InvalidAccountData);
    }
    if account.data.Length < WrittenLength {
      return Failure(AccountDataTooSmall);
    }
    var requestedLen := RequestedLen(instructionData);
    if requestedLen < MinRequestedLen {
      return Failure(InvalidInstructionData);
    }
    var checksum := ComputeChecksum(requestedLen);
    match clock
    case Failed(e) =>
      return Failure(e);
    case Available(c) =>
      var data := account.data;
      ghost var before := data[..];
      var timestamp, slot := I64ToLe(c.unixTimestamp), U64ToLe(c.slot);
      data[0] := checksum;
      CopyFromSlice(data, 1, timestamp);
      ghost var afterTimestamp := data[..];
      assert forall k :: 0 <= k < 8 ==> afterTimestamp[1 + k] == data[1..9][k];
      CopyFromSlice(data, 9, slot);
      assert forall k :: 0 <= k < 8 ==> data[9 + k] == data[9..17][k];
      r := Success;
      forall i | 0 <= i < data.Length
        ensures data[i] == Written(before, checksum, c)[i]
      {
        WrittenAt(before, checksum, c, i);
        if 1 <= i < 9 {
          assert data[i] == afterTimestamp[1 + (i - 1)];
        }
      }
      assert data[..] == Written(before, checksum, c);
  }
}
