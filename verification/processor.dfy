/**
 * The token-info program: its compiled-in constants and errors, the
 * instruction entry point and the `CreateInfo` handler.
 *
 * The handler runs against a ledger it may only read; every change it asks
 * for (the fee transfer, the creation of the info account, the write of the
 * record into it) is staged as an `Effect`, in order. The host applies the
 * staged effects only when the instruction returns `Ok`, which is how the
 * all-or-nothing transaction is modelled.
 *
 * What the program cannot see inside is passed in through `Env`: address
 * derivation, the textual form of a key, the clock and the rent schedule.
 */
module TokenInfoProgram {
  import opened Wrappers
  import opened Borsh
  import opened TokenInfoCodec
  import opened Ledger

  const FEE_RECEIVER: Pubkey :=
    [183, 231, 26, 4, 170, 254, 122, 189, 151, 227, 199, 150, 219, 140, 137, 241,
     208, 247, 231, 185, 96, 41, 98, 183, 121, 165, 132, 99, 187, 65, 128, 48]

  const AUTHORITY: Pubkey :=
    [115, 70, 176, 17, 40, 35, 186, 108, 103, 93, 119, 77, 253, 9, 55, 46,
     172, 41, 201, 158, 104, 244, 46, 182, 56, 25, 197, 36, 89, 84, 13, 104]

  /** The creation fee, in lamports. */
  const FEE_AMOUNT: nat := 100_000_000

  /** The bytes of "token_info", the first seed of the info account's address. */
  const TOKEN_INFO_SEED: seq<byte> := [0x74, 0x6F, 0x6B, 0x65, 0x6E, 0x5F, 0x69, 0x6E, 0x66, 0x6F]

  /** The program's own errors; each becomes `Custom` with its position as the code. */
  datatype TokenInfoError = InvalidInstruction | AccountAlreadyExists | InsufficientFunds | InvalidLinkData

  function ErrorCode(e: TokenInfoError): u32
  {
    match e
    case InvalidInstruction => 0
    case AccountAlreadyExists => 1
    case InsufficientFunds => 2
    case InvalidLinkData => 3
  }

  /**
   * The errors an instruction can end with: the host's standard ones, the
   * program's own as `Custom`, and a failed system-program call.
   */
  datatype ProgramError =
    | Custom(code: u32)
    | InvalidArgument
    | InvalidInstructionData
    | InvalidAccountData
    | NotEnoughAccountKeys
    | MissingRequiredSignature
    | BorshIoError
    | SystemProgramFailure(cause: SystemError)

  function FromTokenInfoError(e: TokenInfoError): ProgramError
  {
    Custom(ErrorCode(e))
  }

  /** Distinct program errors reach the caller as distinct `Custom` codes. */
  lemma ErrorCodesDistinct(a: TokenInfoError, b: TokenInfoError)
    ensures FromTokenInfoError(a) == FromTokenInfoError(b) <==> a == b
  {
  }

  /** The host services the program uses but cannot see inside. */
  datatype Env = Env(
    findProgramAddress: (seq<seq<byte>>, Pubkey) -> (Pubkey, byte),  // derived address and bump
    keyToString: Pubkey -> Str,                                     // textual form of a key
    unixTimestamp: i64,                                             // the clock sysvar
    minimumBalance: nat -> nat)                                     // rent-exempt balance for a data length

  /** An entry of the instruction's account list. */
  datatype AccountMeta = AccountMeta(key: Pubkey, isSigner: bool)

  /** What the handler ends with, and the effects it staged up to then. */
  datatype Outcome = Outcome(result: Result<(), ProgramError>, staged: seq<Effect>)

  /** The address the info account of `mint` must have, and its bump seed. */
  function FindInfoAccount(env: Env, mint: Pubkey, programId: Pubkey): (Pubkey, byte)
  {
    env.findProgramAddress([TOKEN_INFO_SEED, mint], programId)
  }

  /** The record the handler builds for `mint` from the instruction's fields. */
  function NewTokenInfo(env: Env, mint: Pubkey, description: Str, links: seq<Link>,
                        iconUri: Str, headerUri: Str): TokenInfo
  {
    V1(TokenInfoV1(env.keyToString(mint), description, links, Images(iconUri, headerUri),
                   env.unixTimestamp, env.unixTimestamp))
  }

  /**
   * The handler, step by step: take six accounts, check the signers and
   * the fixed keys, check and stage the fee, then go on with the info
   * account (`CreateAccountOutcome`) against the ledger as the fee left it.
   */
  function CreateInfoOutcome(env: Env, ledger: Accounts, programId: Pubkey, accounts: seq<AccountMeta>,
                             description: Str, links: seq<Link>, iconUri: Str, headerUri: Str): (o: Outcome)
    ensures o.result.Ok? ==> ApplyAll(ledger, o.staged).Ok?
  {
    if |accounts| < 6 then Outcome(Err(NotEnoughAccountKeys), [])
    else
      var payer, authority, mint, info, system, feeReceiver :=
        accounts[0], accounts[1], accounts[2], accounts[3], accounts[4], accounts[5];
      if !payer.isSigner then Outcome(Err(MissingRequiredSignature), [])
      else if !authority.isSigner then Outcome(Err(MissingRequiredSignature), [])
      else if authority.key != AUTHORITY then Outcome(Err(InvalidArgument), [])
      else if feeReceiver.key != FEE_RECEIVER then Outcome(Err(InvalidArgument), [])
      else if Get(ledger, payer.key).lamports < FEE_AMOUNT then
        Outcome(Err(FromTokenInfoError(InsufficientFunds)), [])
      else
        var fee := Transfer(payer.key, feeReceiver.key, FEE_AMOUNT);
        TransferEffect(ledger, payer.key, feeReceiver.key, FEE_AMOUNT);
        var paid := ApplyEffect(ledger, fee).value;
        var rest := CreateAccountOutcome(env, paid, programId, payer.key, mint.key, info.key, system.key,
                                         description, links, iconUri, headerUri);
        ApplyAllCons(ledger, fee, rest.staged);
        Outcome(rest.result, [fee] + rest.staged)
  }

  /**
   * The second half of the handler, after the fee: check the info account's
   * address, emptiness and owner, build and serialize the record, stage the
   * account creation and the write. A system-program call is tried against
   * the ledger as the earlier staged effects left it.
   */
  function CreateAccountOutcome(env: Env, ledger: Accounts, programId: Pubkey,
                                payer: Pubkey, mint: Pubkey, info: Pubkey, system: Pubkey,
                                description: Str, links: seq<Link>, iconUri: Str, headerUri: Str): (o: Outcome)
    ensures o.result.Ok? ==> ApplyAll(ledger, o.staged).Ok?
  {
    if FindInfoAccount(env, mint, programId).0 != info then Outcome(Err(InvalidArgument), [])
    else if Get(ledger, info).data != [] then Outcome(Err(FromTokenInfoError(AccountAlreadyExists)), [])
    else if Get(ledger, info).owner != system then Outcome(Err(InvalidAccountData), [])
    else
      var record := NewTokenInfo(env, mint, description, links, iconUri, headerUri);
      match SerializeTokenInfo(record)
      case Err(_) => Outcome(Err(BorshIoError), [])
      case Ok(encoded) =>
        var data := [MAGIC_BYTE, DATA_VERSION] + encoded;
        var create := CreateAccount(payer, info, env.minimumBalance(|data|), |data|, programId);
        match ApplyEffect(ledger, create)
        case Err(e) => Outcome(Err(SystemProgramFailure(e)), [])
        case Ok(_) =>
          var write := WriteData(info, data);
          ApplyAllAppend(ledger, [], create);
          ApplyAllAppend(ledger, [create], write);
          Outcome(Ok(()), [create, write])
  }

  /** `process_instruction`: decode, then dispatch to the one handler. */
  function InstructionOutcome(env: Env, ledger: Accounts, programId: Pubkey, accounts: seq<AccountMeta>,
                              data: seq<byte>): (o: Outcome)
    ensures o.result.Ok? ==> ApplyAll(ledger, o.staged).Ok?
  {
    match InstructionFromSlice(data)
    case None => Outcome(Err(InvalidInstructionData), [])
    case Some(CreateInfo(description, links, iconUri, headerUri)) =>
      CreateInfoOutcome(env, ledger, programId, accounts, description, links, iconUri, headerUri)
  }

  /** A finished transaction: its result and the ledger the host keeps. */
  datatype Receipt = Receipt(result: Result<(), ProgramError>, ledger: Accounts)

  /** The host's side: commit the staged effects together, and only on success. */
  function Transact(env: Env, ledger: Accounts, programId: Pubkey, accounts: seq<AccountMeta>,
                    data: seq<byte>): Receipt
  {
    var o := InstructionOutcome(env, ledger, programId, accounts, data);
    if o.result.Ok? then Receipt(o.result, ApplyAll(ledger, o.staged).value)
    else Receipt(o.result, ledger)
  }

  /** `next_account_info` over the instruction's account list: a position in a fixed list. */
  class AccountIter {
    const accounts: seq<AccountMeta>
    var position: nat

    constructor (accounts: seq<AccountMeta>)
      ensures this.accounts == accounts && position == 0
    {
      this.accounts := accounts;
      position := 0;
    }

    /** The next account, or `NotEnoughAccountKeys` once the list is used up. */
    method Next() returns (r: Result<AccountMeta, ProgramError>)
      requires position <= |accounts|
      modifies this
      ensures old(position) == |accounts| ==> r == Err(NotEnoughAccountKeys) && position == old(position)
      ensures old(position) < |accounts| ==> r == Ok(accounts[old(position)]) && position == old(position) + 1
      ensures position <= |accounts|
    {
      if position == |accounts| {
        r := Err(NotEnoughAccountKeys);
      } else {
        r := Ok(accounts[position]);
        position := position + 1;
      }
    }
  }

  /** `process_create_info`, reading `ledger` and staging what it would change. */
  method ProcessCreateInfo(env: Env, ledger: Accounts, programId: Pubkey, accounts: seq<AccountMeta>,
                           description: Str, links: seq<Link>, iconUri: Str, headerUri: Str)
    returns (r: Result<(), ProgramError>, staged: seq<Effect>)
    ensures Outcome(r, staged) ==
            CreateInfoOutcome(env, ledger, programId, accounts, description, links, iconUri, headerUri)
  {
    staged := [];
    var iter := new AccountIter(accounts);
    var next := iter.Next();
    if next.Err? { return Err(next.error), staged; }
    var payer := next.value;
    next := iter.Next();
    if next.Err? { return Err(next.error), staged; }
    var authority := next.value;
    next := iter.Next();
    if next.Err? { return Err(next.error), staged; }
    var mint := next.value;
    next := iter.Next();
    if next.Err? { return Err(next.error), staged; }
    var info := next.value;
    next := iter.Next();
    if next.Err? { return Err(next.error), staged; }
    var system := next.value;
    next := iter.Next();
    if next.Err? { return Err(next.error), staged; }
    var feeReceiver := next.value;

    if !payer.isSigner { return Err(MissingRequiredSignature), staged; }
    if !authority.isSigner { return Err(MissingRequiredSignature), staged; }
    if authority.key != AUTHORITY { return Err(InvalidArgument), staged; }
    if feeReceiver.key != FEE_RECEIVER { return Err(InvalidArgument), staged; }
    if Get(ledger, payer.key).lamports < FEE_AMOUNT {
      return Err(FromTokenInfoError(InsufficientFunds)), staged;
    }
    var fee := Transfer(payer.key, feeReceiver.key, FEE_AMOUNT);
    // the balance check above is the transfer's only failure condition
    TransferEffect(ledger, payer.key, feeReceiver.key, FEE_AMOUNT);
    var view := ApplyEffect(ledger, fee).value;
    staged := staged + [fee];

    var rest;
    r, rest := CreateInfoAccount(env, view, programId, payer.key, mint.key, info.key, system.key,
                                 description, links, iconUri, headerUri);
    staged := staged + rest;
  }

  /**
   * The rest of `process_create_info`, from the address check on, against
   * `view`, the accounts as the fee transfer left them.
   */
  method CreateInfoAccount(env: Env, view: Accounts, programId: Pubkey,
                           payer: Pubkey, mint: Pubkey, info: Pubkey, system: Pubkey,
                           description: Str, links: seq<Link>, iconUri: Str, headerUri: Str)
    returns (r: Result<(), ProgramError>, staged: seq<Effect>)
    ensures Outcome(r, staged) ==
            CreateAccountOutcome(env, view, programId, payer, mint, info, system,
                                 description, links, iconUri, headerUri)
  {
    staged := [];
    var expected := FindInfoAccount(env, mint, programId);
    if expected.0 != info { return Err(InvalidArgument), staged; }
    if Get(view, info).data != [] {
      return Err(FromTokenInfoError(AccountAlreadyExists)), staged;
    }
    if Get(view, info).owner != system { return Err(InvalidAccountData), staged; }

    var ts := env.unixTimestamp;
    var images := Images(iconUri, headerUri);
    var infoV1 := TokenInfoV1(env.keyToString(mint), description, links, images, ts, ts);
    var record := V1(infoV1);

    var serialized: seq<byte> := [];
    serialized := serialized + [MAGIC_BYTE];
    serialized := serialized + [DATA_VERSION];
    var encoded := SerializeTokenInfo(record);
    if encoded.Err? { return Err(BorshIoError), staged; }
    serialized := serialized + encoded.value;
    assert serialized == [MAGIC_BYTE, DATA_VERSION] + encoded.value;

    var lamports := env.minimumBalance(|serialized|);
    var create := CreateAccount(payer, info, lamports, |serialized|, programId);
    CreateAccountEffect(view, payer, info, lamports, |serialized|, programId);
    var created := ApplyEffect(view, create);
    if created.Err? { return Err(SystemProgramFailure(created.error)), staged; }
    staged := staged + [create];

    // `copy_from_slice` needs the new account's data to be exactly as long as the record
    assert |Get(created.value, info).data| == |serialized|;
    staged := staged + [WriteData(info, serialized)];
    r := Ok(());
  }

  /** `process_instruction`. */
  method ProcessInstruction(env: Env, ledger: Accounts, programId: Pubkey, accounts: seq<AccountMeta>,
                            data: seq<byte>)
    returns (r: Result<(), ProgramError>, staged: seq<Effect>)
    ensures Outcome(r, staged) == InstructionOutcome(env, ledger, programId, accounts, data)
  {
    var decoded := InstructionFromSlice(data);
    if decoded.None? {
      return Err(InvalidInstructionData), [];
    }
    match decoded.value {
      case CreateInfo(description, links, iconUri, headerUri) =>
        r, staged := ProcessCreateInfo(env, ledger, programId, accounts, description, links, iconUri, headerUri);
    }
  }

  /** The host ledger, which runs one instruction per transaction. */
  class Bank {
    var accounts: Accounts

    constructor (genesis: Accounts)
      ensures accounts == genesis
    {
      accounts := genesis;
    }

    method Execute(env: Env, programId: Pubkey, metas: seq<AccountMeta>, data: seq<byte>)
      returns (r: Result<(), ProgramError>)
      modifies this
      ensures Receipt(r, accounts) == Transact(env, old(accounts), programId, metas, data)
    {
      var result, staged := ProcessInstruction(env, accounts, programId, metas, data);
      if result.Ok? {
        accounts := ApplyAll(accounts, staged).value;
      }
      r := result;
    }
  }
}
