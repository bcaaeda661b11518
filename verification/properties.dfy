/**
 * What the `CreateInfo` handler guarantees, stated over its outcome (the
 * result and the effects it staged) and over the transaction the host
 * runs around it.
 */
module TokenInfoProperties {
  import opened Wrappers
  import opened Borsh
  import opened TokenInfoCodec
  import opened Ledger
  import opened TokenInfoProgram

  /** The fee transfer the handler stages for these accounts. */
  function FeeTransfer(accounts: seq<AccountMeta>): Effect
    requires |accounts| >= 6
  {
    Transfer(accounts[0].key, accounts[5].key, FEE_AMOUNT)
  }

  /** Every check that comes before the fee passes. */
  predicate PassesPreFeeChecks(ledger: Accounts, accounts: seq<AccountMeta>)
  {
    && |accounts| >= 6
    && accounts[0].isSigner
    && accounts[1].isSigner
    && accounts[1].key == AUTHORITY
    && accounts[5].key == FEE_RECEIVER
    && Get(ledger, accounts[0].key).lamports >= FEE_AMOUNT
  }

  /** The ledger the rest of the handler sees once the fee has moved. */
  function AfterFee(ledger: Accounts, accounts: seq<AccountMeta>): Accounts
    requires PassesPreFeeChecks(ledger, accounts)
  {
    TransferEffect(ledger, accounts[0].key, accounts[5].key, FEE_AMOUNT);
    ApplyEffect(ledger, FeeTransfer(accounts)).value
  }

  /** The record the handler stores for these accounts and fields. */
  function Record(env: Env, accounts: seq<AccountMeta>, description: Str, links: seq<Link>,
                  iconUri: Str, headerUri: Str): TokenInfo
    requires |accounts| >= 6
  {
    NewTokenInfo(env, accounts[2].key, description, links, iconUri, headerUri)
  }

  // ---- the account list -----------------------------------------------

  /** Fewer than six accounts: `NotEnoughAccountKeys`, nothing staged. */
  lemma TooFewAccounts(env: Env, ledger: Accounts, programId: Pubkey, accounts: seq<AccountMeta>,
                       description: Str, links: seq<Link>, iconUri: Str, headerUri: Str)
    requires |accounts| < 6
    ensures CreateInfoOutcome(env, ledger, programId, accounts, description, links, iconUri, headerUri)
            == Outcome(Err(NotEnoughAccountKeys), [])
  {
  }

  /** Accounts after the sixth are never looked at. */
  lemma ExtraAccountsIgnored(env: Env, ledger: Accounts, programId: Pubkey, accounts: seq<AccountMeta>,
                             extra: seq<AccountMeta>,
                             description: Str, links: seq<Link>, iconUri: Str, headerUri: Str)
    requires |accounts| >= 6
    ensures CreateInfoOutcome(env, ledger, programId, accounts + extra, description, links, iconUri, headerUri)
            == CreateInfoOutcome(env, ledger, programId, accounts, description, links, iconUri, headerUri)
  {
    hide CreateAccountOutcome;
    var all := accounts + extra;
    assert all[0] == accounts[0] && all[1] == accounts[1] && all[2] == accounts[2];
    assert all[3] == accounts[3] && all[4] == accounts[4] && all[5] == accounts[5];
  }

  // ---- the checks before the fee, in order ----------------------------

  lemma PayerMustSign(env: Env, ledger: Accounts, programId: Pubkey, accounts: seq<AccountMeta>,
                      description: Str, links: seq<Link>, iconUri: Str, headerUri: Str)
    requires |accounts| >= 6 && !accounts[0].isSigner
    ensures CreateInfoOutcome(env, ledger, programId, accounts, description, links, iconUri, headerUri)
            == Outcome(Err(MissingRequiredSignature), [])
  {
  }

  lemma AuthorityMustSign(env: Env, ledger: Accounts, programId: Pubkey, accounts: seq<AccountMeta>,
                          description: Str, links: seq<Link>, iconUri: Str, headerUri: Str)
    requires |accounts| >= 6 && accounts[0].isSigner && !accounts[1].isSigner
    ensures CreateInfoOutcome(env, ledger, programId, accounts, description, links, iconUri, headerUri)
            == Outcome(Err(MissingRequiredSignature), [])
  {
  }

  lemma AuthorityMustMatch(env: Env, ledger: Accounts, programId: Pubkey, accounts: seq<AccountMeta>,
                           description: Str, links: seq<Link>, iconUri: Str, headerUri: Str)
    requires |accounts| >= 6 && accounts[0].isSigner && accounts[1].isSigner
    requires accounts[1].key != AUTHORITY
    ensures CreateInfoOutcome(env, ledger, programId, accounts, description, links, iconUri, headerUri)
            == Outcome(Err(InvalidArgument), [])
  {
  }

  lemma FeeReceiverMustMatch(env: Env, ledger: Accounts, programId: Pubkey, accounts: seq<AccountMeta>,
                             description: Str, links: seq<Link>, iconUri: Str, headerUri: Str)
    requires |accounts| >= 6 && accounts[0].isSigner && accounts[1].isSigner
    requires accounts[1].key == AUTHORITY && accounts[5].key != FEE_RECEIVER
    ensures CreateInfoOutcome(env, ledger, programId, accounts, description, links, iconUri, headerUri)
            == Outcome(Err(InvalidArgument), [])
  {
  }

  /** A payer short of the fee gets `InsufficientFunds`, custom code 2. */
  lemma FeeNeedsFunds(env: Env, ledger: Accounts, programId: Pubkey, accounts: seq<AccountMeta>,
                      description: Str, links: seq<Link>, iconUri: Str, headerUri: Str)
    requires |accounts| >= 6 && accounts[0].isSigner && accounts[1].isSigner
    requires accounts[1].key == AUTHORITY && accounts[5].key == FEE_RECEIVER
    requires Get(ledger, accounts[0].key).lamports < FEE_AMOUNT
    ensures CreateInfoOutcome(env, ledger, programId, accounts, description, links, iconUri, headerUri)
            == Outcome(Err(Custom(2)), [])
  {
  }

  /**
   * Nothing is staged unless every check before the fee passes, and then
   * the fee transfer is staged first.
   */
  lemma FeeComesFirst(env: Env, ledger: Accounts, programId: Pubkey, accounts: seq<AccountMeta>,
                      description: Str, links: seq<Link>, iconUri: Str, headerUri: Str)
    ensures var o := CreateInfoOutcome(env, ledger, programId, accounts, description, links, iconUri, headerUri);
      (o.staged == [] <==> !PassesPreFeeChecks(ledger, accounts))
      && (!PassesPreFeeChecks(ledger, accounts) ==> o.result.Err?)
      && (PassesPreFeeChecks(ledger, accounts) ==> o.staged[0] == FeeTransfer(accounts))
  {
    hide CreateAccountOutcome;
  }

  // ---- the checks after the fee ---------------------------------------

  /** The rest of the handler's outcome once the checks before the fee have passed. */
  function Remainder(env: Env, ledger: Accounts, programId: Pubkey, accounts: seq<AccountMeta>,
                     description: Str, links: seq<Link>, iconUri: Str, headerUri: Str): Outcome
    requires PassesPreFeeChecks(ledger, accounts)
  {
    CreateAccountOutcome(env, AfterFee(ledger, accounts), programId, accounts[0].key, accounts[2].key,
                         accounts[3].key, accounts[4].key, description, links, iconUri, headerUri)
  }

  /** Past the checks, the outcome is the fee followed by whatever the rest stages. */
  lemma FeeThenRemainder(env: Env, ledger: Accounts, programId: Pubkey, accounts: seq<AccountMeta>,
                         description: Str, links: seq<Link>, iconUri: Str, headerUri: Str)
    requires PassesPreFeeChecks(ledger, accounts)
    ensures var rest := Remainder(env, ledger, programId, accounts, description, links, iconUri, headerUri);
      CreateInfoOutcome(env, ledger, programId, accounts, description, links, iconUri, headerUri)
      == Outcome(rest.result, [FeeTransfer(accounts)] + rest.staged)
  {
    hide CreateAccountOutcome;
  }

  /** The derived address must be the info account's key, or `InvalidArgument`. */
  lemma InfoAddressMustMatch(env: Env, ledger: Accounts, programId: Pubkey, accounts: seq<AccountMeta>,
                             description: Str, links: seq<Link>, iconUri: Str, headerUri: Str)
    requires PassesPreFeeChecks(ledger, accounts)
    requires FindInfoAccount(env, accounts[2].key, programId).0 != accounts[3].key
    ensures CreateInfoOutcome(env, ledger, programId, accounts, description, links, iconUri, headerUri)
            == Outcome(Err(InvalidArgument), [FeeTransfer(accounts)])
  {
    FeeThenRemainder(env, ledger, programId, accounts, description, links, iconUri, headerUri);
  }

  /** An info account that already holds data: `AccountAlreadyExists`, custom code 1. */
  lemma InfoMustBeEmpty(env: Env, ledger: Accounts, programId: Pubkey, accounts: seq<AccountMeta>,
                        description: Str, links: seq<Link>, iconUri: Str, headerUri: Str)
    requires PassesPreFeeChecks(ledger, accounts)
    requires FindInfoAccount(env, accounts[2].key, programId).0 == accounts[3].key
    requires Get(ledger, accounts[3].key).data != []
    ensures CreateInfoOutcome(env, ledger, programId, accounts, description, links, iconUri, headerUri)
            == Outcome(Err(Custom(1)), [FeeTransfer(accounts)])
  {
    FeeThenRemainder(env, ledger, programId, accounts, description, links, iconUri, headerUri);
    TransferKeepsDataAndOwner(ledger, accounts[0].key, accounts[5].key, FEE_AMOUNT, accounts[3].key);
  }

  /** An info account not owned by the supplied system program: `InvalidAccountData`. */
  lemma InfoMustBeSystemOwned(env: Env, ledger: Accounts, programId: Pubkey, accounts: seq<AccountMeta>,
                              description: Str, links: seq<Link>, iconUri: Str, headerUri: Str)
    requires PassesPreFeeChecks(ledger, accounts)
    requires FindInfoAccount(env, accounts[2].key, programId).0 == accounts[3].key
    requires Get(ledger, accounts[3].key).data == []
    requires Get(ledger, accounts[3].key).owner != accounts[4].key
    ensures CreateInfoOutcome(env, ledger, programId, accounts, description, links, iconUri, headerUri)
            == Outcome(Err(InvalidAccountData), [FeeTransfer(accounts)])
  {
    FeeThenRemainder(env, ledger, programId, accounts, description, links, iconUri, headerUri);
    TransferKeepsDataAndOwner(ledger, accounts[0].key, accounts[5].key, FEE_AMOUNT, accounts[3].key);
  }

  /** A failure after the fee has staged exactly the fee transfer. */
  lemma LateFailureStagesOnlyFee(env: Env, ledger: Accounts, programId: Pubkey, accounts: seq<AccountMeta>,
                                 description: Str, links: seq<Link>, iconUri: Str, headerUri: Str)
    requires PassesPreFeeChecks(ledger, accounts)
    requires CreateInfoOutcome(env, ledger, programId, accounts, description, links, iconUri, headerUri).result.Err?
    ensures CreateInfoOutcome(env, ledger, programId, accounts, description, links, iconUri, headerUri).staged
            == [FeeTransfer(accounts)]
  {
    FeeThenRemainder(env, ledger, programId, accounts, description, links, iconUri, headerUri);
    hide SerializeTokenInfo, FindInfoAccount, NewTokenInfo;
    var rest := Remainder(env, ledger, programId, accounts, description, links, iconUri, headerUri);
    assert rest.staged == [];
    assert [FeeTransfer(accounts)] + [] == [FeeTransfer(accounts)];
  }

  // ---- success ----------------------------------------------------------

  /** The rent-exempt balance the handler asks for the stored record. */
  function RecordRent(env: Env, record: TokenInfo): nat
    requires TokenInfoFits(record)
  {
    env.minimumBalance(|RecordBytes(record)|)
  }

  /**
   * A successful call stages exactly three effects: the fee, the creation of
   * the info account (funded by the payer with the rent-exempt balance,
   * sized to the record, owned by the program) and the write of the record.
   */
  lemma SuccessStagesExactly(env: Env, ledger: Accounts, programId: Pubkey, accounts: seq<AccountMeta>,
                             description: Str, links: seq<Link>, iconUri: Str, headerUri: Str)
    requires CreateInfoOutcome(env, ledger, programId, accounts, description, links, iconUri, headerUri).result.Ok?
    ensures PassesPreFeeChecks(ledger, accounts)
    ensures var record := Record(env, accounts, description, links, iconUri, headerUri);
      TokenInfoFits(record)
      && CreateInfoOutcome(env, ledger, programId, accounts, description, links, iconUri, headerUri).staged
         == [FeeTransfer(accounts),
             CreateAccount(accounts[0].key, accounts[3].key, RecordRent(env, record),
                           |RecordBytes(record)|, programId),
             WriteData(accounts[3].key, RecordBytes(record))]
  {
    FeeComesFirst(env, ledger, programId, accounts, description, links, iconUri, headerUri);
    FeeThenRemainder(env, ledger, programId, accounts, description, links, iconUri, headerUri);
    hide EncodeTokenInfo;
  }

  /**
   * The call succeeds exactly when every check passes, the record can be
   * serialized and the system program accepts the account creation on the
   * ledger the fee left.
   */
  lemma SucceedsExactlyWhen(env: Env, ledger: Accounts, programId: Pubkey, accounts: seq<AccountMeta>,
                            description: Str, links: seq<Link>, iconUri: Str, headerUri: Str)
    ensures CreateInfoOutcome(env, ledger, programId, accounts, description, links, iconUri, headerUri).result.Ok?
      <==>
        && PassesPreFeeChecks(ledger, accounts)
        && FindInfoAccount(env, accounts[2].key, programId).0 == accounts[3].key
        && Get(ledger, accounts[3].key).data == []
        && Get(ledger, accounts[3].key).owner == accounts[4].key
        && TokenInfoFits(Record(env, accounts, description, links, iconUri, headerUri))
        && Unused(Get(AfterFee(ledger, accounts), accounts[3].key))
        && Get(AfterFee(ledger, accounts), accounts[0].key).lamports
           >= RecordRent(env, Record(env, accounts, description, links, iconUri, headerUri))
  {
    FeeComesFirst(env, ledger, programId, accounts, description, links, iconUri, headerUri);
    if PassesPreFeeChecks(ledger, accounts) {
      FeeThenRemainder(env, ledger, programId, accounts, description, links, iconUri, headerUri);
      TransferKeepsDataAndOwner(ledger, accounts[0].key, accounts[5].key, FEE_AMOUNT, accounts[3].key);
      var record := Record(env, accounts, description, links, iconUri, headerUri);
      if TokenInfoFits(record) {
        CreateAccountEffect(AfterFee(ledger, accounts), accounts[0].key, accounts[3].key,
                            RecordRent(env, record), |RecordBytes(record)|, programId);
      }
      hide EncodeTokenInfo;
    }
  }

  /**
   * Fee, creation and write, applied in turn to distinct payer, fee receiver
   * and new account: the balances move as stated and nothing else changes.
   */
  lemma FeeCreateWrite(m: Accounts, payer: Pubkey, feeReceiver: Pubkey, info: Pubkey,
                      rent: nat, data: seq<byte>, programId: Pubkey)
    requires payer != feeReceiver && payer != info && info != feeReceiver
    requires ApplyAll(m, [Transfer(payer, feeReceiver, FEE_AMOUNT),
                          CreateAccount(payer, info, rent, |data|, programId),
                          WriteData(info, data)]).Ok?
    ensures var after := ApplyAll(m, [Transfer(payer, feeReceiver, FEE_AMOUNT),
                                      CreateAccount(payer, info, rent, |data|, programId),
                                      WriteData(info, data)]).value;
      && Get(after, feeReceiver)
         == Get(m, feeReceiver).(lamports := Get(m, feeReceiver).lamports + FEE_AMOUNT)
      && Get(m, payer).lamports >= FEE_AMOUNT + rent
      && Get(after, payer) == Get(m, payer).(lamports := Get(m, payer).lamports - FEE_AMOUNT - rent)
      && Get(after, info) == Account(rent, programId, data)
      && (forall k :: k != payer && k != info && k != feeReceiver ==> Get(after, k) == Get(m, k))
  {
    var fee, create, write := Transfer(payer, feeReceiver, FEE_AMOUNT),
                              CreateAccount(payer, info, rent, |data|, programId), WriteData(info, data);
    var es := [fee, create, write];
    TransferEffect(m, payer, feeReceiver, FEE_AMOUNT);
    assert ApplyEffect(m, fee).Ok?;
    var m1 := ApplyEffect(m, fee).value;
    ApplyAllCons(m, fee, [create, write]);
    CreateAccountEffect(m1, payer, info, rent, |data|, programId);
    assert ApplyEffect(m1, create).Ok?;
    var m2 := ApplyEffect(m1, create).value;
    ApplyAllCons(m1, create, [write]);
    WriteDataEffect(m2, info, data);
    var after := ApplyEffect(m2, write).value;
    ApplyAllCons(m2, write, []);
    assert ApplyAll(m, es).value == after;
    EffectFrame(m1, create, feeReceiver);
    EffectFrame(m2, write, payer);
    EffectFrame(m2, write, feeReceiver);
    forall k | k != payer && k != info && k != feeReceiver
      ensures Get(after, k) == Get(m, k)
    {
      ApplyAllFrame(m, es, k);
    }
  }

  /**
   * After a successful call, with payer, fee receiver and info account
   * distinct: the fee receiver has gained the fee, the payer has paid the
   * fee and the rent, the info account holds the rent, belongs to the
   * program and contains the record; every other account is as it was.
   */
  lemma SuccessLedger(env: Env, ledger: Accounts, programId: Pubkey, accounts: seq<AccountMeta>,
                      description: Str, links: seq<Link>, iconUri: Str, headerUri: Str)
    requires CreateInfoOutcome(env, ledger, programId, accounts, description, links, iconUri, headerUri).result.Ok?
    requires |accounts| >= 6
    requires accounts[0].key != accounts[5].key && accounts[0].key != accounts[3].key
    requires accounts[3].key != accounts[5].key
    ensures var o := CreateInfoOutcome(env, ledger, programId, accounts, description, links, iconUri, headerUri);
      var after := ApplyAll(ledger, o.staged).value;
      var record := Record(env, accounts, description, links, iconUri, headerUri);
      var payer, info, feeReceiver := accounts[0].key, accounts[3].key, accounts[5].key;
      && TokenInfoFits(record)
      && Get(after, feeReceiver)
         == Get(ledger, feeReceiver).(lamports := Get(ledger, feeReceiver).lamports + FEE_AMOUNT)
      && Get(ledger, payer).lamports >= FEE_AMOUNT + RecordRent(env, record)
      && Get(after, payer)
         == Get(ledger, payer).(lamports := Get(ledger, payer).lamports - FEE_AMOUNT - RecordRent(env, record))
      && Get(after, info) == Account(RecordRent(env, record), programId, RecordBytes(record))
      && (forall k :: k != payer && k != info && k != feeReceiver ==> Get(after, k) == Get(ledger, k))
  {
    SuccessStagesExactly(env, ledger, programId, accounts, description, links, iconUri, headerUri);
    var record := Record(env, accounts, description, links, iconUri, headerUri);
    hide CreateInfoOutcome, EncodeTokenInfo;
    FeeCreateWrite(ledger, accounts[0].key, accounts[5].key, accounts[3].key,
                   RecordRent(env, record), RecordBytes(record), programId);
  }
  // ---- the transaction around the handler ------------------------------

  /** An encoded `CreateInfo` instruction reaches the handler with its own fields. */
  lemma DispatchesToHandler(env: Env, ledger: Accounts, programId: Pubkey, accounts: seq<AccountMeta>,
                            ix: Instruction)
    requires InstructionFits(ix)
    ensures InstructionOutcome(env, ledger, programId, accounts, EncodeInstruction(ix))
            == CreateInfoOutcome(env, ledger, programId, accounts, ix.description, ix.links, ix.iconUri, ix.headerUri)
  {
    InstructionRoundTrip(ix);
    hide InstructionFromSlice, EncodeInstruction, CreateInfoOutcome;
  }

  /** Input that does not decode as an instruction fails and leaves every account as it was. */
  lemma DecodeFailureTouchesNothing(env: Env, ledger: Accounts, programId: Pubkey, accounts: seq<AccountMeta>,
                                    data: seq<byte>)
    requires InstructionFromSlice(data).None?
    ensures Transact(env, ledger, programId, accounts, data) == Receipt(Err(InvalidInstructionData), ledger)
  {
    hide InstructionFromSlice, CreateInfoOutcome;
  }

  /**
   * A call that fails after the fee was staged has its fee transfer rolled
   * back with everything else: the ledger is the one it started from.
   */
  lemma LateFailureRollsBack(env: Env, ledger: Accounts, programId: Pubkey, accounts: seq<AccountMeta>,
                             ix: Instruction)
    requires InstructionFits(ix) && PassesPreFeeChecks(ledger, accounts)
    requires Transact(env, ledger, programId, accounts, EncodeInstruction(ix)).result.Err?
    ensures InstructionOutcome(env, ledger, programId, accounts, EncodeInstruction(ix)).staged
            == [FeeTransfer(accounts)]
    ensures Transact(env, ledger, programId, accounts, EncodeInstruction(ix)).ledger == ledger
  {
    DispatchesToHandler(env, ledger, programId, accounts, ix);
    LateFailureStagesOnlyFee(env, ledger, programId, accounts, ix.description, ix.links, ix.iconUri, ix.headerUri);
    hide InstructionOutcome, CreateInfoOutcome;
  }

  /**
   * After a successful transaction the info account holds the rent-exempt
   * balance for its data, belongs to the program, and its data is the
   * header `0xAB 0x01` followed by a `V1` record whose mint is the text of
   * the mint key, whose two timestamps are the clock's and whose other
   * fields are the instruction's; the data reads back as that record and
   * its length follows the Borsh layout.
   */
  lemma StoredRecord(env: Env, ledger: Accounts, programId: Pubkey, accounts: seq<AccountMeta>,
                     ix: Instruction)
    requires InstructionFits(ix)
    requires Transact(env, ledger, programId, accounts, EncodeInstruction(ix)).result.Ok?
    ensures |accounts| >= 6
    ensures var a := Get(Transact(env, ledger, programId, accounts, EncodeInstruction(ix)).ledger, accounts[3].key);
      var mint := env.keyToString(accounts[2].key);
      && a.owner == programId
      && a.lamports == env.minimumBalance(|a.data|)
      && |a.data| >= 2 && a.data[0] == 0xAB && a.data[1] == 0x01
      && ParseRecord(a.data)
         == Some(V1(TokenInfoV1(mint, ix.description, ix.links, Images(ix.iconUri, ix.headerUri),
                                env.unixTimestamp, env.unixTimestamp)))
      && |a.data| == 2 + 1 + (4 + |mint|) + (4 + |ix.description|) + 4 + LinkItemsSize(ix.links)
                     + (4 + |ix.iconUri|) + (4 + |ix.headerUri|) + 8 + 8
  {
    DispatchesToHandler(env, ledger, programId, accounts, ix);
    var d, l, i, h := ix.description, ix.links, ix.iconUri, ix.headerUri;
    SuccessStagesExactly(env, ledger, programId, accounts, d, l, i, h);
    var record := Record(env, accounts, d, l, i, h);
    var bytes := RecordBytes(record);
    var rent := RecordRent(env, record);
    var fee, create, write := FeeTransfer(accounts),
                              CreateAccount(accounts[0].key, accounts[3].key, rent, |bytes|, programId),
                              WriteData(accounts[3].key, bytes);
    hide InstructionOutcome, CreateInfoOutcome, EncodeTokenInfo;
    assert ApplyAll(ledger, [fee, create, write]).Ok?;
    TransferEffect(ledger, accounts[0].key, accounts[5].key, FEE_AMOUNT);
    ApplyAllCons(ledger, fee, [create, write]);
    var paid := ApplyEffect(ledger, fee).value;
    CreateThenWrite(paid, accounts[0].key, accounts[3].key, rent, programId, bytes);
    RecordRoundTrip(record);
    RecordLength(record);
  }

  /**
   * Once a transaction has created the info account, running the same
   * instruction again fails and changes nothing; if the payer can still
   * pay the fee, the failure is `AccountAlreadyExists` (custom code 1).
   */
  lemma SecondCreationFails(env: Env, ledger: Accounts, programId: Pubkey, accounts: seq<AccountMeta>,
                            ix: Instruction)
    requires InstructionFits(ix)
    requires Transact(env, ledger, programId, accounts, EncodeInstruction(ix)).result.Ok?
    ensures var first := Transact(env, ledger, programId, accounts, EncodeInstruction(ix)).ledger;
      var second := Transact(env, first, programId, accounts, EncodeInstruction(ix));
      && second.result.Err?
      && second.ledger == first
      && (PassesPreFeeChecks(first, accounts) ==> second.result == Err(Custom(1)))
  {
    var data := EncodeInstruction(ix);
    var first := Transact(env, ledger, programId, accounts, data).ledger;
    var d, l, i, h := ix.description, ix.links, ix.iconUri, ix.headerUri;
    StoredRecord(env, ledger, programId, accounts, ix);
    DispatchesToHandler(env, ledger, programId, accounts, ix);
    DispatchesToHandler(env, first, programId, accounts, ix);
    SucceedsExactlyWhen(env, ledger, programId, accounts, d, l, i, h);
    FeeComesFirst(env, first, programId, accounts, d, l, i, h);
    if PassesPreFeeChecks(first, accounts) {
      InfoMustBeEmpty(env, first, programId, accounts, d, l, i, h);
    }
    hide InstructionOutcome, CreateInfoOutcome, ParseRecord;
  }
  /**
   * The info account is written once: whatever the instruction data, the
   * other accounts or the clock, a transaction whose info account sits at
   * the mint's derived address and already holds data fails and changes
   * nothing.
   */
  lemma WriteOnce(env: Env, ledger: Accounts, programId: Pubkey, accounts: seq<AccountMeta>, data: seq<byte>)
    requires |accounts| >= 6
    requires FindInfoAccount(env, accounts[2].key, programId).0 == accounts[3].key
    requires Get(ledger, accounts[3].key).data != []
    ensures var r := Transact(env, ledger, programId, accounts, data);
      r.result.Err? && r.ledger == ledger
  {
    match InstructionFromSlice(data)
    case None =>
    case Some(ix) =>
      SucceedsExactlyWhen(env, ledger, programId, accounts, ix.description, ix.links, ix.iconUri, ix.headerUri);
  }
}
