# Token-info registrar: a Dafny model

The program is a Solana on-chain program. It accepts a single instruction, `CreateInfo`, which carries a token's description, a list of links and two image URIs. It checks the caller's accounts and charges a fixed fee of 0.1 SOL (100 000 000 lamports). It then creates a program-owned account, whose address is derived from the token mint, and stores a versioned `TokenInfo` record in it. The stored data is the magic byte `0xAB`, the version byte `1`, and then the Borsh encoding of `TokenInfo::V1`.

The model has six files:

- `wrappers.dfy`: `Option` and `Result`.
- `borsh.dfy`: the Borsh primitives the record uses.
  - Little-endian `u32`.
  - Two's-complement `i64`.
  - `u32`-length-prefixed strings, kept as their bytes.
  - Every decoder returns the value and the input left after it, or `None`.
- `token_info.dfy`: the program's data types and their encodings.
  - `Link`, `Images`, `TokenInfoV1`, `TokenInfo` and `Instruction`.
  - The encoders, and the decoders in the style of `try_from_slice`.
  - The stored record with its two-byte header.
- `ledger.dfy`: the accounts the program touches.
  - Each account has a balance, an owner and data.
  - The three changes the program makes are `Effect`s: the system program's transfer and create-account, and the program's own write into the new account's data.
- `processor.dfy`: the program itself.
  - Its constants and its error enum, with the mapping to `Custom` codes.
  - `process_instruction`, and `process_create_info` in two forms. The imperative form (`ProcessCreateInfo`, which walks the account list with an iterator object) is proved equal to a functional specification (`CreateInfoOutcome`).
  - A `Bank` class that runs one instruction per transaction.
- `properties.dfy`: what the handler guarantees.
  - Its checks and their order.
  - The fee, and when it is charged.
  - The ledger after success.
  - The record it stores.
  - Rollback of failures.
  - Refusal of a second creation.

The handler cannot change the ledger itself. It stages effects in the order its cross-program calls and its write happen, and its outcome is the result together with the staged effects. A system-program call that fails ends the handler with `SystemProgramFailure`. The host applies the staged effects only when the result is `Ok` (`Transact`, `Bank.Execute`). This is the all-or-nothing transaction: a fee transfer followed by a failing check is rolled back.

Four services are parameters (`Env`) because the program cannot see inside them:

- address derivation (`find_program_address`);
- the textual form of a key (`Pubkey::to_string`);
- the clock's `unix_timestamp`;
- the rent schedule (`Rent::minimum_balance`).

## Model

| member | source | states |
|---|---|---|
| Borsh.EncodeU32 | src/lib.rs:67 | the `Vec` count written as four little-endian bytes; `ReadU32Sound` and `U32RoundTrip` state that `ReadU32` inverts it |
| Borsh.ReadU32 | src/lib.rs:67 | reading a `u32` (the `Vec` count prefix) succeeds exactly when four bytes are available |
| Borsh.ReadU32Sound | src/lib.rs:67 | whatever `ReadU32` accepts is the little-endian encoding of the value it returns, followed by the rest it returns |
| Borsh.U32RoundTrip | src/lib.rs:67 | decoding an encoded `u32` gives back the number and leaves the following bytes untouched |
| Borsh.TwosComplement | src/lib.rs:69-70 | the 64-bit image of an `i64` lies below 2^64, and it is below 2^63 exactly when the value is non-negative |
| Borsh.FromTwosComplement | src/lib.rs:69-70 | reading a 64-bit pattern as signed is the inverse of the two's-complement image |
| Borsh.EncodeI64 | src/lib.rs:69-70 | a timestamp written as the eight little-endian bytes of its two's-complement image; `ReadI64Sound` and `I64RoundTrip` state that `ReadI64` inverts it |
| Borsh.ReadI64 | src/lib.rs:69-70 | reading a timestamp succeeds exactly when eight bytes are available |
| Borsh.ReadI64Sound | src/lib.rs:69-70 | whatever `ReadI64` accepts is the encoding of the value it returns, followed by the rest |
| Borsh.I64RoundTrip | src/lib.rs:69-70 | decoding an encoded `i64` gives back every signed 64-bit value, negative ones included |
| Borsh.EncodeString | src/lib.rs:53-54 | a string written as its `u32` byte length followed by its bytes; `ReadStringSound` and `StringRoundTrip` state that `ReadString` inverts it |
| Borsh.ReadString | src/lib.rs:53-54 | a string that is read successfully has consumed its four-byte length prefix |
| Borsh.ReadStringSound | src/lib.rs:53-54 | a string that is read successfully fits a `u32` length, and the input is its encoding followed by the rest |
| Borsh.ReadStringOverrun | src/lib.rs:53-54 | a declared length longer than the bytes that follow makes the read fail |
| Borsh.StringRoundTrip | src/lib.rs:53-54 | decoding an encoded string gives back the string and the rest |
| TokenInfoCodec.EncodeLink | src/lib.rs:57-61 | a link written as its label then its url; `LinkRoundTrip` and `ReadLinkSound` pair it with `ReadLink` |
| TokenInfoCodec.EncodeLinkItems | src/lib.rs:67 | the links written one after another, in order; `LinkItemsRoundTrip` and `ReadLinkItemsSound` pair it with `ReadLinkItems`, and `LinkItemsLength` gives its length |
| TokenInfoCodec.EncodeLinks | src/lib.rs:67 | a `Vec<Link>` written as its `u32` count followed by the links; `LinksRoundTrip` and `ReadLinksSound` pair it with `ReadLinks` |
| TokenInfoCodec.EncodeImages | src/lib.rs:51-55 | `Images` written as icon then header; `ImagesRoundTrip` and `ReadImagesSound` pair it with `ReadImages` |
| TokenInfoCodec.EncodeTokenInfoV1 | src/lib.rs:63-71 | the six fields of `TokenInfoV1` written in declaration order; `TokenInfoV1RoundTrip` and `ReadTokenInfoV1Sound` pair it with `ReadTokenInfoV1` |
| TokenInfoCodec.EncodeTokenInfo | src/lib.rs:73-76 | `TokenInfo::V1` written as the variant tag 0 followed by the payload; `TokenInfoRoundTrip` and `TokenInfoDecodeExact` pair it with `TokenInfoFromSlice` |
| TokenInfoCodec.EncodeInstruction | src/lib.rs:78-86 | `CreateInfo` written as the tag 0 followed by its four fields in order; `InstructionRoundTrip` and `InstructionDecodeExact` pair it with `InstructionFromSlice`, and `InstructionLength` gives its length |
| TokenInfoCodec.SerializeTokenInfo | src/lib.rs:233 | `serialize` fails exactly when some string or the link vector is too long for its `u32` prefix |
| TokenInfoCodec.RecordBytes | src/lib.rs:230-233 | the buffer the handler builds: `MAGIC_BYTE`, then `DATA_VERSION`, then the serialized record; `RecordRoundTrip`, `RecordDecodeExact` and `RecordLength` state its properties |
| TokenInfoCodec.ReadLink | src/lib.rs:57-61 | a link that is read successfully has consumed at least its two length prefixes |
| TokenInfoCodec.ReadLinkSound | src/lib.rs:57-61 | a link that is read successfully is the encoding of that link, text then url, followed by the rest |
| TokenInfoCodec.ReadLinkItemsSound | src/lib.rs:67 | reading `n` links in sequence returns `n` encodable links whose encodings, concatenated, are the input consumed |
| TokenInfoCodec.ReadLinksSound | src/lib.rs:67 | a link vector that is read successfully is its count prefix followed by the encoded links |
| TokenInfoCodec.ReadImagesSound | src/lib.rs:51-55 | the `Images` that are read successfully are the encoding of icon then header |
| TokenInfoCodec.ReadTokenInfoV1Sound | src/lib.rs:63-71 | a `TokenInfoV1` that is read successfully is its six fields encoded in declaration order |
| TokenInfoCodec.ReadLinkItems | src/lib.rs:67 | reads exactly `n` links in turn, failing as soon as one is cut short; `ReadLinkItemsSound` and `LinkItemsRoundTrip` state its behaviour |
| TokenInfoCodec.ReadLinks | src/lib.rs:67 | reads a `u32` count and then that many links; `ReadLinksSound` and `LinksRoundTrip` state its behaviour |
| TokenInfoCodec.ReadImages | src/lib.rs:51-55 | reads the icon and then the header string; `ReadImagesSound` and `ImagesRoundTrip` state its behaviour |
| TokenInfoCodec.ReadTokenInfoV1 | src/lib.rs:63-71 | reads the six fields in declaration order; `ReadTokenInfoV1Sound` and `TokenInfoV1RoundTrip` state its behaviour |
| TokenInfoCodec.ReadTokenInfo | src/lib.rs:73-76 | an empty input, or a first byte that is not the `V1` tag 0, is refused |
| TokenInfoCodec.ReadTokenInfoSound | src/lib.rs:73-76 | a `TokenInfo` that is read successfully is the tag 0 followed by the `V1` payload |
| TokenInfoCodec.ReadInstruction | src/lib.rs:78-86 | an empty input, or a first byte that is not the `CreateInfo` tag 0, is refused |
| TokenInfoCodec.ReadInstructionSound | src/lib.rs:78-86 | an instruction that is read successfully is the tag 0 followed by its four fields in order |
| TokenInfoCodec.InstructionFromSlice | src/lib.rs:97-98 | `Instruction::try_from_slice`: decode, then refuse if any byte is left over; `InstructionDecodeExact`, `UnknownTagRejected`, `TrailingBytesRejected` and `TruncationRejected` state what it accepts |
| TokenInfoCodec.TokenInfoFromSlice | src/lib.rs:73-76 | `TokenInfo::try_from_slice`: decode, then refuse if any byte is left over; `TokenInfoDecodeExact` states what it accepts |
| TokenInfoCodec.ParseRecord | src/lib.rs:230-233 | reads a stored buffer back: the `0xAB 0x01` header, then `TokenInfo::try_from_slice` of the rest; `RecordDecodeExact` states what it accepts |
| TokenInfoCodec.LinkRoundTrip | src/lib.rs:57-61 | decoding an encoded link gives back the link and the rest |
| TokenInfoCodec.LinkItemsRoundTrip | src/lib.rs:67 | decoding `n` encoded links gives back the same `n` links, in order, and the rest |
| TokenInfoCodec.LinksRoundTrip | src/lib.rs:67 | decoding an encoded `Vec<Link>` gives back the vector and the rest |
| TokenInfoCodec.ImagesRoundTrip | src/lib.rs:51-55 | decoding encoded `Images` gives them back |
| TokenInfoCodec.TokenInfoV1RoundTrip | src/lib.rs:63-71 | decoding an encoded `TokenInfoV1` gives it back, with the rest |
| TokenInfoCodec.TokenInfoPrefixRoundTrip | src/lib.rs:73-76 | decoding an encoded `TokenInfo` followed by anything gives back the record and exactly what follows |
| TokenInfoCodec.InstructionPrefixRoundTrip | src/lib.rs:78-86 | decoding an encoded instruction followed by anything gives back the instruction and exactly what follows |
| TokenInfoCodec.InstructionRoundTrip | src/lib.rs:97-98 | `try_from_slice` of an encoded instruction returns that instruction |
| TokenInfoCodec.TokenInfoRoundTrip | src/lib.rs:73-76 | `try_from_slice` of an encoded `TokenInfo` returns that record |
| TokenInfoCodec.RecordRoundTrip | src/lib.rs:228-233 | the stored bytes (header, then the encoded record) read back as the record |
| TokenInfoCodec.InstructionDecodeExact | src/lib.rs:97-98 | `try_from_slice` returns an instruction exactly when the input is that instruction's encoding, and nothing more |
| TokenInfoCodec.TokenInfoDecodeExact | src/lib.rs:73-76 | `try_from_slice` returns a record exactly when the input is that record's encoding, and nothing more |
| TokenInfoCodec.RecordDecodeExact | src/lib.rs:230-233 | a stored buffer parses as a record exactly when it is the `0xAB 0x01` header followed by that record's encoding |
| TokenInfoCodec.UnknownTagRejected | src/lib.rs:97-98 | an empty buffer, or an unknown variant tag, does not decode as an instruction |
| TokenInfoCodec.TrailingBytesRejected | src/lib.rs:97-98 | an encoded instruction followed by any extra bytes is refused |
| TokenInfoCodec.TruncationRejected | src/lib.rs:97-98 | every strict prefix of an encoded instruction is refused |
| TokenInfoCodec.LinkItemsLength | src/lib.rs:67 | the encoded links take the sum of 8 plus the text and url lengths, over all links |
| TokenInfoCodec.RecordLength | src/lib.rs:230-236 | the stored length, which sets the account size and the rent, is `2 + 1 + 8 + 8` for the header, the tag and the two timestamps, plus each string's length with its 4-byte prefix, plus the link vector's size |
| TokenInfoCodec.InstructionLength | src/lib.rs:78-86 | the encoded instruction length is the tag plus each prefixed field |
| Ledger.ApplyEffect | src/lib.rs:171-261 | one change to the ledger: the system program's transfer (debit and credit when the payer holds the amount), its `create_account` (an unused target gets the balance, the owner and zeroed space, paid by the funder), or the program's write into the new account's data; `TransferEffect`, `CreateAccountEffect`, `WriteDataEffect` and `EffectFrame` state its behaviour |
| Ledger.ApplyAll | src/lib.rs:171-261 | the staged changes applied in order, stopping at the first failure; `ApplyAllFrame`, `CreateThenWrite` and `TokenInfoProperties.FeeCreateWrite` state what it does to the ledger |
| Ledger.EffectFrame | src/lib.rs:171-178 | a transfer, creation or write changes no account other than the ones it names |
| Ledger.TransferEffect | src/lib.rs:171-178 | the fee transfer succeeds exactly when the payer holds the amount; it debits the payer and credits the receiver by that amount, and a transfer to oneself leaves the account as it was |
| Ledger.TransferKeepsDataAndOwner | src/lib.rs:171-178 | a transfer changes only balances: every account keeps its data and owner |
| Ledger.CreateAccountEffect | src/lib.rs:242-256 | `create_account` succeeds exactly when the target is unused (no lamports, no data, system-owned) and the funder can pay; a target in use is reported as such; the target ends with the balance, the owner and zeroed space, and the funder is debited |
| Ledger.WriteDataEffect | src/lib.rs:258-261 | the write replaces the new account's data, and keeps its balance and owner |
| Ledger.ApplyAllFrame | src/lib.rs:171-261 | a sequence of effects leaves every account that none of them names as it was |
| Ledger.CreateThenWrite | src/lib.rs:242-261 | creating the info account and writing the record leaves it with exactly the requested balance, the program as owner, and the record as data, whoever funded it |
| TokenInfoProgram.ErrorCode | src/lib.rs:37-43 | each `TokenInfoError` variant's position in the enum (0 to 3), which is what `e as u32` gives |
| TokenInfoProgram.FromTokenInfoError | src/lib.rs:45-49 | `From<TokenInfoError> for ProgramError`: `Custom` carrying the variant's position; `ErrorCodesDistinct` states that distinct errors get distinct codes |
| TokenInfoProgram.ErrorCodesDistinct | src/lib.rs:45-49 | two program errors reach the caller as the same `Custom` code exactly when they are the same error |
| TokenInfoProgram.FindInfoAccount | src/lib.rs:88-90 | the address and bump are the `Env`'s `find_program_address` of the seeds `"token_info"` and the mint, under the program id; `InfoAddressMustMatch` and `SucceedsExactlyWhen` state how the handler uses it |
| TokenInfoProgram.NewTokenInfo | src/lib.rs:206-228 | the record the handler builds: `V1` with the mint key's text, the instruction's description, links and image URIs, and the clock's timestamp as both creation and update time; `StoredRecord` states that this is what ends up stored |
| TokenInfoProgram.CreateInfoOutcome | src/lib.rs:117-178 | when the handler returns `Ok`, every effect it staged succeeds, applied in order |
| TokenInfoProgram.CreateAccountOutcome | src/lib.rs:180-264 | when the part after the fee returns `Ok`, its creation and write both succeed on the ledger the fee left |
| TokenInfoProgram.InstructionOutcome | src/lib.rs:92-115 | when an instruction returns `Ok`, its staged effects apply without error |
| TokenInfoProgram.Transact | src/lib.rs:92-115 | the host around `process_instruction` (the runtime's all-or-nothing commit, which the program relies on but does not contain): the staged changes are applied only when the result is `Ok`; `DecodeFailureTouchesNothing`, `LateFailureRollsBack`, `StoredRecord` and `WriteOnce` state its outcomes |
| TokenInfoProgram.AccountIter.constructor | src/lib.rs:127 | the iterator starts at the first account of the list |
| TokenInfoProgram.AccountIter.Next | src/lib.rs:128-133 | `next_account_info` returns the next account and advances, or returns `NotEnoughAccountKeys` at the end without moving |
| TokenInfoProgram.ProcessCreateInfo | src/lib.rs:117-178 | the imperative handler returns the same result, and stages the same effects, as `CreateInfoOutcome` |
| TokenInfoProgram.CreateInfoAccount | src/lib.rs:180-264 | the imperative part after the fee returns the same result, and stages the same effects, as `CreateAccountOutcome` |
| TokenInfoProgram.ProcessInstruction | src/lib.rs:92-115 | decode, then dispatch, with the same outcome as `InstructionOutcome` |
| TokenInfoProgram.Bank.Execute | src/lib.rs:92-115 | the host around `process_instruction` (the runtime's all-or-nothing commit, which the program relies on but does not contain): the transaction's result is the instruction's, and the accounts change by its staged effects only when it succeeds |
| TokenInfoProperties.TooFewAccounts | src/lib.rs:127-133 | fewer than six accounts: `NotEnoughAccountKeys`, and nothing is staged |
| TokenInfoProperties.ExtraAccountsIgnored | src/lib.rs:127-133 | accounts after the sixth never change the outcome |
| TokenInfoProperties.PayerMustSign | src/lib.rs:136-139 | a payer that has not signed gets `MissingRequiredSignature`, and nothing is staged |
| TokenInfoProperties.AuthorityMustSign | src/lib.rs:141-144 | a signed payer with an authority that has not signed gets `MissingRequiredSignature`, and nothing is staged |
| TokenInfoProperties.AuthorityMustMatch | src/lib.rs:146-152 | an authority other than the fixed `AUTHORITY` key gets `InvalidArgument`, and nothing is staged |
| TokenInfoProperties.FeeReceiverMustMatch | src/lib.rs:154-157 | a fee receiver other than `FEE_RECEIVER` gets `InvalidArgument`, and nothing is staged |
| TokenInfoProperties.FeeNeedsFunds | src/lib.rs:159-168 | a payer holding less than 100 000 000 lamports gets `Custom(2)` (`InsufficientFunds`), and nothing is staged |
| TokenInfoProperties.FeeComesFirst | src/lib.rs:127-178 | something is staged exactly when every check before the fee passes; otherwise the call fails; when something is staged, the first effect is the fee transfer from payer to fee receiver |
| TokenInfoProperties.FeeThenRemainder | src/lib.rs:170-264 | past the early checks, the outcome is the fee followed by the rest of the handler run against the ledger after the fee |
| TokenInfoProperties.InfoAddressMustMatch | src/lib.rs:180-194 | an info account that is not the address derived from `"token_info"` and the mint gets `InvalidArgument`, after only the fee was staged |
| TokenInfoProperties.InfoMustBeEmpty | src/lib.rs:196-199 | an info account that already holds data gets `Custom(1)` (`AccountAlreadyExists`), after only the fee was staged |
| TokenInfoProperties.InfoMustBeSystemOwned | src/lib.rs:201-204 | an info account not owned by the supplied system-program account gets `InvalidAccountData`, after only the fee was staged |
| TokenInfoProperties.LateFailureStagesOnlyFee | src/lib.rs:180-256 | any failure after the fee has staged the fee transfer and nothing else |
| TokenInfoProperties.SuccessStagesExactly | src/lib.rs:170-261 | a success passes the early checks, and stages exactly three effects: the fee; a creation of the info account funded by the payer, with the rent-exempt balance for the record's length, sized to the record and owned by the program; and the write of the record |
| TokenInfoProperties.SucceedsExactlyWhen | src/lib.rs:136-261 | the call succeeds if and only if every check passes in turn, the record is serializable, and the creation is accepted on the ledger the fee left |
| TokenInfoProperties.FeeCreateWrite | src/lib.rs:170-261 | for distinct payer, fee receiver and new account, the three effects move the fee and the rent as stated and change no other account |
| TokenInfoProperties.SuccessLedger | src/lib.rs:170-261 | after a success, with distinct payer, fee receiver and info account: the receiver gains the fee; the payer held and lost the fee plus the rent; the info account holds the rent, belongs to the program and contains the record; every other account is unchanged |
| TokenInfoProperties.DispatchesToHandler | src/lib.rs:97-113 | an encoded `CreateInfo` instruction reaches the handler with its own four fields |
| TokenInfoProperties.DecodeFailureTouchesNothing | src/lib.rs:97-98 | input that does not decode fails with `InvalidInstructionData` and leaves the ledger as it was |
| TokenInfoProperties.LateFailureRollsBack | src/lib.rs:170-204 | a transaction that fails after the fee was staged has staged only the fee, and leaves the ledger as it was |
| TokenInfoProperties.StoredRecord | src/lib.rs:206-261 | after a successful transaction, the info account is program-owned and rent-exempt for its data. The data starts `0xAB 0x01` and reads back as a `V1` record. Its mint is the key's text, both timestamps are the clock's, and its other fields are the instruction's. The length follows the Borsh layout |
| TokenInfoProperties.SecondCreationFails | src/lib.rs:196-199 | repeating a successful creation fails and changes nothing; when the payer can still pay the fee, the error is `Custom(1)` |
| TokenInfoProperties.WriteOnce | src/lib.rs:180-199 | for any instruction data, any other accounts and any clock, an info account at the mint's derived address that already holds data makes the transaction fail and leave the ledger unchanged |

## Left out

- UTF-8 validation: strings are kept as their bytes. Borsh's refusal of a string that is not valid UTF-8 is not modelled.
- Address derivation, the base58 text of a key, the rent schedule and the clock are parameters (`Env`), not computed. Their internals (hashing, the off-curve search, base58, rent arithmetic) are left out.
- Failures reading the clock or rent sysvars (`Clock::get()?`, `Rent::get()?`) are left out. The model always has both values.
- Cross-program invocation: the runtime's checks on privileges, writability, signer seeds and the presence of the system-program account are not modelled. The supplied system-program account is not checked to be the system program. The system program's transfer is modelled as failing only for lack of funds; its refusal of a payer that carries data is not modelled.
- System-program errors are the abstract `SystemError`, not the runtime's numeric codes.
- Lamport balances are unbounded naturals: `u64` overflow of a balance is not modelled. The system program's maximum account size is not modelled either.
- `msg!` logging, the entrypoint macro and `RefCell` borrowing are left out.
- `copy_from_slice` panics when the lengths differ. The model does not panic; instead `CreateInfoAccount` asserts, and the verifier proves, that the new account's data is exactly as long as the record.
- The `label` field of `Link` is named `text`, because `label` is a Dafny keyword.
- `TokenInfoError::InvalidInstruction` and `InvalidLinkData` are never raised. They are kept only for their `Custom` codes 0 and 3.
- `process_create_info` is written as two methods, `ProcessCreateInfo` and `CreateInfoAccount`, split at the fee transfer. Its specification is split the same way, into `CreateInfoOutcome` and `CreateAccountOutcome`.
- SuccessLedger: states the balances only for a payer, fee receiver and info account that are distinct. When two of them coincide, the balances follow from `Ledger.TransferEffect` (a transfer to oneself changes nothing), `Ledger.CreateAccountEffect` (a funder other than the target pays exactly the requested balance, and the created account holds exactly that balance) and `Ledger.EffectFrame`, but they are not stated as one lemma. `StoredRecord` covers the info account without this condition.
- FeeCreateWrite: stated under the same distinctness condition, for the same reason.
