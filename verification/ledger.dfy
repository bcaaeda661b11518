/**
 * The host ledger as this program sees it: accounts addressed by public
 * key, each with a lamport balance, an owning program and a data buffer,
 * and the two system-program primitives the program invokes (transfer and
 * create-account) plus its own write into the data of an account it owns.
 *
 * An effect is a request on the ledger; applying it either yields the new
 * ledger or the error the primitive reports.
 */
module Ledger {
  import opened Wrappers
  import opened Borsh

  type Pubkey = k: seq<byte> | |k| == 32
    witness [0, 0, 0, 0, 0, 0, 0, 0, 0, 0, 0, 0, 0, 0, 0, 0,
             0, 0, 0, 0, 0, 0, 0, 0, 0, 0, 0, 0, 0, 0, 0, 0]

  /** The system program's address, thirty-two zero bytes. */
  const SYSTEM_PROGRAM_ID: Pubkey :=
    [0, 0, 0, 0, 0, 0, 0, 0, 0, 0, 0, 0, 0, 0, 0, 0,
     0, 0, 0, 0, 0, 0, 0, 0, 0, 0, 0, 0, 0, 0, 0, 0]

  datatype Account = Account(lamports: nat, owner: Pubkey, data: seq<byte>)

  type Accounts = map<Pubkey, Account>

  /** An address that holds nothing reads as empty, unfunded and system-owned. */
  const EMPTY_ACCOUNT: Account := Account(0, SYSTEM_PROGRAM_ID, [])

  function Get(m: Accounts, k: Pubkey): Account
  {
    if k in m then m[k] else EMPTY_ACCOUNT
  }

  function Zeros(n: nat): (z: seq<byte>)
    ensures |z| == n && forall i :: 0 <= i < n ==> z[i] == 0
  {
    seq(n, _ => 0)
  }

  /** The system program's failures that can reach this program. */
  datatype SystemError =
    | AccountAlreadyInUse         // create-account target is funded, holds data or is not system-owned
    | ResultWithNegativeLamports  // the funding account holds fewer lamports than requested

  datatype Effect =
    | Transfer(from: Pubkey, to: Pubkey, lamports: nat)
    | CreateAccount(funder: Pubkey, target: Pubkey, lamports: nat, space: nat, owner: Pubkey)
    | WriteData(target: Pubkey, data: seq<byte>)

  /** The accounts an effect may change. */
  function Touched(e: Effect): set<Pubkey>
  {
    match e
    case Transfer(from, to, _) => {from, to}
    case CreateAccount(funder, target, _, _, _) => {funder, target}
    case WriteData(target, _) => {target}
  }

  /** What the system program accepts as a create-account target. */
  predicate Unused(a: Account)
  {
    a.lamports == 0 && a.data == [] && a.owner == SYSTEM_PROGRAM_ID
  }

  function Debit(m: Accounts, k: Pubkey, n: nat): Accounts
    requires Get(m, k).lamports >= n
  {
    m[k := Get(m, k).(lamports := Get(m, k).lamports - n)]
  }

  function Credit(m: Accounts, k: Pubkey, n: nat): Accounts
  {
    m[k := Get(m, k).(lamports := Get(m, k).lamports + n)]
  }

  /**
   * One effect. A transfer moves lamports if the payer has them; a
   * create-account needs an unused target (no lamports, no data, owned by
   * the system program) and a funder that can pay the target's balance,
   * and leaves the target with that balance, the new owner and `space`
   * zero bytes; a write replaces the target's data.
   */
  function ApplyEffect(m: Accounts, e: Effect): Result<Accounts, SystemError>
  {
    match e
    case Transfer(from, to, n) =>
      if Get(m, from).lamports < n then Err(ResultWithNegativeLamports)
      else Ok(Credit(Debit(m, from, n), to, n))
    case CreateAccount(funder, target, n, space, owner) =>
      if !Unused(Get(m, target)) then Err(AccountAlreadyInUse)
      else if Get(m, funder).lamports < n then Err(ResultWithNegativeLamports)
      else Ok(Debit(m, funder, n)[target := Account(n, owner, Zeros(space))])
    case WriteData(target, data) =>
      Ok(m[target := Get(m, target).(data := data)])
  }

  /** An effect changes no account outside the ones it touches. */
  lemma EffectFrame(m: Accounts, e: Effect, k: Pubkey)
    requires ApplyEffect(m, e).Ok?
    requires k !in Touched(e)
    ensures Get(ApplyEffect(m, e).value, k) == Get(m, k)
  {
  }

  /**
   * A transfer succeeds exactly when the payer holds the amount; it then
   * moves the amount from payer to payee and changes nothing else about them.
   * A transfer to oneself leaves the account as it was.
   */
  lemma TransferEffect(m: Accounts, from: Pubkey, to: Pubkey, n: nat)
    ensures var r := ApplyEffect(m, Transfer(from, to, n));
      (r.Ok? <==> Get(m, from).lamports >= n)
      && (r.Err? ==> r.error == ResultWithNegativeLamports)
      && (r.Ok? && from != to ==>
            Get(r.value, from) == Get(m, from).(lamports := Get(m, from).lamports - n)
            && Get(r.value, to) == Get(m, to).(lamports := Get(m, to).lamports + n))
      && (r.Ok? && from == to ==> Get(r.value, from) == Get(m, from))
  {
  }

  /** A transfer changes balances only: every account keeps its data and its owner. */
  lemma TransferKeepsDataAndOwner(m: Accounts, from: Pubkey, to: Pubkey, n: nat, k: Pubkey)
    requires Get(m, from).lamports >= n
    ensures var a := Get(ApplyEffect(m, Transfer(from, to, n)).value, k);
      a.data == Get(m, k).data && a.owner == Get(m, k).owner
  {
  }

  /**
   * A create-account succeeds exactly when the target is unused and the
   * funder can pay; a target in use is reported as such. On success the
   * target holds the balance, the new owner and `space` zero bytes, and the
   * funder has paid.
   */
  lemma CreateAccountEffect(m: Accounts, funder: Pubkey, target: Pubkey, n: nat, space: nat, owner: Pubkey)
    ensures var r := ApplyEffect(m, CreateAccount(funder, target, n, space, owner));
      (r.Ok? <==> Unused(Get(m, target)) && Get(m, funder).lamports >= n)
      && (!Unused(Get(m, target)) ==> r == Err(AccountAlreadyInUse))
      && (r.Ok? ==> Get(r.value, target) == Account(n, owner, Zeros(space)))
      && (r.Ok? && funder != target ==>
            Get(r.value, funder) == Get(m, funder).(lamports := Get(m, funder).lamports - n))
  {
  }

  /** A write always succeeds and replaces the target's data, keeping its balance and owner. */
  lemma WriteDataEffect(m: Accounts, target: Pubkey, data: seq<byte>)
    ensures var r := ApplyEffect(m, WriteData(target, data));
      r.Ok? && Get(r.value, target) == Get(m, target).(data := data)
  {
  }

  /** Effects in order; the first failure stops the sequence. */
  function ApplyAll(m: Accounts, es: seq<Effect>): Result<Accounts, SystemError>
    decreases |es|
  {
    if es == [] then Ok(m)
    else
      match ApplyEffect(m, es[0])
      case Err(e) => Err(e)
      case Ok(m1) => ApplyAll(m1, es[1..])
  }

  /** A first effect that succeeds hands its ledger on to the rest. */
  lemma ApplyAllCons(m: Accounts, e: Effect, es: seq<Effect>)
    requires ApplyEffect(m, e).Ok?
    ensures ApplyAll(m, [e] + es) == ApplyAll(ApplyEffect(m, e).value, es)
  {
    assert ([e] + es)[0] == e && ([e] + es)[1..] == es;
  }

  /** Staging one more effect applies it to the ledger the earlier ones left. */
  lemma {:induction false} ApplyAllAppend(m: Accounts, es: seq<Effect>, e: Effect)
    requires ApplyAll(m, es).Ok?
    ensures ApplyAll(m, es + [e]) == ApplyEffect(ApplyAll(m, es).value, e)
    decreases |es|
  {
    if es == [] {
      assert [] + [e] == [e];
      assert [e][1..] == [];
    } else {
      var m1 := ApplyEffect(m, es[0]).value;
      assert (es + [e])[0] == es[0] && (es + [e])[1..] == es[1..] + [e];
      ApplyAllAppend(m1, es[1..], e);
    }
  }

  /** Applying a sequence of effects leaves every account none of them touches as it was. */
  lemma {:induction false} ApplyAllFrame(m: Accounts, es: seq<Effect>, k: Pubkey)
    requires ApplyAll(m, es).Ok?
    requires forall i :: 0 <= i < |es| ==> k !in Touched(es[i])
    ensures Get(ApplyAll(m, es).value, k) == Get(m, k)
    decreases |es|
  {
    if es != [] {
      var m1 := ApplyEffect(m, es[0]).value;
      assert forall i :: 0 <= i < |es[1..]| ==> es[1..][i] == es[i + 1];
      EffectFrame(m, es[0], k);
      ApplyAllFrame(m1, es[1..], k);
    }
  }

  /**
   * Creating an account and then writing its data leaves it with exactly the
   * balance, owner and data asked for, whoever funded it.
   */
  lemma CreateThenWrite(m: Accounts, funder: Pubkey, target: Pubkey, n: nat, owner: Pubkey, data: seq<byte>)
    requires ApplyEffect(m, CreateAccount(funder, target, n, |data|, owner)).Ok?
    ensures var r := ApplyAll(m, [CreateAccount(funder, target, n, |data|, owner), WriteData(target, data)]);
      r.Ok? && Get(r.value, target) == Account(n, owner, data)
  {
    var create, write := CreateAccount(funder, target, n, |data|, owner), WriteData(target, data);
    CreateAccountEffect(m, funder, target, n, |data|, owner);
    var m1 := ApplyEffect(m, create).value;
    ApplyAllCons(m, create, [write]);
    WriteDataEffect(m1, target, data);
    ApplyAllCons(m1, write, []);
  }
}
