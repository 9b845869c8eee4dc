/**
 * The account chaincode over its key-value world state.
 *
 * The world state is a map from keys to stored values. Each entry point of the
 * chaincode is a method of `Ledger` that reads and writes that map one key at
 * a time, through the three store calls `GetState`, `PutState` and `DelState`,
 * exactly in the order the chaincode makes them. Any store call can fail: the
 * `faults` argument of an entry point lists the positions (0 for its first
 * store call, 1 for the second, ...) of the calls that fail during it. This is
 * what shows the partial effect of the two-write sequences, which have no
 * rollback.
 */
module Chaincode {
  import opened Options
  import opened Numbers
  import opened Text
  import opened AccountIndex

  /** An account record, with the four fields of the stored record. */
  datatype Account = Account(accountNo: string, legalEntity: string, currency: string, balance: string)

  /** What decoding gives when the stored value is absent or is not an account record. */
  const ZeroAccount := Account("", "", "", "")

  /**
   * A stored value: text written as is, an account record, or the account
   * index (a list of account numbers).
   */
  datatype Value =
    | Raw(text: string)
    | AccountRecord(account: Account)
    | IndexRecord(ids: seq<string>)

  /** The reserved key of the account index. */
  const IndexKey := "_accountindex"

  /** The key `Init` writes its integer argument to. */
  const TestKey := "test_key"

  type Store = map<string, Value>

  datatype Error =
    | WrongArgumentCount
    | EmptyArgument(position: nat)
    | NotAnInteger
    | NotANumber
    | BalanceNotANumber
    | AccountAlreadyExists
    | InsufficientBalance(accountNo: string)
    | ReadFailed
    | WriteFailed
    | DeleteFailed

  /** An entry point's answer: the bytes it returns (only `Read` returns any) or its error. */
  datatype Response = Ok(payload: Option<Value>) | Err(error: Error)

  // ---------------------------------------------------------------------------
  // Reading the world state

  function Lookup(m: Store, key: string): Option<Value>
  {
    if key in m then Some(m[key]) else None
  }

  /** Decoding into an empty account record: anything but an account record leaves it empty. */
  function DecodeAccount(v: Option<Value>): (a: Account)
    ensures v.Some? && v.value.AccountRecord? ==> a == v.value.account
  {
    if v.Some? && v.value.AccountRecord? then v.value.account else ZeroAccount
  }

  /** Decoding the index: anything but an index record gives the empty list. */
  function DecodeIndex(v: Option<Value>): (ids: seq<string>)
    ensures v.Some? && v.value.IndexRecord? ==> ids == v.value.ids
  {
    if v.Some? && v.value.IndexRecord? then v.value.ids else []
  }

  function LoadAccount(m: Store, key: string): Account
  {
    DecodeAccount(Lookup(m, key))
  }

  function LoadIndex(m: Store): seq<string>
  {
    DecodeIndex(Lookup(m, IndexKey))
  }

  /** The balance of the account record under `key`, when it parses as a number. */
  function StoredBalance(m: Store, key: string): Option<Decimal>
  {
    ParseDecimal(LoadAccount(m, key).balance)
  }

  /** The existence test of account creation: the record under `accountNo` decodes with that number. */
  predicate AccountExists(m: Store, accountNo: string)
  {
    LoadAccount(m, accountNo).accountNo == accountNo
  }

  /**
   * Decoding errors are ignored: a key holding no account record counts as
   * holding no account, with no balance that parses, and an index key holding
   * no index record counts as an empty index.
   */
  lemma UndecodedIsEmpty(m: Store, key: string)
    ensures key != "" && (key !in m || !m[key].AccountRecord?) ==>
      !AccountExists(m, key) && StoredBalance(m, key) == None
    ensures IndexKey !in m || !m[IndexKey].IndexRecord? ==> LoadIndex(m) == []
  {
  }

  // ---------------------------------------------------------------------------
  // The state changes of the successful paths

  /** Four non-empty arguments, the last a number. */
  predicate CreateArgsValid(args: seq<string>)
  {
    |args| == 4 && "" !in args && ParseDecimal(args[3]).Some?
  }

  /** The record account creation stores: the entity lower-cased, the balance re-printed. */
  function NewAccount(args: seq<string>): Account
    requires CreateArgsValid(args)
  {
    Account(args[0], ToLower(args[1]), args[2], FormatDecimal(ParseDecimal(args[3]).value))
  }

  /**
   * The account record written under its number, then the index read back
   * (after that write) with the number appended.
   */
  function Created(m: Store, account: Account): Store
  {
    var written := m[account.accountNo := AccountRecord(account)];
    written[IndexKey := IndexRecord(LoadIndex(written) + [account.accountNo])]
  }

  /** The source record with its balance lowered by `amount`. */
  function Debited(m: Store, from: string, amount: Decimal): Value
    requires StoredBalance(m, from).Some?
  {
    var a := LoadAccount(m, from);
    AccountRecord(a.(balance := FormatDecimal(Sub(StoredBalance(m, from).value, amount))))
  }

  /** The destination record, as read before any write, with its balance raised by `amount`. */
  function Credited(m: Store, to: string, amount: Decimal): Value
    requires StoredBalance(m, to).Some?
  {
    var b := LoadAccount(m, to);
    AccountRecord(b.(balance := FormatDecimal(Add(StoredBalance(m, to).value, amount))))
  }

  /** Source written first, destination second: with `from == to` the second write wins. */
  function Transferred(m: Store, from: string, to: string, amount: Decimal): Store
    requires StoredBalance(m, from).Some? && StoredBalance(m, to).Some?
  {
    m[from := Debited(m, from, amount)][to := Credited(m, to, amount)]
  }

  /** The key removed, then the index read back (after the removal) without the first `name`. */
  function Deleted(m: Store, name: string): Store
  {
    var removed := m - {name};
    removed[IndexKey := IndexRecord(RemoveFirst(LoadIndex(removed), name))]
  }

  // ---------------------------------------------------------------------------
  // The chaincode

  class Ledger {
    /** The world state. */
    var store: Store

    constructor ()
      ensures store == map[]
    {
      store := map[];
    }

    // The three store calls; `fail` says whether this call fails.

    method GetState(key: string, fail: bool) returns (r: Response)
      ensures r == if fail then Err(ReadFailed) else Ok(Lookup(store, key))
    {
      if fail {
        return Err(ReadFailed);
      }
      r := Ok(Lookup(store, key));
    }

    method PutState(key: string, v: Value, fail: bool) returns (r: Response)
      modifies this
      ensures r == if fail then Err(WriteFailed) else Ok(None)
      ensures store == if fail then old(store) else old(store)[key := v]
    {
      if fail {
        return Err(WriteFailed);
      }
      store := store[key := v];
      r := Ok(None);
    }

    method DelState(key: string, fail: bool) returns (r: Response)
      modifies this
      ensures r == if fail then Err(DeleteFailed) else Ok(None)
      ensures store == if fail then old(store) else old(store) - {key}
    {
      if fail {
        return Err(DeleteFailed);
      }
      store := store - {key};
      r := Ok(None);
    }

    /**
     * Deployment: parses one integer, writes it back in canonical form under
     * `TestKey`, then resets the index to the empty list. Store calls: 0 the
     * test-key write, 1 the index write.
     */
    method Init(args: seq<string>, faults: set<nat>) returns (r: Response)
      modifies this
      ensures |args| != 1 ==> r == Err(WrongArgumentCount) && store == old(store)
      ensures |args| == 1 && Atoi(args[0]).None? ==> r == Err(NotAnInteger) && store == old(store)
      ensures |args| == 1 && Atoi(args[0]).Some? ==>
        var written := old(store)[TestKey := Raw(Itoa(Atoi(args[0]).value))];
        if 0 in faults then r == Err(WriteFailed) && store == old(store)
        else if 1 in faults then r == Err(WriteFailed) && store == written
        else r == Ok(None) && store == written[IndexKey := IndexRecord([])]
    {
      if |args| != 1 {
        return Err(WrongArgumentCount);
      }
      var value := Atoi(args[0]);
      if value.None? {
        return Err(NotAnInteger);
      }
      r := PutState(TestKey, Raw(Itoa(value.value)), 0 in faults);
      if r.Err? {
        return;
      }
      r := PutState(IndexKey, IndexRecord([]), 1 in faults);
      if r.Err? {
        return;
      }
      r := Ok(None);
    }

    /**
     * Returns what is stored under one key; an absent key is not an error.
     * Store call: 0 the read.
     */
    method Read(args: seq<string>, faults: set<nat>) returns (r: Response)
      ensures |args| != 1 ==> r == Err(WrongArgumentCount)
      ensures |args| == 1 && 0 in faults ==> r == Err(ReadFailed)
      ensures |args| == 1 && 0 !in faults ==>
        r.Ok? && (args[0] in store <==> r.payload.Some?)
        && (r.payload.Some? ==> store[args[0]] == r.payload.value)
    {
      if |args| != 1 {
        return Err(WrongArgumentCount);
      }
      r := GetState(args[0], 0 in faults);
    }

    /** Stores text under a key as is. Store call: 0 the write. */
    method Write(args: seq<string>, faults: set<nat>) returns (r: Response)
      modifies this
      ensures |args| != 2 ==> r == Err(WrongArgumentCount) && store == old(store)
      ensures |args| == 2 && 0 in faults ==> r == Err(WriteFailed) && store == old(store)
      ensures |args| == 2 && 0 !in faults ==>
        r == Ok(None) && store == old(store)[args[0] := Raw(args[1])]
    {
      if |args| != 2 {
        return Err(WrongArgumentCount);
      }
      r := PutState(args[0], Raw(args[1]), 0 in faults);
    }

    /**
     * Removes a key, then removes the first occurrence of that key from the
     * index. A failed index write is ignored. Store calls: 0 the removal,
     * 1 the index read, 2 the index write.
     */
    method Delete(args: seq<string>, faults: set<nat>) returns (r: Response)
      modifies this
      ensures |args| != 1 ==> r == Err(WrongArgumentCount) && store == old(store)
      ensures |args| == 1 ==>
        var name := args[0];
        if 0 in faults then r == Err(DeleteFailed) && store == old(store)
        else if 1 in faults then r == Err(ReadFailed) && store == old(store) - {name}
        else if 2 in faults then r == Ok(None) && store == old(store) - {name}
        else r == Ok(None) && store == Deleted(old(store), name)
    {
      if |args| != 1 {
        return Err(WrongArgumentCount);
      }
      var name := args[0];
      r := DelState(name, 0 in faults);
      if r.Err? {
        return;
      }
      var got := GetState(IndexKey, 1 in faults);
      if got.Err? {
        return got;
      }
      var ids := DecodeIndex(got.payload);
      var i := FirstIndexOf(ids, name);
      if i < |ids| {
        RemoveFirstIsSplice(ids, name, i);
        ids := ids[..i] + ids[i + 1..];
      } else {
        assert ids[..i] == ids;
      }
      var ignored := PutState(IndexKey, IndexRecord(ids), 2 in faults);
      r := Ok(None);
    }

    /**
     * Creates an account: checks the four arguments, refuses an account number
     * whose stored record already decodes with that number, writes the record,
     * then appends the number to the index. A failed index write is ignored.
     * Store calls: 0 the existence read, 1 the record write, 2 the index read,
     * 3 the index write.
     */
    method InitAccount(args: seq<string>, faults: set<nat>) returns (r: Response)
      modifies this
      ensures |args| != 4 ==> r == Err(WrongArgumentCount) && store == old(store)
      ensures |args| == 4 && "" in args ==>
        r.Err? && r.error.EmptyArgument? && r.error.position < 4
        && args[r.error.position] == "" && "" !in args[..r.error.position]
        && store == old(store)
      ensures |args| == 4 && "" !in args && ParseDecimal(args[3]).None? ==>
        r == Err(NotANumber) && store == old(store)
      ensures CreateArgsValid(args) ==>
        var account := NewAccount(args);
        var written := old(store)[args[0] := AccountRecord(account)];
        if 0 in faults then r == Err(ReadFailed) && store == old(store)
        else if AccountExists(old(store), args[0]) then r == Err(AccountAlreadyExists) && store == old(store)
        else if 1 in faults then r == Err(WriteFailed) && store == old(store)
        else if 2 in faults then r == Err(ReadFailed) && store == written
        else r == Ok(None) && store == (if 3 in faults then written else Created(old(store), account))
    {
      if |args| != 4 {
        return Err(WrongArgumentCount);
      }
      if |args[0]| <= 0 {
        return Err(EmptyArgument(0));
      }
      if |args[1]| <= 0 {
        return Err(EmptyArgument(1));
      }
      if |args[2]| <= 0 {
        return Err(EmptyArgument(2));
      }
      if |args[3]| <= 0 {
        return Err(EmptyArgument(3));
      }
      var accountNo := args[0];
      var legalEntity := ToLower(args[1]);
      var currency := args[2];
      var amount := ParseDecimal(args[3]);
      if amount.None? {
        return Err(NotANumber);
      }
      var got := GetState(accountNo, 0 in faults);
      if got.Err? {
        return got;
      }
      var existing := DecodeAccount(got.payload);
      if existing.accountNo == accountNo {
        return Err(AccountAlreadyExists);
      }
      var account := Account(accountNo, legalEntity, currency, FormatDecimal(amount.value));
      r := PutState(accountNo, AccountRecord(account), 1 in faults);
      if r.Err? {
        return;
      }
      var gotIndex := GetState(IndexKey, 2 in faults);
      if gotIndex.Err? {
        return gotIndex;
      }
      var ids := DecodeIndex(gotIndex.payload);
      ids := ids + [accountNo];
      var ignored := PutState(IndexKey, IndexRecord(ids), 3 in faults);
      r := Ok(None);
    }

    /**
     * Moves `amount` from the first account to the second: reads and decodes
     * both records, parses both balances, refuses when the source would go
     * below zero, then writes the source and then the destination. Store
     * calls: 0 the source read, 1 the destination read, 2 the source write,
     * 3 the destination write.
     */
    method TransferBalance(args: seq<string>, faults: set<nat>) returns (r: Response)
      modifies this
      ensures |args| < 3 ==> r == Err(WrongArgumentCount) && store == old(store)
      ensures |args| >= 3 && ParseDecimal(args[2]).None? ==> r == Err(NotANumber) && store == old(store)
      ensures |args| >= 3 && ParseDecimal(args[2]).Some? ==>
        var from, to, amount := args[0], args[1], ParseDecimal(args[2]).value;
        if 0 in faults || 1 in faults then
          r == Err(ReadFailed) && store == old(store)
        else if StoredBalance(old(store), from).None? || StoredBalance(old(store), to).None? then
          r == Err(BalanceNotANumber) && store == old(store)
        else if Sub(StoredBalance(old(store), from).value, amount).IsNegative() then
          r == Err(InsufficientBalance(from)) && store == old(store)
        else if 2 in faults then
          r == Err(WriteFailed) && store == old(store)
        else if 3 in faults then
          r == Err(WriteFailed) && store == old(store)[from := Debited(old(store), from, amount)]
        else
          r == Ok(None) && store == Transferred(old(store), from, to, amount)
    {
      if |args| < 3 {
        return Err(WrongArgumentCount);
      }
      var amount := ParseDecimal(args[2]);
      if amount.None? {
        return Err(NotANumber);
      }
      var gotA := GetState(args[0], 0 in faults);
      if gotA.Err? {
        return gotA;
      }
      var resA := DecodeAccount(gotA.payload);
      var gotB := GetState(args[1], 1 in faults);
      if gotB.Err? {
        return gotB;
      }
      var resB := DecodeAccount(gotB.payload);
      var balanceA := ParseDecimal(resA.balance);
      if balanceA.None? {
        return Err(BalanceNotANumber);
      }
      var balanceB := ParseDecimal(resB.balance);
      if balanceB.None? {
        return Err(BalanceNotANumber);
      }
      if Sub(balanceA.value, amount.value).IsNegative() {
        return Err(InsufficientBalance(args[0]));
      }
      var newAmountA := Sub(balanceA.value, amount.value);
      var newAmountB := Add(balanceB.value, amount.value);
      resA := resA.(balance := FormatDecimal(newAmountA));
      resB := resB.(balance := FormatDecimal(newAmountB));
      r := PutState(args[0], AccountRecord(resA), 2 in faults);
      if r.Err? {
        return;
      }
      r := PutState(args[1], AccountRecord(resB), 3 in faults);
      if r.Err? {
        return;
      }
      r := Ok(None);
    }
  }
}
