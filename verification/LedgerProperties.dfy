/**
 * What the successful paths of the chaincode do to the world state: balance
 * conservation and solvency of transfers, the index splice of deletion, the
 * append of creation, what each leaves untouched, and an invariant tying the
 * account index to the account records that creation, transfer and deletion
 * preserve.
 */
module LedgerProperties {
  import opened Options
  import opened Numbers
  import opened AccountIndex
  import opened Chaincode

  /** The key holds an account record whose number is the key itself. */
  predicate IsAccountAt(m: Store, key: string)
  {
    key in m && m[key].AccountRecord? && m[key].account.accountNo == key
  }

  /**
   * The index is stored, lists no number twice, lists only keys that hold
   * their own account record, and lists every key that holds an account record.
   */
  ghost predicate Consistent(m: Store)
  {
    && IndexKey in m && m[IndexKey].IndexRecord?
    && NoDuplicates(m[IndexKey].ids)
    && (forall id | id in m[IndexKey].ids :: IsAccountAt(m, id))
    && (forall key | key in m && m[key].AccountRecord? :: key in m[IndexKey].ids)
  }

  // ---------------------------------------------------------------------------
  // Deployment

  /**
   * After `Init` on a state without account records, except under the two
   * keys `Init` overwrites, the index is consistent.
   */
  lemma InitEstablishesConsistency(m: Store, text: string)
    requires forall key | key in m && key != TestKey && key != IndexKey :: !m[key].AccountRecord?
    ensures Consistent(m[TestKey := Raw(text)][IndexKey := IndexRecord([])])
  {
  }

  // ---------------------------------------------------------------------------
  // Account creation

  /**
   * A created account is listed once, after the accounts already listed, and
   * the index stays consistent.
   */
  lemma CreateKeepsConsistency(m: Store, account: Account)
    requires Consistent(m)
    requires account.accountNo != IndexKey && !AccountExists(m, account.accountNo)
    ensures LoadIndex(Created(m, account)) == LoadIndex(m) + [account.accountNo]
    ensures Occurrences(LoadIndex(Created(m, account)), account.accountNo) == 1
    ensures Consistent(Created(m, account))
  {
    var no := account.accountNo;
    var ids := m[IndexKey].ids;
    assert no !in ids;
    AppendFresh(ids, no);
    var c := Created(m, account);
    assert c[IndexKey].ids == ids + [no];
    forall id | id in c[IndexKey].ids ensures IsAccountAt(c, id) {
      if id != no {
        assert id in ids && IsAccountAt(m, id);
      }
    }
  }

  /**
   * Creation appends the number to the index, touches only the account's own
   * key and the index key, and the record it stores is found by the existence
   * test: creating the same account again is refused.
   */
  lemma CreateStoresRecord(m: Store, account: Account)
    requires account.accountNo != IndexKey
    ensures LoadIndex(Created(m, account)) == LoadIndex(m) + [account.accountNo]
    ensures LoadAccount(Created(m, account), account.accountNo) == account
    ensures AccountExists(Created(m, account), account.accountNo)
    ensures forall key | key != account.accountNo && key != IndexKey ::
      Lookup(Created(m, account), key) == Lookup(m, key)
  {
  }

  /**
   * An account numbered with the index key is written over by the index it
   * is appended to, and the index read back holds only that number: every
   * number listed before is dropped.
   */
  lemma CreateAtIndexKey(m: Store, account: Account)
    requires account.accountNo == IndexKey
    ensures LoadIndex(Created(m, account)) == [IndexKey]
    ensures !AccountExists(Created(m, account), IndexKey)
  {
  }

  /**
   * When the index read or the index write of creation fails, the record
   * stays written but unlisted, and the store is no longer consistent. The
   * failed index write is ignored, so this happens on a successful call.
   */
  lemma UnlistedAfterIndexFault(m: Store, account: Account)
    requires Consistent(m) && account.accountNo != IndexKey && !AccountExists(m, account.accountNo)
    ensures var written := m[account.accountNo := AccountRecord(account)];
      account.accountNo !in LoadIndex(written) && !Consistent(written)
  {
    assert !IsAccountAt(m, account.accountNo);
  }

  /** Lower-casing keeps a non-empty entity non-empty, and the record keeps its number and currency. */
  lemma NewAccountFields(args: seq<string>)
    requires CreateArgsValid(args)
    ensures NewAccount(args).accountNo == args[0] && NewAccount(args).currency == args[2]
    ensures |NewAccount(args).legalEntity| == |args[1]| > 0
    ensures ParseDecimal(NewAccount(args).balance) == ParseDecimal(args[3])
  {
    assert args[1] in args;
    var d := ParseDecimal(args[3]).value;
    ParseFormatDecimal(d);
  }

  // ---------------------------------------------------------------------------
  // Transfers

  /** A balance written in its canonical text reads back as the same number. */
  lemma BalanceReadBack(m: Store, key: string, a: Account, d: Decimal)
    ensures StoredBalance(m[key := AccountRecord(a.(balance := FormatDecimal(d)))], key) == Some(d)
  {
    ParseFormatDecimal(d);
  }

  /** A parseable balance means an account record is stored there: the empty record has balance "". */
  lemma BalanceMeansRecord(m: Store, key: string)
    requires StoredBalance(m, key).Some?
    ensures key in m && m[key].AccountRecord? && LoadAccount(m, key) == m[key].account
  {
  }

  /** Between two accounts, the source loses `amount` and the destination gains it. */
  lemma TransferBalances(m: Store, from: string, to: string, amount: Decimal)
    requires from != to
    requires StoredBalance(m, from).Some? && StoredBalance(m, to).Some?
    ensures StoredBalance(Transferred(m, from, to, amount), from)
         == Some(Sub(StoredBalance(m, from).value, amount))
    ensures StoredBalance(Transferred(m, from, to, amount), to)
         == Some(Add(StoredBalance(m, to).value, amount))
  {
    var t := Transferred(m, from, to, amount);
    var m1 := m[from := Debited(m, from, amount)];
    BalanceReadBack(m, from, LoadAccount(m, from), Sub(StoredBalance(m, from).value, amount));
    assert LoadAccount(t, from) == LoadAccount(m1, from);
    BalanceReadBack(m1, to, LoadAccount(m, to), Add(StoredBalance(m, to).value, amount));
  }

  /** The sum of the two balances is the same before and after a transfer between two accounts. */
  lemma TransferConservesBalance(m: Store, from: string, to: string, amount: Decimal)
    requires from != to
    requires StoredBalance(m, from).Some? && StoredBalance(m, to).Some?
    ensures var t := Transferred(m, from, to, amount);
      StoredBalance(t, from).Some? && StoredBalance(t, to).Some?
      && StoredBalance(t, from).value.ToReal() + StoredBalance(t, to).value.ToReal()
         == StoredBalance(m, from).value.ToReal() + StoredBalance(m, to).value.ToReal()
  {
    TransferBalances(m, from, to, amount);
  }

  /** A transfer that passed the solvency check leaves the source balance at zero or above. */
  lemma TransferLeavesSourceSolvent(m: Store, from: string, to: string, amount: Decimal)
    requires from != to
    requires StoredBalance(m, from).Some? && StoredBalance(m, to).Some?
    requires !Sub(StoredBalance(m, from).value, amount).IsNegative()
    ensures var t := Transferred(m, from, to, amount);
      StoredBalance(t, from).Some? && StoredBalance(t, from).value.ToReal() >= 0.0
  {
    TransferBalances(m, from, to, amount);
    IsNegativeIffBelowZero(Sub(StoredBalance(m, from).value, amount));
  }

  /** The solvency check refuses exactly the amounts larger than the source balance. */
  lemma SolvencyCheck(balance: Decimal, amount: Decimal)
    ensures Sub(balance, amount).IsNegative() <==> amount.ToReal() > balance.ToReal()
  {
    IsNegativeIffBelowZero(Sub(balance, amount));
  }

  /**
   * From an account to itself, the credit is written last and wins: the
   * balance ends at the old balance plus `amount`.
   */
  lemma TransferToSelf(m: Store, key: string, amount: Decimal)
    requires StoredBalance(m, key).Some?
    ensures StoredBalance(Transferred(m, key, key, amount), key)
         == Some(Add(StoredBalance(m, key).value, amount))
    ensures StoredBalance(Transferred(m, key, key, amount), key).value.ToReal()
         == StoredBalance(m, key).value.ToReal() + amount.ToReal()
  {
    BalanceReadBack(m[key := Debited(m, key, amount)], key, LoadAccount(m, key),
                    Add(StoredBalance(m, key).value, amount));
  }

  /**
   * The solvency check tests the debit of the source, which a transfer to the
   * same account then overwrites with the credit: a negative amount larger
   * than the balance passes the check and leaves the balance below zero.
   */
  lemma SelfTransferGoesNegative(m: Store, key: string, amount: Decimal)
    requires StoredBalance(m, key).Some? && StoredBalance(m, key).value.ToReal() >= 0.0
    requires amount.ToReal() < -StoredBalance(m, key).value.ToReal()
    ensures !Sub(StoredBalance(m, key).value, amount).IsNegative()
    ensures StoredBalance(Transferred(m, key, key, amount), key).Some?
    ensures StoredBalance(Transferred(m, key, key, amount), key).value.ToReal() < 0.0
  {
    TransferToSelf(m, key, amount);
    IsNegativeIffBelowZero(Sub(StoredBalance(m, key).value, amount));
  }

  /** The solvency check with the amount also required not to be negative. */
  predicate GuardedTransferPasses(balance: Decimal, amount: Decimal)
  {
    !amount.IsNegative() && !Sub(balance, amount).IsNegative()
  }

  /**
   * Under the guarded check, a transfer between accounts whose balances are
   * not negative leaves both not negative, a transfer to the same account
   * included.
   */
  lemma GuardedTransferKeepsBalancesNonNegative(m: Store, from: string, to: string, amount: Decimal)
    requires StoredBalance(m, from).Some? && StoredBalance(m, to).Some?
    requires StoredBalance(m, from).value.ToReal() >= 0.0 && StoredBalance(m, to).value.ToReal() >= 0.0
    requires GuardedTransferPasses(StoredBalance(m, from).value, amount)
    ensures var t := Transferred(m, from, to, amount);
      && StoredBalance(t, from).Some? && StoredBalance(t, from).value.ToReal() >= 0.0
      && StoredBalance(t, to).Some? && StoredBalance(t, to).value.ToReal() >= 0.0
  {
    IsNegativeIffBelowZero(amount);
    IsNegativeIffBelowZero(Sub(StoredBalance(m, from).value, amount));
    if from == to {
      TransferToSelf(m, from, amount);
    } else {
      TransferBalances(m, from, to, amount);
    }
  }

  /**
   * A transfer rewrites only the two records, and only their balances: number,
   * entity and currency stay.
   */
  lemma TransferKeepsIdentity(m: Store, from: string, to: string, amount: Decimal)
    requires StoredBalance(m, from).Some? && StoredBalance(m, to).Some?
    ensures var t := Transferred(m, from, to, amount);
      && (forall key | key != from && key != to :: Lookup(t, key) == Lookup(m, key))
      && t.Keys == m.Keys
      && LoadAccount(t, from).(balance := "") == LoadAccount(m, from).(balance := "")
      && LoadAccount(t, to).(balance := "") == LoadAccount(m, to).(balance := "")
  {
    BalanceMeansRecord(m, from);
    BalanceMeansRecord(m, to);
    var debited, credited := Debited(m, from, amount), Credited(m, to, amount);
    assert debited.account.(balance := "") == LoadAccount(m, from).(balance := "");
    assert credited.account.(balance := "") == LoadAccount(m, to).(balance := "");
    var t := Transferred(m, from, to, amount);
    assert LoadAccount(t, to) == credited.account;
    assert LoadAccount(t, from) == if from == to then credited.account else debited.account;
    TransferTouchesTwoKeys(m, from, to, amount);
  }

  /** A transfer writes the two keys, which are already stored, and no other. */
  lemma TransferTouchesTwoKeys(m: Store, from: string, to: string, amount: Decimal)
    requires StoredBalance(m, from).Some? && StoredBalance(m, to).Some?
    ensures var t := Transferred(m, from, to, amount);
      && (forall key | key != from && key != to :: Lookup(t, key) == Lookup(m, key))
      && t.Keys == m.Keys
  {
    BalanceMeansRecord(m, from);
    BalanceMeansRecord(m, to);
  }

  /** Transfers keep the index consistent with the account records. */
  lemma TransferKeepsConsistency(m: Store, from: string, to: string, amount: Decimal)
    requires Consistent(m)
    requires StoredBalance(m, from).Some? && StoredBalance(m, to).Some?
    ensures Consistent(Transferred(m, from, to, amount))
  {
    BalanceMeansRecord(m, from);
    BalanceMeansRecord(m, to);
    var t := Transferred(m, from, to, amount);
    assert IsAccountAt(m, from) && IsAccountAt(m, to);
    assert t[IndexKey] == m[IndexKey];
    forall id | id in t[IndexKey].ids ensures IsAccountAt(t, id) {
      assert IsAccountAt(m, id);
    }
  }

  /**
   * When the destination write fails, the source stays debited: the sum of
   * the two balances drops by `amount`.
   */
  lemma FailedCreditLosesAmount(m: Store, from: string, to: string, amount: Decimal)
    requires from != to
    requires StoredBalance(m, from).Some? && StoredBalance(m, to).Some?
    ensures var p := m[from := Debited(m, from, amount)];
      StoredBalance(p, from).Some? && StoredBalance(p, to) == StoredBalance(m, to)
      && StoredBalance(p, from).value.ToReal() + StoredBalance(p, to).value.ToReal()
         == StoredBalance(m, from).value.ToReal() + StoredBalance(m, to).value.ToReal() - amount.ToReal()
  {
    BalanceReadBack(m, from, LoadAccount(m, from), Sub(StoredBalance(m, from).value, amount));
  }

  // ---------------------------------------------------------------------------
  // Deletion

  /**
   * Deleting a key other than the index key removes it, removes the first
   * occurrence of it from the index, keeping the order of the rest, and
   * touches nothing else.
   */
  lemma DeleteEffect(m: Store, name: string)
    requires name != IndexKey
    ensures name !in Deleted(m, name)
    ensures LoadIndex(Deleted(m, name)) == RemoveFirst(LoadIndex(m), name)
    ensures name !in LoadIndex(m) ==> LoadIndex(Deleted(m, name)) == LoadIndex(m)
    ensures forall key | key != name && key != IndexKey :: Lookup(Deleted(m, name), key) == Lookup(m, key)
  {
    var removed := m - {name};
    assert Lookup(removed, IndexKey) == Lookup(m, IndexKey);
    assert LoadIndex(removed) == LoadIndex(m);
    var d := Deleted(m, name);
    assert d == removed[IndexKey := IndexRecord(RemoveFirst(LoadIndex(m), name))];
    assert Lookup(d, IndexKey) == Some(IndexRecord(RemoveFirst(LoadIndex(m), name)));
  }

  /** Deleting an account keeps the index consistent and leaves the number out of it. */
  lemma DeleteKeepsConsistency(m: Store, name: string)
    requires Consistent(m) && name != IndexKey
    ensures name !in LoadIndex(Deleted(m, name))
    ensures Consistent(Deleted(m, name))
  {
    var d := Deleted(m, name);
    DeleteEffect(m, name);
    RemoveFirstUnique(m[IndexKey].ids, name);
    DeletedListsAccounts(m, name);
    DeletedListsEveryAccount(m, name);
    assert IndexKey in d && d[IndexKey].IndexRecord?;
  }

  lemma DeletedListsAccounts(m: Store, name: string)
    requires Consistent(m) && name != IndexKey
    ensures forall id | id in Deleted(m, name)[IndexKey].ids :: IsAccountAt(Deleted(m, name), id)
  {
    var ids := m[IndexKey].ids;
    var d := Deleted(m, name);
    assert Lookup(m - {name}, IndexKey) == Lookup(m, IndexKey);
    assert d[IndexKey].ids == RemoveFirst(ids, name);
    forall id | id in d[IndexKey].ids ensures IsAccountAt(d, id) {
      RemoveFirstMembers(ids, name, id);
      RemoveFirstUnique(ids, name);
      assert id in ids && id != name;
      assert IsAccountAt(m, id);
    }
  }

  lemma DeletedListsEveryAccount(m: Store, name: string)
    requires Consistent(m) && name != IndexKey
    ensures forall key | key in Deleted(m, name) && Deleted(m, name)[key].AccountRecord? ::
      key in Deleted(m, name)[IndexKey].ids
  {
    var ids := m[IndexKey].ids;
    var d := Deleted(m, name);
    DeleteEffect(m, name);
    forall key | key in d && d[key].AccountRecord? ensures key in d[IndexKey].ids {
      assert Lookup(d, key) == Lookup(m, key);
      RemoveFirstMembers(ids, name, key);
    }
  }

  /** Deleting the index key itself leaves an empty index behind. */
  lemma DeleteIndexKey(m: Store)
    ensures LoadIndex(Deleted(m, IndexKey)) == []
  {
  }

  /**
   * When the index read or the index write of deletion fails, the account is
   * gone but its number stays listed, and the store is no longer consistent.
   * The failed index write is ignored, so this happens on a successful call.
   */
  lemma ListedAfterIndexFault(m: Store, name: string)
    requires Consistent(m) && name != IndexKey && IsAccountAt(m, name)
    ensures name in LoadIndex(m - {name}) && !Consistent(m - {name})
  {
    assert name in m[IndexKey].ids;
  }

  /**
   * Raw text written over a listed account makes creation take the number
   * again and list it twice; deletion then removes only the first listing,
   * so the number stays listed.
   */
  lemma {:induction false} DuplicateSurvivesDelete(m: Store, a: Account, text: string)
    requires Consistent(m) && IsAccountAt(m, a.accountNo) && a.accountNo != ""
    ensures var c := Created(m[a.accountNo := Raw(text)], a);
      && !AccountExists(m[a.accountNo := Raw(text)], a.accountNo)
      && Occurrences(LoadIndex(c), a.accountNo) == 2
      && a.accountNo in LoadIndex(Deleted(c, a.accountNo))
  {
    var n := a.accountNo;
    var ids := m[IndexKey].ids;
    assert n in ids && n != IndexKey;
    NoDuplicatesAtMostOnce(ids, n);
    assert multiset(ids)[n] == 1;
    var w := m[n := Raw(text)];
    assert LoadIndex(w[n := AccountRecord(a)]) == ids;
    var c := Created(w, a);
    assert LoadIndex(c) == ids + [n];
    assert multiset(ids + [n]) == multiset(ids) + multiset{n};
    assert LoadIndex(c - {n}) == ids + [n];
    var rest := RemoveFirst(ids + [n], n);
    assert multiset(rest)[n] == 1;
    assert LoadIndex(Deleted(c, n)) == rest;
  }
}
