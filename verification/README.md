# Account chaincode, modelled in Dafny

A model of the account chaincode in `chaincode/account1.go`. The chaincode keeps bank-style accounts in a key-value world state and offers six operations:
- deployment (`Init`);
- reading a key (`read`);
- writing a key (`Write`);
- deleting a key (`Delete`);
- creating an account (`init_account`);
- moving an amount between two accounts (`transfer_balance`).

Each account record has four text fields: number, legal entity, currency and balance. The numbers of all created accounts are listed in an index stored under the reserved key `_accountindex`.

The files:

- `Chaincode.dfy` holds the world state and the operations.
  - The world state is the `store` field (a `map<string, Value>`) of the class `Ledger`. A stored `Value` is raw text, an account record or an index record.
  - Each operation is a method of `Ledger`. It reads and writes the store through the three store calls (`GetState`, `PutState`, `DelState`), in the order the chaincode makes them, and returns `Ok` or `Err`.
  - Every operation takes a set `faults`: the positions of the store calls that fail during it. This makes the partial effect of the two-write sequences visible, because they have no rollback:
    - the account record is written, then the index;
    - the source balance is written, then the destination balance.
  - Each method's `ensures` gives the response and the new store for every outcome. On the successful paths the new store is stated through the functions `Created`, `Transferred` and `Deleted`.
- `LedgerProperties.dfy` proves what those successful paths do:
  - a transfer between two distinct accounts conserves the sum of the two balances and leaves the source solvent. A transfer to the same account does not, because its credit overwrites the checked debit (see "Findings");
  - a transfer touches only the two balances;
  - creation appends the number to the index exactly once;
  - deletion removes the first occurrence from the index and keeps the rest in order;
  - the invariant `Consistent` holds: the index lists, without duplicates, exactly the keys that hold their own account record. Creation, transfer and deletion of a key other than the index key preserve it when no store call fails. When the index read or the index write of creation or deletion fails, the store is left inconsistent. A failed index write is even ignored, so the call still succeeds (`UnlistedAfterIndexFault`, `ListedAfterIndexFault`).
- `Numbers.dfy` models the number conversions.
  - Amounts are exact decimals: a mantissa and a number of fraction digits.
  - `ParseDecimal` and `FormatDecimal` stand for `strconv.ParseFloat` and `strconv.FormatFloat`, and a balance that is written reads back unchanged.
  - `Atoi` and `Itoa` are the 64-bit integer conversions used by `Init`.
- `Text.dfy` is the lower-casing applied to the legal entity.
- `AccountIndex.dfy` holds the index list operations: the scan for the first occurrence and the splice that removes it.
- `Scenarios.dfy` holds concrete runs, proved from the methods' contracts:
  - a transfer, then a refused overdraft;
  - creating the same account twice;
  - creating an account and then deleting it;
  - refusal of an empty argument.

Behaviour of the code that the model reproduces on purpose:

- **Reserved key.** An account numbered `_accountindex` is written over by the index that creation appends to (`CreateAtIndexKey`). Deleting `_accountindex` leaves an empty index behind (`DeleteIndexKey`).
- **Transfer to the same account.** Both records are read before either is written, so the credit is written last and wins. The balance ends at the old balance plus the amount (`TransferToSelf`).
- **Undecodable records.** A record that does not decode is treated as the empty account record. So a key holding raw text counts as "no account" at creation, and a transfer involving it fails because the empty balance `""` is not a number.
- **Ignored index write.** The index write at the end of `Delete` and `init_account` has its error ignored, and the operation still succeeds.

Where the code differs from the stated intent of the system, the model follows the code:

- **No duplicate check on append.** Creation appends to the index without checking whether the number is already listed. Only the record under the key is checked. So raw text written over a listed account lets it be created again and listed twice. Deleting it afterwards removes only the first listing, and the number stays listed (`DuplicateSurvivesDelete`).
- **Negative values are accepted.** Initial balances and transfer amounts may be negative, and only the source of a transfer is checked for solvency. So balances are not always non-negative.
- **Single-key writes only.** `Init` resets the index without removing account records, and `Write` overwrites any key. Neither preserves `Consistent`, so the invariant is proved only for creation, transfer and deletion.
- **Balances as float64.** The code keeps balances as float64 printed in `'E'` notation. The model uses exact decimals instead (see "Left out").

## Model

| member | source | states |
|---|---|---|
| Chaincode.Ledger.Init | chaincode/account1.go:48-76 | Wrong argument count or a non-integer argument leaves the store alone. Otherwise the integer is written back in canonical form under `test_key` and the index is reset to the empty list. A failed first write changes nothing. A failed second write leaves only the test key written. |
| Chaincode.Ledger.Read | chaincode/account1.go:117-133 | Needs exactly one argument. A failed read is an error. Otherwise the result is `Ok`, holding a value exactly when the key is stored, and that value is the stored one. An absent key is not an error. Reading changes nothing. |
| Chaincode.Ledger.Write | chaincode/account1.go:172-187 | Needs exactly two arguments. On success the text is stored under the key and nothing else changes. A failed write changes nothing. |
| Chaincode.Ledger.Delete | chaincode/account1.go:138-167 | Needs exactly one argument. A failed removal changes nothing. A failed index read leaves the key removed and the index untouched. A failed index write is ignored: the result is still `Ok` and the index is unchanged. Otherwise the store becomes `Deleted`. |
| Chaincode.Ledger.InitAccount | chaincode/account1.go:192-261 | Wrong argument count is an error. Otherwise the first empty argument is reported by its position. Otherwise a non-numeric amount is an error. No write happens before these checks pass. A failed existence read is an error. A record that already decodes with the number is refused as already existing. Then the record is written and the number appended to the index read back after that write. A failure at the record write, the index read or the ignored index write leaves the corresponding partial store. |
| Chaincode.Ledger.TransferBalance | chaincode/account1.go:266-332 | Fewer than three arguments, or a non-numeric amount, is an error. A failed read of either record is an error. So is either balance failing to parse, or the source going below zero. None of these writes anything. A failed source write changes nothing. A failed destination write leaves the source debited. Otherwise the store becomes `Transferred`. |
| LedgerProperties.InitEstablishesConsistency | chaincode/account1.go:63-73 | Writing the test key and resetting the index gives a consistent store when no other key holds an account record. |
| LedgerProperties.CreateKeepsConsistency | chaincode/account1.go:228-258 | Creating a new account in a consistent store (under a number other than the index key) appends the number after the ones already listed. It then occurs exactly once, and the store stays consistent. |
| LedgerProperties.CreateStoresRecord | chaincode/account1.go:242-258 | Creation appends the number to the index, stores the record under its number and touches no other key. Afterwards the existence check finds the account, so a second creation with the same number is refused. This relies on records being stored as structured values (see "Left out" for escaped numbers). |
| LedgerProperties.UnlistedAfterIndexFault | chaincode/account1.go:248-258 | When the index read or the ignored index write of creation fails, the new record stays stored but unlisted, and the store is no longer consistent. |
| LedgerProperties.CreateAtIndexKey | chaincode/account1.go:242-258 | An account numbered with the index key is overwritten by the index. The index then holds only that number, and no account exists under it. |
| LedgerProperties.NewAccountFields | chaincode/account1.go:217-241 | The created record keeps the number and the currency, and the entity has the same non-empty length. The stored balance text parses back to the amount given. |
| LedgerProperties.BalanceReadBack | chaincode/account1.go:313-320 | A balance written in its printed form reads back as the same number. |
| LedgerProperties.BalanceMeansRecord | chaincode/account1.go:287-304 | A balance that parses can only come from a stored account record, because the empty record's balance is `""`. |
| LedgerProperties.TransferBalances | chaincode/account1.go:307-329 | Between two distinct accounts, the source ends at old balance minus amount and the destination at old balance plus amount. |
| LedgerProperties.TransferConservesBalance | chaincode/account1.go:311-329 | Between two distinct accounts, the sum of the two balances is the same before and after. |
| LedgerProperties.TransferLeavesSourceSolvent | chaincode/account1.go:306-320 | A transfer between two distinct accounts that passed the solvency check leaves the source balance at zero or above. |
| LedgerProperties.SelfTransferGoesNegative | chaincode/account1.go:306-329 | A transfer to the same account of a negative amount larger than the balance passes the solvency check and leaves the balance below zero. |
| LedgerProperties.GuardedTransferKeepsBalancesNonNegative | chaincode/account1.go:306-309 | With the solvency check also refusing negative amounts, any transfer, a transfer to the same account included, leaves both balances at zero or above when they were. |
| LedgerProperties.SolvencyCheck | chaincode/account1.go:306-309 | The check refuses exactly the amounts greater than the source balance. |
| LedgerProperties.TransferToSelf | chaincode/account1.go:283-329 | From an account to itself the later credit wins, and the balance rises by the amount. |
| LedgerProperties.TransferKeepsIdentity | chaincode/account1.go:316-329 | A transfer changes only the two records, and only their balances. The set of keys stays the same. |
| LedgerProperties.TransferTouchesTwoKeys | chaincode/account1.go:319-329 | A transfer writes only the two keys, both already stored, so every other key reads as before and no key is added. |
| LedgerProperties.TransferKeepsConsistency | chaincode/account1.go:316-329 | A transfer keeps a consistent store consistent. |
| LedgerProperties.FailedCreditLosesAmount | chaincode/account1.go:320-329 | When the destination write fails, the source stays debited and the destination unchanged, so the sum of the two balances drops by the amount. |
| LedgerProperties.DeleteEffect | chaincode/account1.go:143-166 | Deletion removes the key and removes the first occurrence of it from the index. The index is unchanged when the key is not listed, and every other key is untouched. |
| LedgerProperties.DeleteKeepsConsistency | chaincode/account1.go:143-166 | Deleting a key other than the index key keeps a consistent store consistent and leaves the key unlisted. |
| LedgerProperties.DeletedListsAccounts | chaincode/account1.go:154-165 | After deletion, every listed number still holds its own account record. |
| LedgerProperties.DeletedListsEveryAccount | chaincode/account1.go:154-165 | After deletion, every remaining account record is still listed. |
| LedgerProperties.DeleteIndexKey | chaincode/account1.go:143-166 | Deleting the index key leaves an empty index. |
| LedgerProperties.DuplicateSurvivesDelete | chaincode/account1.go:228-258 | In a consistent store, raw text written over a listed account means the existence check misses it. Creating it again lists the number twice, and deleting it then leaves the number listed. |
| LedgerProperties.ListedAfterIndexFault | chaincode/account1.go:150-166 | When the index read or the ignored index write of deletion fails, the deleted account stays listed, and the store is no longer consistent. |
| AccountIndex.RemoveFirst | chaincode/account1.go:157-163 | Removing the first occurrence leaves the list unchanged when the name is absent. Otherwise the list is one shorter, and in both cases the contents are the old contents minus one copy of the name. |
| AccountIndex.RemoveFirstAfter | chaincode/account1.go:158-161 | Removing the first occurrence of a name that follows a prefix without it gives the prefix followed by the rest. |
| AccountIndex.RemoveFirstIsSplice | chaincode/account1.go:158-161 | At the position of the first occurrence, the splice `ids[:i] + ids[i+1:]` is exactly the removal of the first occurrence. |
| AccountIndex.FirstIndexOf | chaincode/account1.go:158-162 | The scan stops at the first occurrence, or at the end when there is none: no earlier entry matches. |
| AccountIndex.RemoveFirstMembers | chaincode/account1.go:157-163 | The removal adds no entry, and keeps every entry other than the removed name. |
| AccountIndex.RemoveFirstUnique | chaincode/account1.go:157-163 | In a list without duplicates, the removal drops the name altogether and keeps the list without duplicates. |
| AccountIndex.AppendFresh | chaincode/account1.go:255-256 | Appending a number not yet listed keeps the index without duplicates and lists the number once. |
| Numbers.ParseDecimal | chaincode/account1.go:297-304 | Empty text is not a number. A negative number comes only from text starting with '-', and it has fewer fraction digits than the text has characters. Together with `ParseFormatDecimal`, every printed balance parses back. |
| Numbers.ParseWithoutPoint | chaincode/account1.go:223-226 | A non-empty run of digits parses to the integer those digits denote, with no fraction digits. |
| Numbers.ParseWithPoint | chaincode/account1.go:223-226 | Digits, a point and digits parse to the integer of all the digits, scaled by the number of digits after the point. |
| Numbers.FormatDecimal | chaincode/account1.go:313-314 | The printed balance is never empty, and it starts with '-' exactly when the amount is negative. `ParseFormatDecimal` is its inverse. |
| Numbers.ParseFormatDecimal | chaincode/account1.go:313-317 | A printed balance parses back to exactly the same decimal. |
| Numbers.Add | chaincode/account1.go:312 | The sum is exact. |
| Numbers.Sub | chaincode/account1.go:311 | The difference is exact. |
| Numbers.IsNegativeIffBelowZero | chaincode/account1.go:307 | A decimal is flagged negative exactly when its value is below zero. |
| Numbers.Atoi | chaincode/account1.go:57-60 | A parsed integer lies in the 64-bit range, and the empty text or a lone sign is refused. |
| Numbers.Itoa | chaincode/account1.go:63 | The printed integer is never empty. It starts with '-' exactly when the integer is negative, and only digits follow the first character. `AtoiItoa` is its inverse. |
| Numbers.AtoiItoa | chaincode/account1.go:57-63 | Every 64-bit integer printed by `Itoa` parses back to itself. |
| Chaincode.DecodeAccount | chaincode/account1.go:234 | A stored account record decodes to exactly that record. |
| Chaincode.DecodeIndex | chaincode/account1.go:253 | A stored index record decodes to exactly that list of numbers. |
| Chaincode.UndecodedIsEmpty | chaincode/account1.go:286-295 | Decoding errors are ignored. A non-empty key holding no account record counts as no account, with no balance that parses. An index key holding no index record counts as an empty index. |
| Text.ToLower | chaincode/account1.go:219 | Lower-casing keeps the length and maps every character through `LowerChar`. |
| Text.ToLowerNormalizes | chaincode/account1.go:219 | The lower-cased entity contains no upper-case letter, and lower-casing it again changes nothing. |
| Scenarios.TransferScenario | chaincode/account1.go:266-332 | With balances 100.00 and 50.00, moving 30.00 succeeds and leaves 70 and 80. Moving 1000 next is refused for insufficient balance, and the balances stay 70 and 80. |
| Scenarios.CreateTwiceScenario | chaincode/account1.go:228-237 | Creating the same account twice is refused the second time, and the store is unchanged by that second call. The kept record is `A1`, `bob`, `USD`, `10`, and the index lists `A1` once. |
| Scenarios.NegativeSelfTransferScenario | chaincode/account1.go:306-329 | An account holding 3 that transfers -5 to itself passes the solvency check (3 - (-5) = 8), the call succeeds, and the balance ends at exactly -2. |
| Scenarios.CreateDeleteScenario | chaincode/account1.go:138-167 | Creating and then deleting an account removes its key and leaves the index empty. |
| Scenarios.RefusalScenario | chaincode/account1.go:204-206 | An empty account number is refused as argument 0 with the store unchanged. Reading a key never written succeeds with no value. |

## Left out

- `main`, `Invoke` and `Query` (chaincode/account1.go:38-112) are not modelled. They start the process and dispatch on the function name, and the operations are called directly instead.
- JSON is not modelled. Records are stored as structured values, and several consequences follow:
  - Text stored by `Write` never decodes as an account or an index, even when it is valid JSON of that shape.
  - The code ignores decoding errors and a partial decode. The model decodes all or nothing.
  - The record text built by hand at line 241 escapes nothing, and the model does not capture this. The existence test at line 235 finds such a record again exactly when it decodes, and decodes with the account number given. So re-creation is not refused, and the number is listed twice, in two cases:
    - The record fails to decode, for example because of a control character, an unbalanced quote or a bad escape in any argument.
    - The record decodes with another number, for example because of an escape sequence or invalid UTF-8 in the number, or because another argument injects a later `accountno` key. The number `a\u0041` decodes as `aA`.

    Other arguments that JSON reads back unchanged, such as invalid UTF-8 confined to the entity or the currency, or an injected unknown key, leave the number intact, and re-creation is refused. The refusal `CreateStoresRecord` proves holds for every number because the model stores records as structured values.
- float64 arithmetic is not modelled. Amounts are exact decimals, so the following are absent: rounding, NaN and infinities, float range errors, and the loss of precision the `'E'` format with precision -1 avoids.
- Numbers.FormatDecimal: prints plain decimal text with the amount's own number of fraction digits. `strconv.FormatFloat(x, 'E', -1, 64)` prints scientific notation such as `1E+02`. The stored balance text therefore differs from the code's, though both parse back to the same amount.
- Numbers.ParseDecimal: accepts only an optional sign and digits with at most one point. `strconv.ParseFloat` also accepts exponents, `Inf`, `NaN`, hexadecimal forms and underscores between digits, so the model refuses some texts the code takes as numbers.
- Text.ToLower: lower-cases ASCII letters only. `strings.ToLower` maps all of Unicode.
- Error messages are not modelled. Each error is an `Error` value, not the code's text.
- The world state is not modelled beyond per-call failures. It is a map that the calls of one operation see in order, including their own writes. Several things are outside the model:
  - the ledger's transaction, endorsement and commit behaviour;
  - concurrent invocations;
  - errors of the shim other than a store call failing.

## Findings

| source | as written | input that shows it | evidently intended | confidence | as-written member | corrected member |
|---|---|---|---|---|---|---|
| chaincode/account1.go:306-329 | The solvency check tests only the source debit and accepts any amount, negative ones included. For a transfer to the same account, the credit written last at line 326 overwrites the checked debit. | Account `A1` holding 3 transfers -5 to itself. The check sees 3 - (-5) = 8 and passes, and the balance ends at -2. | Balances never go below zero: negative amounts are refused too. | high, not executed | LedgerProperties.SelfTransferGoesNegative | LedgerProperties.GuardedTransferKeepsBalancesNonNegative |

`Scenarios.NegativeSelfTransferScenario` proves, for the input of this row, what `TransferBalance` returns and stores. The entry point keeps the check as written. `GuardedTransferPasses` is the corrected check, under which `GuardedTransferKeepsBalancesNonNegative` proves that no balance goes below zero.
