/**
 * Client runs of the chaincode, proved from the entry points' contracts and
 * the properties of their effects.
 */
module Scenarios {
  import opened Options
  import opened Numbers
  import opened Text
  import opened Chaincode
  import opened LedgerProperties

  lemma DigitLiterals()
    ensures DigitsValue("1") == 1 && DigitsValue("10") == 10 && DigitsValue("100") == 100
    ensures DigitsValue("1000") == 1000 && DigitsValue("10000") == 10000
    ensures DigitsValue("5") == 5 && DigitsValue("50") == 50 && DigitsValue("500") == 500
    ensures DigitsValue("5000") == 5000
    ensures DigitsValue("3") == 3 && DigitsValue("30") == 30 && DigitsValue("300") == 300
    ensures DigitsValue("3000") == 3000
  {
    assert "1"[..0] == "" && "10"[..1] == "1" && "100"[..2] == "10";
    assert "1000"[..3] == "100" && "10000"[..4] == "1000";
    assert "5"[..0] == "" && "50"[..1] == "5" && "500"[..2] == "50" && "5000"[..3] == "500";
    assert "3"[..0] == "" && "30"[..1] == "3" && "300"[..2] == "30" && "3000"[..3] == "300";
  }

  /** A sign-less decimal with a point parses to its digits and the count after the point. */
  lemma ParsePointed(whole: string, fraction: string, text: string, m: nat)
    requires AllDigits(whole) && AllDigits(fraction) && |whole| > 0
    requires text == whole + "." + fraction && IsDigit(text[0])
    requires DigitsValue(whole + fraction) == m
    ensures ParseDecimal(text) == Some(Decimal(m, |fraction|))
  {
    ParseWithPoint(whole, fraction);
    assert SplitSign(text) == (false, text);
  }

  /** The amounts of the scenario, as the float parser reads them. */
  lemma ParseHundred()
    ensures ParseDecimal("100.00") == Some(Decimal(10000, 2))
  {
    DigitLiterals();
    assert "100" + "00" == "10000";
    ParsePointed("100", "00", "100.00", 10000);
  }

  lemma ParseFifty()
    ensures ParseDecimal("50.00") == Some(Decimal(5000, 2))
  {
    DigitLiterals();
    assert "50" + "00" == "5000";
    ParsePointed("50", "00", "50.00", 5000);
  }

  lemma ParseThirty()
    ensures ParseDecimal("30.00") == Some(Decimal(3000, 2))
  {
    DigitLiterals();
    assert "30" + "00" == "3000";
    ParsePointed("30", "00", "30.00", 3000);
  }

  lemma ParseThousand()
    ensures ParseDecimal("1000") == Some(Decimal(1000, 0))
  {
    DigitLiterals();
    ParseWithoutPoint("1000");
    assert SplitSign("1000") == (false, "1000");
  }

  /** The exact arithmetic of the scenario. */
  lemma ScenarioArithmetic()
    ensures Sub(Decimal(10000, 2), Decimal(3000, 2)) == Decimal(7000, 2)
    ensures Add(Decimal(5000, 2), Decimal(3000, 2)) == Decimal(8000, 2)
    ensures Sub(Decimal(7000, 2), Decimal(1000, 0)).IsNegative()
    ensures Decimal(7000, 2).ToReal() == 70.0 && Decimal(8000, 2).ToReal() == 80.0
  {
    assert Pow10(0) == 1 && Pow10(1) == 10 && Pow10(2) == 100;
  }

  /** Creation stores a balance that reads back, and other accounts' balances stay. */
  lemma CreatedBalances(m: Store, args: seq<string>, other: string)
    requires CreateArgsValid(args) && args[0] != IndexKey && other != IndexKey && other != args[0]
    ensures StoredBalance(Created(m, NewAccount(args)), args[0]) == ParseDecimal(args[3])
    ensures StoredBalance(Created(m, NewAccount(args)), other) == StoredBalance(m, other)
  {
    NewAccountFields(args);
    assert LoadAccount(Created(m, NewAccount(args)), other) == LoadAccount(m, other);
  }

  /** Creating an account that does not exist yet, with no store fault, succeeds. */
  method CreateOk(ledger: Ledger, args: seq<string>)
    requires CreateArgsValid(args) && !AccountExists(ledger.store, args[0])
    modifies ledger
    ensures ledger.store == Created(old(ledger.store), NewAccount(args))
  {
    var r := ledger.InitAccount(args, {});
  }

  const CreateA1: seq<string> := ["A1", "Bob", "USD", "100.00"]
  const CreateA2: seq<string> := ["A2", "Alice", "USD", "50.00"]

  lemma FirstCreation()
    ensures CreateArgsValid(CreateA1)
    ensures StoredBalance(Created(map[], NewAccount(CreateA1)), "A1") == Some(Decimal(10000, 2))
    ensures StoredBalance(Created(map[], NewAccount(CreateA1)), "A2") == None
    ensures !AccountExists(Created(map[], NewAccount(CreateA1)), "A2")
  {
    ParseHundred();
    assert CreateArgsValid(CreateA1);
    CreatedBalances(map[], CreateA1, "A2");
  }

  lemma SecondCreation(m: Store)
    requires StoredBalance(m, "A1") == Some(Decimal(10000, 2)) && !AccountExists(m, "A2")
    ensures CreateArgsValid(CreateA2)
    ensures StoredBalance(Created(m, NewAccount(CreateA2)), "A1") == Some(Decimal(10000, 2))
    ensures StoredBalance(Created(m, NewAccount(CreateA2)), "A2") == Some(Decimal(5000, 2))
  {
    ParseFifty();
    assert CreateArgsValid(CreateA2);
    CreatedBalances(m, CreateA2, "A1");
  }

  /** A ledger holding accounts A1 with 100.00 and A2 with 50.00. */
  method TwoAccounts() returns (ledger: Ledger)
    ensures fresh(ledger)
    ensures StoredBalance(ledger.store, "A1") == Some(Decimal(10000, 2))
    ensures StoredBalance(ledger.store, "A2") == Some(Decimal(5000, 2))
  {
    FirstCreation();
    ledger := new Ledger();
    CreateOk(ledger, CreateA1);
    SecondCreation(ledger.store);
    CreateOk(ledger, CreateA2);
  }

  /**
   * Two accounts holding 100.00 and 50.00; 30.00 moves from the first to the
   * second, leaving 70 and 80; then 1000 is refused for lack of funds and the
   * balances stay 70 and 80.
   */
  method TransferScenario() returns (first: Response, second: Response, a1: Option<Decimal>, a2: Option<Decimal>)
    ensures first == Ok(None)
    ensures second == Err(InsufficientBalance("A1"))
    ensures a1.Some? && a1.value.ToReal() == 70.0
    ensures a2.Some? && a2.value.ToReal() == 80.0
  {
    var ledger := TwoAccounts();
    ParseThirty();
    ParseThousand();
    ScenarioArithmetic();
    var m := ledger.store;
    first := ledger.TransferBalance(["A1", "A2", "30.00"], {});
    TransferBalances(m, "A1", "A2", Decimal(3000, 2));
    second := ledger.TransferBalance(["A1", "A2", "1000"], {});
    a1 := StoredBalance(ledger.store, "A1");
    a2 := StoredBalance(ledger.store, "A2");
  }

  lemma ParseTen()
    ensures ParseDecimal("10") == Some(Decimal(10, 0))
  {
    DigitLiterals();
    ParseWithoutPoint("10");
    assert SplitSign("10") == (false, "10");
  }

  lemma AtoiSeven()
    ensures Atoi("7") == Some(7)
  {
    assert "7"[..0] == "";
    assert SplitSign("7") == (false, "7");
  }

  /** A freshly deployed ledger: the test key and an empty, consistent index. */
  method Deployed() returns (ledger: Ledger)
    ensures fresh(ledger)
    ensures Consistent(ledger.store) && LoadIndex(ledger.store) == []
    ensures ledger.store.Keys == {TestKey, IndexKey}
  {
    AtoiSeven();
    ledger := new Ledger();
    var r := ledger.Init(["7"], {});
    InitEstablishesConsistency(map[], Itoa(7));
  }

  /** The record the creation arguments of the scenarios give. */
  lemma RecordOfA1()
    ensures CreateArgsValid(["A1", "Bob", "USD", "10"])
    ensures NewAccount(["A1", "Bob", "USD", "10"]) == Account("A1", "bob", "USD", "10")
  {
    ParseTen();
    assert CreateArgsValid(["A1", "Bob", "USD", "10"]);
    assert ToLower("Bob") == "bob";
    assert NatDigits(1) == "1";
    assert NatDigits(10) == NatDigits(1) + [DigitChar(0)];
  }

  /**
   * After deployment, account A1 is created; creating it again is refused and
   * leaves the store as it was: the first record, and the index listing A1 once.
   */
  method CreateTwiceScenario() returns (again: Response, record: Account, index: seq<string>, kept: bool)
    ensures again == Err(AccountAlreadyExists)
    ensures record == Account("A1", "bob", "USD", "10")
    ensures index == ["A1"]
    ensures kept
  {
    RecordOfA1();
    var ledger := Deployed();
    var create := ["A1", "Bob", "USD", "10"];
    var m0 := ledger.store;
    CreateOk(ledger, create);
    CreateStoresRecord(m0, NewAccount(create));
    var m1 := ledger.store;
    again := ledger.InitAccount(create, {});
    kept := ledger.store == m1;
    record := LoadAccount(ledger.store, "A1");
    index := LoadIndex(ledger.store);
  }

  lemma ParseThreeAndMinusFive()
    ensures ParseDecimal("3") == Some(Decimal(3, 0))
    ensures ParseDecimal("-5") == Some(Decimal(-5, 0))
  {
    DigitLiterals();
    ParseWithoutPoint("3");
    ParseWithoutPoint("5");
    assert SplitSign("3") == (false, "3");
    assert SplitSign("-5") == (true, "5");
  }

  const CreateThree: seq<string> := ["A1", "Bob", "USD", "3"]

  lemma CreationOfThree()
    ensures CreateArgsValid(CreateThree)
    ensures StoredBalance(Created(map[], NewAccount(CreateThree)), "A1") == Some(Decimal(3, 0))
  {
    ParseThreeAndMinusFive();
    assert CreateArgsValid(CreateThree);
    CreatedBalances(map[], CreateThree, "A2");
  }

  lemma SelfTransferArithmetic()
    ensures Sub(Decimal(3, 0), Decimal(-5, 0)) == Decimal(8, 0)
    ensures Add(Decimal(3, 0), Decimal(-5, 0)) == Decimal(-2, 0)
  {
    assert Pow10(0) == 1;
  }

  /**
   * An account holding 3 transfers -5 to itself: the solvency check sees 8
   * and lets it through, and the credit, written last, leaves the balance at -2.
   */
  method NegativeSelfTransferScenario() returns (r: Response, balance: Option<Decimal>)
    ensures r == Ok(None)
    ensures balance == Some(Decimal(-2, 0))
  {
    CreationOfThree();
    ParseThreeAndMinusFive();
    SelfTransferArithmetic();
    var ledger := new Ledger();
    CreateOk(ledger, CreateThree);
    var m := ledger.store;
    r := ledger.TransferBalance(["A1", "A1", "-5"], {});
    TransferToSelf(m, "A1", Decimal(-5, 0));
    balance := StoredBalance(ledger.store, "A1");
  }

  /** After deployment, account A1 is created and then deleted: the index is empty again. */
  method CreateDeleteScenario() returns (gone: bool, afterDelete: seq<string>)
    ensures gone
    ensures afterDelete == []
  {
    ParseTen();
    var ledger := Deployed();
    var create := ["A1", "Bob", "USD", "10"];
    assert CreateArgsValid(create);
    var m0 := ledger.store;
    CreateOk(ledger, create);
    CreateStoresRecord(m0, NewAccount(create));
    var m1 := ledger.store;
    assert LoadIndex(m1) == ["A1"];
    var r := ledger.Delete(["A1"], {});
    DeleteEffect(m1, "A1");
    gone := "A1" !in ledger.store;
    afterDelete := LoadIndex(ledger.store);
  }

  /**
   * On a deployed ledger, an empty account number is refused before anything
   * is written, and reading a key never written gives no value and no error.
   */
  method RefusalScenario() returns (empty: Response, missing: Response, storeKept: bool)
    ensures empty == Err(EmptyArgument(0))
    ensures missing == Ok(None)
    ensures storeKept
  {
    var ledger := Deployed();
    var deployed := ledger.store;
    empty := ledger.InitAccount(["", "Bob", "USD", "10"], {});
    assert ["", "Bob", "USD", "10"][..0] == [];
    storeKept := ledger.store == deployed;
    missing := ledger.Read(["nonexistent"], {});
  }
}
