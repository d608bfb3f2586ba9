/**
 The expectations of the normalizer's table-driven tests, discharged against
 the model: for each case, the tokens and the whole resulting query.
 Each literal spelling (`"a" + [','] + "b" == "a,b"`) is a lemma of its own,
 kept apart from any `Tokens` of a literal, which the solver would otherwise
 start evaluating.
 */
module Examples {
  import opened Text
  import opened Values
  import opened Normalizer

  /** "device-123" is one token, itself, and the only value of `deviceUID`. */
  lemma SingleValue()
    ensures Tokens("device-123") == ["device-123"]
    ensures AddCommaSeparatedParams(map[], "deviceUID", "device-123") == map["deviceUID" := ["device-123"]]
  {
    Single("device-123");
    AddToFresh("deviceUID", "device-123");
  }

  /** A value made of letters, digits and `-` is one token, itself. */
  lemma Single(s: string)
    requires s != []
    requires forall i :: 0 <= i < |s| ==> 'a' <= s[i] <= 'z' || 'A' <= s[i] <= 'Z' || '0' <= s[i] <= '9' || s[i] == '-'
    ensures Tokens(s) == [s]
  {
    TokensSingle(s);
  }

  /** "production,sensor,outdoor" yields its three tokens in input order, all under `tags`. */
  lemma MultipleValues()
    ensures Tokens("production,sensor,outdoor") == ["production", "sensor", "outdoor"]
    ensures AddCommaSeparatedParams(map[], "tags", "production,sensor,outdoor")
      == map["tags" := ["production", "sensor", "outdoor"]]
  {
    var parts := ["production", "sensor", "outdoor"];
    SpellMultiple();
    TokensJoin(parts);
    AddToFresh("tags", "production,sensor,outdoor");
  }

  lemma SpellMultiple()
    ensures Join(["production", "sensor", "outdoor"], ',') == "production,sensor,outdoor"
  {
  }

  /** The blanks around each piece of "warehouse, factory , office" are cut; `location` holds the three. */
  lemma ValuesWithSpaces()
    ensures Tokens("warehouse, factory , office") == ["warehouse", "factory", "office"]
    ensures AddCommaSeparatedParams(map[], "location", "warehouse, factory , office")
      == map["location" := ["warehouse", "factory", "office"]]
  {
    AddToFresh("location", "warehouse, factory , office");
    WarehouseFirst();
    FactoryThenOffice();
    SingleWarehouse();
    PaddedFactory();
    PaddedOffice();
    Cat3("warehouse", "factory", "office");
  }

  lemma SingleWarehouse()
    ensures Tokens("warehouse") == ["warehouse"]
  {
    Single("warehouse");
  }

  lemma WarehouseFirst()
    ensures Tokens("warehouse, factory , office") == Tokens("warehouse") + Tokens(" factory , office")
  {
    TokensAround("warehouse", " factory , office");
    SpellWarehouseFirst();
  }

  lemma SpellWarehouseFirst()
    ensures "warehouse" + [','] + " factory , office" == "warehouse, factory , office"
  {
  }

  lemma FactoryThenOffice()
    ensures Tokens(" factory , office") == Tokens(" factory ") + Tokens(" office")
  {
    TokensAround(" factory ", " office");
    SpellFactoryThenOffice();
  }

  lemma SpellFactoryThenOffice()
    ensures " factory " + [','] + " office" == " factory , office"
  {
  }

  lemma PaddedFactory()
    ensures Tokens(" factory ") == ["factory"]
  {
    TokensPadded(" ", "factory", " ");
    SpellFactory();
  }

  lemma SpellFactory()
    ensures " " + "factory" + " " == " factory "
  {
  }

  lemma PaddedOffice()
    ensures Tokens(" office") == ["office"]
  {
    TokensPadded(" ", "office", "");
    SpellOffice();
  }

  lemma SpellOffice()
    ensures " " + "office" + "" == " office"
  {
  }

  lemma Cat3(x: string, y: string, z: string)
    ensures [x] + ([y] + [z]) == [x, y, z]
  {
  }

  /** An empty value yields no token, so the query stays as it was: `sku` adds no parameter. */
  lemma EmptyValue(q: Values, name: string)
    ensures Tokens("") == []
    ensures AddCommaSeparatedParams(q, name, "") == q
    ensures AddCommaSeparatedParams(map[], "sku", "") == map[]
  {
    TokensEmpty("");
    AddEmptyValue(q, name);
    AddEmptyValue(map[], "sku");
  }

  /** The empty pieces of "SN001,,SN003," are dropped; `serialNumber` holds the other two. */
  lemma EmptySegments()
    ensures Tokens("SN001,,SN003,") == ["SN001", "SN003"]
    ensures AddCommaSeparatedParams(map[], "serialNumber", "SN001,,SN003,") == map["serialNumber" := ["SN001", "SN003"]]
  {
    AddToFresh("serialNumber", "SN001,,SN003,");
    Segments1();
    Segments2();
    Segments3();
    SingleSN001();
    SingleSN003();
    EmptyValue(map[], "");
    Cat2("SN001", "SN003");
  }

  lemma SingleSN001()
    ensures Tokens("SN001") == ["SN001"]
  {
    Single("SN001");
  }

  lemma SingleSN003()
    ensures Tokens("SN003") == ["SN003"]
  {
    Single("SN003");
  }

  lemma Segments1()
    ensures Tokens("SN001,,SN003,") == Tokens("SN001") + Tokens(",SN003,")
  {
    TokensAround("SN001", ",SN003,");
    SpellSegments1();
  }

  lemma SpellSegments1()
    ensures "SN001" + [','] + ",SN003," == "SN001,,SN003,"
  {
  }

  lemma Segments2()
    ensures Tokens(",SN003,") == Tokens("") + Tokens("SN003,")
  {
    TokensAround("", "SN003,");
    SpellSegments2();
  }

  lemma SpellSegments2()
    ensures "" + [','] + "SN003," == ",SN003,"
  {
  }

  lemma Segments3()
    ensures Tokens("SN003,") == Tokens("SN003") + Tokens("")
  {
    TokensAround("SN003", "");
    SpellSegments3();
  }

  lemma SpellSegments3()
    ensures "SN003" + [','] + "" == "SN003,"
  {
  }

  lemma Cat2(x: string, y: string)
    ensures [x] + ([] + ([y] + [])) == [x, y]
  {
  }
}
