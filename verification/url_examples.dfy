/**
 The complete trigger URLs the repository's tests expect, discharged against
 the model.
 */
module UrlExamples {
  import opened Text
  import opened Escape
  import opened Values
  import opened Normalizer
  import opened Dfu

  /** The project every example targets. */
  const Project: string := "app:12345678-1234-1234-1234-123456789012"

  /** A configuration with only the tag field set. */
  function SingleTag(): DeploymentConfig {
    DeploymentConfig(Project, "", "", "", "", "production", "", "", "", "", "", "")
  }

  /** A single tag becomes the query's only parameter. */
  lemma SingleTagURL()
    ensures TriggerURL(BaseURL, SingleTag()) == Endpoint(BaseURL, Project) + "?" + "tags=production"
  {
    SingleTagQuery();
    SingleTagEncode();
    SingleTagProject();
    DfuURLWith(BaseURL, Project, map["tags" := ["production"]], "tags=production");
  }

  lemma SingleTagProject()
    ensures SingleTag().projectUID == Project
    ensures |map["tags" := ["production"]]| > 0
  {
  }

  lemma SingleTagQuery()
    ensures BuildQuery(SingleTag()) == map["tags" := ["production"]]
  {
    SingleTagFields();
    BuildQueryEquals(SingleTag(), map["tags" := ["production"]]);
  }

  lemma SingleTagFields()
    ensures Lookup(map["tags" := ["production"]], "deviceUID") == Tokens(SingleTag().deviceUID)
    ensures Lookup(map["tags" := ["production"]], "tags") == Tokens(SingleTag().tag)
    ensures Lookup(map["tags" := ["production"]], "serialNumber") == Tokens(SingleTag().serialNumber)
    ensures Lookup(map["tags" := ["production"]], "fleetUID") == Tokens(SingleTag().fleetUID)
    ensures Lookup(map["tags" := ["production"]], "productUID") == Tokens(SingleTag().productUID)
    ensures Lookup(map["tags" := ["production"]], "notecardFirmware") == Tokens(SingleTag().notecardFirmware)
    ensures Lookup(map["tags" := ["production"]], "location") == Tokens(SingleTag().location)
    ensures Lookup(map["tags" := ["production"]], "sku") == Tokens(SingleTag().sku)
  {
    NoTokens();
    ProductionToken();
    SingleTagLookups();
    SingleTagIs();
  }

  lemma SingleTagLookups()
    ensures Lookup(map["tags" := ["production"]], "deviceUID") == []
    ensures Lookup(map["tags" := ["production"]], "tags") == ["production"]
    ensures Lookup(map["tags" := ["production"]], "serialNumber") == []
    ensures Lookup(map["tags" := ["production"]], "fleetUID") == []
    ensures Lookup(map["tags" := ["production"]], "productUID") == []
    ensures Lookup(map["tags" := ["production"]], "notecardFirmware") == []
    ensures Lookup(map["tags" := ["production"]], "location") == []
    ensures Lookup(map["tags" := ["production"]], "sku") == []
  {
  }

  lemma SingleTagIs()
    ensures SingleTag().deviceUID == "" && SingleTag().tag == "production"
    ensures SingleTag().serialNumber == "" && SingleTag().fleetUID == ""
    ensures SingleTag().productUID == "" && SingleTag().notecardFirmware == ""
    ensures SingleTag().location == "" && SingleTag().sku == ""
  {
  }

  lemma NoTokens()
    ensures Tokens("") == []
  {
    TokensEmpty("");
  }

  lemma ProductionToken()
    ensures Tokens("production") == ["production"]
  {
    PlainProduction();
    TokensSingle("production");
  }

  lemma SingleTagEncode()
    ensures Encode(map["tags" := ["production"]]) == "tags=production"
  {
    PlainTags();
    PlainProduction();
    EncodeSingle("tags", "production");
    SpellTagsProduction();
  }

  lemma PlainTags()
    ensures Plain("tags")
  {
  }

  lemma PlainProduction()
    ensures Plain("production")
  {
  }

  lemma SpellTagsProduction()
    ensures "tags" + "=" + "production" == "tags=production"
  {
  }

  /** Each key with its two values, written `key=value`, key by key. */
  function Rendered(ks: seq<string>, xs: seq<string>, ys: seq<string>): seq<string>
    requires |xs| == |ks| && |ys| == |ks|
  {
    seq(2 * |ks|, j requires 0 <= j < 2 * |ks| => ks[j / 2] + "=" + (if j % 2 == 0 then xs[j / 2] else ys[j / 2]))
  }

  lemma RenderedCons(ks: seq<string>, xs: seq<string>, ys: seq<string>)
    requires |xs| == |ks| && |ys| == |ks| && ks != []
    ensures Rendered(ks, xs, ys) == [ks[0] + "=" + xs[0], ks[0] + "=" + ys[0]] + Rendered(ks[1..], xs[1..], ys[1..])
  {
    var r := Rendered(ks, xs, ys);
    var t := Rendered(ks[1..], xs[1..], ys[1..]);
    forall j | 2 <= j < |r|
      ensures r[j] == t[j - 2]
    {
      assert (j - 2) / 2 == j / 2 - 1 && (j - 2) % 2 == j % 2;
    }
  }

  /** Keys that each hold two unreserved values are written key by key, values in order. */
  lemma {:induction false} RenderTwoEach(v: Values, ks: seq<string>, xs: seq<string>, ys: seq<string>)
    requires |xs| == |ks| && |ys| == |ks|
    requires forall i :: 0 <= i < |ks| ==> Lookup(v, ks[i]) == [xs[i], ys[i]]
    requires forall i :: 0 <= i < |ks| ==> Plain(ks[i]) && Plain(xs[i]) && Plain(ys[i])
    ensures RenderAll(PairsOf(v, ks)) == Rendered(ks, xs, ys)
  {
    if ks != [] {
      var k := ks[0];
      assert Lookup(v, k) == [xs[0], ys[0]];
      var g := Group(k, [xs[0], ys[0]]);
      assert g == [(k, xs[0]), (k, ys[0])];
      RenderTwoEach(v, ks[1..], xs[1..], ys[1..]);
      RenderAllAppend(g, PairsOf(v, ks[1..]));
      RenderPlain((k, xs[0]));
      RenderPlain((k, ys[0]));
      assert RenderAll(g) == [k + "=" + xs[0], k + "=" + ys[0]];
      RenderedCons(ks, xs, ys);
    }
  }

  /** Two unreserved values joined by a comma are the two tokens. */
  lemma TwoTokens(a: string, b: string)
    requires a != [] && b != [] && Plain(a) && Plain(b)
    ensures Tokens(a + [','] + b) == [a, b]
  {
    PlainToken(a);
    PlainToken(b);
    TokensAround(a, b);
    TokensSingle(a);
    TokensSingle(b);
    Pair(a, b);
  }

  lemma Pair(a: string, b: string)
    ensures [a] + [b] == [a, b]
  {
  }

  lemma PlainToken(s: string)
    requires s != [] && Plain(s)
    ensures ',' !in s && Trimmed(s)
  {
  }

  /** Every targeting field set to two comma-separated values. */
  function AllParameters(): DeploymentConfig {
    DeploymentConfig(Project, "", "", "", "dev1,dev2", "tag1,tag2", "SN1,SN2", "fleet1,fleet2",
                     "prod1,prod2", "fw1,fw2", "loc1,loc2", "sku1,sku2")
  }

  function AllQuery(): Values {
    map["deviceUID" := ["dev1", "dev2"], "tags" := ["tag1", "tag2"], "serialNumber" := ["SN1", "SN2"],
        "fleetUID" := ["fleet1", "fleet2"], "productUID" := ["prod1", "prod2"],
        "notecardFirmware" := ["fw1", "fw2"], "location" := ["loc1", "loc2"], "sku" := ["sku1", "sku2"]]
  }

  /** The parameter names in increasing order, and their first and second values. */
  const SortedNames: seq<string> :=
    ["deviceUID", "fleetUID", "location", "notecardFirmware", "productUID", "serialNumber", "sku", "tags"]
  const Firsts: seq<string> := ["dev1", "fleet1", "loc1", "fw1", "prod1", "SN1", "sku1", "tag1"]
  const Seconds: seq<string> := ["dev2", "fleet2", "loc2", "fw2", "prod2", "SN2", "sku2", "tag2"]

  /** The sixteen elements of the expected query, in the expected order. */
  function AllElements(): seq<string> {
    ["deviceUID=dev1", "deviceUID=dev2", "fleetUID=fleet1", "fleetUID=fleet2",
     "location=loc1", "location=loc2", "notecardFirmware=fw1", "notecardFirmware=fw2",
     "productUID=prod1", "productUID=prod2", "serialNumber=SN1", "serialNumber=SN2",
     "sku=sku1", "sku=sku2", "tags=tag1", "tags=tag2"]
  }

  /** All eight parameters, keys sorted and each key's two values in input order. */
  lemma AllParametersURL()
    ensures TriggerURL(BaseURL, AllParameters()) == Endpoint(BaseURL, Project) + "?" + Join(AllElements(), '&')
  {
    AllParametersQuery();
    AllEncode();
    AllProject();
    DfuURLWith(BaseURL, Project, AllQuery(), Join(AllElements(), '&'));
  }

  lemma AllProject()
    ensures AllParameters().projectUID == Project
    ensures |AllQuery()| > 0
  {
    assert "sku" in AllQuery();
  }

  lemma AllEncode()
    ensures Encode(AllQuery()) == Join(AllElements(), '&')
  {
    AllNamesSorted();
    AllNamesCover();
    EncodeByKeys(AllQuery(), SortedNames);
    AllRendered();
  }

  lemma AllNamesSorted()
    ensures StrictlySorted(SortedNames)
  {
    NamesInOrder();
    SortedByNeighbours(SortedNames);
  }

  lemma NamesInOrder()
    ensures Less("deviceUID", "fleetUID") && Less("fleetUID", "location")
    ensures Less("location", "notecardFirmware") && Less("notecardFirmware", "productUID")
    ensures Less("productUID", "serialNumber") && Less("serialNumber", "sku") && Less("sku", "tags")
  {
  }

  lemma AllNamesCover()
    ensures forall k :: k in SortedNames <==> k in AllQuery()
  {
  }

  lemma AllRendered()
    ensures RenderAll(PairsOf(AllQuery(), SortedNames)) == AllElements()
  {
    AllLookups();
    AllPlain();
    RenderTwoEach(AllQuery(), SortedNames, Firsts, Seconds);
    SpellAll();
  }

  lemma AllLookups()
    ensures forall i :: 0 <= i < |SortedNames| ==> Lookup(AllQuery(), SortedNames[i]) == [Firsts[i], Seconds[i]]
  {
  }

  lemma AllPlain()
    ensures forall i :: 0 <= i < |SortedNames| ==> Plain(SortedNames[i]) && Plain(Firsts[i]) && Plain(Seconds[i])
  {
    PlainValues();
    PlainNames();
  }

  lemma PlainNames()
    ensures Plain("deviceUID") && Plain("fleetUID") && Plain("location") && Plain("notecardFirmware")
    ensures Plain("productUID") && Plain("serialNumber") && Plain("sku") && Plain("tags")
  {
  }

  lemma SpellAll()
    ensures Rendered(SortedNames, Firsts, Seconds) == AllElements()
  {
    RenderedOut();
    SpellElements();
  }

  lemma SpellPieces()
    ensures "deviceUID" + "=" + "dev1" == "deviceUID=dev1"
    ensures "deviceUID" + "=" + "dev2" == "deviceUID=dev2"
    ensures "fleetUID" + "=" + "fleet1" == "fleetUID=fleet1"
    ensures "fleetUID" + "=" + "fleet2" == "fleetUID=fleet2"
    ensures "location" + "=" + "loc1" == "location=loc1"
    ensures "location" + "=" + "loc2" == "location=loc2"
    ensures "notecardFirmware" + "=" + "fw1" == "notecardFirmware=fw1"
    ensures "notecardFirmware" + "=" + "fw2" == "notecardFirmware=fw2"
    ensures "productUID" + "=" + "prod1" == "productUID=prod1"
    ensures "productUID" + "=" + "prod2" == "productUID=prod2"
    ensures "serialNumber" + "=" + "SN1" == "serialNumber=SN1"
    ensures "serialNumber" + "=" + "SN2" == "serialNumber=SN2"
    ensures "sku" + "=" + "sku1" == "sku=sku1"
    ensures "sku" + "=" + "sku2" == "sku=sku2"
    ensures "tags" + "=" + "tag1" == "tags=tag1"
    ensures "tags" + "=" + "tag2" == "tags=tag2"
  {
  }

  lemma RenderedOut()
    ensures Rendered(SortedNames, Firsts, Seconds) ==
      ["deviceUID" + "=" + "dev1", "deviceUID" + "=" + "dev2", "fleetUID" + "=" + "fleet1", "fleetUID" + "=" + "fleet2",
       "location" + "=" + "loc1", "location" + "=" + "loc2", "notecardFirmware" + "=" + "fw1", "notecardFirmware" + "=" + "fw2",
       "productUID" + "=" + "prod1", "productUID" + "=" + "prod2", "serialNumber" + "=" + "SN1", "serialNumber" + "=" + "SN2",
       "sku" + "=" + "sku1", "sku" + "=" + "sku2", "tags" + "=" + "tag1", "tags" + "=" + "tag2"]
  {
  }

  lemma SpellElements()
    ensures ["deviceUID" + "=" + "dev1", "deviceUID" + "=" + "dev2", "fleetUID" + "=" + "fleet1", "fleetUID" + "=" + "fleet2",
       "location" + "=" + "loc1", "location" + "=" + "loc2", "notecardFirmware" + "=" + "fw1", "notecardFirmware" + "=" + "fw2",
       "productUID" + "=" + "prod1", "productUID" + "=" + "prod2", "serialNumber" + "=" + "SN1", "serialNumber" + "=" + "SN2",
       "sku" + "=" + "sku1", "sku" + "=" + "sku2", "tags" + "=" + "tag1", "tags" + "=" + "tag2"] == AllElements()
  {
    SpellPieces();
  }

  lemma AllParametersQuery()
    ensures BuildQuery(AllParameters()) == AllQuery()
  {
    AllFields();
    AllShape();
    BuildQueryEquals(AllParameters(), AllQuery());
  }

  lemma AllShape()
    ensures AllQuery().Keys <= ParamNames && NoEmptyLists(AllQuery())
  {
  }

  lemma AllFields()
    ensures Lookup(AllQuery(), "deviceUID") == Tokens(AllParameters().deviceUID)
    ensures Lookup(AllQuery(), "tags") == Tokens(AllParameters().tag)
    ensures Lookup(AllQuery(), "serialNumber") == Tokens(AllParameters().serialNumber)
    ensures Lookup(AllQuery(), "fleetUID") == Tokens(AllParameters().fleetUID)
    ensures Lookup(AllQuery(), "productUID") == Tokens(AllParameters().productUID)
    ensures Lookup(AllQuery(), "notecardFirmware") == Tokens(AllParameters().notecardFirmware)
    ensures Lookup(AllQuery(), "location") == Tokens(AllParameters().location)
    ensures Lookup(AllQuery(), "sku") == Tokens(AllParameters().sku)
  {
    AllIs();
    AllNamedLookups();
    AllTokens();
  }

  lemma AllIs()
    ensures AllParameters().deviceUID == "dev1,dev2" && AllParameters().tag == "tag1,tag2"
    ensures AllParameters().serialNumber == "SN1,SN2" && AllParameters().fleetUID == "fleet1,fleet2"
    ensures AllParameters().productUID == "prod1,prod2" && AllParameters().notecardFirmware == "fw1,fw2"
    ensures AllParameters().location == "loc1,loc2" && AllParameters().sku == "sku1,sku2"
  {
  }

  lemma AllNamedLookups()
    ensures Lookup(AllQuery(), "deviceUID") == ["dev1", "dev2"]
    ensures Lookup(AllQuery(), "tags") == ["tag1", "tag2"]
    ensures Lookup(AllQuery(), "serialNumber") == ["SN1", "SN2"]
    ensures Lookup(AllQuery(), "fleetUID") == ["fleet1", "fleet2"]
    ensures Lookup(AllQuery(), "productUID") == ["prod1", "prod2"]
    ensures Lookup(AllQuery(), "notecardFirmware") == ["fw1", "fw2"]
    ensures Lookup(AllQuery(), "location") == ["loc1", "loc2"]
    ensures Lookup(AllQuery(), "sku") == ["sku1", "sku2"]
  {
  }

  lemma AllTokens()
    ensures Tokens("dev1,dev2") == ["dev1", "dev2"]
    ensures Tokens("tag1,tag2") == ["tag1", "tag2"]
    ensures Tokens("SN1,SN2") == ["SN1", "SN2"]
    ensures Tokens("fleet1,fleet2") == ["fleet1", "fleet2"]
    ensures Tokens("prod1,prod2") == ["prod1", "prod2"]
    ensures Tokens("fw1,fw2") == ["fw1", "fw2"]
    ensures Tokens("loc1,loc2") == ["loc1", "loc2"]
    ensures Tokens("sku1,sku2") == ["sku1", "sku2"]
  {
    PlainValues();
    SpellCommas();
    TwoTokens("dev1", "dev2");
    TwoTokens("tag1", "tag2");
    TwoTokens("SN1", "SN2");
    TwoTokens("fleet1", "fleet2");
    TwoTokens("prod1", "prod2");
    TwoTokens("fw1", "fw2");
    TwoTokens("loc1", "loc2");
    TwoTokens("sku1", "sku2");
  }

  lemma PlainValues()
    ensures Plain("dev1") && Plain("dev2") && Plain("tag1") && Plain("tag2")
    ensures Plain("SN1") && Plain("SN2") && Plain("fleet1") && Plain("fleet2")
    ensures Plain("prod1") && Plain("prod2") && Plain("fw1") && Plain("fw2")
    ensures Plain("loc1") && Plain("loc2") && Plain("sku1") && Plain("sku2")
  {
  }

  lemma SpellCommas()
    ensures "dev1" + [','] + "dev2" == "dev1,dev2"
    ensures "tag1" + [','] + "tag2" == "tag1,tag2"
    ensures "SN1" + [','] + "SN2" == "SN1,SN2"
    ensures "fleet1" + [','] + "fleet2" == "fleet1,fleet2"
    ensures "prod1" + [','] + "prod2" == "prod1,prod2"
    ensures "fw1" + [','] + "fw2" == "fw1,fw2"
    ensures "loc1" + [','] + "loc2" == "loc1,loc2"
    ensures "sku1" + [','] + "sku2" == "sku1,sku2"
  {
  }
}
