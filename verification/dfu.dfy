/**
 The DFU trigger's request URL. `TriggerDFU` feeds the eight targeting fields
 of a deployment configuration through `addCommaSeparatedParams`, in a fixed
 order and each under a fixed parameter name, and appends the encoded query
 to `{base}/projects/{projectUID}/dfu/host/update` only when it has a key.
 */
module Dfu {
  import opened Wrappers
  import opened Text
  import opened Values
  import opened Normalizer

  /** The configuration the action hands to the client; the targeting fields are raw, comma-separated text. */
  datatype DeploymentConfig = DeploymentConfig(
    projectUID: string,
    firmwareFile: string,
    clientID: string,
    clientSecret: string,
    deviceUID: string,
    tag: string,
    serialNumber: string,
    fleetUID: string,
    productUID: string,
    notecardFirmware: string,
    location: string,
    sku: string)

  /** The Notehub API endpoint every request goes to. */
  const BaseURL: string := "https://api.notefile.net/v1"

  /** The query parameters a DFU trigger may carry. */
  const ParamNames: set<string> :=
    {"deviceUID", "tags", "serialNumber", "fleetUID", "productUID", "notecardFirmware", "location", "sku"}

  /** Each targeting field under its parameter name, in the order `TriggerDFU` adds them. */
  function Targeting(c: DeploymentConfig): seq<(string, string)>
  {
    [("deviceUID", c.deviceUID), ("tags", c.tag), ("serialNumber", c.serialNumber),
     ("fleetUID", c.fleetUID), ("productUID", c.productUID),
     ("notecardFirmware", c.notecardFirmware), ("location", c.location), ("sku", c.sku)]
  }

  /** The tokens the fields named `key` contribute, field by field. */
  function FieldTokens(fields: seq<(string, string)>, key: string): seq<string>
  {
    if fields == [] then []
    else (if fields[0].0 == key then Tokens(fields[0].1) else []) + FieldTokens(fields[1..], key)
  }

  /** Runs `addCommaSeparatedParams` over the fields in order. */
  function AddFields(q: Values, fields: seq<(string, string)>): (r: Values)
    ensures forall key :: Lookup(r, key) == Lookup(q, key) + FieldTokens(fields, key)
    ensures forall key :: key in r <==> key in q || FieldTokens(fields, key) != []
    decreases fields
  {
    if fields == [] then q
    else
      var q' := AddCommaSeparatedParams(q, fields[0].0, fields[0].1);
      var r := AddFields(q', fields[1..]);
      KeysAdded(q, q', fields[0].0, Tokens(fields[0].1));
      AddFieldsStep(q, q', r, fields);
      r
  }

  lemma KeysAdded(a: Values, b: Values, name: string, t: seq<string>)
    requires b.Keys == a.Keys + (if t == [] then {} else {name})
    ensures forall k :: k in b <==> k in a || (k == name && t != [])
  {
  }

  lemma AddFieldsStep(q: Values, q': Values, r: Values, fields: seq<(string, string)>)
    requires fields != []
    requires Lookup(q', fields[0].0) == Lookup(q, fields[0].0) + Tokens(fields[0].1)
    requires forall k :: k != fields[0].0 ==> Lookup(q', k) == Lookup(q, k)
    requires forall k :: k in q' <==> k in q || (k == fields[0].0 && Tokens(fields[0].1) != [])
    requires forall key :: Lookup(r, key) == Lookup(q', key) + FieldTokens(fields[1..], key)
    requires forall key :: key in r <==> key in q' || FieldTokens(fields[1..], key) != []
    ensures forall key :: Lookup(r, key) == Lookup(q, key) + FieldTokens(fields, key)
    ensures forall key :: key in r <==> key in q || FieldTokens(fields, key) != []
  {
    forall key
      ensures Lookup(r, key) == Lookup(q, key) + FieldTokens(fields, key)
      ensures key in r <==> key in q || FieldTokens(fields, key) != []
    {
      var rest := FieldTokens(fields[1..], key);
      if fields[0].0 == key {
        var t := Tokens(fields[0].1);
        assert FieldTokens(fields, key) == t + rest;
        Assoc(Lookup(q, key), t, rest);
        assert |t + rest| == |t| + |rest|;
      } else {
        assert FieldTokens(fields, key) == [] + rest;
        assert Lookup(q', key) == Lookup(q, key);
        assert [] + rest == rest;
      }
    }
  }

  /** The names the fields carry. */
  function Names(fields: seq<(string, string)>): set<string> {
    set i | 0 <= i < |fields| :: fields[i].0
  }

  /** Field names that never repeat. */
  ghost predicate DistinctNames(fields: seq<(string, string)>) {
    forall i, j :: 0 <= i < j < |fields| ==> fields[i].0 != fields[j].0
  }

  /** A name no field carries gets no tokens. */
  lemma {:induction false} FieldTokensAbsent(fields: seq<(string, string)>, key: string)
    requires forall i :: 0 <= i < |fields| ==> fields[i].0 != key
    ensures FieldTokens(fields, key) == []
  {
    if fields != [] {
      FieldTokensAbsent(fields[1..], key);
    }
  }

  /** When names do not repeat, a field's name gets exactly that field's tokens. */
  lemma {:induction false} FieldTokensOf(fields: seq<(string, string)>, i: nat)
    requires i < |fields| && UniqueAt(fields, i)
    ensures FieldTokens(fields, fields[i].0) == Tokens(fields[i].1)
  {
    if i == 0 {
      FieldTokensHead(fields);
    } else {
      UniqueTail(fields, i);
      FieldTokensOf(fields[1..], i - 1);
      FieldTokensNext(fields, i);
    }
  }

  /** No other field carries the name of field `i`. */
  ghost predicate UniqueAt(fields: seq<(string, string)>, i: nat)
    requires i < |fields|
  {
    forall j :: 0 <= j < |fields| && j != i ==> fields[j].0 != fields[i].0
  }

  lemma UniqueTail(fields: seq<(string, string)>, i: nat)
    requires 0 < i < |fields| && UniqueAt(fields, i)
    ensures UniqueAt(fields[1..], i - 1)
    ensures fields[0].0 != fields[i].0
    ensures fields[1..][i - 1] == fields[i]
  {
    forall j | 0 <= j < |fields[1..]| && j != i - 1
      ensures fields[1..][j].0 != fields[1..][i - 1].0
    {
      assert fields[1..][j] == fields[j + 1];
    }
  }

  lemma FieldTokensHead(fields: seq<(string, string)>)
    requires fields != [] && UniqueAt(fields, 0)
    ensures FieldTokens(fields, fields[0].0) == Tokens(fields[0].1)
  {
    forall j | 0 <= j < |fields[1..]|
      ensures fields[1..][j].0 != fields[0].0
    {
      assert fields[1..][j] == fields[j + 1];
    }
    FieldTokensAbsent(fields[1..], fields[0].0);
    assert Tokens(fields[0].1) + [] == Tokens(fields[0].1);
  }

  lemma FieldTokensNext(fields: seq<(string, string)>, i: nat)
    requires 0 < i < |fields| && fields[0].0 != fields[i].0 && fields[1..][i - 1] == fields[i]
    requires FieldTokens(fields[1..], fields[1..][i - 1].0) == Tokens(fields[1..][i - 1].1)
    ensures FieldTokens(fields, fields[i].0) == Tokens(fields[i].1)
  {
    assert [] + Tokens(fields[i].1) == Tokens(fields[i].1);
  }

  lemma TargetingNames(c: DeploymentConfig)
    ensures DistinctNames(Targeting(c))
    ensures forall i :: 0 <= i < |Targeting(c)| ==> Targeting(c)[i].0 in ParamNames
  {
  }

  /** The fields of `Targeting`, position by position. */
  lemma TargetingAt(c: DeploymentConfig)
    ensures |Targeting(c)| == 8
    ensures Targeting(c)[0] == ("deviceUID", c.deviceUID) && Targeting(c)[1] == ("tags", c.tag)
    ensures Targeting(c)[2] == ("serialNumber", c.serialNumber) && Targeting(c)[3] == ("fleetUID", c.fleetUID)
    ensures Targeting(c)[4] == ("productUID", c.productUID) && Targeting(c)[5] == ("notecardFirmware", c.notecardFirmware)
    ensures Targeting(c)[6] == ("location", c.location) && Targeting(c)[7] == ("sku", c.sku)
  {
  }

  /** With distinct names, every field's name carries exactly that field's tokens. */
  lemma FieldLookups(q: Values, fields: seq<(string, string)>)
    requires DistinctNames(fields)
    requires forall key :: Lookup(q, key) == FieldTokens(fields, key)
    ensures forall i :: 0 <= i < |fields| ==> Lookup(q, fields[i].0) == Tokens(fields[i].1)
  {
    forall i | 0 <= i < |fields|
      ensures Lookup(q, fields[i].0) == Tokens(fields[i].1)
    {
      assert UniqueAt(fields, i);
      FieldTokensOf(fields, i);
    }
  }

  /** A query built from fields only has keys the fields name, each holding a value. */
  lemma FieldKeys(q: Values, fields: seq<(string, string)>)
    requires forall key :: Lookup(q, key) == FieldTokens(fields, key)
    requires forall key :: key in q <==> FieldTokens(fields, key) != []
    ensures forall key :: key in q <==> key in Names(fields) && Lookup(q, key) != []
  {
    forall key | key !in Names(fields)
      ensures key !in q
    {
      FieldTokensAbsent(fields, key);
    }
  }

  /**
   The targeting query: each field's tokens under its parameter name, in the
   order `TriggerDFU` adds them. A key is present exactly when it is a
   parameter name whose field yields a token.
   */
  function BuildQuery(c: DeploymentConfig): (q: Values)
    ensures forall i :: 0 <= i < |Targeting(c)| ==> Lookup(q, Targeting(c)[i].0) == Tokens(Targeting(c)[i].1)
    ensures forall key :: key in q <==> key in Names(Targeting(c)) && Lookup(q, key) != []
  {
    var fields := Targeting(c);
    var q := AddFields(map[], fields);
    assert forall key :: Lookup(q, key) == FieldTokens(fields, key) by {
      forall key
        ensures Lookup(q, key) == FieldTokens(fields, key)
      {
        assert Lookup(map[], key) + FieldTokens(fields, key) == FieldTokens(fields, key);
      }
    }
    TargetingNames(c);
    FieldLookups(q, fields);
    FieldKeys(q, fields);
    q
  }

  /** Each parameter of the built query holds the tokens of its own field, in order. */
  lemma BuildQueryFields(c: DeploymentConfig)
    ensures Lookup(BuildQuery(c), "deviceUID") == Tokens(c.deviceUID)
    ensures Lookup(BuildQuery(c), "tags") == Tokens(c.tag)
    ensures Lookup(BuildQuery(c), "serialNumber") == Tokens(c.serialNumber)
    ensures Lookup(BuildQuery(c), "fleetUID") == Tokens(c.fleetUID)
    ensures Lookup(BuildQuery(c), "productUID") == Tokens(c.productUID)
    ensures Lookup(BuildQuery(c), "notecardFirmware") == Tokens(c.notecardFirmware)
    ensures Lookup(BuildQuery(c), "location") == Tokens(c.location)
    ensures Lookup(BuildQuery(c), "sku") == Tokens(c.sku)
  {
    TargetingAt(c);
  }

  /** Every value the built query holds is non-empty, and its keys are parameter names. */
  lemma BuildQueryShape(c: DeploymentConfig)
    ensures BuildQuery(c).Keys <= ParamNames
    ensures NoEmptyLists(BuildQuery(c))
  {
    var q := BuildQuery(c);
    TargetingNames(c);
    forall key | key in q
      ensures key in ParamNames && q[key] != []
    {
      assert key in Names(Targeting(c)) && Lookup(q, key) != [];
    }
  }

  /**
   The built query is the one whose parameters hold exactly the tokens of
   their fields: any query of parameter names without empty lists that agrees
   with every field is it.
   */
  lemma BuildQueryEquals(c: DeploymentConfig, q: Values)
    requires Lookup(q, "deviceUID") == Tokens(c.deviceUID)
    requires Lookup(q, "tags") == Tokens(c.tag)
    requires Lookup(q, "serialNumber") == Tokens(c.serialNumber)
    requires Lookup(q, "fleetUID") == Tokens(c.fleetUID)
    requires Lookup(q, "productUID") == Tokens(c.productUID)
    requires Lookup(q, "notecardFirmware") == Tokens(c.notecardFirmware)
    requires Lookup(q, "location") == Tokens(c.location)
    requires Lookup(q, "sku") == Tokens(c.sku)
    requires q.Keys <= ParamNames
    requires NoEmptyLists(q)
    ensures BuildQuery(c) == q
  {
    var b := BuildQuery(c);
    BuildQueryFields(c);
    BuildQueryShape(c);
    AgreeOnNames(b, q);
    SameLookups(b, q);
  }

  lemma AgreeOnNames(b: Values, q: Values)
    requires Lookup(b, "deviceUID") == Lookup(q, "deviceUID")
    requires Lookup(b, "tags") == Lookup(q, "tags")
    requires Lookup(b, "serialNumber") == Lookup(q, "serialNumber")
    requires Lookup(b, "fleetUID") == Lookup(q, "fleetUID")
    requires Lookup(b, "productUID") == Lookup(q, "productUID")
    requires Lookup(b, "notecardFirmware") == Lookup(q, "notecardFirmware")
    requires Lookup(b, "location") == Lookup(q, "location")
    requires Lookup(b, "sku") == Lookup(q, "sku")
    requires b.Keys <= ParamNames && q.Keys <= ParamNames
    ensures forall key :: Lookup(b, key) == Lookup(q, key)
  {
    forall key
      ensures Lookup(b, key) == Lookup(q, key)
    {
      if key !in ParamNames {
        assert key !in b && key !in q;
      }
    }
  }

  /** `{base}/projects/{projectUID}/dfu/host/update`. */
  function Endpoint(base: string, projectUID: string): string
  {
    base + "/projects/" + projectUID + "/dfu/host/update"
  }

  /** The trigger URL for a query: `?` and the encoding follow only when the query has a key. */
  function DfuURL(base: string, projectUID: string, q: Values): string
  {
    var path := Endpoint(base, projectUID);
    if |q| > 0 then path + "?" + Encode(q) else path
  }

  /** With a key in the query, the URL is the endpoint, `?` and the encoding. */
  lemma DfuURLWith(base: string, projectUID: string, q: Values, e: string)
    requires |q| > 0 && Encode(q) == e
    ensures DfuURL(base, projectUID, q) == Endpoint(base, projectUID) + "?" + e
  {
  }

  /** The URL `TriggerDFU` sends its request to. */
  function TriggerURL(base: string, c: DeploymentConfig): string
  {
    DfuURL(base, c.projectUID, BuildQuery(c))
  }

  /** Reads a URL back: the part before the first `?`, and the decoded query after it. */
  function ParseURL(url: string): Option<(string, Values)>
  {
    var cut := Cut(url, '?');
    if !cut.2 then Some((url, map[]))
    else match Decode(cut.1)
      case None => None
      case Some(q) => Some((cut.0, q))
  }

  /** Some targeting field yields at least one token. */
  predicate Targeted(c: DeploymentConfig) {
    exists i :: 0 <= i < |Targeting(c)| && Tokens(Targeting(c)[i].1) != []
  }

  /**
   A query whose keys are the named fields holding values, each field's name
   holding that field's tokens, is non-empty exactly when some field yields a token.
   */
  lemma KeyedByFields(q: Values, fields: seq<(string, string)>)
    requires forall key :: key in q <==> key in Names(fields) && Lookup(q, key) != []
    requires forall i :: 0 <= i < |fields| ==> Lookup(q, fields[i].0) == Tokens(fields[i].1)
    ensures |q| > 0 <==> exists i :: 0 <= i < |fields| && Tokens(fields[i].1) != []
  {
    if |q| > 0 {
      var k :| k in q;
      var i :| 0 <= i < |fields| && fields[i].0 == k;
      assert Tokens(fields[i].1) != [];
    }
    if exists i :: 0 <= i < |fields| && Tokens(fields[i].1) != [] {
      var i :| 0 <= i < |fields| && Tokens(fields[i].1) != [];
      assert fields[i].0 in q;
    }
  }

  /** The built query has a key exactly when some targeting field yields a token. */
  lemma QueryNonEmpty(c: DeploymentConfig)
    ensures |BuildQuery(c)| > 0 <==> Targeted(c)
  {
    KeyedByFields(BuildQuery(c), Targeting(c));
  }

  lemma EndpointHasNoMark(base: string, projectUID: string)
    requires '?' !in base && '?' !in projectUID
    ensures '?' !in Endpoint(base, projectUID)
  {
  }

  /** A DFU URL carries a `?` exactly when its query has a key. */
  lemma DfuURLMark(base: string, projectUID: string, q: Values)
    requires '?' !in base && '?' !in projectUID
    ensures '?' in DfuURL(base, projectUID, q) <==> |q| > 0
  {
    EndpointHasNoMark(base, projectUID);
    var path := Endpoint(base, projectUID);
    if |q| > 0 {
      assert DfuURL(base, projectUID, q)[|path|] == '?';
    }
  }

  /** Reading a DFU URL back recovers the endpoint and the query, when no key holds an empty list. */
  lemma ParseDfuURL(base: string, projectUID: string, q: Values)
    requires '?' !in base && '?' !in projectUID
    requires NoEmptyLists(q)
    ensures ParseURL(DfuURL(base, projectUID, q)) == Some((Endpoint(base, projectUID), q))
  {
    var path := Endpoint(base, projectUID);
    EndpointHasNoMark(base, projectUID);
    if |q| > 0 {
      CutAt(path, Encode(q), '?');
      DecodeEncode(q);
    } else {
      assert q == map[];
    }
  }

  /** The URL carries a `?` exactly when some targeting field yields a token. */
  lemma TriggerURLMark(base: string, c: DeploymentConfig)
    requires '?' !in base && '?' !in c.projectUID
    ensures '?' in TriggerURL(base, c) <==> Targeted(c)
  {
    QueryNonEmpty(c);
    DfuURLMark(base, c.projectUID, BuildQuery(c));
  }

  /**
   Reading the trigger URL back recovers the endpoint and the whole
   targeting query: nothing is lost, reordered within a key, or added.
   */
  lemma ParseTriggerURL(base: string, c: DeploymentConfig)
    requires '?' !in base && '?' !in c.projectUID
    ensures ParseURL(TriggerURL(base, c)) == Some((Endpoint(base, c.projectUID), BuildQuery(c)))
  {
    BuildQueryShape(c);
    ParseDfuURL(base, c.projectUID, BuildQuery(c));
  }
}
