/**
 Go's `url.Values`: a map from a key to the ordered list of values added under
 it, with `Add`, the encoding `Encode` (keys sorted, each key's values in the
 order they were added, `key=value` pairs joined by `&`, both sides escaped),
 and `Decode`, Go's `url.ParseQuery`, which reads an encoding back.
 */
module Values {
  import opened Wrappers
  import opened Text
  import opened Escape

  /** Each key maps to its values in the order they were added. */
  type Values = map<string, seq<string>>

  /** Go's `v[key]`: the values of `key`, none when it is absent. */
  function Lookup(v: Values, key: string): seq<string>
  {
    if key in v then v[key] else []
  }

  /** Every key present holds at least one value. */
  ghost predicate NoEmptyLists(v: Values) {
    forall k :: k in v ==> v[k] != []
  }

  /** Without empty lists, a query is determined by what `Lookup` reads from it. */
  lemma SameLookups(a: Values, b: Values)
    requires NoEmptyLists(a) && NoEmptyLists(b)
    requires forall k :: Lookup(a, k) == Lookup(b, k)
    ensures a == b
  {
    forall k | k in a
      ensures k in b && a[k] == b[k]
    {
      assert Lookup(a, k) == a[k];
    }
    forall k | k in b
      ensures k in a
    {
      assert Lookup(b, k) == b[k];
    }
  }

  /** Go's `Values.Add`: appends `value` after the values `key` already has. */
  function Add(v: Values, key: string, value: string): (r: Values)
    ensures r.Keys == v.Keys + {key}
    ensures Lookup(r, key) == Lookup(v, key) + [value]
    ensures forall k :: k != key ==> Lookup(r, k) == Lookup(v, k)
  {
    v[key := Lookup(v, key) + [value]]
  }

  /** Adds the pairs one after another, left to right. */
  function AddAll(v: Values, ps: seq<(string, string)>): Values
    decreases ps
  {
    if ps == [] then v else AddAll(Add(v, ps[0].0, ps[0].1), ps[1..])
  }

  lemma {:induction false} AddAllAppend(v: Values, ps: seq<(string, string)>, qs: seq<(string, string)>)
    ensures AddAll(v, ps + qs) == AddAll(AddAll(v, ps), qs)
    decreases ps
  {
    if ps == [] {
      assert ps + qs == qs;
    } else {
      assert (ps + qs)[1..] == ps[1..] + qs;
      AddAllAppend(Add(v, ps[0].0, ps[0].1), ps[1..], qs);
    }
  }

  /** The pairs that add each of `vs`, in order, under `key`. */
  function Group(key: string, vs: seq<string>): (ps: seq<(string, string)>)
    ensures |ps| == |vs|
    ensures forall i :: 0 <= i < |ps| ==> ps[i] == (key, vs[i])
  {
    seq(|vs|, i requires 0 <= i < |vs| => (key, vs[i]))
  }

  /** Adding a group appends its values to the key's list and leaves every other key alone. */
  lemma {:induction false} AddAllGroup(v: Values, key: string, vs: seq<string>)
    requires vs != []
    ensures AddAll(v, Group(key, vs)) == v[key := Lookup(v, key) + vs]
    decreases |vs|
  {
    var g := Group(key, vs);
    var v' := Add(v, key, vs[0]);
    if |vs| == 1 {
      assert g[1..] == [];
      assert AddAll(v, g) == AddAll(v', []) == v';
      assert vs == [vs[0]];
    } else {
      assert g[1..] == Group(key, vs[1..]);
      AddAllGroup(v', key, vs[1..]);
      assert Lookup(v', key) + vs[1..] == Lookup(v, key) + vs;
    }
  }

  /** `m` is the least of `s` in the string order. */
  predicate IsLeast(m: string, s: set<string>) {
    m in s && forall x :: x in s ==> LessEq(m, x)
  }

  lemma {:induction false} LeastExists(s: set<string>)
    requires s != {}
    ensures exists m :: IsLeast(m, s)
    decreases s
  {
    var x :| x in s;
    if s != {x} {
      LeastExists(s - {x});
      var m :| IsLeast(m, s - {x});
      LessEqTotal(m, x);
      if LessEq(m, x) {
        assert IsLeast(m, s);
      } else {
        assert LessEq(x, m);
        forall y | y in s
          ensures LessEq(x, y)
        {
          if y != x {
            assert y in s - {x};
            LessEqTransitive(x, m, y);
          } else {
            LessEqReflexive(x);
          }
        }
        assert IsLeast(x, s);
      }
    } else {
      LessEqReflexive(x);
      assert IsLeast(x, s);
    }
  }

  lemma {:induction false} LessEqReflexive(a: string)
    ensures LessEq(a, a)
  {
    if a != [] {
      LessEqReflexive(a[1..]);
    }
  }

  lemma LeastUnique(s: set<string>)
    ensures forall m, m' :: IsLeast(m, s) && IsLeast(m', s) ==> m == m'
  {
    forall m, m' | IsLeast(m, s) && IsLeast(m', s)
      ensures m == m'
    {
      LessEqAntisymmetric(m, m');
    }
  }

  /** Each key strictly before the next: sorted and without repeats. */
  ghost predicate StrictlySorted(ks: seq<string>) {
    forall i, j :: 0 <= i < j < |ks| ==> Less(ks[i], ks[j])
  }

  /** Go's `slices.Sort` over the keys of a map: the keys in increasing order. */
  function SortedKeys(s: set<string>): (r: seq<string>)
    ensures StrictlySorted(r)
    ensures forall k :: k in r <==> k in s
    ensures |r| == |s|
    decreases s
  {
    if s == {} then []
    else
      LeastExists(s);
      LeastUnique(s);
      var m :| IsLeast(m, s);
      var rest := SortedKeys(s - {m});
      assert forall k :: k in rest ==> Less(m, k);
      [m] + rest
  }

  lemma HeadIn(s: seq<string>)
    ensures |s| > 0 ==> s[0] in s
  {
  }

  /** Each key strictly before its neighbour makes the whole sequence strictly sorted. */
  lemma {:induction false} SortedByNeighbours(ks: seq<string>)
    requires forall i :: 0 <= i < |ks| - 1 ==> Less(ks[i], ks[i + 1])
    ensures StrictlySorted(ks)
  {
    if |ks| > 1 {
      SortedByNeighbours(ks[1..]);
      forall j | 1 < j < |ks|
        ensures Less(ks[0], ks[j])
      {
        assert Less(ks[0], ks[1]);
        assert Less(ks[1..][0], ks[1..][j - 1]);
        LessEqTransitive(ks[0], ks[1], ks[j]);
        if ks[0] == ks[j] {
          LessEqAntisymmetric(ks[1], ks[j]);
        }
      }
      forall i, j | 0 <= i < j < |ks|
        ensures Less(ks[i], ks[j])
      {
        if i > 0 {
          assert Less(ks[1..][i - 1], ks[1..][j - 1]);
        }
      }
    }
  }

  /** Two strictly sorted sequences with the same elements are the same sequence. */
  lemma {:induction false} SortedUnique(a: seq<string>, b: seq<string>)
    requires StrictlySorted(a) && StrictlySorted(b)
    requires forall k :: k in a <==> k in b
    ensures a == b
    decreases |a|
  {
    HeadIn(a);
    HeadIn(b);
    if |a| == 0 || |b| == 0 {
      if |a| + |b| > 0 {
        assert false;
      }
    } else {
      assert a[0] in b;
      assert b[0] in a;
      if a[0] != b[0] {
        var i :| 0 <= i < |a| && a[i] == b[0];
        var j :| 0 <= j < |b| && b[j] == a[0];
        assert Less(a[0], a[i]) && Less(b[0], b[j]);
        LessEqAntisymmetric(a[0], b[0]);
      }
      forall k
        ensures k in a[1..] <==> k in b[1..]
      {
        if k in a[1..] {
          var i :| 1 <= i < |a| && a[i] == k;
          assert Less(a[0], a[i]);
          assert k in a && k in b;
          var j :| 0 <= j < |b| && b[j] == k;
          assert j != 0;
          assert b[1..][j - 1] == k;
        }
        if k in b[1..] {
          var j :| 1 <= j < |b| && b[j] == k;
          assert Less(b[0], b[j]);
          assert k in b && k in a;
          var i :| 0 <= i < |a| && a[i] == k;
          assert i != 0;
          assert a[1..][i - 1] == k;
        }
      }
      SortedUnique(a[1..], b[1..]);
      assert a == [a[0]] + a[1..] && b == [b[0]] + b[1..];
    }
  }

  /** Any strictly sorted listing of a set is the one `SortedKeys` gives. */
  lemma SortedKeysOf(s: set<string>, ks: seq<string>)
    requires StrictlySorted(ks)
    requires forall k :: k in ks <==> k in s
    ensures SortedKeys(s) == ks
  {
    SortedUnique(SortedKeys(s), ks);
  }

  /** The pairs of `v` for the keys `ks`, key by key, each key's values in order. */
  function PairsOf(v: Values, ks: seq<string>): seq<(string, string)>
  {
    if ks == [] then [] else Group(ks[0], Lookup(v, ks[0])) + PairsOf(v, ks[1..])
  }

  /** The values the pairs hold for `key`, in order. */
  function ValuesFor(ps: seq<(string, string)>, key: string): seq<string>
  {
    if ps == [] then [] else (if ps[0].0 == key then [ps[0].1] else []) + ValuesFor(ps[1..], key)
  }

  lemma {:induction false} ValuesForAppend(ps: seq<(string, string)>, qs: seq<(string, string)>, key: string)
    ensures ValuesFor(ps + qs, key) == ValuesFor(ps, key) + ValuesFor(qs, key)
  {
    if ps == [] {
      assert ps + qs == qs;
    } else {
      assert (ps + qs)[1..] == ps[1..] + qs;
      ValuesForAppend(ps[1..], qs, key);
    }
  }

  lemma {:induction false} ValuesForGroup(k: string, vs: seq<string>, key: string)
    ensures ValuesFor(Group(k, vs), key) == if k == key then vs else []
  {
    if vs != [] {
      assert Group(k, vs)[1..] == Group(k, vs[1..]);
      ValuesForGroup(k, vs[1..], key);
      assert vs == [vs[0]] + vs[1..];
    }
  }

  /** Every pair laid out for `ks` carries one of the keys of `ks`. */
  lemma {:induction false} PairsOfKeys(v: Values, ks: seq<string>)
    ensures forall i :: 0 <= i < |PairsOf(v, ks)| ==> PairsOf(v, ks)[i].0 in ks
  {
    if ks != [] {
      var g := Group(ks[0], Lookup(v, ks[0]));
      var rest := PairsOf(v, ks[1..]);
      var ps := PairsOf(v, ks);
      assert ps == g + rest;
      PairsOfKeys(v, ks[1..]);
      forall i | 0 <= i < |ps|
        ensures ps[i].0 in ks
      {
        if i >= |g| {
          assert ps[i] == rest[i - |g|];
          assert rest[i - |g|].0 in ks[1..];
        }
      }
    }
  }

  /** Laying out sorted keys gives pairs whose keys never decrease. */
  lemma {:induction false} PairsOfSorted(v: Values, ks: seq<string>)
    requires StrictlySorted(ks)
    ensures forall i, j :: 0 <= i < j < |PairsOf(v, ks)| ==> LessEq(PairsOf(v, ks)[i].0, PairsOf(v, ks)[j].0)
  {
    if ks != [] {
      var g := Group(ks[0], Lookup(v, ks[0]));
      var rest := PairsOf(v, ks[1..]);
      var ps := PairsOf(v, ks);
      assert ps == g + rest;
      PairsOfSorted(v, ks[1..]);
      PairsOfKeys(v, ks[1..]);
      LessEqReflexive(ks[0]);
      forall i, j | 0 <= i < j < |ps|
        ensures LessEq(ps[i].0, ps[j].0)
      {
        if j < |g| {
          assert ps[i] == g[i] && ps[j] == g[j];
        } else if i < |g| {
          assert ps[i] == g[i] && ps[j] == rest[j - |g|];
          assert rest[j - |g|].0 in ks[1..];
          var m :| 1 <= m < |ks| && ks[m] == rest[j - |g|].0;
          assert Less(ks[0], ks[m]);
        } else {
          assert ps[i] == rest[i - |g|] && ps[j] == rest[j - |g|];
        }
      }
    }
  }

  /** Laying out distinct keys keeps, for each of them, exactly its values in order. */
  lemma {:induction false} PairsOfValues(v: Values, ks: seq<string>, key: string)
    requires StrictlySorted(ks)
    ensures ValuesFor(PairsOf(v, ks), key) == if key in ks then Lookup(v, key) else []
  {
    if ks != [] {
      var g := Group(ks[0], Lookup(v, ks[0]));
      var rest := PairsOf(v, ks[1..]);
      assert PairsOf(v, ks) == g + rest;
      PairsOfValues(v, ks[1..], key);
      ValuesForAppend(g, rest, key);
      ValuesForGroup(ks[0], Lookup(v, ks[0]), key);
      if key != ks[0] {
        assert key in ks <==> key in ks[1..];
      } else {
        assert forall m :: 1 <= m < |ks| ==> Less(ks[0], ks[m]);
      }
    }
  }

  /** The pairs `Encode` writes: keys in increasing order, each key's values in the order they were added. */
  function Pairs(v: Values): (ps: seq<(string, string)>)
    ensures forall i, j :: 0 <= i < j < |ps| ==> LessEq(ps[i].0, ps[j].0)
    ensures forall key :: ValuesFor(ps, key) == Lookup(v, key)
    ensures forall i :: 0 <= i < |ps| ==> ps[i].0 in v
  {
    var ks := SortedKeys(v.Keys);
    PairsOfKeys(v, ks);
    PairsOfSorted(v, ks);
    PairsOfValuesAll(v, ks);
    PairsOf(v, ks)
  }

  lemma PairsOfValuesAll(v: Values, ks: seq<string>)
    requires StrictlySorted(ks)
    ensures forall key :: ValuesFor(PairsOf(v, ks), key) == if key in ks then Lookup(v, key) else []
  {
    forall key {
      PairsOfValues(v, ks, key);
    }
  }

  /** The encoding of `v`, spelled out over a strictly sorted listing of its keys. */
  lemma EncodeByKeys(v: Values, ks: seq<string>)
    requires StrictlySorted(ks)
    requires forall k :: k in ks <==> k in v
    ensures Encode(v) == Join(RenderAll(PairsOf(v, ks)), '&')
  {
    SortedKeysOf(v.Keys, ks);
  }

  /** A query of one key holding one unreserved value encodes as `key=value`. */
  lemma EncodeSingle(k: string, x: string)
    requires Plain(k) && Plain(x)
    ensures Encode(map[k := [x]]) == k + "=" + x
  {
    var v := map[k := [x]];
    EncodeByKeys(v, [k]);
    assert PairsOf(v, [k]) == [(k, x)];
    RenderPlain((k, x));
    assert RenderAll([(k, x)]) == [k + "=" + x];
  }

  /** One `key=value` element of an encoding, both sides escaped. */
  function Render(p: (string, string)): (r: string)
    ensures '&' !in r && ';' !in r
  {
    QueryEscape(p.0) + "=" + QueryEscape(p.1)
  }

  /** A pair of unreserved strings is written as it stands. */
  lemma RenderPlain(p: (string, string))
    requires Plain(p.0) && Plain(p.1)
    ensures Render(p) == p.0 + "=" + p.1
  {
    QueryEscapeUnreserved(p.0);
    QueryEscapeUnreserved(p.1);
  }

  function RenderAll(ps: seq<(string, string)>): (r: seq<string>)
    ensures |r| == |ps|
    ensures forall i :: 0 <= i < |r| ==> r[i] == Render(ps[i])
  {
    if ps == [] then [] else [Render(ps[0])] + RenderAll(ps[1..])
  }

  lemma {:induction false} RenderAllAppend(a: seq<(string, string)>, b: seq<(string, string)>)
    ensures RenderAll(a + b) == RenderAll(a) + RenderAll(b)
  {
    if a == [] {
      assert a + b == b;
    } else {
      assert (a + b)[0] == a[0];
      assert (a + b)[1..] == a[1..] + b;
      RenderAllAppend(a[1..], b);
      Assoc([Render(a[0])], RenderAll(a[1..]), RenderAll(b));
    }
  }

  /** Go's `Values.Encode`: the elements of `Pairs`, joined by `&`. */
  function Encode(v: Values): (r: string)
  {
    Join(RenderAll(Pairs(v)), '&')
  }

  /** One element `key=value`, unescaped; a `;` or a bad escape is an error. */
  function ParsePair(piece: string): Option<(string, string)>
  {
    if ';' in piece then None
    else
      var cut := Cut(piece, '=');
      match (QueryUnescape(cut.0), QueryUnescape(cut.1))
      case (Some(k), Some(x)) => Some((k, x))
      case _ => None
  }

  /** Parses the elements in order, skipping empty ones. */
  function ParsePairs(pieces: seq<string>): Option<seq<(string, string)>>
  {
    if pieces == [] then Some([])
    else if pieces[0] == [] then ParsePairs(pieces[1..])
    else match (ParsePair(pieces[0]), ParsePairs(pieces[1..]))
      case (Some(p), Some(ps)) => Some([p] + ps)
      case _ => None
  }

  /** Go's `url.ParseQuery`, where any malformed element makes the whole query an error. */
  function Decode(query: string): Option<Values>
  {
    match ParsePairs(Split(query, '&'))
    case None => None
    case Some(ps) => Some(AddAll(map[], ps))
  }

  lemma ParseRender(p: (string, string))
    ensures ParsePair(Render(p)) == Some(p)
  {
    CutAt(QueryEscape(p.0), QueryEscape(p.1), '=');
    QueryUnescapeEscape(p.0);
    QueryUnescapeEscape(p.1);
  }

  lemma {:induction false} ParseRenderAll(ps: seq<(string, string)>)
    ensures ParsePairs(RenderAll(ps)) == Some(ps)
  {
    if ps != [] {
      var rs := RenderAll(ps);
      assert rs[0] == Render(ps[0]) && rs[0] != [];
      assert rs[1..] == RenderAll(ps[1..]);
      ParseRender(ps[0]);
      ParseRenderAll(ps[1..]);
      assert [ps[0]] + ps[1..] == ps;
    }
  }

  /** The part of `v` on the keys of `ks`. */
  function Restrict(v: Values, ks: seq<string>): Values
  {
    map k | k in v && k in ks :: v[k]
  }

  /** Adding the pairs of fresh keys, key by key, puts exactly those keys' lists in place. */
  lemma {:induction false} AddAllPairsOf(acc: Values, v: Values, ks: seq<string>)
    requires forall i, j :: 0 <= i < j < |ks| ==> ks[i] != ks[j]
    requires forall i :: 0 <= i < |ks| ==> ks[i] in v && v[ks[i]] != [] && ks[i] !in acc
    ensures AddAll(acc, PairsOf(v, ks)) == acc + Restrict(v, ks)
    decreases ks
  {
    if ks == [] {
      assert Restrict(v, ks) == map[];
    } else {
      var k := ks[0];
      var g := Group(k, v[k]);
      var rest := PairsOf(v, ks[1..]);
      assert PairsOf(v, ks) == g + rest;
      AddAllAppend(acc, g, rest);
      var acc' := acc[k := v[k]];
      assert AddAll(acc, g) == acc' by {
        AddAllGroup(acc, k, v[k]);
        assert Lookup(acc, k) + v[k] == v[k];
      }
      assert forall i :: 0 <= i < |ks[1..]| ==> ks[1..][i] !in acc' by {
        assert forall i :: 1 <= i < |ks| ==> ks[i] != k;
      }
      AddAllPairsOf(acc', v, ks[1..]);
      RestrictCons(acc, v, ks);
    }
  }

  lemma RestrictCons(acc: Values, v: Values, ks: seq<string>)
    requires ks != [] && ks[0] in v
    ensures acc[ks[0] := v[ks[0]]] + Restrict(v, ks[1..]) == acc + Restrict(v, ks)
  {
    var l := acc[ks[0] := v[ks[0]]] + Restrict(v, ks[1..]);
    var r := acc + Restrict(v, ks);
    assert forall k :: k in ks <==> k == ks[0] || k in ks[1..];
    assert l.Keys == r.Keys;
    assert forall k :: k in l ==> l[k] == r[k];
  }

  /** Decoding undoes encoding for every query whose keys each hold a value. */
  lemma DecodeEncode(v: Values)
    requires NoEmptyLists(v)
    ensures Decode(Encode(v)) == Some(v)
  {
    var ps := Pairs(v);
    DecodePairs(ps);
    AddAllPairs(v);
  }

  /** The elements of an encoding parse back to the pairs they were written from. */
  lemma DecodePairs(ps: seq<(string, string)>)
    ensures ParsePairs(Split(Join(RenderAll(ps), '&'), '&')) == Some(ps)
  {
    var rs := RenderAll(ps);
    if ps == [] {
      assert Split(Join(rs, '&'), '&') == [[]];
    } else {
      SplitJoin(rs, '&');
      ParseRenderAll(ps);
    }
  }

  /** Adding the pairs of `v` one by one to an empty query rebuilds `v`. */
  lemma AddAllPairs(v: Values)
    requires NoEmptyLists(v)
    ensures AddAll(map[], Pairs(v)) == v
  {
    var ks := SortedKeys(v.Keys);
    assert Pairs(v) == PairsOf(v, ks);
    forall i, j | 0 <= i < j < |ks|
      ensures ks[i] != ks[j]
    {
      assert Less(ks[i], ks[j]);
    }
    AddAllPairsOf(map[], v, ks);
    RestrictAll(v, ks);
  }

  lemma RestrictAll(v: Values, ks: seq<string>)
    requires forall k :: k in v ==> k in ks
    ensures map[] + Restrict(v, ks) == v
  {
    var r := map[] + Restrict(v, ks);
    assert r.Keys == v.Keys;
    assert forall k :: k in r ==> r[k] == v[k];
  }
}
