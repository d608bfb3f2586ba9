/**
 The parameter normalizer `addCommaSeparatedParams(queryParams, paramName, value)`:
 a targeting value may hold several comma-separated entries; each is trimmed
 of white space, empty ones are dropped, and the rest are added in order as
 repeated values of one query parameter.
 */
module Normalizer {
  import opened Text
  import opened Values

  /** Trims every piece. */
  function TrimAll(pieces: seq<string>): (r: seq<string>)
    ensures |r| == |pieces|
  {
    if pieces == [] then [] else [TrimSpace(pieces[0])] + TrimAll(pieces[1..])
  }

  /** Each trimmed piece is the trim of the piece at the same place. */
  lemma {:induction false} TrimAllAt(pieces: seq<string>)
    ensures forall i :: 0 <= i < |pieces| ==> TrimAll(pieces)[i] == TrimSpace(pieces[i])
  {
    if pieces != [] {
      TrimAllAt(pieces[1..]);
      forall i | 1 <= i < |pieces|
        ensures TrimAll(pieces)[i] == TrimSpace(pieces[i])
      {
        assert TrimAll(pieces)[i] == TrimAll(pieces[1..])[i - 1];
        assert pieces[1..][i - 1] == pieces[i];
      }
    }
  }

  lemma {:induction false} TrimAllAppend(a: seq<string>, b: seq<string>)
    ensures TrimAll(a + b) == TrimAll(a) + TrimAll(b)
  {
    if a == [] {
      assert a + b == b;
    } else {
      assert (a + b)[0] == a[0];
      assert (a + b)[1..] == a[1..] + b;
      TrimAllAppend(a[1..], b);
      Assoc([TrimSpace(a[0])], TrimAll(a[1..]), TrimAll(b));
    }
  }

  /** Keeps the non-empty pieces, in order. */
  function NonEmpty(pieces: seq<string>): (r: seq<string>)
    ensures forall i :: 0 <= i < |r| ==> r[i] != []
  {
    if pieces == [] then []
    else (if pieces[0] == [] then [] else [pieces[0]]) + NonEmpty(pieces[1..])
  }

  lemma {:induction false} NonEmptyFrom(pieces: seq<string>)
    ensures forall i :: 0 <= i < |NonEmpty(pieces)| ==> NonEmpty(pieces)[i] in pieces
  {
    if pieces != [] {
      NonEmptyFrom(pieces[1..]);
      var head := if pieces[0] == [] then [] else [pieces[0]];
      var r := NonEmpty(pieces);
      assert r == head + NonEmpty(pieces[1..]);
      forall i | 0 <= i < |r|
        ensures r[i] in pieces
      {
        if i >= |head| {
          assert r[i] == NonEmpty(pieces[1..])[i - |head|];
        }
      }
    }
  }

  lemma {:induction false} NonEmptyAppend(a: seq<string>, b: seq<string>)
    ensures NonEmpty(a + b) == NonEmpty(a) + NonEmpty(b)
  {
    if a == [] {
      assert a + b == b;
    } else {
      assert (a + b)[1..] == a[1..] + b;
      NonEmptyAppend(a[1..], b);
    }
  }

  /**
   The tokens of a raw targeting value: split on `,`, each piece trimmed,
   empty pieces dropped. Each token is non-empty, comma-free and trimmed;
   `TokensArePieces` shows that each is the trim of one piece.
   */
  function Tokens(raw: string): (r: seq<string>)
    ensures forall i :: 0 <= i < |r| ==> r[i] != [] && ',' !in r[i] && Trimmed(r[i])
  {
    var pieces := Split(raw, ',');
    var trimmed := TrimAll(pieces);
    TrimAllAt(pieces);
    assert forall i :: 0 <= i < |trimmed| ==> ',' !in trimmed[i] && Trimmed(trimmed[i]) by {
      forall i | 0 <= i < |trimmed|
        ensures ',' !in trimmed[i] && Trimmed(trimmed[i])
      {
        var t := TrimSpace(pieces[i]);
        TrimSpaceIsTrim(pieces[i]);
        var a, b :| TrimBounds(t, pieces[i], a, b);
        assert forall c :: c in t ==> c in pieces[i];
      }
    }
    NonEmptyFrom(trimmed);
    NonEmpty(trimmed)
  }

  /** Every token is the trim of one of the comma-separated pieces of the value. */
  lemma TokensArePieces(raw: string)
    ensures forall i :: 0 <= i < |Tokens(raw)| ==>
      exists j :: 0 <= j < |Split(raw, ',')| && Tokens(raw)[i] == TrimSpace(Split(raw, ',')[j])
  {
    TokensFromPieces(raw, Split(raw, ','));
  }

  lemma TokensFromPieces(raw: string, pieces: seq<string>)
    requires pieces == Split(raw, ',')
    ensures forall i :: 0 <= i < |Tokens(raw)| ==>
      exists j :: 0 <= j < |pieces| && Tokens(raw)[i] == TrimSpace(pieces[j])
  {
    var trimmed := TrimAll(pieces);
    TrimAllAt(pieces);
    NonEmptyFrom(trimmed);
    assert Tokens(raw) == NonEmpty(trimmed);
    forall i | 0 <= i < |Tokens(raw)|
      ensures exists j :: 0 <= j < |pieces| && Tokens(raw)[i] == TrimSpace(pieces[j])
    {
      var j :| 0 <= j < |trimmed| && trimmed[j] == Tokens(raw)[i];
      assert Tokens(raw)[i] == TrimSpace(pieces[j]);
    }
  }

  /** The loop of `addCommaSeparatedParams`: trim each piece and add it when non-empty. */
  function AddPieces(q: Values, name: string, pieces: seq<string>): (r: Values)
    ensures Lookup(r, name) == Lookup(q, name) + NonEmpty(TrimAll(pieces))
    ensures forall k :: k != name ==> Lookup(r, k) == Lookup(q, k)
    ensures r.Keys == q.Keys + (if NonEmpty(TrimAll(pieces)) == [] then {} else {name})
    decreases pieces
  {
    if pieces == [] then q
    else
      var t := TrimSpace(pieces[0]);
      var q' := if t != [] then Add(q, name, t) else q;
      var r := AddPieces(q', name, pieces[1..]);
      AddPiecesStep(q, q', r, name, pieces);
      r
  }

  lemma NonEmptyCons(pieces: seq<string>)
    requires pieces != []
    ensures NonEmpty(TrimAll(pieces)) == (if TrimSpace(pieces[0]) == [] then [] else [TrimSpace(pieces[0])]) + NonEmpty(TrimAll(pieces[1..]))
  {
    var ts := TrimAll(pieces);
    assert ts[0] == TrimSpace(pieces[0]);
    assert ts[1..] == TrimAll(pieces[1..]);
  }

  /** One turn of the loop: what holds after the remaining pieces holds after all of them. */
  lemma AddPiecesStep(q: Values, q': Values, r: Values, name: string, pieces: seq<string>)
    requires pieces != []
    requires q' == if TrimSpace(pieces[0]) != [] then Add(q, name, TrimSpace(pieces[0])) else q
    requires Lookup(r, name) == Lookup(q', name) + NonEmpty(TrimAll(pieces[1..]))
    requires forall k :: k != name ==> Lookup(r, k) == Lookup(q', k)
    requires r.Keys == q'.Keys + (if NonEmpty(TrimAll(pieces[1..])) == [] then {} else {name})
    ensures Lookup(r, name) == Lookup(q, name) + NonEmpty(TrimAll(pieces))
    ensures forall k :: k != name ==> Lookup(r, k) == Lookup(q, k)
    ensures r.Keys == q.Keys + (if NonEmpty(TrimAll(pieces)) == [] then {} else {name})
  {
    NonEmptyCons(pieces);
    PieceStep(q, q', r, name, TrimSpace(pieces[0]), NonEmpty(TrimAll(pieces[1..])), NonEmpty(TrimAll(pieces)));
  }

  /** The bookkeeping of one turn, whatever the piece and the remaining tokens are. */
  lemma PieceStep(q: Values, q': Values, r: Values, name: string, t: string, rest: seq<string>, all: seq<string>)
    requires all == (if t == [] then [] else [t]) + rest
    requires q' == if t != [] then Add(q, name, t) else q
    requires Lookup(r, name) == Lookup(q', name) + rest
    requires forall k :: k != name ==> Lookup(r, k) == Lookup(q', k)
    requires r.Keys == q'.Keys + (if rest == [] then {} else {name})
    ensures Lookup(r, name) == Lookup(q, name) + all
    ensures forall k :: k != name ==> Lookup(r, k) == Lookup(q, k)
    ensures r.Keys == q.Keys + (if all == [] then {} else {name})
  {
    if t == [] {
      assert all == rest;
    } else {
      Assoc(Lookup(q, name), [t], rest);
    }
  }

  /**
   Go's `addCommaSeparatedParams`: appends the tokens of `value`, in order,
   as values of `name`; an empty or blank `value` leaves the query as it is.
   */
  function AddCommaSeparatedParams(q: Values, name: string, value: string): (r: Values)
    ensures Lookup(r, name) == Lookup(q, name) + Tokens(value)
    ensures forall k :: k != name ==> Lookup(r, k) == Lookup(q, k)
    ensures r.Keys == q.Keys + (if Tokens(value) == [] then {} else {name})
  {
    AddPieces(q, name, Split(value, ','))
  }

  /**
   On a fresh query the parameter holds exactly the value's tokens and no
   other parameter is present; a value without tokens leaves the query empty.
   */
  lemma AddToFresh(name: string, value: string)
    ensures AddCommaSeparatedParams(map[], name, value)
      == if Tokens(value) == [] then map[] else map[name := Tokens(value)]
  {
    var r := AddCommaSeparatedParams(map[], name, value);
    var e: Values := if Tokens(value) == [] then map[] else map[name := Tokens(value)];
    assert NoEmptyLists(r) by {
      forall k | k in r
        ensures r[k] != []
      {
        assert k == name && Lookup(r, k) == Tokens(value);
      }
    }
    forall k
      ensures Lookup(r, k) == Lookup(e, k)
    {
    }
    SameLookups(r, e);
  }

  /** A comma-free value has at most one token: its trim. */
  lemma TokensOfPiece(s: string)
    requires ',' !in s
    ensures Tokens(s) == if TrimSpace(s) == [] then [] else [TrimSpace(s)]
  {
    SplitNoSeparator(s, ',');
    var t := TrimSpace(s);
    assert TrimAll([s]) == [t];
    assert NonEmpty([t]) == if t == [] then [] else [t] by {
      assert [t][1..] == [];
    }
  }

  /** A single value without a comma or surrounding blanks is the one token. */
  lemma TokensSingle(s: string)
    requires s != [] && ',' !in s && Trimmed(s)
    ensures Tokens(s) == [s]
  {
    TokensOfPiece(s);
    TrimSpaceOfTrimmed(s);
  }

  /** White space around a single value is cut away: the value is the one token. */
  lemma TokensPadded(a: string, t: string, b: string)
    requires AllSpace(a) && AllSpace(b)
    requires t != [] && ',' !in t && Trimmed(t)
    ensures Tokens(a + t + b) == [t]
  {
    var s := a + t + b;
    assert ',' !in s by {
      assert forall i :: 0 <= i < |a| ==> s[i] == a[i];
      assert forall i :: 0 <= i < |t| ==> s[|a| + i] == t[i];
      assert forall i :: 0 <= i < |b| ==> s[|a| + |t| + i] == b[i];
    }
    TokensOfPiece(s);
    TrimSpaceAround(a, t, b);
  }

  /** Tokens keep the left-to-right order of the input: a comma splits the tokens in two. */
  lemma TokensAround(a: string, b: string)
    ensures Tokens(a + [','] + b) == Tokens(a) + Tokens(b)
  {
    var s := a + [','] + b;
    var pa, pb := Split(a, ','), Split(b, ',');
    SplitAround(a, b, ',');
    var ta, tb := TrimAll(pa), TrimAll(pb);
    TrimAllAppend(pa, pb);
    NonEmptyAppend(ta, tb);
    assert Tokens(s) == NonEmpty(ta + tb);
  }

  /** Joining clean values with commas and reading them back yields the same values, repeats included. */
  lemma {:induction false} TokensJoin(parts: seq<string>)
    requires |parts| >= 1
    requires forall i :: 0 <= i < |parts| ==> parts[i] != [] && ',' !in parts[i] && Trimmed(parts[i])
    ensures Tokens(Join(parts, ',')) == parts
  {
    var p := parts[0];
    TokensSingle(p);
    ConsSplit(parts);
    if |parts| > 1 {
      var rest := parts[1..];
      CleanTail(parts);
      TokensJoin(rest);
      var j := Join(rest, ',');
      assert Join(parts, ',') == p + [','] + j;
      TokensAround(p, j);
    }
  }

  /** A sequence is its head followed by its tail. */
  lemma ConsSplit(parts: seq<string>)
    requires |parts| >= 1
    ensures [parts[0]] + parts[1..] == parts
    ensures |parts| == 1 ==> [parts[0]] == parts
  {
  }

  lemma CleanTail(parts: seq<string>)
    requires |parts| >= 1
    requires forall i :: 0 <= i < |parts| ==> parts[i] != [] && ',' !in parts[i] && Trimmed(parts[i])
    ensures forall i :: 0 <= i < |parts[1..]| ==> parts[1..][i] != [] && ',' !in parts[1..][i] && Trimmed(parts[1..][i])
  {
    forall i | 0 <= i < |parts[1..]|
      ensures parts[1..][i] != [] && ',' !in parts[1..][i] && Trimmed(parts[1..][i])
    {
      assert parts[1..][i] == parts[i + 1];
    }
  }

  ghost predicate Blank(s: string) {
    forall i :: 0 <= i < |s| ==> s[i] == ',' || IsSpace(s[i])
  }

  lemma BlankAround(a: string, b: string)
    ensures Blank(a + [','] + b) <==> Blank(a) && Blank(b)
  {
    var s := a + [','] + b;
    assert forall i :: 0 <= i < |a| ==> s[i] == a[i];
    assert forall i :: 0 <= i < |b| ==> s[|a| + 1 + i] == b[i];
    if Blank(a) && Blank(b) {
      forall i | 0 <= i < |s|
        ensures s[i] == ',' || IsSpace(s[i])
      {
        if i < |a| {
        } else if i > |a| {
          assert s[i] == b[i - |a| - 1];
        }
      }
    }
  }

  /** A value yields no token exactly when it is made only of commas and white space. */
  lemma {:induction false} TokensEmpty(s: string)
    ensures Tokens(s) == [] <==> Blank(s)
    decreases |s|
  {
    if ',' !in s {
      TokensOfPiece(s);
      TrimSpaceIsTrim(s);
      assert Blank(s) <==> AllSpace(s) by {
        assert forall i :: 0 <= i < |s| ==> s[i] != ',';
      }
    } else {
      var k :| 0 <= k < |s| && s[k] == ',';
      var a, b := s[..k], s[k + 1..];
      assert s == a + [','] + b;
      TokensAround(a, b);
      TokensEmpty(a);
      TokensEmpty(b);
      BlankAround(a, b);
      EmptyBoth(Tokens(s), Tokens(a), Tokens(b), Blank(s), Blank(a), Blank(b));
    }
  }

  lemma EmptyBoth(ts: seq<string>, ta: seq<string>, tb: seq<string>, bs: bool, ba: bool, bb: bool)
    requires ts == ta + tb
    requires ta == [] <==> ba
    requires tb == [] <==> bb
    requires bs <==> ba && bb
    ensures ts == [] <==> bs
  {
    assert |ts| == |ta| + |tb|;
  }

  /** An empty value adds nothing: the parameter stays absent. */
  lemma AddEmptyValue(q: Values, name: string)
    ensures AddCommaSeparatedParams(q, name, "") == q
  {
    assert Tokens("") == [] by {
      TokensEmpty("");
    }
    var r := AddCommaSeparatedParams(q, name, "");
    assert Lookup(r, name) == Lookup(q, name) by {
      assert Lookup(q, name) + [] == Lookup(q, name);
    }
    assert r.Keys == q.Keys;
    forall k | k in r
      ensures r[k] == q[k]
    {
      assert Lookup(r, k) == Lookup(q, k);
    }
  }
}
