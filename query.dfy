/**
 * The part of `URLSearchParams` the redirect normaliser relies on: parsing a
 * query string into name/value pairs (application/x-www-form-urlencoded
 * parsing, section 5.1 of the WHATWG URL Standard) and `get`, which returns
 * the value of the first pair with a given name.
 */
module Query {
  import opened Wrappers
  import Url

  type Pair = (string, string)

  /** `s` cut at every `sep`; the pieces themselves hold no `sep`. */
  function SplitOn(s: string, sep: char): (parts: seq<string>)
    ensures |parts| >= 1
    ensures forall i :: 0 <= i < |parts| ==> sep !in parts[i]
    decreases |s|
  {
    var n := Url.Cut(s, {sep});
    if n == |s| then [s] else [s[..n]] + SplitOn(s[n + 1..], sep)
  }

  /** A string without `sep` is a single piece. */
  lemma SplitSingle(s: string, sep: char)
    requires sep !in s
    ensures SplitOn(s, sep) == [s]
  {
    Url.CutAt(s, "", {sep});
    assert s + "" == s;
  }

  /** The pieces written one after another with `sep` between neighbours. */
  function Join(parts: seq<string>, sep: char): string
  {
    if |parts| == 0 then ""
    else if |parts| == 1 then parts[0]
    else parts[0] + [sep] + Join(parts[1..], sep)
  }

  /** Cutting at `sep` undoes joining with `sep`, for pieces that do not hold it. */
  lemma {:induction false} SplitJoin(parts: seq<string>, sep: char)
    requires |parts| >= 1
    requires forall i :: 0 <= i < |parts| ==> sep !in parts[i]
    ensures SplitOn(Join(parts, sep), sep) == parts
    decreases |parts|
  {
    var p := parts[0];
    if |parts| == 1 {
      Url.CutAt(p, "", {sep});
      assert p + "" == p;
    } else {
      var tail := Join(parts[1..], sep);
      var s := p + [sep] + tail;
      assert s == p + ([sep] + tail);
      Url.CutAt(p, [sep] + tail, {sep});
      assert s[..|p|] == p;
      assert s[|p| + 1..] == tail;
      SplitJoin(parts[1..], sep);
      assert [p] + parts[1..] == parts;
    }
  }

  /** Form decoding of one name or value: each `+` stands for a space. */
  function DecodeComponent(s: string): (r: string)
    ensures |r| == |s|
    ensures '+' !in r
    ensures '+' !in s ==> r == s
    ensures forall c :: c != ' ' && c != '+' ==> (c in r <==> c in s)
    ensures forall i :: 0 <= i < |s| ==> r[i] == if s[i] == '+' then ' ' else s[i]
  {
    var r := seq(|s|, i requires 0 <= i < |s| => if s[i] == '+' then ' ' else s[i]);
    assert forall c :: c != ' ' && c != '+' ==> (c in r <==> c in s) by {
      forall c | c != ' ' && c != '+'
        ensures c in r <==> c in s
      {
        if c in r {
          var i :| 0 <= i < |r| && r[i] == c;
          assert s[i] == c;
        }
        if c in s {
          var i :| 0 <= i < |s| && s[i] == c;
          assert r[i] == c;
        }
      }
    }
    r
  }

  /** A non-empty piece is a name up to its first `=` and a value after it; with no `=` the whole piece is the name and the value is empty. */
  function ParsePair(piece: string): (pair: Pair)
    ensures '=' !in pair.0
    ensures '+' !in pair.0 && '+' !in pair.1
    ensures '&' in pair.0 || '&' in pair.1 ==> '&' in piece
    ensures '=' !in piece ==> pair == (DecodeComponent(piece), "")
  {
    var n := Url.Cut(piece, {'='});
    if n == |piece| then (DecodeComponent(piece), "")
    else (DecodeComponent(piece[..n]), DecodeComponent(piece[n + 1..]))
  }

  /** Pieces are parsed in order; empty pieces (from `&&` or a trailing `&`) are skipped. */
  function ParsePieces(pieces: seq<string>): (pairs: seq<Pair>)
    ensures |pairs| <= |pieces|
    ensures (forall i :: 0 <= i < |pieces| ==> '&' !in pieces[i]) ==>
              forall i :: 0 <= i < |pairs| ==> '&' !in pairs[i].0 && '&' !in pairs[i].1
    ensures forall i :: 0 <= i < |pairs| ==> '+' !in pairs[i].0 && '+' !in pairs[i].1
  {
    if pieces == [] then []
    else if pieces[0] == "" then ParsePieces(pieces[1..])
    else [ParsePair(pieces[0])] + ParsePieces(pieces[1..])
  }

  /** Parsing distributes over concatenation: each piece is parsed on its own. */
  lemma {:induction false} ParsePiecesAppend(xs: seq<string>, ys: seq<string>)
    ensures ParsePieces(xs + ys) == ParsePieces(xs) + ParsePieces(ys)
    decreases |xs|
  {
    if xs != [] {
      assert (xs + ys)[0] == xs[0];
      assert (xs + ys)[1..] == xs[1..] + ys;
      ParsePiecesAppend(xs[1..], ys);
    } else {
      assert xs + ys == ys;
    }
  }

  /** An empty piece, wherever it stands (from `&&`, a leading or a trailing `&`), yields no pair. */
  lemma EmptyPieceSkipped(xs: seq<string>, ys: seq<string>)
    ensures ParsePieces(xs + [""] + ys) == ParsePieces(xs + ys)
  {
    ParsePiecesAppend(xs + [""], ys);
    ParsePiecesAppend(xs, [""]);
    ParsePiecesAppend(xs, ys);
    assert ParsePieces([""]) == [];
  }

  /** `new URLSearchParams(search)`: one leading `?` is dropped, the rest is cut at `&`. */
  function ParseQuery(search: string): (pairs: seq<Pair>)
    ensures search == "" || search == "?" ==> pairs == []
    ensures forall i :: 0 <= i < |pairs| ==>
              '&' !in pairs[i].0 && '&' !in pairs[i].1 && '+' !in pairs[i].0 && '+' !in pairs[i].1
  {
    var body := if search != "" && search[0] == '?' then search[1..] else search;
    ParsePieces(SplitOn(body, '&'))
  }

  /** `params.get(name)`: the value of the first pair named `name`, if any. */
  function Get(pairs: seq<Pair>, name: string): (r: Option<string>)
    ensures r.None? <==> forall i :: 0 <= i < |pairs| ==> pairs[i].0 != name
    ensures r.Some? ==> exists i :: 0 <= i < |pairs| && pairs[i] == (name, r.value) &&
                                    forall j :: 0 <= j < i ==> pairs[j].0 != name
  {
    if pairs == [] then None
    else if pairs[0].0 == name then Some(pairs[0].1)
    else Get(pairs[1..], name)
  }

  /**
   * Pairs that survive being written as a query string: names hold no `&`,
   * `=`, `+` or `%`, values no `&`, `+` or `%` (a `%` would be percent-decoded).
   */
  predicate Encodable(pairs: seq<Pair>)
  {
    forall i :: 0 <= i < |pairs| ==>
      && '&' !in pairs[i].0 && '=' !in pairs[i].0 && '+' !in pairs[i].0 && '%' !in pairs[i].0
      && '&' !in pairs[i].1 && '+' !in pairs[i].1 && '%' !in pairs[i].1
  }

  /** Each pair written as `name=value`. */
  function Pieces(pairs: seq<Pair>): (pieces: seq<string>)
    ensures |pieces| == |pairs|
  {
    seq(|pairs|, i requires 0 <= i < |pairs| => pairs[i].0 + "=" + pairs[i].1)
  }

  /** The query string a page builds from pairs: `?n1=v1&n2=v2...`, or nothing for no pairs. */
  function Serialize(pairs: seq<Pair>): string
  {
    if pairs == [] then "" else "?" + Join(Pieces(pairs), '&')
  }

  /** Decoding works character by character: the text on either side of a `+` decodes on its own. */
  lemma DecodePlus(a: string, b: string)
    ensures DecodeComponent(a + "+" + b) == DecodeComponent(a) + " " + DecodeComponent(b)
  {
    var s := a + "+" + b;
    var r := DecodeComponent(a) + " " + DecodeComponent(b);
    assert |DecodeComponent(s)| == |r|;
    forall i | 0 <= i < |s|
      ensures DecodeComponent(s)[i] == r[i]
    {
      if i < |a| {
        assert s[i] == a[i];
      } else if i > |a| {
        assert s[i] == b[i - |a| - 1];
      }
    }
  }

  /** A piece `name=value` parses to its name and value, each form-decoded. */
  lemma ParsePairOf(name: string, value: string)
    requires '=' !in name
    ensures ParsePair(name + "=" + value) == (DecodeComponent(name), DecodeComponent(value))
  {
    var piece := name + "=" + value;
    assert piece == name + ("=" + value);
    Url.CutAt(name, "=" + value, {'='});
    assert piece[..|name|] == name;
    assert piece[|name| + 1..] == value;
  }

  lemma {:induction false} ParsePiecesOf(pairs: seq<Pair>)
    requires Encodable(pairs)
    ensures ParsePieces(Pieces(pairs)) == pairs
    decreases |pairs|
  {
    if pairs != [] {
      var pieces := Pieces(pairs);
      ParsePairOf(pairs[0].0, pairs[0].1);
      assert pieces[0] != "" by { assert pieces[0][|pairs[0].0|] == '='; }
      assert pieces[1..] == Pieces(pairs[1..]);
      ParsePiecesOf(pairs[1..]);
      assert [pairs[0]] + pairs[1..] == pairs;
    }
  }

  /** Parsing the query string written from encodable pairs gives the same pairs, in order. */
  lemma ParseSerialize(pairs: seq<Pair>)
    requires Encodable(pairs)
    ensures ParseQuery(Serialize(pairs)) == pairs
  {
    if pairs == [] {
      assert SplitOn("", '&') == [""];
    } else {
      var pieces := Pieces(pairs);
      assert forall i :: 0 <= i < |pieces| ==> '&' !in pieces[i] by {
        forall i | 0 <= i < |pieces| ensures '&' !in pieces[i] {
          assert pieces[i] == pairs[i].0 + "=" + pairs[i].1;
        }
      }
      SplitJoin(pieces, '&');
      assert Serialize(pairs)[1..] == Join(pieces, '&');
      ParsePiecesOf(pairs);
    }
  }
}
