/** The query string as `get` sees it: one leading '?' removed, then parsed
    the way node's `querystring.parse` does with its default separators,
    without percent- or plus-decoding. */
module Query {

  /** A parsed parameter: a string, or an array once the name repeats. */
  datatype Param = One(text: string) | Many(texts: seq<string>)

  type Params = map<string, Param>

  /** `search.replace(/^\?/, '')`: at most one leading '?' is removed. */
  function StripQuestion(search: string): (r: string)
    ensures search == r || search == "?" + r
    ensures r == search <==> !(|search| > 0 && search[0] == '?')
  {
    if |search| > 0 && search[0] == '?' then search[1..] else search
  }

  /** The first index of `c` in `s`, or `|s|` when there is none. */
  function IndexOf(s: string, c: char): (i: nat)
    ensures i <= |s|
    ensures c !in s[..i]
    ensures i < |s| ==> s[i] == c
  {
    if |s| == 0 then 0
    else if s[0] == c then 0
    else
      assert s[..1 + IndexOf(s[1..], c)] == [s[0]] + s[1..][..IndexOf(s[1..], c)];
      1 + IndexOf(s[1..], c)
  }

  /** `parts` glued back together with `sep` between neighbours. */
  function Join(parts: seq<string>, sep: char): string {
    if |parts| == 0 then ""
    else if |parts| == 1 then parts[0]
    else parts[0] + [sep] + Join(parts[1..], sep)
  }

  /** `s` cut at every `sep`. */
  function Split(s: string, sep: char): (parts: seq<string>)
    ensures |parts| >= 1
    ensures forall i :: 0 <= i < |parts| ==> sep !in parts[i]
    ensures Join(parts, sep) == s
    decreases |s|
  {
    var i := IndexOf(s, sep);
    if i == |s| then
      assert s[..i] == s;
      [s]
    else
      var rest := Split(s[i + 1..], sep);
      assert s == s[..i] + [sep] + s[i + 1..];
      [s[..i]] + rest
  }

  /** A name-value piece cut at its first '='; a piece without '=' is a name
      with the empty value. */
  function NameValue(piece: string): (nv: (string, string))
    ensures '=' !in nv.0
    ensures forall c :: c in nv.0 || c in nv.1 ==> c in piece
    ensures '=' in piece ==> piece == nv.0 + "=" + nv.1
    ensures '=' !in piece ==> piece == nv.0 && nv.1 == ""
  {
    var i := IndexOf(piece, '=');
    if i == |piece| then
      assert piece[..i] == piece;
      (piece, "")
    else
      assert piece == piece[..i] + "=" + piece[i + 1..];
      (piece[..i], piece[i + 1..])
  }

  /** The name-value pairs of a query: its non-empty '&'-separated pieces. */
  function Pairs(pieces: seq<string>): (pairs: seq<(string, string)>)
    ensures |pairs| <= |pieces|
    ensures "" !in pieces ==>
              |pairs| == |pieces| && forall i :: 0 <= i < |pieces| ==> pairs[i] == NameValue(pieces[i])
    ensures (forall j :: 0 <= j < |pieces| ==> '&' !in pieces[j]) ==>
              forall i :: 0 <= i < |pairs| ==> Plain(pairs[i])
  {
    if |pieces| == 0 then []
    else if pieces[0] == "" then Pairs(pieces[1..])
    else [NameValue(pieces[0])] + Pairs(pieces[1..])
  }

  /** Every value given to `name`, in order of appearance. */
  function ValuesOf(pairs: seq<(string, string)>, name: string): seq<string> {
    if |pairs| == 0 then []
    else
      var last := pairs[|pairs| - 1];
      ValuesOf(pairs[..|pairs| - 1], name) + (if last.0 == name then [last.1] else [])
  }

  /** The values a parameter holds. */
  function Texts(p: Param): seq<string> {
    match p
    case One(t) => [t]
    case Many(ts) => ts
  }

  /** Add one pair: a new name gets a string, a repeated one an array. */
  function AddPair(params: Params, name: string, value: string): Params {
    if name !in params then params[name := One(value)]
    else params[name := Many(Texts(params[name]) + [value])]
  }

  /** The object built from `pairs`: a parameter exists exactly for the names
      that occur, and holds all their values in order, as a string when
      there is one and as an array when there are several. */
  function Collect(pairs: seq<(string, string)>): (params: Params)
    ensures forall name :: name in params <==> ValuesOf(pairs, name) != []
    ensures forall name :: name in params ==> Texts(params[name]) == ValuesOf(pairs, name)
    ensures forall name :: name in params ==> (params[name].One? <==> |ValuesOf(pairs, name)| == 1)
  {
    if |pairs| == 0 then map[]
    else
      var last := pairs[|pairs| - 1];
      AddPair(Collect(pairs[..|pairs| - 1]), last.0, last.1)
  }

  /** `querystring.parse(query)`: the empty query has no parameters, no name
      holds '&' or '=', and no value holds '&'. */
  function Parse(query: string): (params: Params)
    ensures query == "" ==> params == map[]
    ensures forall name :: name in params ==> '&' !in name && '=' !in name
    ensures forall name :: name in params ==> forall t :: t in Texts(params[name]) ==> '&' !in t
  {
    var pairs := Pairs(Split(query, '&'));
    ValuesOfArePlain(pairs);
    assert query == "" ==> Split(query, '&') == [""];
    Collect(pairs)
  }

  /** What `get` parses from `location.search`. */
  function SearchParams(search: string): Params {
    Parse(StripQuestion(search))
  }

  /** Every value collected under a name comes from a pair with that name;
      so plain pairs collect to plain names and values. */
  lemma {:induction false} ValuesOfArePlain(pairs: seq<(string, string)>)
    requires forall i :: 0 <= i < |pairs| ==> Plain(pairs[i])
    ensures forall name :: ValuesOf(pairs, name) != [] ==> '&' !in name && '=' !in name
    ensures forall name, t :: t in ValuesOf(pairs, name) ==> '&' !in t
    decreases |pairs|
  {
    if |pairs| > 0 {
      var init := pairs[..|pairs| - 1];
      ValuesOfArePlain(init);
      assert Plain(pairs[|pairs| - 1]);
    }
  }

  /** An empty piece, from a doubled, leading or trailing '&', adds no pair. */
  lemma {:induction false} PairsSkipEmptyPiece(a: seq<string>, b: seq<string>)
    ensures Pairs(a + [""] + b) == Pairs(a) + Pairs(b)
    decreases |a|
  {
    if |a| == 0 {
      assert a + [""] + b == [""] + b;
      assert ([""] + b)[1..] == b;
    } else {
      assert (a + [""] + b)[0] == a[0];
      assert (a + [""] + b)[1..] == a[1..] + [""] + b;
      PairsSkipEmptyPiece(a[1..], b);
    }
  }

  // ---------------------------------------------------------------------
  // Rendering a query and parsing it back.

  /** `name=value` for every pair. */
  function Pieces(pairs: seq<(string, string)>): (pieces: seq<string>)
    ensures |pieces| == |pairs|
    ensures forall i :: 0 <= i < |pairs| ==> pieces[i] == pairs[i].0 + "=" + pairs[i].1
  {
    if |pairs| == 0 then [] else [pairs[0].0 + "=" + pairs[0].1] + Pieces(pairs[1..])
  }

  /** A pair that renders without ambiguity. */
  predicate Plain(pair: (string, string)) {
    '&' !in pair.0 && '=' !in pair.0 && '&' !in pair.1
  }

  /** Cutting a joined sequence at the separator recovers the parts. */
  lemma {:induction false} SplitJoin(parts: seq<string>, sep: char)
    requires |parts| >= 1
    requires forall i :: 0 <= i < |parts| ==> sep !in parts[i]
    ensures Split(Join(parts, sep), sep) == parts
    decreases |parts|
  {
    var s := Join(parts, sep);
    if |parts| == 1 {
      assert s == parts[0];
      assert IndexOf(s, sep) == |s|;
    } else {
      var rest := Join(parts[1..], sep);
      assert s == parts[0] + [sep] + rest;
      var i := IndexOf(s, sep);
      assert s[|parts[0]|] == sep;
      assert s[..|parts[0]|] == parts[0];
      assert i == |parts[0]|;
      assert s[i + 1..] == rest;
      SplitJoin(parts[1..], sep);
    }
  }

  /** A rendered pair is cut back into its name and value. */
  lemma NameValueOfPiece(name: string, value: string)
    requires '=' !in name
    ensures NameValue(name + "=" + value) == (name, value)
  {
    var piece := name + "=" + value;
    var i := IndexOf(piece, '=');
    assert piece[|name|] == '=';
    assert piece[..|name|] == name;
    assert i == |name|;
    assert piece[i + 1..] == value;
  }

  /** No rendered piece is empty, so none is skipped, and each reads back as its pair. */
  lemma {:induction false} PairsOfPieces(pairs: seq<(string, string)>)
    requires forall i :: 0 <= i < |pairs| ==> '=' !in pairs[i].0
    ensures Pairs(Pieces(pairs)) == pairs
    decreases |pairs|
  {
    if |pairs| > 0 {
      var pieces := Pieces(pairs);
      assert pieces[0] == pairs[0].0 + "=" + pairs[0].1;
      assert |pieces[0]| > 0;
      NameValueOfPiece(pairs[0].0, pairs[0].1);
      assert pieces[1..] == Pieces(pairs[1..]);
      PairsOfPieces(pairs[1..]);
    }
  }

  /** Parsing a rendered list of plain pairs yields exactly the object those
      pairs describe (repeated names becoming arrays). */
  lemma ParseRendered(pairs: seq<(string, string)>)
    requires forall i :: 0 <= i < |pairs| ==> Plain(pairs[i])
    ensures Parse(Join(Pieces(pairs), '&')) == Collect(pairs)
  {
    var pieces := Pieces(pairs);
    forall i | 0 <= i < |pieces|
      ensures '&' !in pieces[i]
    {
      assert Plain(pairs[i]);
    }
    var query := Join(pieces, '&');
    if |pairs| == 0 {
      assert query == "";
      assert Parse(query) == map[];
    } else {
      PairsOfPieces(pairs);
      SplitJoin(pieces, '&');
      assert Pairs(Split(query, '&')) == pairs;
    }
  }

  /** A '?' followed by a rendered list of plain pairs reads as those pairs. */
  lemma SearchParamsRendered(pairs: seq<(string, string)>)
    requires forall i :: 0 <= i < |pairs| ==> Plain(pairs[i])
    ensures SearchParams("?" + Join(Pieces(pairs), '&')) == Collect(pairs)
  {
    var query := Join(Pieces(pairs), '&');
    assert ("?" + query)[1..] == query;
    assert StripQuestion("?" + query) == query;
    ParseRendered(pairs);
    assert SearchParams("?" + query) == Parse(query);
  }

  /** A name given exactly one value is parsed as that string. */
  lemma CollectSingle(pairs: seq<(string, string)>, name: string, x: string)
    requires ValuesOf(pairs, name) == [x]
    ensures name in Collect(pairs) && Collect(pairs)[name] == One(x)
  {
  }

  /** A query that names `utm_expid` once, with the value `x`, yields `x`. */
  lemma ExperimentIdFromQuery(pairs: seq<(string, string)>, x: string)
    requires forall i :: 0 <= i < |pairs| ==> Plain(pairs[i])
    requires ValuesOf(pairs, "utm_expid") == [x]
    ensures var params := SearchParams("?" + Join(Pieces(pairs), '&'));
            "utm_expid" in params && params["utm_expid"] == One(x)
  {
    SearchParamsRendered(pairs);
    CollectSingle(pairs, "utm_expid", x);
  }

  /** Two pairs render as `a=x&b=y`. */
  lemma RenderTwo(a: string, x: string, b: string, y: string)
    ensures "?" + Join(Pieces([(a, x), (b, y)]), '&') == "?" + a + "=" + x + "&" + b + "=" + y
  {
  }

  /** Two pairs with distinct names give two string parameters. */
  lemma CollectTwo(a: string, x: string, b: string, y: string)
    requires a != b
    ensures Collect([(a, x), (b, y)]) == map[a := One(x), b := One(y)]
  {
  }

  /** The shape of the service's own test fixture, `?variant=tooltip&utm_expid=1`. */
  lemma FixtureQuery(variant: string, expId: string)
    requires '&' !in variant && '&' !in expId
    ensures SearchParams("?" + "variant" + "=" + variant + "&" + "utm_expid" + "=" + expId)
            == map["variant" := One(variant), "utm_expid" := One(expId)]
  {
    var pairs := [("variant", variant), ("utm_expid", expId)];
    RenderTwo("variant", variant, "utm_expid", expId);
    SearchParamsRendered(pairs);
    CollectTwo("variant", variant, "utm_expid", expId);
  }
}
