/** The front end's contract catalogue (frontend/src/services/contractCatalogService.ts):
    the mappers from the back end's contract-type rows to the cards the
    contract selector shows, and the request path `searchTypes` builds
    with `URLSearchParams`.  The HTTP call itself is the `fetch` input. */
module Catalog {
  import opened Strings
  import Bytes

  // ---------------------------------------------------------------------
  // Mappers
  // ---------------------------------------------------------------------

  /** The four categories the selector has a fixed label for. */
  const KnownCategories: seq<string> := ["commercial", "employment", "technology", "family_law"]

  /** `mapCategoryLabel`: a fixed label for a known category, otherwise the
      string with its first character upper-cased. */
  function CategoryLabel(category: string): (r: string)
    ensures category == "commercial" ==> r == "Commercial"
    ensures category == "employment" ==> r == "Employment"
    ensures category == "technology" ==> r == "Technology"
    ensures category == "family_law" ==> r == "Family Law"
    ensures category !in KnownCategories ==>
      && |r| == |category|
      && (category != [] ==> !IsLower(r[0]) && r[1..] == category[1..])
  {
    if category == "commercial" then "Commercial"
    else if category == "employment" then "Employment"
    else if category == "technology" then "Technology"
    else if category == "family_law" then "Family Law"
    else if category == [] then []
    else [ToUpperChar(category[0])] + category[1..]
  }

  /** A fallback label differs from the category only in the case of its
      first letter, so nothing but that letter is lost. */
  lemma FallbackLabelKeepsLetters(category: string)
    requires category !in KnownCategories
    ensures Lower(CategoryLabel(category)) == Lower(category)
  {
    var r := CategoryLabel(category);
    assert forall i :: 0 <= i < |r| ==> ToLowerChar(r[i]) == ToLowerChar(category[i]) by {
      forall i | 0 <= i < |r| ensures ToLowerChar(r[i]) == ToLowerChar(category[i]) {
        if i == 0 {
          var c := category[0];
          if IsLower(c) {
            assert r[0] == (c as int - 32) as char;
          }
        } else {
          assert r[i] == r[1..][i - 1] == category[1..][i - 1];
        }
      }
    }
  }

  /** Labelling a label changes nothing: every label starts with a capital
      and no label is one of the raw category names. */
  lemma CategoryLabelIdempotent(category: string)
    ensures CategoryLabel(CategoryLabel(category)) == CategoryLabel(category)
  {
    var r := CategoryLabel(category);
    if category !in KnownCategories && category != [] {
      assert r[0] == ToUpperChar(category[0]);
      assert r !in KnownCategories by {
        assert !IsLower(r[0]);
        assert r != "commercial" && r != "employment" && r != "technology" && r != "family_law";
      }
      assert [r[0]] + r[1..] == r;
    }
  }

  /** `complexity_level` as the selector shows it. */
  datatype UiComplexity = Simple | Moderate | ComplexUi

  /** `mapComplexityLevel`: the wire value is a string, and anything but the
      three known levels shows as moderate. */
  function UiComplexityOf(level: string): (r: UiComplexity)
    ensures r == Simple <==> level == "basic"
    ensures r == ComplexUi <==> level == "complex"
    ensures r == Moderate <==> level != "basic" && level != "complex"
  {
    if level == "basic" then Simple
    else if level == "standard" then Moderate
    else if level == "complex" then ComplexUi
    else Moderate
  }

  /** `estimateQuestionCount`: 8, 15 and 25 for the known levels, 12 for
      anything else. */
  function QuestionEstimate(level: string): (r: nat)
    ensures level == "basic" ==> r == 8
    ensures level == "standard" ==> r == 15
    ensures level == "complex" ==> r == 25
    ensures level !in ["basic", "standard", "complex"] ==> r == 12
  {
    if level == "basic" then 8
    else if level == "standard" then 15
    else if level == "complex" then 25
    else 12
  }

  function Rank(c: UiComplexity): nat {
    match c
    case Simple => 0
    case Moderate => 1
    case ComplexUi => 2
  }

  /** For the three levels the back end sends, a more complex card never
      promises fewer questions; an unknown level shows as moderate yet is
      estimated below a standard one. */
  lemma EstimateFollowsComplexity(a: string, b: string)
    requires a in ["basic", "standard", "complex"] && b in ["basic", "standard", "complex"]
    ensures Rank(UiComplexityOf(a)) < Rank(UiComplexityOf(b)) <==> QuestionEstimate(a) < QuestionEstimate(b)
    ensures QuestionEstimate(a) == QuestionEstimate(b) <==> a == b
  {
  }

  lemma UnknownLevelEstimate(level: string)
    requires level !in ["basic", "standard", "complex"]
    ensures UiComplexityOf(level) == UiComplexityOf("standard")
    ensures QuestionEstimate(level) < QuestionEstimate("standard")
  {
  }

  /** `BackendContractType`. */
  datatype BackendType = BackendType(id: string, slug: string, name: string, category: string,
                                     description: Option<string>, complexityLevel: string,
                                     jurisdictionDefault: string, isActive: bool)

  /** `UiContractType`. */
  datatype UiType = UiType(id: string, name: string, category: string, complexityLevel: UiComplexity,
                           questionCount: nat)

  /** `mapToUi`: the card keeps the row's id and name; its category and
      complexity are the mapped ones. */
  function ToUi(t: BackendType): (r: UiType)
    ensures r.id == t.id && r.name == t.name
    ensures r.category == CategoryLabel(t.category)
    ensures r.complexityLevel == UiComplexityOf(t.complexityLevel)
    ensures r.questionCount == QuestionEstimate(t.complexityLevel)
  {
    UiType(t.id, t.name, CategoryLabel(t.category), UiComplexityOf(t.complexityLevel),
           QuestionEstimate(t.complexityLevel))
  }

  // ---------------------------------------------------------------------
  // application/x-www-form-urlencoded, as URLSearchParams serialises it
  // (WHATWG URL standard, section 5.2) and parses it (section 5.1)
  // ---------------------------------------------------------------------

  /** Bytes the serializer leaves as they are: ASCII letters, digits and
      `*-._`. */
  predicate Unreserved(b: Bytes.byte) {
    || ('a' as int <= b as int <= 'z' as int)
    || ('A' as int <= b as int <= 'Z' as int)
    || ('0' as int <= b as int <= '9' as int)
    || b as int == '*' as int || b as int == '-' as int || b as int == '.' as int || b as int == '_' as int
  }

  function HexDigit(d: nat): (c: char)
    requires d < 16
  {
    if d < 10 then ('0' as int + d) as char else ('A' as int + d - 10) as char
  }

  function HexValue(c: char): Option<nat> {
    if '0' <= c <= '9' then Some(c as int - '0' as int)
    else if 'A' <= c <= 'F' then Some(c as int - 'A' as int + 10)
    else if 'a' <= c <= 'f' then Some(c as int - 'a' as int + 10)
    else None
  }

  /** Characters that mean something to the query string itself. */
  predicate Delimiter(c: char) { c == '&' || c == '=' || c == '?' || c == '#' }

  /** One byte: space becomes `+`, an unreserved byte stays, any other is
      `%XX` in upper-case hex. */
  function EncodeByte(b: Bytes.byte): (r: string)
    ensures 1 <= |r| <= 3
    ensures forall i :: 0 <= i < |r| ==> !Delimiter(r[i]) && r[i] as int < 0x80
  {
    if b == 0x20 then "+"
    else if Unreserved(b) then [b as int as char]
    else ['%', HexDigit(b as int / 16), HexDigit(b as int % 16)]
  }

  function EncodeBytes(bs: seq<Bytes.byte>): (r: string)
    ensures forall i :: 0 <= i < |r| ==> !Delimiter(r[i]) && r[i] as int < 0x80
  {
    if bs == [] then [] else EncodeByte(bs[0]) + EncodeBytes(bs[1..])
  }

  /** The serializer's encoding of one name or value: its UTF-8 bytes, each
      encoded as above. */
  function FormEncode(s: string): (r: string)
    ensures forall i :: 0 <= i < |r| ==> !Delimiter(r[i]) && r[i] as int < 0x80
  {
    EncodeBytes(Bytes.Utf8(s))
  }

  /** The parser's byte sequence for an encoded string: `+` is a space,
      `%` with two hex digits is that byte, a `%` without them is kept, and
      any other character contributes its UTF-8 bytes. */
  function DecodeBytes(s: string): (r: seq<Bytes.byte>)
  {
    if s == [] then []
    else if s[0] == '+' then [0x20] + DecodeBytes(s[1..])
    else if s[0] == '%' && |s| >= 3 && HexValue(s[1]).Some? && HexValue(s[2]).Some? then
      [(HexValue(s[1]).value * 16 + HexValue(s[2]).value) as Bytes.byte] + DecodeBytes(s[3..])
    else Bytes.Utf8Char(s[0]) + DecodeBytes(s[1..])
  }

  /** A name or value as the parser reads it back; None where the bytes are
      not UTF-8 (the parser of the standard substitutes U+FFFD there). */
  function FormDecode(s: string): Option<string> {
    match Bytes.Decode(DecodeBytes(s))
    case None => None
    case Some(t) => Some(t)
  }

  lemma HexRoundTrip(d: nat)
    requires d < 16
    ensures HexValue(HexDigit(d)) == Some(d)
  {
  }

  /** Decoding one encoded byte ahead of any rest gives the byte back. */
  lemma DecodeEncodedByte(b: Bytes.byte, rest: string)
    ensures DecodeBytes(EncodeByte(b) + rest) == [b] + DecodeBytes(rest)
  {
    var e := EncodeByte(b);
    var s := e + rest;
    if b == 0x20 {
      assert s[0] == '+' && s[1..] == rest;
    } else if Unreserved(b) {
      var c := b as int as char;
      assert s[0] == c && s[1..] == rest;
      assert c != '+' && c != '%';
      assert Bytes.Utf8Char(c) == [b];
    } else {
      var hi := b as int / 16;
      var lo := b as int % 16;
      HexRoundTrip(hi);
      HexRoundTrip(lo);
      assert s[0] == '%' && s[1] == HexDigit(hi) && s[2] == HexDigit(lo) && s[3..] == rest;
      assert hi * 16 + lo == b as int;
    }
  }

  lemma {:induction false} DecodeEncodeBytes(bs: seq<Bytes.byte>)
    ensures DecodeBytes(EncodeBytes(bs)) == bs
    decreases |bs|
  {
    if bs != [] {
      DecodeEncodedByte(bs[0], EncodeBytes(bs[1..]));
      DecodeEncodeBytes(bs[1..]);
      assert [bs[0]] + bs[1..] == bs;
    }
  }

  /** Every name and value the serializer writes is read back unchanged. */
  lemma FormRoundTrip(s: string)
    ensures FormDecode(FormEncode(s)) == Some(s)
  {
    DecodeEncodeBytes(Bytes.Utf8(s));
    Bytes.DecodeUtf8(s);
  }

  /** One `name=value` piece of the query string. */
  function Piece(name: string, value: string): (r: string)
    ensures |r| >= 1
    ensures forall i :: 0 <= i < |r| ==> r[i] != '&' && r[i] != '?' && r[i] as int < 0x80
  {
    var r := FormEncode(name) + "=" + FormEncode(value);
    assert forall i :: 0 <= i < |r| ==> r[i] != '&' && r[i] != '?' && r[i] as int < 0x80 by {
      forall i | 0 <= i < |r| ensures r[i] != '&' && r[i] != '?' && r[i] as int < 0x80 {
        if i < |FormEncode(name)| {
          assert r[i] == FormEncode(name)[i];
        } else if i > |FormEncode(name)| {
          assert r[i] == FormEncode(value)[i - |FormEncode(name)| - 1];
        }
      }
    }
    r
  }

  function Pieces(pairs: seq<(string, string)>): (r: seq<string>)
    ensures |r| == |pairs|
    ensures forall k :: 0 <= k < |r| ==> r[k] == Piece(pairs[k].0, pairs[k].1)
  {
    if pairs == [] then [] else [Piece(pairs[0].0, pairs[0].1)] + Pieces(pairs[1..])
  }

  /** `URLSearchParams.toString()`. */
  function Serialize(pairs: seq<(string, string)>): string {
    Join(Pieces(pairs), "&")
  }

  /** The parser's reading of one non-empty piece: up to the first `=` is
      the name, the rest the value (empty when there is no `=`). */
  function ParsePiece(piece: string): Option<(string, string)> {
    var parts := Split(piece, '=');
    var name := FormDecode(parts[0]);
    var value := FormDecode(Join(parts[1..], "="));
    if name.None? || value.None? then None else Some((name.value, value.value))
  }

  /** The parser over the `&`-separated pieces; empty pieces are skipped. */
  function ParsePieces(pieces: seq<string>): Option<seq<(string, string)>> {
    if pieces == [] then Some([])
    else
      var rest := ParsePieces(pieces[1..]);
      if pieces[0] == [] then rest
      else
        match ParsePiece(pieces[0])
        case None => None
        case Some(p) => if rest.None? then None else Some([p] + rest.value)
  }

  function ParseQuery(query: string): Option<seq<(string, string)>> {
    ParsePieces(Split(query, '&'))
  }

  lemma ParsePieceOfPiece(name: string, value: string)
    ensures ParsePiece(Piece(name, value)) == Some((name, value))
  {
    var a := FormEncode(name);
    var b := FormEncode(value);
    assert '=' !in a && '=' !in b by {
      assert forall i :: 0 <= i < |a| ==> !Delimiter(a[i]);
      assert forall i :: 0 <= i < |b| ==> !Delimiter(b[i]);
    }
    assert Join([a, b], "=") == a + "=" + b by {
      assert [a, b][1..] == [b];
    }
    JoinSplit([a, b], '=');
    assert [a, b][1..] == [b];
    FormRoundTrip(name);
    FormRoundTrip(value);
  }

  lemma {:induction false} ParsePiecesOfPieces(pairs: seq<(string, string)>)
    ensures ParsePieces(Pieces(pairs)) == Some(pairs)
    decreases |pairs|
  {
    if pairs != [] {
      var ps := Pieces(pairs);
      assert ps[1..] == Pieces(pairs[1..]);
      ParsePiecesOfPieces(pairs[1..]);
      ParsePieceOfPiece(pairs[0].0, pairs[0].1);
      assert [pairs[0]] + pairs[1..] == pairs;
    }
  }

  /** The query string reads back as the pairs that were set, in order. */
  lemma SerializeRoundTrip(pairs: seq<(string, string)>)
    ensures ParseQuery(Serialize(pairs)) == Some(pairs)
  {
    var ps := Pieces(pairs);
    if pairs == [] {
      assert Split([], '&') == [[]];
    } else {
      assert forall k :: 0 <= k < |ps| ==> '&' !in ps[k] by {
        forall k | 0 <= k < |ps| ensures '&' !in ps[k] {
          assert forall i :: 0 <= i < |ps[k]| ==> ps[k][i] != '&';
        }
      }
      JoinSplit(ps, '&');
      ParsePiecesOfPieces(pairs);
    }
  }

  /** The serialization is empty exactly when no pair was set. */
  lemma SerializeEmpty(pairs: seq<(string, string)>)
    ensures Serialize(pairs) == [] <==> pairs == []
  {
    if pairs != [] {
      SerializeRoundTrip(pairs);
      assert Split([], '&') == [[]];
    }
  }

  lemma {:induction false} JoinChars(parts: seq<string>, sep: string)
    requires forall k :: 0 <= k < |parts| ==> '?' !in parts[k]
    requires '?' !in sep
    ensures '?' !in Join(parts, sep)
    decreases |parts|
  {
    if |parts| > 1 {
      JoinChars(parts[1..], sep);
    }
  }

  // ---------------------------------------------------------------------
  // searchTypes
  // ---------------------------------------------------------------------

  /** The optional `params` of `searchTypes`; an omitted argument is all
      None.  `limit` is a JavaScript number, taken here as an integer. */
  datatype SearchParams = SearchParams(q: Option<string>, category: Option<string>, limit: Option<int>)

  /** The pairs set on the URLSearchParams, in order. */
  function QueryPairs(p: SearchParams): (r: seq<(string, string)>)
    ensures |r| <= 3
  {
    (if p.q.Some? && p.q.value != "" then [("q", p.q.value)] else [])
    + (if p.category.Some? && p.category.value != "" && p.category.value != "all"
       then [("category", p.category.value)] else [])
    + (if p.limit.Some? && p.limit.value != 0 then [("limit", IntToString(p.limit.value))] else [])
  }

  /** `q` is set when non-empty, `category` when non-empty and not `all`,
      `limit` when non-zero; no other name is ever set. */
  lemma QueryPairsContents(p: SearchParams)
    ensures var r := QueryPairs(p);
      && ("q", "") !in r
      && ((exists v :: ("q", v) in r) <==> p.q.Some? && p.q.value != "")
      && (p.q.Some? && p.q.value != "" ==> r[0] == ("q", p.q.value))
      && ((exists v :: ("category", v) in r) <==> p.category.Some? && p.category.value !in ["", "all"])
      && (p.category.Some? && p.category.value !in ["", "all"] ==> ("category", p.category.value) in r)
      && ((exists v :: ("limit", v) in r) <==> p.limit.Some? && p.limit.value != 0)
      && (p.limit.Some? && p.limit.value != 0 ==> r[|r| - 1] == ("limit", IntToString(p.limit.value)))
      && forall k :: 0 <= k < |r| ==> r[k].0 in ["q", "category", "limit"]
  {
  }

  const BasePath := "/contract-types"

  /** The path `searchTypes` requests. */
  function SearchPath(p: SearchParams): string {
    var qs := Serialize(QueryPairs(p));
    if qs != [] then BasePath + "?" + qs else BasePath
  }

  /** A serialized query never contains `?`. */
  lemma SerializeNoMark(pairs: seq<(string, string)>)
    ensures '?' !in Serialize(pairs)
  {
    var ps := Pieces(pairs);
    forall k | 0 <= k < |ps| ensures '?' !in ps[k] {
      assert forall i :: 0 <= i < |ps[k]| ==> ps[k][i] != '?';
    }
    JoinChars(ps, "&");
  }

  /** The path carries a `?` exactly when some parameter is set. */
  lemma SearchPathMark(p: SearchParams)
    ensures '?' in SearchPath(p) <==> QueryPairs(p) != []
    ensures QueryPairs(p) == [] ==> SearchPath(p) == BasePath
  {
    var pairs := QueryPairs(p);
    SerializeEmpty(pairs);
    SerializeNoMark(pairs);
    assert '?' !in BasePath;
    if pairs != [] {
      var path := BasePath + "?" + Serialize(pairs);
      assert path[|BasePath|] == '?';
    }
  }

  /** What follows the `?` reads back as the parameters that were set. */
  lemma SearchPathQuery(p: SearchParams)
    requires QueryPairs(p) != []
    ensures SearchPath(p)[..|BasePath| + 1] == BasePath + "?"
    ensures ParseQuery(SearchPath(p)[|BasePath| + 1..]) == Some(QueryPairs(p))
  {
    var pairs := QueryPairs(p);
    var qs := Serialize(pairs);
    SerializeEmpty(pairs);
    var path := BasePath + "?" + qs;
    assert path[|BasePath| + 1..] == qs;
    SerializeRoundTrip(pairs);
  }

  /** With no parameters the bare collection path is requested. */
  lemma NoParamsNoQuery()
    ensures SearchPath(SearchParams(None, None, None)) == BasePath
    ensures SearchPath(SearchParams(Some(""), Some("all"), Some(0))) == BasePath
  {
    SearchPathMark(SearchParams(None, None, None));
    SearchPathMark(SearchParams(Some(""), Some("all"), Some(0)));
  }

  /** `searchTypes`: the rows the server returns for the path, each mapped
      to a card in the same order. */
  function SearchTypes(p: SearchParams, fetch: string -> seq<BackendType>): (r: seq<UiType>)
    ensures |r| == |fetch(SearchPath(p))|
    ensures forall i :: 0 <= i < |r| ==> r[i] == ToUi(fetch(SearchPath(p))[i])
  {
    var raw := fetch(SearchPath(p));
    seq(|raw|, i requires 0 <= i < |raw| => ToUi(raw[i]))
  }
}
