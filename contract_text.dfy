/** The text side of contract export (backend/src/contracts/contract-export.util.ts):
    escaping for PDF literal strings and XML, placeholder segmentation, word
    wrapping, heading detection, the grouping of lines into blocks and the
    render lines both exporters draw. */
module ContractText {
  import opened Strings

  // ---------------------------------------------------------------------
  // Escaping
  // ---------------------------------------------------------------------

  /** `s.replace(/c/g, repl)` for a one-character pattern. */
  function ReplaceChar(s: string, c: char, repl: string): (r: string)
    ensures c !in s ==> r == s
    decreases |s|
  {
    if s == [] then [] else (if s[0] == c then repl else [s[0]]) + ReplaceChar(s[1..], c, repl)
  }

  lemma {:induction false} ReplaceCharAppend(a: string, b: string, c: char, repl: string)
    ensures ReplaceChar(a + b, c, repl) == ReplaceChar(a, c, repl) + ReplaceChar(b, c, repl)
    decreases |a|
  {
    if a == [] {
      assert a + b == b;
    } else {
      assert (a + b)[0] == a[0] && (a + b)[1..] == a[1..] + b;
      ReplaceCharAppend(a[1..], b, c, repl);
    }
  }

  /** Replacing in a one-character string. */
  lemma ReplaceCharSingle(x: char, c: char, repl: string)
    ensures ReplaceChar([x], c, repl) == if x == c then repl else [x]
  {
    assert [x][1..] == [];
  }

  /** escapePdfText: backslashes are doubled first, then each parenthesis
      gets a backslash, three passes over the whole string. */
  function EscapePdfText(s: string): string {
    ReplaceChar(ReplaceChar(ReplaceChar(s, '\\', "\\\\"), '(', "\\("), ')', "\\)")
  }

  /** The escape of one character in a PDF literal string. */
  function EscapePdfChar(c: char): (r: string)
    ensures |r| >= 1
  {
    if c == '\\' then "\\\\" else if c == '(' then "\\(" else if c == ')' then "\\)" else [c]
  }

  /** Because backslashes are doubled before parentheses are escaped, the
      three passes escape each character on its own. */
  lemma EscapePdfTextCons(c: char, rest: string)
    ensures EscapePdfText([c] + rest) == EscapePdfChar(c) + EscapePdfText(rest)
  {
    ReplaceCharAppend([c], rest, '\\', "\\\\");
    ReplaceCharSingle(c, '\\', "\\\\");
    var a1 := ReplaceChar([c], '\\', "\\\\");
    var b1 := ReplaceChar(rest, '\\', "\\\\");
    ReplaceCharAppend(a1, b1, '(', "\\(");
    var a2 := ReplaceChar(a1, '(', "\\(");
    var b2 := ReplaceChar(b1, '(', "\\(");
    ReplaceCharAppend(a2, b2, ')', "\\)");
    if c == '(' {
      ReplaceCharSingle(c, '(', "\\(");
    } else if c != '\\' {
      ReplaceCharSingle(c, '(', "\\(");
      ReplaceCharSingle(c, ')', "\\)");
    }
  }

  /** A PDF literal string body in which every parenthesis and backslash is
      escaped (ISO 32000-1, section 7.3.4.2): the string cannot end early. */
  predicate EscapedLiteral(t: string) decreases |t| {
    t == [] ||
    (t[0] == '\\' && |t| >= 2 && t[1] in "\\()" && EscapedLiteral(t[2..])) ||
    (t[0] !in "\\()" && EscapedLiteral(t[1..]))
  }

  /** Reading a literal string back: a backslash followed by a backslash or
      a parenthesis stands for that character. */
  function UnescapePdf(t: string): (r: string) decreases |t| {
    if t == [] then []
    else if |t| >= 2 && t[0] == '\\' && t[1] in "\\()" then [t[1]] + UnescapePdf(t[2..])
    else [t[0]] + UnescapePdf(t[1..])
  }

  /** Escaping yields a well-formed literal string that reads back as the text. */
  lemma {:induction false} EscapePdfTextRoundTrip(s: string)
    ensures EscapedLiteral(EscapePdfText(s))
    ensures UnescapePdf(EscapePdfText(s)) == s
    decreases |s|
  {
    if s == [] {
      assert EscapePdfText(s) == [];
    } else {
      EscapePdfTextCons(s[0], s[1..]);
      assert [s[0]] + s[1..] == s;
      EscapePdfTextRoundTrip(s[1..]);
      var e := EscapePdfChar(s[0]);
      var t := EscapePdfText(s[1..]);
      if |e| == 2 {
        assert (e + t)[2..] == t;
      } else {
        assert (e + t)[1..] == t;
      }
    }
  }

  /** escapeXml: five passes, the ampersand first. */
  function EscapeXml(s: string): string {
    ReplaceChar(ReplaceChar(ReplaceChar(ReplaceChar(ReplaceChar(s,
      '&', "&amp;"), '<', "&lt;"), '>', "&gt;"), '"', "&quot;"), '\'', "&apos;")
  }

  /** The XML escape of one character. */
  function EscapeXmlChar(c: char): (r: string)
    ensures |r| >= 1
  {
    if c == '&' then "&amp;" else if c == '<' then "&lt;" else if c == '>' then "&gt;"
    else if c == '"' then "&quot;" else if c == '\'' then "&apos;" else [c]
  }

  /** Each pass works character by character, so the five passes together
      distribute over concatenation. */
  lemma EscapeXmlAppend(a: string, b: string)
    ensures EscapeXml(a + b) == EscapeXml(a) + EscapeXml(b)
  {
    ReplaceCharAppend(a, b, '&', "&amp;");
    var a1, b1 := ReplaceChar(a, '&', "&amp;"), ReplaceChar(b, '&', "&amp;");
    ReplaceCharAppend(a1, b1, '<', "&lt;");
    var a2, b2 := ReplaceChar(a1, '<', "&lt;"), ReplaceChar(b1, '<', "&lt;");
    ReplaceCharAppend(a2, b2, '>', "&gt;");
    var a3, b3 := ReplaceChar(a2, '>', "&gt;"), ReplaceChar(b2, '>', "&gt;");
    ReplaceCharAppend(a3, b3, '"', "&quot;");
    var a4, b4 := ReplaceChar(a3, '"', "&quot;"), ReplaceChar(b3, '"', "&quot;");
    ReplaceCharAppend(a4, b4, '\'', "&apos;");
  }

  /** None of the replacement texts holds a character a later pass rewrites,
      so each character is escaped exactly once. */
  lemma EscapeXmlSingle(c: char)
    ensures EscapeXml([c]) == EscapeXmlChar(c)
  {
    ReplaceCharSingle(c, '&', "&amp;");
    if c == '&' {
      assert '<' !in "&amp;" && '>' !in "&amp;" && '"' !in "&amp;" && '\'' !in "&amp;";
    } else {
      ReplaceCharSingle(c, '<', "&lt;");
      if c == '<' {
        assert '>' !in "&lt;" && '"' !in "&lt;" && '\'' !in "&lt;";
      } else {
        ReplaceCharSingle(c, '>', "&gt;");
        if c == '>' {
          assert '"' !in "&gt;" && '\'' !in "&gt;";
        } else {
          ReplaceCharSingle(c, '"', "&quot;");
          if c == '"' {
            assert '\'' !in "&quot;";
          } else {
            ReplaceCharSingle(c, '\'', "&apos;");
          }
        }
      }
    }
  }

  lemma EscapeXmlCons(c: char, rest: string)
    ensures EscapeXml([c] + rest) == EscapeXmlChar(c) + EscapeXml(rest)
  {
    EscapeXmlAppend([c], rest);
    EscapeXmlSingle(c);
  }

  /** The five entities XML predefines. */
  predicate BeginsEntity(t: string) {
    StartsWith(t, "&amp;") || StartsWith(t, "&lt;") || StartsWith(t, "&gt;") ||
    StartsWith(t, "&quot;") || StartsWith(t, "&apos;")
  }

  /** Text that is safe as XML character data and as an attribute value:
      no markup character appears raw and every ampersand opens an entity. */
  predicate XmlSafe(t: string) {
    forall i :: 0 <= i < |t| ==>
      t[i] !in "<>\"'" && (t[i] == '&' ==> BeginsEntity(t[i..]))
  }

  lemma BeginsEntityAppend(u: string, t: string)
    requires BeginsEntity(u)
    ensures BeginsEntity(u + t)
  {
    if StartsWith(u, "&amp;") { AppendKeepsEnds(u, t, "&amp;"); }
    else if StartsWith(u, "&lt;") { AppendKeepsEnds(u, t, "&lt;"); }
    else if StartsWith(u, "&gt;") { AppendKeepsEnds(u, t, "&gt;"); }
    else if StartsWith(u, "&quot;") { AppendKeepsEnds(u, t, "&quot;"); }
    else { AppendKeepsEnds(u, t, "&apos;"); }
  }

  lemma XmlSafeCons(e: string, t: string)
    requires XmlSafe(e) && XmlSafe(t)
    ensures XmlSafe(e + t)
  {
    forall i | 0 <= i < |e + t|
      ensures (e + t)[i] !in "<>\"'" && ((e + t)[i] == '&' ==> BeginsEntity((e + t)[i..]))
    {
      if i < |e| {
        assert (e + t)[i] == e[i];
        if e[i] == '&' {
          assert (e + t)[i..] == e[i..] + t;
          BeginsEntityAppend(e[i..], t);
        }
      } else {
        assert (e + t)[i] == t[i - |e|];
        assert (e + t)[i..] == t[i - |e|..];
      }
    }
  }

  lemma EntitySafe(e: string)
    requires e in ["&amp;", "&lt;", "&gt;", "&quot;", "&apos;"]
    ensures XmlSafe(e)
  {
    assert e[0..] == e && e[..|e|] == e;
    assert forall i :: 0 < i < |e| ==> e[i] !in "&<>\"'";
  }

  lemma EscapeXmlCharSafe(c: char)
    ensures XmlSafe(EscapeXmlChar(c))
  {
    var e := EscapeXmlChar(c);
    if |e| > 1 {
      EntitySafe(e);
    }
  }

  /** Escaping yields safe XML text. */
  lemma {:induction false} EscapeXmlSafe(s: string)
    ensures XmlSafe(EscapeXml(s))
    decreases |s|
  {
    if s == [] {
      assert EscapeXml(s) == [];
    } else {
      EscapeXmlCons(s[0], s[1..]);
      assert [s[0]] + s[1..] == s;
      EscapeXmlSafe(s[1..]);
      var e := EscapeXmlChar(s[0]);
      EscapeXmlCharSafe(s[0]);
      XmlSafeCons(e, EscapeXml(s[1..]));
    }
  }

  // ---------------------------------------------------------------------
  // Placeholder segments
  // ---------------------------------------------------------------------

  /** The literal placeholder the drafts leave where a fact is missing. */
  const ToBeConfirmed := "TO BE CONFIRMED"

  /** The index of the first `]` in `s`. */
  function CloseAt(s: string): (r: Option<nat>)
    ensures r.Some? ==> r.value < |s| && s[r.value] == ']' && ']' !in s[..r.value]
    ensures r.None? ==> ']' !in s
    decreases |s|
  {
    if s == [] then None
    else if s[0] == ']' then Some(0)
    else match CloseAt(s[1..])
      case None => None
      case Some(j) => assert s[..j + 1] == [s[0]] + s[1..][..j]; Some(j + 1)
  }

  lemma CloseAtUnique(t: string, j: nat)
    requires j < |t| && t[j] == ']' && ']' !in t[..j]
    ensures CloseAt(t) == Some(j)
  {
    assert t[j] in t;
    assert forall i :: 0 <= i < j ==> t[i] == t[..j][i];
    var k := CloseAt(t).value;
    assert forall i :: 0 <= i < k ==> t[i] == t[..k][i];
  }

  /** The length of the placeholder that `\[[^\]]+\]|TO BE CONFIRMED`
      (case-insensitive) matches at the start of `s`: a bracketed run of at
      least one character other than `]`, tried first, or the literal. */
  function TokenAt(s: string): (r: Option<nat>)
    ensures r.Some? ==> 0 < r.value <= |s|
  {
    if s != [] && s[0] == '[' && CloseAt(s[1..]).Some? && CloseAt(s[1..]).value >= 1 then
      Some(CloseAt(s[1..]).value + 2)
    else if StartsWithIgnoringCase(s, ToBeConfirmed) then Some(|ToBeConfirmed|)
    else None
  }

  /** The anchored test `/^(\[[^\]]+\]|TO BE CONFIRMED)$/i`. */
  predicate IsPlaceholderToken(seg: string) {
    TokenAt(seg) == Some(|seg|)
  }

  /** A piece of a line, drawn bold when it is a placeholder. */
  datatype Segment = Segment(text: string, bold: bool)

  function Emit(plain: string): (r: seq<Segment>)
    ensures |r| <= 1
  {
    if plain == [] then [] else [Segment(plain, IsPlaceholderToken(plain))]
  }

  /** `text.split(/(…)/gi)` keeps the matched placeholders between the
      plain runs; empty pieces are filtered out. The scan matches at the
      leftmost position, so `plain` collects the characters at which no
      placeholder starts. */
  function SegmentsFrom(s: string, plain: string): seq<Segment>
    decreases |s|
  {
    if s == [] then Emit(plain)
    else match TokenAt(s)
      case Some(n) =>
        Emit(plain) + [Segment(s[..n], IsPlaceholderToken(s[..n]))] + SegmentsFrom(s[n..], [])
      case None => SegmentsFrom(s[1..], plain + [s[0]])
  }

  /** splitPlaceholders. */
  function SplitPlaceholders(text: string): seq<Segment> {
    SegmentsFrom(text, [])
  }

  /** The text a sequence of segments spells out. */
  function Texts(segs: seq<Segment>): string {
    if segs == [] then [] else segs[0].text + Texts(segs[1..])
  }

  lemma {:induction false} TextsAppend(a: seq<Segment>, b: seq<Segment>)
    ensures Texts(a + b) == Texts(a) + Texts(b)
    decreases |a|
  {
    if a == [] {
      assert a + b == b;
    } else {
      assert (a + b)[0] == a[0] && (a + b)[1..] == a[1..] + b;
      TextsAppend(a[1..], b);
    }
  }

  lemma {:induction false} StartsWithIgnoringCaseAppend(s: string, t: string, p: string)
    requires StartsWithIgnoringCase(s, p)
    ensures StartsWithIgnoringCase(s + t, p)
    decreases |p|
  {
    if p != [] {
      assert (s + t)[0] == s[0] && (s + t)[1..] == s[1..] + t;
      StartsWithIgnoringCaseAppend(s[1..], t, p[1..]);
    }
  }

  lemma {:induction false} StartsWithIgnoringCasePrefix(s: string, p: string)
    requires StartsWithIgnoringCase(s, p)
    ensures StartsWithIgnoringCase(s[..|p|], p)
    decreases |p|
  {
    if p != [] {
      assert s[..|p|][0] == s[0] && s[..|p|][1..] == s[1..][..|p| - 1];
      StartsWithIgnoringCasePrefix(s[1..], p[1..]);
    }
  }

  /** A placeholder at the start of `p` stays the same placeholder whatever follows. */
  lemma TokenAtExtend(p: string, t: string)
    requires TokenAt(p).Some?
    ensures TokenAt(p + t) == TokenAt(p)
  {
    var pt := p + t;
    assert pt[0] == p[0];
    if p[0] == '[' && CloseAt(p[1..]).Some? && CloseAt(p[1..]).value >= 1 {
      var j := CloseAt(p[1..]).value;
      assert pt[1..][j] == p[1..][j];
      assert pt[1..][..j] == p[1..][..j];
      CloseAtUnique(pt[1..], j);
    } else {
      StartsWithIgnoringCaseAppend(p, t, ToBeConfirmed);
      assert p[0] != '[';
    }
  }

  /** What a placeholder match covers is itself a whole placeholder. */
  lemma TokenAtWhole(s: string)
    requires TokenAt(s).Some?
    ensures IsPlaceholderToken(s[..TokenAt(s).value])
  {
    var n := TokenAt(s).value;
    var w := s[..n];
    assert w[0] == s[0];
    if s[0] == '[' && CloseAt(s[1..]).Some? && CloseAt(s[1..]).value >= 1 {
      var j := CloseAt(s[1..]).value;
      assert w[1..] == s[1..][..j + 1];
      assert w[1..][j] == ']' && w[1..][..j] == s[1..][..j];
      CloseAtUnique(w[1..], j);
    } else {
      StartsWithIgnoringCasePrefix(s, ToBeConfirmed);
      assert s[0] != '[';
    }
  }

  /** A run collected where no placeholder starts is not a placeholder. */
  lemma PlainIsNotToken(plain: string, s: string)
    requires plain != [] && TokenAt(plain + s).None?
    ensures !IsPlaceholderToken(plain)
  {
    if TokenAt(plain).Some? {
      TokenAtExtend(plain, s);
    }
  }

  /** No two plain segments are adjacent. */
  predicate Alternates(segs: seq<Segment>) {
    forall k :: 0 <= k < |segs| - 1 ==> segs[k].bold || segs[k + 1].bold
  }

  lemma {:induction false} SegmentsFromTexts(s: string, plain: string)
    ensures Texts(SegmentsFrom(s, plain)) == plain + s
    decreases |s|
  {
    if s == [] {
      assert plain + s == plain;
    } else if TokenAt(s).Some? {
      var n := TokenAt(s).value;
      SegmentsFromTexts(s[n..], []);
      TokenStepTexts(s, plain, n);
    } else {
      assert plain + [s[0]] + s[1..] == plain + s;
      SegmentsFromTexts(s[1..], plain + [s[0]]);
    }
  }

  lemma TokenStepTexts(s: string, plain: string, n: nat)
    requires s != [] && TokenAt(s) == Some(n)
    requires Texts(SegmentsFrom(s[n..], [])) == s[n..]
    ensures Texts(SegmentsFrom(s, plain)) == plain + s
  {
    assert s[..n] + s[n..] == s;
    var tok := Segment(s[..n], IsPlaceholderToken(s[..n]));
    var e := Emit(plain);
    var rest := SegmentsFrom(s[n..], []);
    assert Texts(e) == plain && Texts([tok]) == s[..n];
    TextsAppend(e, [tok]);
    TextsAppend(e + [tok], rest);
  }

  lemma {:induction false} SegmentsFromNonEmpty(s: string, plain: string)
    ensures forall k :: 0 <= k < |SegmentsFrom(s, plain)| ==> SegmentsFrom(s, plain)[k].text != []
    decreases |s|
  {
    if s != [] {
      match TokenAt(s)
      case Some(n) =>
        SegmentsFromNonEmpty(s[n..], []);
      case None =>
        SegmentsFromNonEmpty(s[1..], plain + [s[0]]);
    }
  }

  lemma {:induction false} SegmentsFromBold(s: string, plain: string)
    ensures forall k :: 0 <= k < |SegmentsFrom(s, plain)| ==>
              SegmentsFrom(s, plain)[k].bold == IsPlaceholderToken(SegmentsFrom(s, plain)[k].text)
    decreases |s|
  {
    if s != [] {
      match TokenAt(s)
      case Some(n) =>
        SegmentsFromBold(s[n..], []);
      case None =>
        SegmentsFromBold(s[1..], plain + [s[0]]);
    }
  }

  lemma {:induction false} SegmentsFromAlternate(s: string, plain: string)
    requires plain == [] || TokenAt(plain + s).None?
    ensures Alternates(SegmentsFrom(s, plain))
    decreases |s|
  {
    if s != [] {
      match TokenAt(s)
      case Some(n) =>
        TokenAtWhole(s);
        if plain != [] {
          PlainIsNotToken(plain, s);
        }
        var e := Emit(plain);
        var tok := Segment(s[..n], true);
        SegmentsFromAlternate(s[n..], []);
        var rest := SegmentsFrom(s[n..], []);
        var r := e + [tok] + rest;
        forall k | 0 <= k < |r| - 1 ensures r[k].bold || r[k + 1].bold {
          if k < |e| {
            assert r[k + 1] == tok;
          } else if k == |e| {
            assert r[k] == tok;
          } else {
            assert r[k] == rest[k - |e| - 1] && r[k + 1] == rest[k - |e|];
          }
        }
      case None =>
        assert plain + [s[0]] + s[1..] == plain + s;
        SegmentsFromAlternate(s[1..], plain + [s[0]]);
    }
  }

  /** The segments spell out the line, none is empty, a segment is bold
      exactly when the whole of it is a placeholder, and plain runs are
      maximal: between two plain pieces there is always a placeholder. */
  lemma SplitPlaceholdersShape(text: string)
    ensures Texts(SplitPlaceholders(text)) == text
    ensures forall k :: 0 <= k < |SplitPlaceholders(text)| ==> SplitPlaceholders(text)[k].text != []
    ensures forall k :: 0 <= k < |SplitPlaceholders(text)| ==>
              SplitPlaceholders(text)[k].bold == IsPlaceholderToken(SplitPlaceholders(text)[k].text)
    ensures Alternates(SplitPlaceholders(text))
  {
    SegmentsFromTexts(text, []);
    SegmentsFromNonEmpty(text, []);
    SegmentsFromBold(text, []);
    SegmentsFromAlternate(text, []);
  }

  // ---------------------------------------------------------------------
  // Word wrapping
  // ---------------------------------------------------------------------

  /** Every piece, one after another. */
  function Concat(pieces: seq<string>): string {
    if pieces == [] then [] else pieces[0] + Concat(pieces[1..])
  }

  lemma {:induction false} ConcatAppend(a: seq<string>, b: seq<string>)
    ensures Concat(a + b) == Concat(a) + Concat(b)
    decreases |a|
  {
    if a == [] {
      assert a + b == b;
    } else {
      assert (a + b)[0] == a[0] && (a + b)[1..] == a[1..] + b;
      ConcatAppend(a[1..], b);
    }
  }

  lemma ConcatSnoc(pieces: seq<string>, x: string)
    ensures Concat(pieces + [x]) == Concat(pieces) + x
  {
    ConcatAppend(pieces, [x]);
    assert [x][1..] == [];
    assert Concat([x]) == x + [];
  }

  /** The characters of `s` that are not white space, in order. */
  function NonSpace(s: string): string {
    if s == [] then [] else (if IsSpace(s[0]) then [] else [s[0]]) + NonSpace(s[1..])
  }

  lemma {:induction false} NonSpaceAppend(a: string, b: string)
    ensures NonSpace(a + b) == NonSpace(a) + NonSpace(b)
    decreases |a|
  {
    if a == [] {
      assert a + b == b;
    } else {
      assert (a + b)[0] == a[0] && (a + b)[1..] == a[1..] + b;
      NonSpaceAppend(a[1..], b);
    }
  }

  predicate NoSpace(s: string) {
    forall i :: 0 <= i < |s| ==> !IsSpace(s[i])
  }

  lemma {:induction false} NonSpaceOfNoSpace(s: string)
    requires NoSpace(s)
    ensures NonSpace(s) == s
    decreases |s|
  {
    if s != [] {
      NonSpaceOfNoSpace(s[1..]);
      assert [s[0]] + s[1..] == s;
    }
  }

  lemma {:induction false} NonSpaceOfBlank(s: string)
    requires IsBlank(s)
    ensures NonSpace(s) == []
    decreases |s|
  {
    if s != [] {
      NonSpaceOfBlank(s[1..]);
    }
  }

  /** A carriage return left in front of a line feed. */
  function DropReturn(piece: string): (r: string)
    ensures NonSpace(r) == NonSpace(piece)
  {
    if piece != [] && piece[|piece| - 1] == '\r' then
      NonSpaceAppend(piece[..|piece| - 1], "\r");
      assert piece[..|piece| - 1] + "\r" == piece;
      piece[..|piece| - 1]
    else piece
  }

  function DropReturns(pieces: seq<string>): (r: seq<string>)
    requires |pieces| >= 1
    ensures |r| == |pieces|
  {
    if |pieces| == 1 then pieces else [DropReturn(pieces[0])] + DropReturns(pieces[1..])
  }

  /** `text.split(/\r?\n/)`: the pieces between line feeds, each but the last
      without the carriage return in front of its line feed. */
  function SplitLines(text: string): (r: seq<string>)
    ensures |r| >= 1
  {
    DropReturns(Split(text, '\n'))
  }

  /** `line.split(/\s+/)`: the pieces between runs of white space, with an
      empty first or last piece when the line starts or ends with white space.
      `gap` holds inside a run, after its piece was emitted. */
  function WordsFrom(s: string, current: string, gap: bool): (r: seq<string>)
    ensures |r| >= 1
    decreases |s|
  {
    if s == [] then [current]
    else if IsSpace(s[0]) then
      if gap then WordsFrom(s[1..], current, true)
      else [current] + WordsFrom(s[1..], [], true)
    else WordsFrom(s[1..], current + [s[0]], false)
  }

  function Words(line: string): seq<string> {
    WordsFrom(line, [], false)
  }

  /** The words hold every character of the line that is not white space. */
  lemma {:induction false} WordsFromText(s: string, current: string, gap: bool)
    ensures Concat(WordsFrom(s, current, gap)) == current + NonSpace(s)
    decreases |s|
  {
    if s == [] {
      assert current + [] == current;
    } else if IsSpace(s[0]) {
      assert NonSpace(s) == NonSpace(s[1..]);
      if gap {
        WordsFromText(s[1..], current, true);
      } else {
        WordsFromText(s[1..], [], true);
        var rest := WordsFrom(s[1..], [], true);
        assert ([current] + rest)[0] == current && ([current] + rest)[1..] == rest;
      }
    } else {
      WordsFromText(s[1..], current + [s[0]], false);
      assert NonSpace(s) == [s[0]] + NonSpace(s[1..]);
    }
  }

  /** Where one line of the wrap stands: the lines emitted so far and the
      line being filled. */
  datatype Wrap = Wrap(lines: seq<string>, current: string)

  /** The hard split of a word longer than the width: pieces of exactly
      `width` characters and a remainder that fits. */
  function HardSplit(word: string, width: nat): (r: Wrap)
    requires width >= 1
    ensures forall i :: 0 <= i < |r.lines| ==> |r.lines[i]| == width
    ensures |r.current| <= width
    decreases |word|
  {
    if |word| > width then
      var rest := HardSplit(word[width..], width);
      Wrap([word[..width]] + rest.lines, rest.current)
    else Wrap([], word)
  }

  lemma {:induction false} HardSplitText(word: string, width: nat)
    requires width >= 1
    ensures Concat(HardSplit(word, width).lines) + HardSplit(word, width).current == word
    decreases |word|
  {
    if |word| > width {
      HardSplitText(word[width..], width);
      var rest := HardSplit(word[width..], width);
      var ls := [word[..width]] + rest.lines;
      assert ls[0] == word[..width] && ls[1..] == rest.lines;
      AppendAssoc(word[..width], Concat(rest.lines), rest.current);
      assert word[..width] + word[width..] == word;
    }
  }

  /** One word of `wrapText`: it joins the current line when the result fits,
      otherwise the current line is emitted and the word starts the next;
      a word met on an empty line that does not fit is hard split. */
  function PlaceWord(st: Wrap, word: string, width: nat): Wrap
    requires width >= 1
  {
    var next := if st.current != [] then st.current + " " + word else word;
    if |next| <= width then Wrap(st.lines, next)
    else if st.current != [] then Wrap(st.lines + [st.current], word)
    else
      var split := HardSplit(word, width);
      Wrap(st.lines + split.lines, split.current)
  }

  function PlaceWords(st: Wrap, words: seq<string>, width: nat): Wrap
    requires width >= 1
  {
    if words == [] then st
    else PlaceWord(PlaceWords(st, words[..|words| - 1], width), words[|words| - 1], width)
  }

  /** The output of one input line: a blank line gives one empty line. */
  function WrapLine(line: string, width: nat): seq<string>
    requires width >= 1
  {
    if Trim(line) == [] then [""]
    else
      var st := PlaceWords(Wrap([], []), Words(line), width);
      st.lines + (if st.current != [] then [st.current] else [])
  }

  function WrapLines(lines: seq<string>, width: nat): seq<string>
    requires width >= 1
  {
    if lines == [] then []
    else WrapLines(lines[..|lines| - 1], width) + WrapLine(lines[|lines| - 1], width)
  }

  /** wrapText. */
  function Wrapped(text: string, width: nat): seq<string>
    requires width >= 1
  {
    WrapLines(SplitLines(text), width)
  }

  /** The hard split loop of `wrapText`. */
  method SplitLongWord(word: string, width: nat) returns (pieces: seq<string>, remaining: string)
    requires width >= 1
    ensures Wrap(pieces, remaining) == HardSplit(word, width)
  {
    pieces := [];
    remaining := word;
    while |remaining| > width
      invariant HardSplit(word, width) ==
        Wrap(pieces + HardSplit(remaining, width).lines, HardSplit(remaining, width).current)
      decreases |remaining|
    {
      assert pieces + [remaining[..width]] + HardSplit(remaining[width..], width).lines
          == pieces + HardSplit(remaining, width).lines;
      pieces := pieces + [remaining[..width]];
      remaining := remaining[width..];
    }
  }

  /** The body `wrapText` runs for each input line. */
  method WrapOneLine(line: string, width: nat) returns (out: seq<string>)
    requires width >= 1
    ensures out == WrapLine(line, width)
  {
    if Trim(line) == [] {
      return [""];
    }
    var words := Words(line);
    var current := "";
    out := [];
    for w := 0 to |words|
      invariant Wrap(out, current) == PlaceWords(Wrap([], []), words[..w], width)
    {
      assert words[..w + 1][..w] == words[..w];
      var word := words[w];
      var next := if current != "" then current + " " + word else word;
      if |next| <= width {
        current := next;
      } else if current != "" {
        out := out + [current];
        current := word;
      } else {
        var pieces, remaining := SplitLongWord(word, width);
        out := out + pieces;
        current := remaining;
      }
    }
    assert words[..|words|] == words;
    if current != "" {
      out := out + [current];
    }
  }

  /** wrapText: the outputs of the lines, one after another. */
  method WrapText(text: string, width: nat) returns (wrapped: seq<string>)
    requires width >= 1
    ensures wrapped == Wrapped(text, width)
  {
    var lines := SplitLines(text);
    wrapped := [];
    for k := 0 to |lines|
      invariant wrapped == WrapLines(lines[..k], width)
    {
      assert lines[..k + 1][..k] == lines[..k];
      var out := WrapOneLine(lines[k], width);
      wrapped := wrapped + out;
    }
    assert lines[..|lines|] == lines;
  }

  /** The words of a line hold no white space. */
  lemma {:induction false} WordsFromNoSpace(s: string, current: string, gap: bool)
    requires NoSpace(current)
    ensures forall k :: 0 <= k < |WordsFrom(s, current, gap)| ==> NoSpace(WordsFrom(s, current, gap)[k])
    decreases |s|
  {
    if s != [] {
      if IsSpace(s[0]) {
        if gap {
          WordsFromNoSpace(s[1..], current, true);
        } else {
          WordsFromNoSpace(s[1..], [], true);
        }
      } else {
        assert NoSpace(current + [s[0]]);
        WordsFromNoSpace(s[1..], current + [s[0]], false);
      }
    }
  }

  /** The hard split of a word without white space gives pieces without
      white space. */
  lemma {:induction false} HardSplitNoSpace(word: string, width: nat)
    requires width >= 1 && NoSpace(word)
    ensures forall i :: 0 <= i < |HardSplit(word, width).lines| ==> NoSpace(HardSplit(word, width).lines[i])
    ensures NoSpace(HardSplit(word, width).current)
    decreases |word|
  {
    if |word| > width {
      HardSplitNoSpace(word[width..], width);
    }
  }

  /** What wrapping keeps true of the lines emitted so far and the line being
      filled: no emitted line is empty or starts with white space, a line
      that holds a space fits, and the line being filled starts with a word. */
  predicate WrapOk(st: Wrap, width: nat) {
    (forall i :: 0 <= i < |st.lines| ==>
      st.lines[i] != [] && !IsSpace(st.lines[i][0]) && (NoSpace(st.lines[i]) || |st.lines[i]| <= width)) &&
    (st.current == [] || !IsSpace(st.current[0])) &&
    (NoSpace(st.current) || |st.current| <= width)
  }

  lemma PlaceWordOk(st: Wrap, word: string, width: nat)
    requires width >= 1 && WrapOk(st, width) && NoSpace(word)
    ensures WrapOk(PlaceWord(st, word, width), width)
  {
    var next := if st.current != [] then st.current + " " + word else word;
    if |next| > width && st.current == [] {
      HardSplitNoSpace(word, width);
    }
  }

  lemma NonSpaceSpaced(current: string, word: string)
    requires NonSpace(word) == word
    ensures NonSpace(current + " " + word) == NonSpace(current) + word
  {
    NonSpaceAppend(current, " ");
    assert NonSpace(" ") == [] by {
      assert " "[1..] == [];
    }
    NonSpaceAppend(current + " ", word);
  }

  lemma JoinText(a: string, current: string, word: string)
    requires NonSpace(word) == word
    ensures NonSpace(a + (current + " " + word)) == NonSpace(a + current) + word
  {
    NonSpaceSpaced(current, word);
    NonSpaceAppend(a, current);
    NonSpaceAppend(a, current + " " + word);
    AppendAssoc(NonSpace(a), NonSpace(current), word);
  }

  lemma PushText(lines: seq<string>, current: string, word: string)
    requires NonSpace(word) == word
    ensures NonSpace(Concat(lines + [current]) + word) == NonSpace(Concat(lines) + current) + word
  {
    ConcatSnoc(lines, current);
    NonSpaceAppend(Concat(lines) + current, word);
  }

  lemma SplitText(lines: seq<string>, word: string, width: nat)
    requires width >= 1 && NonSpace(word) == word
    ensures NonSpace(Concat(lines + HardSplit(word, width).lines) + HardSplit(word, width).current)
         == NonSpace(Concat(lines)) + word
  {
    var split := HardSplit(word, width);
    ConcatAppend(lines, split.lines);
    HardSplitText(word, width);
    AppendAssoc(Concat(lines), Concat(split.lines), split.current);
    NonSpaceAppend(Concat(lines), word);
  }

  /** Placing a word appends it to the text, white space aside. */
  lemma PlaceWordText(st: Wrap, word: string, width: nat)
    requires width >= 1 && NoSpace(word)
    ensures NonSpace(Concat(PlaceWord(st, word, width).lines) + PlaceWord(st, word, width).current)
         == NonSpace(Concat(st.lines) + st.current) + word
  {
    NonSpaceOfNoSpace(word);
    var next := if st.current != [] then st.current + " " + word else word;
    if |next| <= width {
      if st.current != [] {
        JoinText(Concat(st.lines), st.current, word);
      } else {
        NonSpaceAppend(Concat(st.lines), word);
        assert Concat(st.lines) + st.current == Concat(st.lines);
      }
    } else if st.current != [] {
      PushText(st.lines, st.current, word);
    } else {
      SplitText(st.lines, word, width);
      assert Concat(st.lines) + st.current == Concat(st.lines);
    }
  }

  lemma {:induction false} PlaceWordsProps(words: seq<string>, width: nat)
    requires width >= 1
    requires forall k :: 0 <= k < |words| ==> NoSpace(words[k])
    ensures WrapOk(PlaceWords(Wrap([], []), words, width), width)
    ensures NonSpace(Concat(PlaceWords(Wrap([], []), words, width).lines)
                     + PlaceWords(Wrap([], []), words, width).current) == Concat(words)
    decreases |words|
  {
    if words != [] {
      var init := words[..|words| - 1];
      var last := words[|words| - 1];
      PlaceWordsProps(init, width);
      var st := PlaceWords(Wrap([], []), init, width);
      PlaceWordOk(st, last, width);
      PlaceWordText(st, last, width);
      ConcatSnoc(init, last);
      assert init + [last] == words;
    } else {
      assert Concat([]) + [] == [];
    }
  }

  /** The remainder of the hard split of a non-empty word is not empty. */
  lemma {:induction false} HardSplitRemainder(word: string, width: nat)
    requires width >= 1 && word != []
    ensures HardSplit(word, width).current != []
    decreases |word|
  {
    if |word| > width {
      HardSplitRemainder(word[width..], width);
    }
  }

  /** After a non-empty word the line being filled is not empty. */
  lemma PlaceWordFills(st: Wrap, word: string, width: nat)
    requires width >= 1 && word != []
    ensures PlaceWord(st, word, width).current != []
  {
    if st.current == [] && |word| > width {
      HardSplitRemainder(word, width);
    }
  }

  /** Empty words placed on an empty wrap leave it empty. */
  lemma {:induction false} PlaceEmptyWords(words: seq<string>, width: nat)
    requires width >= 1
    requires forall j :: 0 <= j < |words| ==> words[j] == []
    ensures PlaceWords(Wrap([], []), words, width) == Wrap([], [])
    decreases |words|
  {
    if words != [] {
      PlaceEmptyWords(words[..|words| - 1], width);
    }
  }

  /** In `wrapText` a word longer than the width that follows a word on its
      line is never hard split: the line being filled, which is not empty,
      is closed and the long word starts the next line whole. */
  lemma LongWordKeptWhole(line: string, width: nat, k: nat)
    requires width >= 1
    requires var ws := Words(line); 1 <= k < |ws| && ws[k - 1] != [] && |ws[k]| > width
    ensures var ws := Words(line);
            var before := PlaceWords(Wrap([], []), ws[..k], width);
            && before.current != []
            && PlaceWords(Wrap([], []), ws[..k + 1], width) == Wrap(before.lines + [before.current], ws[k])
  {
    var ws := Words(line);
    PlaceWordFills(PlaceWords(Wrap([], []), ws[..k][..k - 1], width), ws[k - 1], width);
    assert ws[..k + 1][..k] == ws[..k];
  }

  /** A word longer than the width with only empty words before it on its
      line (the first word, or the second when the line opens with white
      space) is hard split into pieces of the width and a remainder that
      the next word may join. */
  lemma LeadingLongWordSplit(line: string, width: nat, k: nat)
    requires width >= 1
    requires var ws := Words(line); k < |ws| && |ws[k]| > width
    requires forall j :: 0 <= j < k ==> Words(line)[j] == []
    ensures var ws := Words(line);
            PlaceWords(Wrap([], []), ws[..k + 1], width) == HardSplit(ws[k], width)
  {
    var ws := Words(line);
    PlaceEmptyWords(ws[..k], width);
    assert ws[..k + 1][..k] == ws[..k];
  }

  /** An output line of the wrap: empty or starting with a word, and
      within the width unless it is one unbreakable word. */
  predicate LineOk(o: string, width: nat) {
    (o == [] || !IsSpace(o[0])) && (NoSpace(o) || |o| <= width)
  }

  /** One input line: a blank line gives exactly one empty line and any
      other line only non-empty ones; every line is empty or starts with a
      word and, when it holds a space, fits the width; and the lines hold
      the input's characters other than white space, in order. */
  lemma WrapLineProps(line: string, width: nat)
    requires width >= 1
    ensures Trim(line) == [] ==> WrapLine(line, width) == [""]
    ensures Trim(line) != [] ==> forall i :: 0 <= i < |WrapLine(line, width)| ==> WrapLine(line, width)[i] != []
    ensures forall i :: 0 <= i < |WrapLine(line, width)| ==> LineOk(WrapLine(line, width)[i], width)
    ensures NonSpace(Concat(WrapLine(line, width))) == NonSpace(line)
  {
    var out := WrapLine(line, width);
    if Trim(line) == [] {
      TrimEmptyIffBlank(line);
      NonSpaceOfBlank(line);
      assert Concat(out) == [] + Concat([]);
    } else {
      WordsFromNoSpace(line, [], false);
      WordsFromText(line, [], false);
      var st := PlaceWords(Wrap([], []), Words(line), width);
      PlaceWordsProps(Words(line), width);
      if st.current != [] {
        assert out == st.lines + [st.current];
        ConcatSnoc(st.lines, st.current);
      } else {
        assert out == st.lines;
        assert Concat(st.lines) + st.current == Concat(st.lines);
      }
    }
  }

  /** A white-space separator contributes nothing to the text. */
  lemma NonSpaceAround(a: string, c: char, b: string)
    requires IsSpace(c)
    ensures NonSpace(a + [c] + b) == NonSpace(a) + NonSpace(b)
  {
    NonSpaceAppend(a, [c]);
    assert NonSpace([c]) == [] by {
      assert [c][1..] == [];
    }
    NonSpaceAppend(a + [c], b);
  }

  lemma {:induction false} JoinLinesText(pieces: seq<string>, sep: char)
    requires IsSpace(sep)
    ensures NonSpace(Join(pieces, [sep])) == NonSpace(Concat(pieces))
    decreases |pieces|
  {
    if |pieces| == 1 {
      assert Concat(pieces) == pieces[0] by {
        assert pieces[1..] == [];
        assert pieces[0] + [] == pieces[0];
      }
    } else if |pieces| > 1 {
      JoinLinesText(pieces[1..], sep);
      NonSpaceAround(pieces[0], sep, Join(pieces[1..], [sep]));
      NonSpaceAppend(pieces[0], Concat(pieces[1..]));
    }
  }

  lemma {:induction false} DropReturnsText(pieces: seq<string>)
    requires |pieces| >= 1
    ensures NonSpace(Concat(DropReturns(pieces))) == NonSpace(Concat(pieces))
    decreases |pieces|
  {
    if |pieces| > 1 {
      DropReturnsText(pieces[1..]);
      var r := DropReturns(pieces);
      assert r[0] == DropReturn(pieces[0]) && r[1..] == DropReturns(pieces[1..]);
      NonSpaceAppend(r[0], Concat(r[1..]));
      NonSpaceAppend(pieces[0], Concat(pieces[1..]));
    }
  }

  /** Splitting into lines loses only line breaks. */
  lemma SplitLinesText(text: string)
    ensures NonSpace(Concat(SplitLines(text))) == NonSpace(text)
  {
    SplitJoin(text, '\n');
    JoinLinesText(Split(text, '\n'), '\n');
    DropReturnsText(Split(text, '\n'));
  }

  lemma {:induction false} WrapLinesProps(lines: seq<string>, width: nat)
    requires width >= 1
    ensures forall i :: 0 <= i < |WrapLines(lines, width)| ==> LineOk(WrapLines(lines, width)[i], width)
    ensures NonSpace(Concat(WrapLines(lines, width))) == NonSpace(Concat(lines))
    decreases |lines|
  {
    if lines != [] {
      var init := lines[..|lines| - 1];
      var last := lines[|lines| - 1];
      WrapLinesProps(init, width);
      WrapLineProps(last, width);
      var a := WrapLines(init, width);
      var b := WrapLine(last, width);
      ConcatAppend(a, b);
      NonSpaceAppend(Concat(a), Concat(b));
      ConcatSnoc(init, last);
      assert init + [last] == lines;
      NonSpaceAppend(Concat(init), last);
    }
  }

  /** wrapText as a whole: every output line is empty or starts with a
      word, every output line that holds a space fits the width, and the
      output holds the input's characters other than white
      space, in order, so wrapping loses nothing but white space. */
  lemma WrappedProps(text: string, width: nat)
    requires width >= 1
    ensures forall i :: 0 <= i < |Wrapped(text, width)| ==> LineOk(Wrapped(text, width)[i], width)
    ensures NonSpace(Concat(Wrapped(text, width))) == NonSpace(text)
  {
    WrapLinesProps(SplitLines(text), width);
    SplitLinesText(text);
  }

  // ---------------------------------------------------------------------
  // Heading detection
  // ---------------------------------------------------------------------

  /** The number of white-space characters `s` starts with. */
  function SpaceRun(s: string): (n: nat)
    ensures n <= |s|
    ensures forall i :: 0 <= i < n ==> IsSpace(s[i])
    ensures n == |s| || !IsSpace(s[n])
  {
    if s != [] && IsSpace(s[0]) then 1 + SpaceRun(s[1..]) else 0
  }

  /** The number of decimal digits `s` starts with. */
  function DigitRun(s: string): (n: nat)
    ensures n <= |s|
    ensures forall i :: 0 <= i < n ==> IsDigit(s[i])
    ensures n == |s| || !IsDigit(s[n])
  {
    if s != [] && IsDigit(s[0]) then 1 + DigitRun(s[1..]) else 0
  }

  function Skip(s: string, c: char): (n: nat)
    ensures n <= 1 && n <= |s|
  {
    if s != [] && s[0] == c then 1 else 0
  }

  /** The length of a match of `\[?\(?\s*TO BE CONFIRMED\s*\)?\]?`
      (case-insensitive) at the start of `s`. Every part but the literal is
      optional and taken when present; giving any of them up cannot make
      the literal match, so the first choice is the only one. */
  function ConfirmMatchAt(s: string): (r: Option<nat>)
    ensures r.Some? ==> |ToBeConfirmed| <= r.value <= |s|
  {
    var a := Skip(s, '[');
    var b := a + Skip(s[a..], '(');
    var c := b + SpaceRun(s[b..]);
    if StartsWithIgnoringCase(s[c..], ToBeConfirmed) then
      var d := c + |ToBeConfirmed|;
      var e := d + SpaceRun(s[d..]);
      var f := e + Skip(s[e..], ')');
      Some(f + Skip(s[f..], ']'))
    else None
  }

  /** The global replace: every match, leftmost first, is removed. */
  function StripConfirm(s: string): (r: string)
    ensures |r| <= |s|
    decreases |s|
  {
    if s == [] then []
    else match ConfirmMatchAt(s)
      case Some(n) => StripConfirm(s[n..])
      case None => [s[0]] + StripConfirm(s[1..])
  }

  /** stripToBeConfirmed. */
  function StripToBeConfirmed(line: string): string {
    Trim(StripConfirm(line))
  }

  /** Without a match at its start, the first character is kept. */
  lemma StripConfirmKeeps(s: string)
    requires s != [] && ConfirmMatchAt(s).None?
    ensures StripConfirm(s) == [s[0]] + StripConfirm(s[1..])
  {
  }

  /** No match starts anywhere in the rest of a line that has none. */
  lemma NoConfirmInTail(s: string)
    requires s != []
    requires forall i :: 0 <= i < |s| ==> ConfirmMatchAt(s[i..]).None?
    ensures forall i :: 0 <= i < |s[1..]| ==> ConfirmMatchAt(s[1..][i..]).None?
  {
    forall i | 0 <= i < |s[1..]| ensures ConfirmMatchAt(s[1..][i..]).None? {
      assert s[1..][i..] == s[i + 1..];
    }
  }

  /** A line in which the placeholder starts nowhere is left as it is. */
  lemma {:induction false} StripConfirmUntouched(s: string)
    requires forall i :: 0 <= i < |s| ==> ConfirmMatchAt(s[i..]).None?
    ensures StripConfirm(s) == s
    decreases |s|
  {
    if s != [] {
      assert s[0..] == s;
      NoConfirmInTail(s);
      StripConfirmUntouched(s[1..]);
      StripConfirmKeeps(s);
      assert [s[0]] + s[1..] == s;
    }
  }

  datatype Level = Main | Sub

  datatype HeadingInfo = HeadingInfo(content: string, level: Level)

  /** The number of `.digits` groups after a leading number, when the groups
      are followed by white space as in `^\d+(\.\d+)*\s+`. The parse is
      greedy; a digit can neither end a number nor stand for a dot or a
      space, so no other split of the line matches. */
  function DotGroups(t: string, k: nat): Option<nat>
    decreases |t|
  {
    if |t| >= 2 && t[0] == '.' && IsDigit(t[1]) then
      DotGroups(t[1 + DigitRun(t[1..])..], k + 1)
    else if t != [] && IsSpace(t[0]) then Some(k)
    else None
  }

  function Numbering(t: string): Option<nat> {
    var d := DigitRun(t);
    if d == 0 then None else DotGroups(t[d..], 0)
  }

  /** `^\d+(\.\d+)+\s+`, as in "2.1 Term". */
  predicate SubNumbered(t: string) {
    Numbering(t).Some? && Numbering(t).value >= 1
  }

  /** `^\d+(\.\d+)*\s+`, as in "2 Term". */
  predicate Numbered(t: string) {
    Numbering(t).Some?
  }

  predicate HasUpper(t: string) {
    exists i :: 0 <= i < |t| && IsUpper(t[i])
  }

  /** `trimmed === trimmed.toUpperCase() && /[A-Z]/.test(trimmed)`. */
  predicate AllCaps(t: string) {
    Upper(t) == t && HasUpper(t)
  }

  /** `/^[A-Z][A-Z\s/&,\-()]*$/`. */
  predicate CapsPunctuation(t: string) {
    |t| >= 1 && IsUpper(t[0]) &&
    forall i :: 1 <= i < |t| ==> IsUpper(t[i]) || IsSpace(t[i]) || t[i] in "/&,-()"
  }

  /** The longest line taken for a heading. */
  const MaxHeadingLength := 140

  /** getHeadingInfo. */
  function GetHeadingInfo(rawLine: string): Option<HeadingInfo> {
    if rawLine == [] then None
    else
      var t := StripToBeConfirmed(Trim(rawLine));
      if t == [] || |t| > MaxHeadingLength then None
      else if SubNumbered(t) then Some(HeadingInfo(t, Sub))
      else if Numbered(t) then Some(HeadingInfo(t, Main))
      else if EndsWith(t, ":") then Some(HeadingInfo(t[..|t| - 1], Main))
      else if AllCaps(t) then Some(HeadingInfo(t, Main))
      else if CapsPunctuation(t) then Some(HeadingInfo(t, Main))
      else None
  }

  /** The last rule of getHeadingInfo never decides anything: a line that
      passes it is all capitals with a capital letter, so the rule before
      it has already returned. */
  lemma CapsPunctuationIsAllCaps(t: string)
    requires CapsPunctuation(t)
    ensures AllCaps(t)
  {
    assert Upper(t) == t;
  }

  /** What getHeadingInfo answers, rule by rule: nothing for a blank line
      or one longer than the limit once placeholders are stripped; a
      sub-heading exactly for a multi-level number; a main heading for a
      plain number, a final colon (dropped) or capitals; nothing else. */
  lemma GetHeadingInfoSpec(rawLine: string)
    ensures var t := StripToBeConfirmed(Trim(rawLine));
      GetHeadingInfo(rawLine).Some? <==>
        (t != [] && |t| <= MaxHeadingLength && (Numbered(t) || EndsWith(t, ":") || AllCaps(t)))
    ensures var t := StripToBeConfirmed(Trim(rawLine));
      GetHeadingInfo(rawLine).Some? ==>
        (GetHeadingInfo(rawLine).value.level == Sub <==> SubNumbered(t)) &&
        (GetHeadingInfo(rawLine).value.content ==
          if !Numbered(t) && EndsWith(t, ":") then t[..|t| - 1] else t)
  {
    var t := StripToBeConfirmed(Trim(rawLine));
    if rawLine == [] {
      assert Trim(rawLine) == [] && StripConfirm([]) == [];
    }
    if CapsPunctuation(t) {
      CapsPunctuationIsAllCaps(t);
    }
  }

  // ---------------------------------------------------------------------
  // Blocks
  // ---------------------------------------------------------------------

  datatype Block =
    | Heading(content: string, level: Level)
    | Paragraph(content: string)
    | List(items: seq<string>)

  /** `s.replace(/\s+/g, ' ')`: each run of white space becomes one space. */
  function CollapseSpaces(s: string): (r: string)
    ensures r == [] <==> s == []
    ensures r != [] ==> (IsSpace(r[0]) <==> IsSpace(s[0]))
    decreases |s|
  {
    if s == [] then []
    else if IsSpace(s[0]) then " " + CollapseSpaces(s[SpaceRun(s)..])
    else [s[0]] + CollapseSpaces(s[1..])
  }

  /** White space only as single spaces. */
  predicate SingleSpaced(s: string) {
    forall i :: 0 <= i < |s| && IsSpace(s[i]) ==> s[i] == ' ' && (i + 1 == |s| || !IsSpace(s[i + 1]))
  }

  lemma {:induction false} CollapseSpacesProps(s: string)
    ensures SingleSpaced(CollapseSpaces(s))
    ensures NonSpace(CollapseSpaces(s)) == NonSpace(s)
    decreases |s|
  {
    if s != [] {
      var r := CollapseSpaces(s);
      if IsSpace(s[0]) {
        var n := SpaceRun(s);
        CollapseSpacesProps(s[n..]);
        var rest := CollapseSpaces(s[n..]);
        assert r == [' '] + rest;
        assert forall i :: 0 < i < |r| ==> r[i] == rest[i - 1];
        NonSpaceAround([], ' ', rest);
        assert [] + [' '] + rest == r;
        assert NonSpace(s[..n]) == [] by {
          NonSpaceOfBlank(s[..n]);
        }
        NonSpaceAppend(s[..n], s[n..]);
        assert s[..n] + s[n..] == s;
      } else {
        CollapseSpacesProps(s[1..]);
        var rest := CollapseSpaces(s[1..]);
        assert forall i :: 0 < i < |r| ==> r[i] == rest[i - 1];
      }
    }
  }

  /** Trimming keeps a string single-spaced and keeps its text. */
  lemma {:induction false} TrimProps(s: string)
    requires SingleSpaced(s)
    ensures SingleSpaced(Trim(s))
    ensures NonSpace(Trim(s)) == NonSpace(s)
    decreases |s|
  {
    if s != [] && IsSpace(s[0]) {
      assert forall i :: 0 <= i < |s| - 1 ==> s[1..][i] == s[i + 1];
      TrimProps(s[1..]);
    } else if s != [] && IsSpace(s[|s| - 1]) {
      var init := s[..|s| - 1];
      assert forall i :: 0 <= i < |init| ==> init[i] == s[i];
      TrimProps(init);
      NonSpaceAround(init, s[|s| - 1], []);
      assert init + [s[|s| - 1]] + [] == s;
      assert NonSpace([]) == [];
    }
  }

  /** `buffer.join(' ').replace(/\s+/g, ' ').trim()`. */
  function Merge(buffer: seq<string>): string {
    Trim(CollapseSpaces(Join(buffer, " ")))
  }

  /** A merged paragraph has no white space at its ends, only single spaces
      inside, and every character of its lines other than white space. */
  lemma MergeProps(buffer: seq<string>)
    ensures Trim(Merge(buffer)) == Merge(buffer)
    ensures SingleSpaced(Merge(buffer))
    ensures NonSpace(Merge(buffer)) == NonSpace(Concat(buffer))
  {
    var j := Join(buffer, " ");
    CollapseSpacesProps(j);
    TrimProps(CollapseSpaces(j));
    TrimIdempotent(CollapseSpaces(j));
    JoinLinesText(buffer, ' ');
  }

  /** `/^[-*]\s+/`. */
  predicate IsListLine(t: string) {
    |t| >= 2 && t[0] in "-*" && IsSpace(t[1])
  }

  /** `t.replace(/^[-*]\s+/, '')`. */
  function ListItem(t: string): (item: string)
    requires IsListLine(t)
    ensures |item| < |t| && item == t[|t| - |item|..]
  {
    t[1 + SpaceRun(t[1..])..]
  }

  /** Where formatContractText stands: the blocks so far and the lines
      waiting to form a paragraph. */
  datatype Formatting = Formatting(blocks: seq<Block>, buffer: seq<string>)

  /** flushBuffer. */
  function Flush(st: Formatting): Formatting {
    if st.buffer == [] then st
    else
      var merged := Merge(st.buffer);
      Formatting(st.blocks + (if merged != [] then [Paragraph(merged)] else []), [])
  }

  /** The body formatContractText runs for each line. */
  function FormatLine(st: Formatting, raw: string): Formatting {
    var trimmed := Trim(raw);
    if trimmed == [] then Flush(st)
    else if IsListLine(trimmed) then
      Formatting(Flush(st).blocks + [List([ListItem(trimmed)])], [])
    else match GetHeadingInfo(trimmed)
      case Some(h) => Formatting(Flush(st).blocks + [Heading(h.content, h.level)], [])
      case None => Formatting(st.blocks, st.buffer + [trimmed])
  }

  function FormatLines(st: Formatting, lines: seq<string>): Formatting {
    if lines == [] then st
    else FormatLine(FormatLines(st, lines[..|lines| - 1]), lines[|lines| - 1])
  }

  /** formatContractText. */
  function FormatContract(text: string): seq<Block> {
    if text == [] then [] else Flush(FormatLines(Formatting([], []), SplitLines(text))).blocks
  }

  method FlushBuffer(blocks: seq<Block>, buffer: seq<string>) returns (blocks': seq<Block>)
    ensures Formatting(blocks', []) == Flush(Formatting(blocks, buffer))
  {
    blocks' := blocks;
    if buffer == [] {
      return;
    }
    var merged := Merge(buffer);
    if merged != "" {
      blocks' := blocks' + [Paragraph(merged)];
    }
  }

  /** formatContractText, line by line. */
  method FormatContractText(text: string) returns (blocks: seq<Block>)
    ensures blocks == FormatContract(text)
  {
    if text == "" {
      return [];
    }
    var lines := SplitLines(text);
    blocks := [];
    var buffer: seq<string> := [];
    for k := 0 to |lines|
      invariant Formatting(blocks, buffer) == FormatLines(Formatting([], []), lines[..k])
    {
      assert lines[..k + 1][..k] == lines[..k];
      var trimmed := Trim(lines[k]);
      if trimmed == "" {
        blocks := FlushBuffer(blocks, buffer);
        buffer := [];
      } else if IsListLine(trimmed) {
        blocks := FlushBuffer(blocks, buffer);
        buffer := [];
        blocks := blocks + [List([ListItem(trimmed)])];
      } else {
        var heading := GetHeadingInfo(trimmed);
        if heading.Some? {
          blocks := FlushBuffer(blocks, buffer);
          buffer := [];
          blocks := blocks + [Heading(heading.value.content, heading.value.level)];
        } else {
          buffer := buffer + [trimmed];
        }
      }
    }
    assert lines[..|lines|] == lines;
    blocks := FlushBuffer(blocks, buffer);
  }

  /** What each kind of block guarantees the renderers. */
  predicate WellFormedBlock(b: Block) {
    match b
    case Paragraph(c) => c != [] && Trim(c) == c && SingleSpaced(c)
    case List(items) => |items| == 1 && items[0] != [] && !IsSpace(items[0][0])
    case Heading(c, _) => |c| <= MaxHeadingLength
  }

  /** The item of a trimmed list line is what follows the marker and its
      white space: never empty, never starting with white space. */
  lemma ListItemProps(t: string)
    requires IsListLine(t) && !IsSpace(t[|t| - 1])
    ensures ListItem(t) != [] && !IsSpace(ListItem(t)[0])
  {
  }

  lemma FlushProps(st: Formatting)
    requires forall k :: 0 <= k < |st.blocks| ==> WellFormedBlock(st.blocks[k])
    ensures forall k :: 0 <= k < |Flush(st).blocks| ==> WellFormedBlock(Flush(st).blocks[k])
    ensures Flush(st).buffer == []
    ensures |Flush(st).blocks| <= |st.blocks| + (if st.buffer == [] then 0 else 1)
  {
    if st.buffer != [] {
      MergeProps(st.buffer);
    }
  }

  /** A heading's text is never longer than the limit. */
  lemma HeadingShort(line: string)
    requires GetHeadingInfo(line).Some?
    ensures |GetHeadingInfo(line).value.content| <= MaxHeadingLength
  {
    var t := StripToBeConfirmed(Trim(line));
    assert |t| <= MaxHeadingLength;
    if !Numbered(t) && EndsWith(t, ":") {
      assert GetHeadingInfo(line).value.content == t[..|t| - 1];
    } else {
      assert GetHeadingInfo(line).value.content == t;
    }
  }

  /** Appending a well-formed block keeps every block well formed. */
  lemma AppendWellFormed(blocks: seq<Block>, b: Block)
    requires forall k :: 0 <= k < |blocks| ==> WellFormedBlock(blocks[k])
    requires WellFormedBlock(b)
    ensures forall k :: 0 <= k < |blocks + [b]| ==> WellFormedBlock((blocks + [b])[k])
  {
    forall k | 0 <= k < |blocks + [b]|
      ensures WellFormedBlock((blocks + [b])[k])
    {
      if k < |blocks| {
        assert (blocks + [b])[k] == blocks[k];
      }
    }
  }

  /** A list line flushes the paragraph and adds one list block. */
  lemma ListLineProps(st: Formatting, t: string)
    requires forall k :: 0 <= k < |st.blocks| ==> WellFormedBlock(st.blocks[k])
    requires IsListLine(t) && !IsSpace(t[|t| - 1])
    ensures var blocks := Flush(st).blocks + [List([ListItem(t)])];
      && (forall k :: 0 <= k < |blocks| ==> WellFormedBlock(blocks[k]))
      && |blocks| <= |st.blocks| + (if st.buffer == [] then 0 else 1) + 1
  {
    FlushProps(st);
    ListItemProps(t);
    AppendWellFormed(Flush(st).blocks, List([ListItem(t)]));
  }

  /** A heading line flushes the paragraph and adds one heading block. */
  lemma HeadingLineProps(st: Formatting, t: string)
    requires forall k :: 0 <= k < |st.blocks| ==> WellFormedBlock(st.blocks[k])
    requires GetHeadingInfo(t).Some?
    ensures var h := GetHeadingInfo(t).value;
      var blocks := Flush(st).blocks + [Heading(h.content, h.level)];
      && (forall k :: 0 <= k < |blocks| ==> WellFormedBlock(blocks[k]))
      && |blocks| <= |st.blocks| + (if st.buffer == [] then 0 else 1) + 1
  {
    FlushProps(st);
    HeadingShort(t);
    var h := GetHeadingInfo(t).value;
    AppendWellFormed(Flush(st).blocks, Heading(h.content, h.level));
  }

  lemma FormatLineProps(st: Formatting, raw: string)
    requires forall k :: 0 <= k < |st.blocks| ==> WellFormedBlock(st.blocks[k])
    ensures forall k :: 0 <= k < |FormatLine(st, raw).blocks| ==> WellFormedBlock(FormatLine(st, raw).blocks[k])
    ensures |FormatLine(st, raw).blocks| + (if FormatLine(st, raw).buffer == [] then 0 else 1)
         <= |st.blocks| + (if st.buffer == [] then 0 else 1) + 1
  {
    var trimmed := Trim(raw);
    if trimmed == [] {
      FlushProps(st);
    } else if IsListLine(trimmed) {
      ListLineProps(st, trimmed);
    } else if GetHeadingInfo(trimmed).Some? {
      HeadingLineProps(st, trimmed);
    }
  }

  lemma {:induction false} FormatLinesProps(lines: seq<string>)
    ensures forall k :: 0 <= k < |FormatLines(Formatting([], []), lines).blocks| ==>
      WellFormedBlock(FormatLines(Formatting([], []), lines).blocks[k])
    ensures |FormatLines(Formatting([], []), lines).blocks| +
      (if FormatLines(Formatting([], []), lines).buffer == [] then 0 else 1) <= |lines|
    decreases |lines|
  {
    if lines != [] {
      var init := lines[..|lines| - 1];
      FormatLinesProps(init);
      FormatLineProps(FormatLines(Formatting([], []), init), lines[|lines| - 1]);
    }
  }

  /** formatContractText yields well-formed blocks, at most one per line. */
  lemma FormatContractProps(text: string)
    ensures forall k :: 0 <= k < |FormatContract(text)| ==> WellFormedBlock(FormatContract(text)[k])
    ensures |FormatContract(text)| <= |SplitLines(text)|
  {
    if text != [] {
      FormatLinesProps(SplitLines(text));
      FlushProps(FormatLines(Formatting([], []), SplitLines(text)));
    }
  }

  // ---------------------------------------------------------------------
  // Render lines
  // ---------------------------------------------------------------------

  datatype Style = HeadingStyle | SubheadingStyle | ListStyle | NormalStyle

  /** One line as both exporters draw it. */
  datatype RenderLine = RenderLine(text: string, style: Style)

  /** The wrap widths, in characters, of headings, list items and paragraphs. */
  const HeadingWidth: nat := 90
  const ListWidth: nat := 92
  const ParagraphWidth: nat := 96

  function Styled(lines: seq<string>, style: Style): (r: seq<RenderLine>)
    ensures |r| == |lines|
    ensures forall i :: 0 <= i < |r| ==> r[i] == RenderLine(lines[i], style)
  {
    seq(|lines|, i requires 0 <= i < |lines| => RenderLine(lines[i], style))
  }

  function ListLines(items: seq<string>): seq<RenderLine> {
    if items == [] then []
    else ListLines(items[..|items| - 1]) + Styled(Wrapped("- " + items[|items| - 1], ListWidth), ListStyle)
  }

  /** The lines of the block at position `idx`: a heading after the first
      block is set off by an empty line. */
  function BlockLines(b: Block, idx: nat): seq<RenderLine> {
    match b
    case Heading(c, level) =>
      (if idx > 0 then [RenderLine([], NormalStyle)] else []) +
      Styled(Wrapped(c, HeadingWidth), if level == Main then HeadingStyle else SubheadingStyle)
    case List(items) => ListLines(items)
    case Paragraph(c) => Styled(Wrapped(c, ParagraphWidth), NormalStyle)
  }

  function BlocksLines(blocks: seq<Block>): seq<RenderLine> {
    if blocks == [] then []
    else BlocksLines(blocks[..|blocks| - 1]) + BlockLines(blocks[|blocks| - 1], |blocks| - 1)
  }

  /** buildRenderLines. */
  function RenderLines(text: string): seq<RenderLine> {
    BlocksLines(FormatContract(text))
  }

  /** `wrapped.forEach((line) => lines.push({ text: line, style }))`. */
  method PushStyled(lines: seq<RenderLine>, wrapped: seq<string>, style: Style) returns (lines': seq<RenderLine>)
    ensures lines' == lines + Styled(wrapped, style)
  {
    lines' := lines;
    for j := 0 to |wrapped|
      invariant lines' == lines + Styled(wrapped[..j], style)
    {
      lines' := lines' + [RenderLine(wrapped[j], style)];
    }
    assert wrapped[..|wrapped|] == wrapped;
  }

  /** The body buildRenderLines runs for a heading block. */
  method PushHeading(lines: seq<RenderLine>, content: string, level: Level, idx: nat)
    returns (lines': seq<RenderLine>)
    ensures lines' == lines + BlockLines(Heading(content, level), idx)
  {
    var style := if level == Main then HeadingStyle else SubheadingStyle;
    var gap: seq<RenderLine> := if idx > 0 then [RenderLine("", NormalStyle)] else [];
    var wrapped := WrapText(content, HeadingWidth);
    lines' := PushStyled(lines + gap, wrapped, style);
    AppendAssoc(lines, gap, Styled(wrapped, style));
  }

  /** The body buildRenderLines runs for a list block. */
  method PushList(lines: seq<RenderLine>, items: seq<string>) returns (lines': seq<RenderLine>)
    ensures lines' == lines + ListLines(items)
  {
    lines' := lines;
    for j := 0 to |items|
      invariant lines' == lines + ListLines(items[..j])
    {
      assert items[..j + 1][..j] == items[..j];
      var wrapped := WrapText("- " + items[j], ListWidth);
      AppendAssoc(lines, ListLines(items[..j]), Styled(wrapped, ListStyle));
      lines' := PushStyled(lines', wrapped, ListStyle);
    }
    assert items[..|items|] == items;
  }

  /** The body buildRenderLines runs for each block. */
  method PushBlock(lines: seq<RenderLine>, block: Block, idx: nat) returns (lines': seq<RenderLine>)
    ensures lines' == lines + BlockLines(block, idx)
  {
    match block
    case Heading(content, level) =>
      lines' := PushHeading(lines, content, level, idx);
    case List(items) =>
      lines' := PushList(lines, items);
    case Paragraph(content) =>
      var wrapped := WrapText(content, ParagraphWidth);
      lines' := PushStyled(lines, wrapped, NormalStyle);
  }

  /** Every block, in order. */
  method PushBlocks(blocks: seq<Block>) returns (lines: seq<RenderLine>)
    ensures lines == BlocksLines(blocks)
  {
    lines := [];
    for idx := 0 to |blocks|
      invariant lines == BlocksLines(blocks[..idx])
    {
      assert blocks[..idx + 1][..idx] == blocks[..idx];
      lines := PushBlock(lines, blocks[idx], idx);
    }
    assert blocks[..|blocks|] == blocks;
  }

  /** buildRenderLines. */
  method BuildRenderLines(text: string) returns (lines: seq<RenderLine>)
    ensures lines == RenderLines(text)
  {
    var blocks := FormatContractText(text);
    lines := PushBlocks(blocks);
  }

  function LineTexts(rs: seq<RenderLine>): (r: seq<string>)
    ensures |r| == |rs|
    ensures forall i :: 0 <= i < |rs| ==> r[i] == rs[i].text
  {
    seq(|rs|, i requires 0 <= i < |rs| => rs[i].text)
  }

  lemma LineTextsAppend(a: seq<RenderLine>, b: seq<RenderLine>)
    ensures LineTexts(a + b) == LineTexts(a) + LineTexts(b)
  {
  }

  /** The text a list block carries: each item after its "- " marker. */
  function ItemsText(items: seq<string>): string {
    if items == [] then []
    else ItemsText(items[..|items| - 1]) + ("- " + items[|items| - 1])
  }

  function BlockText(b: Block): string {
    match b
    case Heading(c, _) => c
    case Paragraph(c) => c
    case List(items) => ItemsText(items)
  }

  function BlocksText(blocks: seq<Block>): string {
    if blocks == [] then []
    else BlocksText(blocks[..|blocks| - 1]) + BlockText(blocks[|blocks| - 1])
  }

  /** A render line that both exporters can draw as is: empty or starting
      with a word, and at most a paragraph's width unless one unbreakable
      word. */
  predicate RenderOk(r: RenderLine) {
    LineOk(r.text, ParagraphWidth)
  }

  /** Styling a wrap of width at most the paragraph width. */
  lemma StyledWrapProps(text: string, width: nat, style: Style)
    requires 1 <= width <= ParagraphWidth
    ensures forall i :: 0 <= i < |Styled(Wrapped(text, width), style)| ==>
      RenderOk(Styled(Wrapped(text, width), style)[i])
    ensures NonSpace(Concat(LineTexts(Styled(Wrapped(text, width), style)))) == NonSpace(text)
  {
    WrappedProps(text, width);
    assert LineTexts(Styled(Wrapped(text, width), style)) == Wrapped(text, width);
  }

  lemma {:induction false} ListLinesProps(items: seq<string>)
    ensures forall i :: 0 <= i < |ListLines(items)| ==> RenderOk(ListLines(items)[i])
    ensures NonSpace(Concat(LineTexts(ListLines(items)))) == NonSpace(ItemsText(items))
    decreases |items|
  {
    if items != [] {
      var init := items[..|items| - 1];
      var last := items[|items| - 1];
      ListLinesProps(init);
      var a := ListLines(init);
      var b := Styled(Wrapped("- " + last, ListWidth), ListStyle);
      StyledWrapProps("- " + last, ListWidth, ListStyle);
      LineTextsAppend(a, b);
      ConcatAppend(LineTexts(a), LineTexts(b));
      NonSpaceAppend(Concat(LineTexts(a)), Concat(LineTexts(b)));
      NonSpaceAppend(ItemsText(init), "- " + last);
    }
  }

  lemma BlockLinesProps(b: Block, idx: nat)
    ensures forall i :: 0 <= i < |BlockLines(b, idx)| ==> RenderOk(BlockLines(b, idx)[i])
    ensures NonSpace(Concat(LineTexts(BlockLines(b, idx)))) == NonSpace(BlockText(b))
  {
    match b
    case Heading(c, level) =>
      var style := if level == Main then HeadingStyle else SubheadingStyle;
      var gap: seq<RenderLine> := if idx > 0 then [RenderLine([], NormalStyle)] else [];
      var body := Styled(Wrapped(c, HeadingWidth), style);
      StyledWrapProps(c, HeadingWidth, style);
      assert BlockLines(b, idx) == gap + body;
      LineTextsAppend(gap, body);
      ConcatAppend(LineTexts(gap), LineTexts(body));
      assert Concat(LineTexts(gap)) == [] by {
        if idx > 0 {
          assert LineTexts(gap) == [[]];
          ConcatSnoc([], []);
        }
      }
      assert [] + Concat(LineTexts(body)) == Concat(LineTexts(body));
    case List(items) =>
      ListLinesProps(items);
    case Paragraph(c) =>
      StyledWrapProps(c, ParagraphWidth, NormalStyle);
  }

  lemma {:induction false} BlocksLinesProps(blocks: seq<Block>)
    ensures forall i :: 0 <= i < |BlocksLines(blocks)| ==> RenderOk(BlocksLines(blocks)[i])
    ensures NonSpace(Concat(LineTexts(BlocksLines(blocks)))) == NonSpace(BlocksText(blocks))
    decreases |blocks|
  {
    if blocks != [] {
      var init := blocks[..|blocks| - 1];
      var last := blocks[|blocks| - 1];
      BlocksLinesProps(init);
      BlockLinesProps(last, |blocks| - 1);
      var a := BlocksLines(init);
      var b := BlockLines(last, |blocks| - 1);
      LineTextsAppend(a, b);
      ConcatAppend(LineTexts(a), LineTexts(b));
      NonSpaceAppend(Concat(LineTexts(a)), Concat(LineTexts(b)));
      NonSpaceAppend(BlocksText(init), BlockText(last));
    }
  }

  /** buildRenderLines: every line is empty or starts with a word, so the
      PDF writer's test for an empty line and the DOCX writer's test for a
      blank one agree; a line that holds a space is at most 96 characters;
      and the lines carry exactly the blocks' characters other than white
      space, in order, list items after their "-" marker. */
  lemma RenderLinesProps(text: string)
    ensures forall i :: 0 <= i < |RenderLines(text)| ==> RenderOk(RenderLines(text)[i])
    ensures NonSpace(Concat(LineTexts(RenderLines(text)))) == NonSpace(BlocksText(FormatContract(text)))
  {
    BlocksLinesProps(FormatContract(text));
  }
}
