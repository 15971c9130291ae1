/** The spreadsheet import of contract templates
    (backend/src/seeds/seed-template-ingest.ts): the cell converters
    `toBool`, `toInt` and `splitCsv`, the template-version header read from
    the Metadata sheet, and the clause categories gathered from the Clauses
    sheet.  Reading workbooks and writing rows are not modelled. */
module TemplateIngest {
  import opened Strings
  import opened Store

  /** A JavaScript number. */
  datatype JsNumber = Finite(r: real) | NaN | Infinite(positive: bool)

  /** A spreadsheet cell as `sheet_to_json` delivers it (with `defval:
      null` and `cellDates`), or a value read from a missing key. */
  datatype Cell = Null | Undefined | Bool(b: bool) | Num(n: JsNumber) | Str(s: string) | DateCell(ms: int)
                | Arr(items: seq<Cell>)

  /** JavaScript truthiness. */
  predicate Truthy(v: Cell) {
    match v
    case Null => false
    case Undefined => false
    case Bool(b) => b
    case Num(n) => !(n.NaN? || n == Finite(0.0))
    case Str(s) => s != ""
    case DateCell(_) => true
    case Arr(_) => true
  }

  /** `a || b`. */
  function Or(a: Cell, b: Cell): Cell {
    if Truthy(a) then a else b
  }

  /** `String(v)`; `text` is JavaScript's rendering of numbers, dates and
      arrays, which the model does not spell out. */
  function StringOf(v: Cell, text: Cell -> string): string {
    match v
    case Str(s) => s
    case Null => "null"
    case Undefined => "undefined"
    case Bool(b) => if b then "true" else "false"
    case _ => text(v)
  }

  // ---------------------------------------------------------------------
  // toBool (seed-template-ingest.ts:39-56)
  // ---------------------------------------------------------------------

  /** `toBool(value, defaultValue)`. */
  function ToBool(v: Cell, default: bool): (r: bool)
    ensures v.Bool? ==> r == v.b
    ensures v.Num? ==> (r <==> v.n != Finite(0.0))
    ensures v.Str? && Lower(Trim(v.s)) in {"yes", "true"} ==> r
    ensures v.Str? && Lower(Trim(v.s)) in {"no", "false"} ==> !r
    ensures v.Str? && Lower(Trim(v.s)) !in {"yes", "true", "no", "false"} ==> r == default
    ensures !(v.Bool? || v.Num? || v.Str?) ==> r == default
  {
    match v
    case Bool(b) => b
    case Num(n) => n != Finite(0.0)
    case Str(s) =>
      var normalized := Lower(Trim(s));
      if normalized == "yes" || normalized == "true" then true
      else if normalized == "no" || normalized == "false" then false
      else default
    case _ => default
  }

  lemma SpaceNotUpper(c: char)
    ensures IsSpace(ToLowerChar(c)) <==> IsSpace(c)
  {
  }

  /** Trimming and lower-casing commute. */
  lemma {:induction false} TrimLowerCommute(s: string)
    ensures Trim(Lower(s)) == Lower(Trim(s))
    decreases |s|
  {
    var l := Lower(s);
    if s != [] {
      SpaceNotUpper(s[0]);
      SpaceNotUpper(s[|s| - 1]);
    }
    if s != [] && IsSpace(s[0]) {
      assert l[1..] == Lower(s[1..]);
      TrimLowerCommute(s[1..]);
    } else if s != [] && IsSpace(s[|s| - 1]) {
      assert l[..|l| - 1] == Lower(s[..|s| - 1]);
      TrimLowerCommute(s[..|s| - 1]);
    }
  }

  lemma LowerIdempotent(s: string)
    ensures Lower(Lower(s)) == Lower(s)
  {
    LowerOfLower(Lower(s));
  }

  /** The string cases ignore letter case: "YES", "Yes" and "yes" agree. */
  lemma ToBoolIgnoresCase(s: string, default: bool)
    ensures ToBool(Str(Lower(s)), default) == ToBool(Str(s), default)
  {
    TrimLowerCommute(s);
    LowerIdempotent(Trim(s));
  }

  // ---------------------------------------------------------------------
  // toInt (seed-template-ingest.ts:58-64)
  // ---------------------------------------------------------------------

  /** `Number(v)`; `parse` is JavaScript's reading of a numeric string. */
  function ToNumber(v: Cell, parse: string -> JsNumber, text: Cell -> string): JsNumber {
    match v
    case Num(n) => n
    case Bool(b) => Finite(if b then 1.0 else 0.0)
    case Null => Finite(0.0)
    case Undefined => NaN
    case DateCell(ms) => Finite(ms as real)
    case Str(s) => parse(s)
    case Arr(_) => parse(StringOf(v, text))
  }

  /** `Math.trunc`: rounding toward zero. */
  function Trunc(x: real): (i: int)
    ensures x >= 0.0 ==> 0 <= i && i as real <= x < (i + 1) as real
    ensures x < 0.0 ==> i <= 0 && (i - 1) as real < x <= i as real
  {
    if x >= 0.0 then x.Floor else -((-x).Floor)
  }

  /** `toInt`: no value for null, undefined, the empty string and
      anything that is not a finite number; otherwise its integer part. */
  function ToInt(v: Cell, parse: string -> JsNumber, text: Cell -> string): (r: Option<int>)
    ensures v.Null? || v.Undefined? || v == Str("") ==> r.None?
    ensures !(v.Null? || v.Undefined? || v == Str("")) ==>
      (r.Some? <==> ToNumber(v, parse, text).Finite?)
    ensures r.Some? ==> r.value == Trunc(ToNumber(v, parse, text).r)
  {
    if v.Null? || v.Undefined? || v == Str("") then None
    else match ToNumber(v, parse, text)
      case Finite(x) => Some(Trunc(x))
      case _ => None
  }

  /** A finite integral number is read as itself. */
  lemma ToIntOfInteger(i: int, parse: string -> JsNumber, text: Cell -> string)
    ensures ToInt(Num(Finite(i as real)), parse, text) == Some(i)
  {
  }

  // ---------------------------------------------------------------------
  // splitCsv (seed-template-ingest.ts:66-77)
  // ---------------------------------------------------------------------

  function TrimAll(parts: seq<string>): (r: seq<string>)
    ensures |r| == |parts| && forall i :: 0 <= i < |parts| ==> r[i] == Trim(parts[i])
  {
    if parts == [] then [] else [Trim(parts[0])] + TrimAll(parts[1..])
  }

  /** `.filter(Boolean)` on strings. */
  function NonEmpty(parts: seq<string>): seq<string> {
    Filter(parts, (e: string) => e != "")
  }

  /** `splitCsv`: nothing for a falsy cell; the trimmed, non-empty string
      forms of an array's entries; or the trimmed, non-empty pieces of the
      cell's text between commas. */
  function SplitCsv(v: Cell, text: Cell -> string): (r: seq<string>)
    ensures !Truthy(v) ==> r == []
    ensures v.Str? && Truthy(v) ==> r == NonEmpty(TrimAll(Split(v.s, ',')))
    ensures forall e :: e in r ==> e != "" && Trim(e) == e
    ensures !v.Arr? ==> forall e :: e in r ==> ',' !in e
  {
    if !Truthy(v) then []
    else if v.Arr? then
      var r := NonEmpty(TrimAll(seq(|v.items|, i requires 0 <= i < |v.items| => StringOf(v.items[i], text))));
      TrimmedPieces(seq(|v.items|, i requires 0 <= i < |v.items| => StringOf(v.items[i], text)));
      r
    else
      var pieces := Split(StringOf(v, text), ',');
      TrimmedPieces(pieces);
      NonEmpty(TrimAll(pieces))
  }

  /** The pieces that survive are non-empty and trimmed, and a piece with
      no comma keeps none after trimming. */
  lemma TrimmedPieces(parts: seq<string>)
    ensures forall e :: e in NonEmpty(TrimAll(parts)) ==> e != "" && Trim(e) == e
    ensures (forall k :: 0 <= k < |parts| ==> ',' !in parts[k]) ==>
      forall e :: e in NonEmpty(TrimAll(parts)) ==> ',' !in e
  {
    var t := TrimAll(parts);
    forall e | e in NonEmpty(t)
      ensures e != "" && Trim(e) == e
    {
      var i :| 0 <= i < |t| && t[i] == e;
      TrimIdempotent(parts[i]);
    }
    if forall k :: 0 <= k < |parts| ==> ',' !in parts[k] {
      forall e | e in NonEmpty(t)
        ensures ',' !in e
      {
        var i :| 0 <= i < |t| && t[i] == e;
        TrimKeepsChars(parts[i]);
      }
    }
  }

  /** Trimming keeps only characters of the input. */
  lemma {:induction false} TrimKeepsChars(s: string)
    ensures forall c :: c in Trim(s) ==> c in s
    decreases |s|
  {
    if s != [] && IsSpace(s[0]) {
      TrimKeepsChars(s[1..]);
    } else if s != [] && IsSpace(s[|s| - 1]) {
      TrimKeepsChars(s[..|s| - 1]);
    }
  }

  // ---------------------------------------------------------------------
  // The template-version header (seed-template-ingest.ts:130-142)
  // ---------------------------------------------------------------------

  /** A sheet row: column name to cell. */
  type Row = map<string, Cell>

  /** `row.key`, undefined for a key the row does not have. */
  function Get(row: Row, key: string): Cell {
    if key in row then row[key] else Undefined
  }

  datatype Header = Header(code: string, name: string, version: string, exportType: Option<string>)

  /** The header a Metadata sheet yields; `None` means the file is skipped
      for want of a contract type code.  (`generated_at` is not modelled.) */
  function ReadHeader(metadataRows: seq<Row>, text: Cell -> string): (r: Option<Header>)
    ensures var m := if metadataRows == [] then map[] else metadataRows[0];
      var code := Trim(StringOf(Or(Get(m, "contract_type_code"), Str("")), text));
      && (r.None? <==> code == "")
      && (r.Some? ==> r.value.code == code)
      && (r.Some? && !Truthy(Get(m, "contract_type_name")) ==> r.value.name == code)
      && (r.Some? && !Truthy(Get(m, "version")) ==> r.value.version == "0.0.0")
      && (r.Some? ==> (r.value.exportType.Some? <==> Truthy(Get(m, "export_type"))))
      && (r.Some? && Truthy(Get(m, "contract_type_name")) ==>
            r.value.name == Trim(StringOf(Get(m, "contract_type_name"), text)))
      && (r.Some? && Truthy(Get(m, "version")) ==> r.value.version == Trim(StringOf(Get(m, "version"), text)))
      && (r.Some? && Truthy(Get(m, "export_type")) ==>
            r.value.exportType == Some(Trim(StringOf(Get(m, "export_type"), text))))
  {
    var m := if metadataRows == [] then map[] else metadataRows[0];
    var code := Trim(StringOf(Or(Get(m, "contract_type_code"), Str("")), text));
    if code == "" then None
    else
      TrimIdempotent(StringOf(Or(Get(m, "contract_type_code"), Str("")), text));
      TrimOfUnpadded("0.0.0");
      var name := Trim(StringOf(Or(Get(m, "contract_type_name"), Str(code)), text));
      var version := Trim(StringOf(Or(Get(m, "version"), Str("0.0.0")), text));
      var exportType := if Truthy(Get(m, "export_type")) then Some(Trim(StringOf(Get(m, "export_type"), text)))
                        else None;
      Some(Header(code, name, version, exportType))
  }

  /** An empty Metadata sheet skips the file. */
  lemma NoMetadataSkips(text: Cell -> string)
    ensures ReadHeader([], text).None?
  {
  }

  // ---------------------------------------------------------------------
  // Clause categories (seed-template-ingest.ts:252-263)
  // ---------------------------------------------------------------------

  /** The two columns of a clause row the categories come from. */
  datatype ClauseRow = ClauseRow(categoryCode: string, categoryName: string)

  datatype Category = Category(code: string, name: string)

  /** The first clause row with category `code`. */
  function FirstWith(clauses: seq<ClauseRow>, code: string): (r: Option<nat>)
    ensures r.Some? ==> r.value < |clauses| && clauses[r.value].categoryCode == code
    ensures r.Some? ==> forall k :: 0 <= k < r.value ==> clauses[k].categoryCode != code
    ensures r.None? <==> forall k :: 0 <= k < |clauses| ==> clauses[k].categoryCode != code
  {
    if clauses == [] then None
    else if clauses[0].categoryCode == code then Some(0)
    else match FirstWith(clauses[1..], code)
      case Some(k) => Some(k + 1)
      case None => None
  }

  /** The keys of the category map. */
  function Codes(categories: seq<Category>): set<string> {
    set i | 0 <= i < |categories| :: categories[i].code
  }

  lemma CodesAppend(categories: seq<Category>, c: Category)
    ensures Codes(categories + [c]) == Codes(categories) + {c.code}
  {
    var after := categories + [c];
    forall x | x in Codes(categories)
      ensures x in Codes(after)
    {
      var i :| 0 <= i < |categories| && categories[i].code == x;
      assert after[i] == categories[i];
    }
    assert after[|categories|] == c;
  }

  /** Row `f` is the first clause row with category `code`. */
  predicate IsFirst(clauses: seq<ClauseRow>, f: nat, code: string) {
    f < |clauses| && clauses[f].categoryCode == code && forall k :: 0 <= k < f ==> clauses[k].categoryCode != code
  }

  lemma FirstWithIsFirst(clauses: seq<ClauseRow>, f: nat, code: string)
    requires IsFirst(clauses, f, code)
    ensures FirstWith(clauses, code) == Some(f)
  {
  }

  /** What the `categoryMap` loop has built after the first `n` rows:
      `firsts[i]` is the first row of category `i`, before `n`, and the
      categories come in order of those rows. */
  predicate Tracked(clauses: seq<ClauseRow>, categories: seq<Category>, firsts: seq<nat>, n: nat) {
    && |firsts| == |categories|
    && (forall i :: 0 <= i < |categories| ==>
          && firsts[i] < n
          && IsFirst(clauses, firsts[i], categories[i].code)
          && categories[i].name == clauses[firsts[i]].categoryName)
    && (forall i, j :: 0 <= i < j < |categories| ==> firsts[i] < firsts[j])
  }

  lemma TrackedSkip(clauses: seq<ClauseRow>, categories: seq<Category>, firsts: seq<nat>, n: nat)
    requires Tracked(clauses, categories, firsts, n)
    ensures Tracked(clauses, categories, firsts, n + 1)
  {
  }

  lemma TrackedAdd(clauses: seq<ClauseRow>, categories: seq<Category>, firsts: seq<nat>, n: nat)
    requires n < |clauses| && Tracked(clauses, categories, firsts, n)
    requires forall k :: 0 <= k < n ==> clauses[k].categoryCode in Codes(categories)
    requires clauses[n].categoryCode !in Codes(categories)
    ensures Tracked(clauses, categories + [Category(clauses[n].categoryCode, clauses[n].categoryName)],
                    firsts + [n], n + 1)
  {
    var code := clauses[n].categoryCode;
    assert IsFirst(clauses, n, code);
  }

  /** The categories the `categoryMap` loop holds after the first `n`
      clause rows: a code not seen before is appended with its row's name. */
  function CategoriesUpTo(clauses: seq<ClauseRow>, n: nat): seq<Category>
    requires n <= |clauses|
  {
    if n == 0 then []
    else
      var before := CategoriesUpTo(clauses, n - 1);
      var row := clauses[n - 1];
      if row.categoryCode in Codes(before) then before
      else before + [Category(row.categoryCode, row.categoryName)]
  }

  /** The categories saved for a template version. */
  function Categories(clauses: seq<ClauseRow>): seq<Category> {
    CategoriesUpTo(clauses, |clauses|)
  }

  /** The first rows of the categories after `n` rows, as the loop meets them. */
  lemma {:induction false} CategoriesTracked(clauses: seq<ClauseRow>, n: nat) returns (firsts: seq<nat>)
    requires n <= |clauses|
    ensures Tracked(clauses, CategoriesUpTo(clauses, n), firsts, n)
    ensures forall k :: 0 <= k < n ==> clauses[k].categoryCode in Codes(CategoriesUpTo(clauses, n))
  {
    if n == 0 {
      firsts := [];
    } else {
      var before := CategoriesUpTo(clauses, n - 1);
      var row := clauses[n - 1];
      firsts := CategoriesTracked(clauses, n - 1);
      if row.categoryCode in Codes(before) {
        TrackedSkip(clauses, before, firsts, n - 1);
      } else {
        TrackedAdd(clauses, before, firsts, n - 1);
        CodesAppend(before, Category(row.categoryCode, row.categoryName));
        firsts := firsts + [n - 1];
      }
    }
  }

  /** One category per distinct code, in order of first occurrence, named by
      the first clause with that code. */
  lemma CategoriesMeaning(clauses: seq<ClauseRow>)
    ensures var categories := Categories(clauses);
      && (forall i :: 0 <= i < |categories| ==>
            FirstWith(clauses, categories[i].code).Some?
            && categories[i].name == clauses[FirstWith(clauses, categories[i].code).value].categoryName)
      && (forall i, j :: 0 <= i < j < |categories| ==>
            FirstWith(clauses, categories[i].code).value < FirstWith(clauses, categories[j].code).value)
      && (forall i, j :: 0 <= i < j < |categories| ==> categories[i].code != categories[j].code)
      && (forall k :: 0 <= k < |clauses| ==> clauses[k].categoryCode in Codes(categories))
  {
    var firsts := CategoriesTracked(clauses, |clauses|);
    FirstsMeanFirstWith(clauses, Categories(clauses), firsts);
  }

  /** The `categoryMap` loop, with the map's keys kept as a set. */
  method CollectCategories(clauses: seq<ClauseRow>) returns (categories: seq<Category>)
    ensures categories == Categories(clauses)
  {
    categories := [];
    var seen: set<string> := {};
    for n := 0 to |clauses|
      invariant categories == CategoriesUpTo(clauses, n)
      invariant seen == Codes(categories)
    {
      var row := clauses[n];
      if row.categoryCode !in seen {
        CodesAppend(categories, Category(row.categoryCode, row.categoryName));
        categories := categories + [Category(row.categoryCode, row.categoryName)];
        seen := seen + {row.categoryCode};
      }
    }
  }

  /** The loop's ghost record of first rows, read through `FirstWith`. */
  lemma FirstsMeanFirstWith(clauses: seq<ClauseRow>, categories: seq<Category>, firsts: seq<nat>)
    requires Tracked(clauses, categories, firsts, |clauses|)
    ensures forall i :: 0 <= i < |categories| ==>
      FirstWith(clauses, categories[i].code).Some?
      && categories[i].name == clauses[FirstWith(clauses, categories[i].code).value].categoryName
    ensures forall i, j :: 0 <= i < j < |categories| ==>
      FirstWith(clauses, categories[i].code).value < FirstWith(clauses, categories[j].code).value
    ensures forall i, j :: 0 <= i < j < |categories| ==> categories[i].code != categories[j].code
  {
    forall i | 0 <= i < |categories|
      ensures FirstWith(clauses, categories[i].code) == Some(firsts[i])
    {
      FirstWithIsFirst(clauses, firsts[i], categories[i].code);
    }
  }
}
