/** The validator of the orchestrator's rule language
    (backend/src/orchestrator/rule-language.validator.ts): a rule is a JSON
    object with an id, a severity, a `when` expression tree and a list of
    `then` actions; the validator walks it and reports every problem with
    the JSON path where it was found, in the order the checks run. */
module RuleValidator {
  import opened Strings

  // ---------------------------------------------------------------------
  // JavaScript values
  // ---------------------------------------------------------------------

  /** The values a parsed payload can hold, plus `undefined`, which an
      object built in code may hold as a property value.  An object is the
      list of its own properties; JavaScript objects have distinct keys, so
      the first property with a key is the one that is read.  Numbers are
      integers here. */
  datatype Json =
    | Undefined
    | Null
    | Bool(b: bool)
    | Num(n: int)
    | Str(s: string)
    | Arr(items: seq<Json>)
    | Obj(fields: seq<Field>)

  datatype Field = Field(key: string, value: Json)

  /** Where `key` is among the own properties. */
  function Lookup(fields: seq<Field>, key: string): (r: Option<nat>)
    ensures r.Some? ==> r.value < |fields| && fields[r.value].key == key
    ensures r.None? <==> forall i :: 0 <= i < |fields| ==> fields[i].key != key
  {
    if fields == [] then None
    else if fields[0].key == key then Some(0)
    else match Lookup(fields[1..], key)
      case Some(i) => Some(i + 1)
      case None => None
  }

  /** `Object.prototype.hasOwnProperty.call(o, key)`. */
  predicate Has(fields: seq<Field>, key: string) {
    Lookup(fields, key).Some?
  }

  /** `o[key]`: `undefined` for a missing property. */
  function Get(fields: seq<Field>, key: string): Json {
    match Lookup(fields, key)
    case Some(i) => fields[i].value
    case None => Undefined
  }

  /** JavaScript truthiness; NaN is not a value of this model. */
  predicate Truthy(v: Json) {
    match v
    case Undefined => false
    case Null => false
    case Bool(b) => b
    case Num(n) => n != 0
    case Str(s) => s != []
    case _ => true
  }

  /** `typeof v === 'string' && v.length > 0`. */
  predicate NonEmptyString(v: Json) {
    v.Str? && v.s != []
  }

  /** `isVarRef`. */
  predicate IsVarRef(v: Json) {
    v.Obj? && NonEmptyString(Get(v.fields, "var"))
  }

  // ---------------------------------------------------------------------
  // Errors and paths
  // ---------------------------------------------------------------------

  datatype Error = Error(path: string, message: string)

  /** `forEach` over a list of children, each pushing its own errors. */
  function Flatten(groups: seq<seq<Error>>): seq<Error> {
    if groups == [] then [] else Flatten(groups[..|groups| - 1]) + groups[|groups| - 1]
  }

  lemma FlattenSnoc(groups: seq<seq<Error>>, i: nat)
    requires i < |groups|
    ensures Flatten(groups[..i + 1]) == Flatten(groups[..i]) + groups[i]
  {
    assert groups[..i + 1][..i] == groups[..i];
  }

  lemma ConcatAssoc(a: seq<Error>, b: seq<Error>, c: seq<Error>)
    ensures a + b + c == a + (b + c)
  {
  }

  /** `${path}.${key}`. */
  function Prop(path: string, key: string): string {
    path + "." + key
  }

  /** `${path}[${index}]`. */
  function Index(path: string, i: nat): string {
    path + "[" + NatToString(i) + "]"
  }

  const Operators: set<string> := {"eq", "ne", "gt", "gte", "lt", "lte", "in", "contains",
    "starts_with", "ends_with", "regex", "exists", "empty"}

  const ClauseStatuses: set<string> := {"included", "excluded", "mandatory", "optional", "recommended"}

  const Actions: set<string> := {"warn", "block", "set_clause_status", "set_variant", "add_question",
    "set_variable"}

  const Severities: set<string> := {"info", "warning", "block"}

  // ---------------------------------------------------------------------
  // Expressions (rule-language.validator.ts:74-163)
  // ---------------------------------------------------------------------

  const ExprObjectMessage := "Expression must be an object."
  const ModeMessage := "Expression must define exactly one of: all, any, not, or (var + op)."
  const AllMessage := "all must be a non-empty array."
  const AnyMessage := "any must be a non-empty array."
  const NotMessage := "not must be an expression."
  const LeafMessage := "Leaf expression must include var and op."
  const VarMessage := "var must be a non-empty string."
  const OpMessage := "op must be a supported operator."
  const ValueMessage := "value is required for this operator."
  const InMessage := "value must be an array or var reference for in."

  /** How many of the four forms an object claims: `all`, `any`, `not`,
      and a leaf (`var` or `op`). */
  function ModeCount(fields: seq<Field>): (n: nat)
    ensures n <= 4
  {
    (if Has(fields, "all") then 1 else 0) + (if Has(fields, "any") then 1 else 0)
      + (if Has(fields, "not") then 1 else 0) + (if Has(fields, "var") || Has(fields, "op") then 1 else 0)
  }

  /** The errors of an `all` or `any` list under `path.key`. */
  function ListErrors(list: Json, path: string, key: string, message: string, ghost parent: Json): seq<Error>
    requires list < parent
    decreases parent, 0
  {
    if !list.Arr? || list.items == [] then [Error(path + "." + key, message)]
    else Flatten(seq(|list.items|, j requires 0 <= j < |list.items| =>
      ExprErrors(list.items[j], Index(path + "." + key, j))))
  }

  /** The errors of a leaf's `value`. */
  function ValueErrors(fields: seq<Field>, path: string): seq<Error> {
    var op := Get(fields, "op");
    if op == Str("exists") || op == Str("empty") then []
    else if !Has(fields, "value") then [Error(path + ".value", ValueMessage)]
    else if op == Str("in") && !(Get(fields, "value").Arr? || IsVarRef(Get(fields, "value"))) then
      [Error(path + ".value", InMessage)]
    else []
  }

  /** The errors `validateExpression(expr, path, errors)` pushes. */
  function ExprErrors(e: Json, path: string): (r: seq<Error>)
    decreases e, 1
  {
    if !e.Obj? then [Error(path, ExprObjectMessage)]
    else if ModeCount(e.fields) != 1 then [Error(path, ModeMessage)]
    else if Has(e.fields, "all") then ListErrors(Get(e.fields, "all"), path, "all", AllMessage, e)
    else if Has(e.fields, "any") then ListErrors(Get(e.fields, "any"), path, "any", AnyMessage, e)
    else if Has(e.fields, "not") then
      var operand := Get(e.fields, "not");
      if !Truthy(operand) then [Error(path + ".not", NotMessage)]
      else ExprErrors(operand, path + ".not")
    else LeafErrors(e.fields, path)
  }

  /** The errors of an object in the leaf form. */
  function LeafErrors(fields: seq<Field>, path: string): seq<Error> {
    if !(Has(fields, "var") && Has(fields, "op")) then [Error(path, LeafMessage)]
    else
      (if NonEmptyString(Get(fields, "var")) then [] else [Error(path + ".var", VarMessage)])
      + (if Get(fields, "op").Str? && Get(fields, "op").s in Operators then []
         else [Error(path + ".op", OpMessage)])
      + ValueErrors(fields, path)
  }

  /** A leaf's `value` is acceptable. */
  predicate ValueOk(fields: seq<Field>) {
    var op := Get(fields, "op");
    op == Str("exists") || op == Str("empty")
    || (Has(fields, "value") && (op == Str("in") ==> Get(fields, "value").Arr? || IsVarRef(Get(fields, "value"))))
  }

  /** A well-formed expression: an object of exactly one form, whose
      `all`/`any` list is non-empty and made of well-formed expressions,
      whose `not` operand is a well-formed expression, or which is a leaf
      with a non-empty variable name, a supported operator and an
      acceptable value. */
  predicate ValidExpr(e: Json)
    decreases e, 1
  {
    e.Obj? && ModeCount(e.fields) == 1 &&
    if Has(e.fields, "all") then ValidList(Get(e.fields, "all"), e)
    else if Has(e.fields, "any") then ValidList(Get(e.fields, "any"), e)
    else if Has(e.fields, "not") then ValidExpr(Get(e.fields, "not"))
    else
      NonEmptyString(Get(e.fields, "var")) && Get(e.fields, "op").Str?
      && Get(e.fields, "op").s in Operators && ValueOk(e.fields)
  }

  predicate ValidList(list: Json, ghost parent: Json)
    requires list < parent
    decreases parent, 0
  {
    list.Arr? && list.items != [] && forall j :: 0 <= j < |list.items| ==> ValidExpr(list.items[j])
  }

  lemma {:induction false} FlattenEmpty(groups: seq<seq<Error>>)
    ensures Flatten(groups) == [] <==> forall j :: 0 <= j < |groups| ==> groups[j] == []
    decreases |groups|
  {
    if groups != [] {
      FlattenEmpty(groups[..|groups| - 1]);
      assert forall j :: 0 <= j < |groups| - 1 ==> groups[..|groups| - 1][j] == groups[j];
    }
  }

  /** Every error lies under `prefix`. */
  predicate AllUnder(errors: seq<Error>, prefix: string) {
    forall k :: 0 <= k < |errors| ==> StartsWith(errors[k].path, prefix)
  }

  lemma {:induction false} FlattenUnder(groups: seq<seq<Error>>, prefix: string)
    requires forall j :: 0 <= j < |groups| ==> AllUnder(groups[j], prefix)
    ensures AllUnder(Flatten(groups), prefix)
    decreases |groups|
  {
    if groups != [] {
      var init := groups[..|groups| - 1];
      assert forall j :: 0 <= j < |init| ==> init[j] == groups[j];
      FlattenUnder(init, prefix);
    }
  }

  lemma StartsWithAppended(a: string, p: string, q: string)
    requires StartsWith(a, p + q)
    ensures StartsWith(a, p)
  {
    assert a[..|p|] == (p + q)[..|p|];
  }

  lemma AllUnderAppended(errors: seq<Error>, p: string, q: string)
    requires AllUnder(errors, p + q)
    ensures AllUnder(errors, p)
  {
    forall k | 0 <= k < |errors|
      ensures StartsWith(errors[k].path, p)
    {
      StartsWithAppended(errors[k].path, p, q);
    }
  }

  lemma AllUnderIndex(errors: seq<Error>, path: string, i: nat)
    requires AllUnder(errors, Index(path, i))
    ensures AllUnder(errors, path)
  {
    assert Index(path, i) == path + ("[" + NatToString(i) + "]");
    AllUnderAppended(errors, path, "[" + NatToString(i) + "]");
  }

  lemma SingleUnder(p: string, q: string, message: string)
    ensures AllUnder([Error(p + q, message)], p)
  {
    assert (p + q)[..|p|] == p;
  }

  /** Each error of an expression lies under the expression's path. */
  lemma {:induction false} ExprErrorsUnder(e: Json, path: string)
    ensures AllUnder(ExprErrors(e, path), path)
    decreases e, 1
  {
    assert path[..|path|] == path;
    if !e.Obj? || ModeCount(e.fields) != 1 {
    } else if Has(e.fields, "all") {
      ListErrorsUnder(Get(e.fields, "all"), path, "all", AllMessage, e);
    } else if Has(e.fields, "any") {
      ListErrorsUnder(Get(e.fields, "any"), path, "any", AnyMessage, e);
    } else if Has(e.fields, "not") {
      var operand := Get(e.fields, "not");
      if !Truthy(operand) {
        SingleUnder(path, ".not", NotMessage);
      } else {
        ExprErrorsUnder(operand, path + ".not");
        AllUnderAppended(ExprErrors(operand, path + ".not"), path, ".not");
      }
    } else if Has(e.fields, "var") && Has(e.fields, "op") {
      SingleUnder(path, ".var", VarMessage);
      SingleUnder(path, ".op", OpMessage);
      SingleUnder(path, ".value", ValueMessage);
      SingleUnder(path, ".value", InMessage);
    }
  }

  lemma {:induction false} ListErrorsUnder(list: Json, path: string, key: string, message: string, parent: Json)
    requires list < parent
    ensures AllUnder(ListErrors(list, path, key, message, parent), path)
    decreases parent, 0
  {
    if !list.Arr? || list.items == [] {
      SingleUnder(path, "." + key, message);
      assert path + "." + key == path + ("." + key);
    } else {
      var groups := seq(|list.items|, j requires 0 <= j < |list.items| =>
        ExprErrors(list.items[j], Index(path + "." + key, j)));
      forall j | 0 <= j < |list.items|
        ensures AllUnder(groups[j], path)
      {
        ExprErrorsUnder(list.items[j], Index(path + "." + key, j));
        assert Index(path + "." + key, j) == path + ("." + key + "[" + NatToString(j) + "]");
        AllUnderAppended(groups[j], path, "." + key + "[" + NatToString(j) + "]");
      }
      FlattenUnder(groups, path);
    }
  }

  /** The validator reports nothing exactly for well-formed expressions. */
  lemma {:induction false} ExprErrorsEmptyIff(e: Json, path: string)
    ensures ExprErrors(e, path) == [] <==> ValidExpr(e)
    decreases e, 1
  {
    if !e.Obj? || ModeCount(e.fields) != 1 {
    } else if Has(e.fields, "all") {
      ListErrorsEmptyIff(Get(e.fields, "all"), path, "all", AllMessage, e);
    } else if Has(e.fields, "any") {
      ListErrorsEmptyIff(Get(e.fields, "any"), path, "any", AnyMessage, e);
    } else if Has(e.fields, "not") {
      var operand := Get(e.fields, "not");
      if Truthy(operand) {
        ExprErrorsEmptyIff(operand, path + ".not");
      } else {
        assert !operand.Obj?;
      }
    }
  }

  lemma {:induction false} ListErrorsEmptyIff(list: Json, path: string, key: string, message: string, parent: Json)
    requires list < parent
    ensures ListErrors(list, path, key, message, parent) == [] <==> ValidList(list, parent)
    decreases parent, 0
  {
    if list.Arr? && list.items != [] {
      var groups := seq(|list.items|, j requires 0 <= j < |list.items| =>
        ExprErrors(list.items[j], Index(path + "." + key, j)));
      forall j | 0 <= j < |list.items|
        ensures groups[j] == [] <==> ValidExpr(list.items[j])
      {
        ExprErrorsEmptyIff(list.items[j], Index(path + "." + key, j));
      }
      FlattenEmpty(groups);
    }
  }

  /** `validateExpression(expr, path, errors)`: pushes the errors of `e`
      after those already in `errors`. */
  method ValidateExpression(e: Json, path: string, errors: seq<Error>) returns (out: seq<Error>)
    ensures out == errors + ExprErrors(e, path)
    decreases e, 2
  {
    if !e.Obj? {
      return errors + [Error(path, ExprObjectMessage)];
    }
    var hasAll := Has(e.fields, "all");
    var hasAny := Has(e.fields, "any");
    var hasNot := Has(e.fields, "not");
    var hasVar := Has(e.fields, "var");
    var hasOp := Has(e.fields, "op");
    var modeCount := (if hasAll then 1 else 0) + (if hasAny then 1 else 0) + (if hasNot then 1 else 0)
      + (if hasVar || hasOp then 1 else 0);
    if modeCount != 1 {
      return errors + [Error(path, ModeMessage)];
    }
    if hasAll {
      out := ValidateList(Get(e.fields, "all"), path, "all", AllMessage, e, errors);
    } else if hasAny {
      out := ValidateList(Get(e.fields, "any"), path, "any", AnyMessage, e, errors);
    } else if hasNot {
      var operand := Get(e.fields, "not");
      if !Truthy(operand) {
        return errors + [Error(path + ".not", NotMessage)];
      }
      out := ValidateExpression(operand, path + ".not", errors);
    } else {
      out := ValidateLeaf(e.fields, path, errors);
    }
  }

  /** The `all` or `any` branch: each child under `path.key[j]`, in order. */
  method ValidateList(list: Json, path: string, key: string, message: string, ghost parent: Json,
                      errors: seq<Error>) returns (out: seq<Error>)
    requires list < parent
    ensures out == errors + ListErrors(list, path, key, message, parent)
    decreases parent, 1
  {
    if !list.Arr? || list.items == [] {
      return errors + [Error(path + "." + key, message)];
    }
    ghost var groups := seq(|list.items|, j requires 0 <= j < |list.items| =>
      ExprErrors(list.items[j], Index(path + "." + key, j)));
    out := ValidateItems(list.items, path + "." + key, parent, groups, errors);
  }

  /** The `forEach` over a list's children, each under `listPath[j]`. */
  method ValidateItems(items: seq<Json>, listPath: string, ghost parent: Json, ghost groups: seq<seq<Error>>,
                       errors: seq<Error>) returns (out: seq<Error>)
    requires forall j :: 0 <= j < |items| ==> items[j] < parent
    requires |groups| == |items|
    requires forall j :: 0 <= j < |items| ==> groups[j] == ExprErrors(items[j], Index(listPath, j))
    ensures out == errors + Flatten(groups)
    decreases parent, 0
  {
    out := errors;
    for j := 0 to |items|
      invariant out == errors + Flatten(groups[..j])
    {
      FlattenSnoc(groups, j);
      ConcatAssoc(errors, Flatten(groups[..j]), groups[j]);
      out := ValidateExpression(items[j], Index(listPath, j), out);
    }
    assert groups[..|items|] == groups;
  }

  /** The leaf branch. */
  method ValidateLeaf(fields: seq<Field>, path: string, errors: seq<Error>) returns (out: seq<Error>)
    ensures out == errors + LeafErrors(fields, path)
  {
    if !Has(fields, "var") || !Has(fields, "op") {
      return errors + [Error(path, LeafMessage)];
    }
    var varErrors: seq<Error> := [];
    if !NonEmptyString(Get(fields, "var")) {
      varErrors := [Error(path + ".var", VarMessage)];
    }
    var op := Get(fields, "op");
    var opErrors: seq<Error> := [];
    if !(op.Str? && op.s in Operators) {
      opErrors := [Error(path + ".op", OpMessage)];
    }
    var valueErrors: seq<Error> := [];
    var hasValue := Has(fields, "value");
    if op == Str("exists") || op == Str("empty") {
    } else if !hasValue {
      valueErrors := [Error(path + ".value", ValueMessage)];
    } else if op == Str("in") {
      var value := Get(fields, "value");
      if !value.Arr? && !IsVarRef(value) {
        valueErrors := [Error(path + ".value", InMessage)];
      }
    }
    out := errors + varErrors + opErrors + valueErrors;
  }

  // ---------------------------------------------------------------------
  // Actions (rule-language.validator.ts:165-228)
  // ---------------------------------------------------------------------

  const ActionObjectMessage := "Action must be an object."
  const ActionTypeMessage := "action must be a supported action type."
  const MessageMessage := "message is required for this action."
  const ContextMessage := "context must be an object if provided."
  const ClauseIdMessage := "clause_id is required."
  const StatusMessage := "status must be a valid clause status."
  const VariantIdMessage := "variant_id is required."
  const QuestionKeyMessage := "question_key is required."
  const VariableKeyMessage := "variable_key is required."
  const SetValueMessage := "value is required for set_variable."
  const UnhandledMessage := "Unhandled action type."

  /** No error when `ok`, else one error at `path`. */
  function Check(ok: bool, path: string, message: string): (r: seq<Error>)
    ensures ok <==> r == []
    ensures !ok ==> r == [Error(path, message)]
  {
    if ok then [] else [Error(path, message)]
  }

  /** The check of property `f` of an action at `path`. */
  function CheckField(ok: bool, path: string, f: string, message: string): seq<Error> {
    Check(ok, Prop(path, f), message)
  }

  /** The errors `validateAction(action, path, errors)` pushes.  The last
      branch is unreachable, since the cases cover every supported type. */
  function ActionErrors(a: Json, path: string): seq<Error> {
    if !a.Obj? then [Error(path, ActionObjectMessage)]
    else
      var kind := Get(a.fields, "action");
      if !(kind.Str? && kind.s in Actions) then [Error(Prop(path, "action"), ActionTypeMessage)]
      else if kind.s == "warn" || kind.s == "block" then
        var context := Get(a.fields, "context");
        CheckField(NonEmptyString(Get(a.fields, "message")), path, "message", MessageMessage)
        + CheckField(!(kind.s == "warn" && context != Undefined && !context.Obj?), path, "context", ContextMessage)
      else if kind.s == "set_clause_status" then
        var status := Get(a.fields, "status");
        CheckField(NonEmptyString(Get(a.fields, "clause_id")), path, "clause_id", ClauseIdMessage)
        + CheckField(status.Str? && status.s in ClauseStatuses, path, "status", StatusMessage)
      else if kind.s == "set_variant" then
        CheckField(NonEmptyString(Get(a.fields, "clause_id")), path, "clause_id", ClauseIdMessage)
        + CheckField(NonEmptyString(Get(a.fields, "variant_id")), path, "variant_id", VariantIdMessage)
      else if kind.s == "add_question" then
        CheckField(NonEmptyString(Get(a.fields, "question_key")), path, "question_key", QuestionKeyMessage)
      else if kind.s == "set_variable" then
        CheckField(NonEmptyString(Get(a.fields, "variable_key")), path, "variable_key", VariableKeyMessage)
        + CheckField(Has(a.fields, "value"), path, "value", SetValueMessage)
      else [Error(Prop(path, "action"), UnhandledMessage)]
  }

  /** The properties each supported action type checks. */
  function CheckedFields(kind: string): set<string> {
    if kind == "warn" then {"message", "context"}
    else if kind == "block" then {"message"}
    else if kind == "set_clause_status" then {"clause_id", "status"}
    else if kind == "set_variant" then {"clause_id", "variant_id"}
    else if kind == "add_question" then {"question_key"}
    else if kind == "set_variable" then {"variable_key", "value"}
    else {}
  }

  /** `p` is `path.<f>` for a property `f` that `kind` checks. */
  predicate FieldPath(p: string, path: string, kind: string) {
    exists f :: f in CheckedFields(kind) && p == Prop(path, f)
  }

  /** Every error lies at a property that `kind` checks. */
  predicate AtCheckedFields(errors: seq<Error>, path: string, kind: string) {
    forall k :: 0 <= k < |errors| ==> FieldPath(errors[k].path, path, kind)
  }

  lemma CheckFieldAt(ok: bool, path: string, f: string, message: string, kind: string)
    requires f in CheckedFields(kind)
    ensures AtCheckedFields(CheckField(ok, path, f, message), path, kind)
  {
    if !ok {
      assert FieldPath(Prop(path, f), path, kind);
    }
  }

  lemma TwoFieldsAt(a: seq<Error>, b: seq<Error>, path: string, kind: string)
    requires AtCheckedFields(a, path, kind) && AtCheckedFields(b, path, kind)
    ensures AtCheckedFields(a + b, path, kind)
  {
    forall k | 0 <= k < |a + b|
      ensures FieldPath((a + b)[k].path, path, kind)
    {
      if k >= |a| {
        assert (a + b)[k] == b[k - |a|];
      }
    }
  }

  /** An object whose `action` is not supported gets exactly one error, at
      `path.action`; a supported action is checked only on its own
      properties, each error at `path.<property>`. */
  lemma ActionErrorsFields(a: Json, path: string)
    requires a.Obj?
    ensures var kind := Get(a.fields, "action");
      !(kind.Str? && kind.s in Actions) ==> ActionErrors(a, path) == [Error(Prop(path, "action"), ActionTypeMessage)]
    ensures var kind := Get(a.fields, "action");
      kind.Str? && kind.s in Actions ==> AtCheckedFields(ActionErrors(a, path), path, kind.s)
  {
    var kind := Get(a.fields, "action");
    if kind.Str? && kind.s in Actions {
      var s, f := kind.s, a.fields;
      if s == "warn" || s == "block" {
        var context := Get(f, "context");
        var ok := !(s == "warn" && context != Undefined && !context.Obj?);
        CheckFieldAt(NonEmptyString(Get(f, "message")), path, "message", MessageMessage, s);
        if s == "warn" {
          CheckFieldAt(ok, path, "context", ContextMessage, s);
        }
        TwoFieldsAt(CheckField(NonEmptyString(Get(f, "message")), path, "message", MessageMessage),
          CheckField(ok, path, "context", ContextMessage), path, s);
      } else if s == "set_clause_status" {
        var status := Get(f, "status");
        CheckFieldAt(NonEmptyString(Get(f, "clause_id")), path, "clause_id", ClauseIdMessage, s);
        CheckFieldAt(status.Str? && status.s in ClauseStatuses, path, "status", StatusMessage, s);
        TwoFieldsAt(CheckField(NonEmptyString(Get(f, "clause_id")), path, "clause_id", ClauseIdMessage),
          CheckField(status.Str? && status.s in ClauseStatuses, path, "status", StatusMessage), path, s);
      } else if s == "set_variant" {
        CheckFieldAt(NonEmptyString(Get(f, "clause_id")), path, "clause_id", ClauseIdMessage, s);
        CheckFieldAt(NonEmptyString(Get(f, "variant_id")), path, "variant_id", VariantIdMessage, s);
        TwoFieldsAt(CheckField(NonEmptyString(Get(f, "clause_id")), path, "clause_id", ClauseIdMessage),
          CheckField(NonEmptyString(Get(f, "variant_id")), path, "variant_id", VariantIdMessage), path, s);
      } else if s == "add_question" {
        CheckFieldAt(NonEmptyString(Get(f, "question_key")), path, "question_key", QuestionKeyMessage, s);
      } else {
        CheckFieldAt(NonEmptyString(Get(f, "variable_key")), path, "variable_key", VariableKeyMessage, s);
        CheckFieldAt(Has(f, "value"), path, "value", SetValueMessage, s);
        TwoFieldsAt(CheckField(NonEmptyString(Get(f, "variable_key")), path, "variable_key", VariableKeyMessage),
          CheckField(Has(f, "value"), path, "value", SetValueMessage), path, s);
      }
    }
  }

  /** `set_variable` needs a `value` property, whatever it holds, even
      `undefined`. */
  lemma SetVariableValue(a: Json, path: string)
    requires a.Obj? && Get(a.fields, "action") == Str("set_variable")
    requires NonEmptyString(Get(a.fields, "variable_key"))
    ensures ActionErrors(a, path) == [] <==> Has(a.fields, "value")
  {
    assert "set_variable" in Actions;
  }

  /** `validateAction`: the checks of the action's own properties, each
      pushing at most one error. */
  method ValidateAction(a: Json, path: string, errors: seq<Error>) returns (out: seq<Error>)
    ensures out == errors + ActionErrors(a, path)
  {
    if !a.Obj? {
      return errors + [Error(path, ActionObjectMessage)];
    }
    var kind := Get(a.fields, "action");
    if !kind.Str? || kind.s !in Actions {
      return errors + [Error(Prop(path, "action"), ActionTypeMessage)];
    }
    var first: seq<Error> := [];
    var second: seq<Error> := [];
    if kind.s == "warn" || kind.s == "block" {
      if !NonEmptyString(Get(a.fields, "message")) {
        first := [Error(Prop(path, "message"), MessageMessage)];
      }
      var context := Get(a.fields, "context");
      if kind.s == "warn" && context != Undefined && !context.Obj? {
        second := [Error(Prop(path, "context"), ContextMessage)];
      }
    } else if kind.s == "set_clause_status" {
      if !NonEmptyString(Get(a.fields, "clause_id")) {
        first := [Error(Prop(path, "clause_id"), ClauseIdMessage)];
      }
      var status := Get(a.fields, "status");
      if !status.Str? || status.s !in ClauseStatuses {
        second := [Error(Prop(path, "status"), StatusMessage)];
      }
    } else if kind.s == "set_variant" {
      if !NonEmptyString(Get(a.fields, "clause_id")) {
        first := [Error(Prop(path, "clause_id"), ClauseIdMessage)];
      }
      if !NonEmptyString(Get(a.fields, "variant_id")) {
        second := [Error(Prop(path, "variant_id"), VariantIdMessage)];
      }
    } else if kind.s == "add_question" {
      if !NonEmptyString(Get(a.fields, "question_key")) {
        first := [Error(Prop(path, "question_key"), QuestionKeyMessage)];
      }
    } else if kind.s == "set_variable" {
      if !NonEmptyString(Get(a.fields, "variable_key")) {
        first := [Error(Prop(path, "variable_key"), VariableKeyMessage)];
      }
      if !Has(a.fields, "value") {
        second := [Error(Prop(path, "value"), SetValueMessage)];
      }
    } else {
      first := [Error(Prop(path, "action"), UnhandledMessage)];
    }
    out := errors + (first + second);
  }

  /** A well-formed action: an object with a supported `action` whose
      properties pass that type's checks. */
  predicate ValidAction(a: Json) {
    a.Obj? &&
    var f, kind := a.fields, Get(a.fields, "action");
    kind.Str? && kind.s in Actions &&
    if kind.s == "warn" || kind.s == "block" then
      NonEmptyString(Get(f, "message"))
      && (kind.s == "warn" ==> Get(f, "context") == Undefined || Get(f, "context").Obj?)
    else if kind.s == "set_clause_status" then
      NonEmptyString(Get(f, "clause_id")) && Get(f, "status").Str? && Get(f, "status").s in ClauseStatuses
    else if kind.s == "set_variant" then
      NonEmptyString(Get(f, "clause_id")) && NonEmptyString(Get(f, "variant_id"))
    else if kind.s == "add_question" then
      NonEmptyString(Get(f, "question_key"))
    else
      NonEmptyString(Get(f, "variable_key")) && Has(f, "value")
  }

  /** The validator reports nothing exactly for well-formed actions. */
  lemma ActionErrorsEmptyIff(a: Json, path: string)
    ensures ActionErrors(a, path) == [] <==> ValidAction(a)
  {
  }

  lemma PropUnder(path: string, f: string)
    ensures StartsWith(Prop(path, f), path)
  {
    assert Prop(path, f)[..|path|] == path;
  }

  /** Each error of an action lies under the action's path. */
  lemma ActionErrorsUnder(a: Json, path: string)
    ensures AllUnder(ActionErrors(a, path), path)
  {
    assert path[..|path|] == path;
    if a.Obj? {
      var kind := Get(a.fields, "action");
      if kind.Str? && kind.s in Actions {
        ActionErrorsFields(a, path);
        forall k | 0 <= k < |ActionErrors(a, path)|
          ensures StartsWith(ActionErrors(a, path)[k].path, path)
        {
          var f :| f in CheckedFields(kind.s) && ActionErrors(a, path)[k].path == Prop(path, f);
          PropUnder(path, f);
        }
      } else {
        PropUnder(path, "action");
      }
    }
  }

  // ---------------------------------------------------------------------
  // Rules (rule-language.validator.ts:230-265)
  // ---------------------------------------------------------------------

  const RuleObjectMessage := "Rule must be an object."
  const RuleIdMessage := "rule_id is required."
  const SeverityMessage := "severity must be info, warning, or block."
  const DescriptionMessage := "description must be a string if provided."
  const WhenMessage := "when is required."
  const ThenMessage := "then must be a non-empty array."

  /** The errors of the `when` property. */
  function WhenErrors(fields: seq<Field>): seq<Error> {
    if !Has(fields, "when") then [Error("$.when", WhenMessage)]
    else ExprErrors(Get(fields, "when"), "$.when")
  }

  /** The errors of the `then` list: each action under `$.then[i]`, in order. */
  function ThenErrors(fields: seq<Field>): seq<Error> {
    var actions := Get(fields, "then");
    if !actions.Arr? || actions.items == [] then [Error("$.then", ThenMessage)]
    else Flatten(seq(|actions.items|, i requires 0 <= i < |actions.items| =>
      ActionErrors(actions.items[i], Index("$.then", i))))
  }

  /** The errors of `rule_id`, `severity` and `description`. */
  function HeadErrors(fields: seq<Field>): seq<Error> {
    var severity, description := Get(fields, "severity"), Get(fields, "description");
    Check(NonEmptyString(Get(fields, "rule_id")), "$.rule_id", RuleIdMessage)
    + Check(severity.Str? && severity.s in Severities, "$.severity", SeverityMessage)
    + Check(description == Undefined || description.Str?, "$.description", DescriptionMessage)
  }

  /** The errors `validateRule(rule)` returns, paths rooted at `$`. */
  function RuleErrors(rule: Json): seq<Error> {
    if !rule.Obj? then [Error("$", RuleObjectMessage)]
    else
      HeadErrors(rule.fields) + WhenErrors(rule.fields) + ThenErrors(rule.fields)
  }

  /** A well-formed rule: an object with an id, a known severity, a string
      description if any, a well-formed `when` expression and a non-empty
      list of well-formed actions. */
  predicate ValidRule(rule: Json) {
    rule.Obj? &&
    var f := rule.fields;
    NonEmptyString(Get(f, "rule_id"))
    && Get(f, "severity").Str? && Get(f, "severity").s in Severities
    && (Get(f, "description") == Undefined || Get(f, "description").Str?)
    && Has(f, "when") && ValidExpr(Get(f, "when"))
    && Get(f, "then").Arr? && Get(f, "then").items != []
    && forall i :: 0 <= i < |Get(f, "then").items| ==> ValidAction(Get(f, "then").items[i])
  }

  lemma ThenErrorsEmptyIff(fields: seq<Field>)
    ensures ThenErrors(fields) == [] <==>
      Get(fields, "then").Arr? && Get(fields, "then").items != []
      && forall i :: 0 <= i < |Get(fields, "then").items| ==> ValidAction(Get(fields, "then").items[i])
  {
    var actions := Get(fields, "then");
    if actions.Arr? && actions.items != [] {
      var groups := seq(|actions.items|, i requires 0 <= i < |actions.items| =>
        ActionErrors(actions.items[i], Index("$.then", i)));
      forall i | 0 <= i < |actions.items|
        ensures groups[i] == [] <==> ValidAction(actions.items[i])
      {
        ActionErrorsEmptyIff(actions.items[i], Index("$.then", i));
      }
      FlattenEmpty(groups);
    }
  }

  /** The validator reports nothing exactly for well-formed rules. */
  lemma RuleErrorsEmptyIff(rule: Json)
    ensures RuleErrors(rule) == [] <==> ValidRule(rule)
  {
    if rule.Obj? {
      ThenErrorsEmptyIff(rule.fields);
      if Has(rule.fields, "when") {
        ExprErrorsEmptyIff(Get(rule.fields, "when"), "$.when");
      }
    }
  }

  /** Which check of `validateRule` reports at `p`, in the order they run. */
  function Rank(p: string): nat {
    if p == "$.rule_id" then 0
    else if p == "$.severity" then 1
    else if p == "$.description" then 2
    else if StartsWith(p, "$.when") then 3
    else 4
  }

  /** Every error comes from check `n`. */
  predicate AllRank(errors: seq<Error>, n: nat) {
    forall k :: 0 <= k < |errors| ==> Rank(errors[k].path) == n
  }

  /** The errors come in the order of the checks that report them. */
  predicate InCheckOrder(errors: seq<Error>) {
    forall k, l :: 0 <= k < l < |errors| ==> Rank(errors[k].path) <= Rank(errors[l].path)
  }

  lemma AppendInOrder(a: seq<Error>, b: seq<Error>, n: nat)
    requires InCheckOrder(a) && AllRank(b, n)
    requires forall k :: 0 <= k < |a| ==> Rank(a[k].path) <= n
    ensures InCheckOrder(a + b)
  {
    forall k, l | 0 <= k < l < |a + b|
      ensures Rank((a + b)[k].path) <= Rank((a + b)[l].path)
    {
      if l >= |a| {
        assert (a + b)[l] == b[l - |a|];
        if k >= |a| {
          assert (a + b)[k] == b[k - |a|];
        }
      }
    }
  }

  lemma CheckRank(ok: bool, p: string, message: string)
    ensures AllRank(Check(ok, p, message), Rank(p))
  {
  }

  lemma WhenRank(p: string)
    requires StartsWith(p, "$.when")
    ensures Rank(p) == 3
  {
    assert p[..6] == "$.when";
    assert p[2] == 'w';
    assert "$.rule_id"[2] == 'r' && "$.severity"[2] == 's' && "$.description"[2] == 'd';
  }

  lemma ThenRank(p: string)
    requires StartsWith(p, "$.then")
    ensures Rank(p) == 4
  {
    assert p[..6] == "$.then";
    assert p[2] == 't' && p[3] == 'h';
  }

  lemma WhenErrorsRank(fields: seq<Field>)
    ensures AllRank(WhenErrors(fields), 3)
  {
    var errors := WhenErrors(fields);
    if Has(fields, "when") {
      ExprErrorsUnder(Get(fields, "when"), "$.when");
    } else {
      assert StartsWith("$.when", "$.when");
    }
    forall k | 0 <= k < |errors|
      ensures Rank(errors[k].path) == 3
    {
      WhenRank(errors[k].path);
    }
  }

  lemma ThenUnder(fields: seq<Field>)
    ensures AllUnder(ThenErrors(fields), "$.then")
  {
    var actions := Get(fields, "then");
    if !actions.Arr? || actions.items == [] {
      assert "$.then"[..6] == "$.then";
    } else {
      var groups := seq(|actions.items|, i requires 0 <= i < |actions.items| =>
        ActionErrors(actions.items[i], Index("$.then", i)));
      forall i | 0 <= i < |actions.items|
        ensures AllUnder(groups[i], "$.then")
      {
        ActionErrorsUnder(actions.items[i], Index("$.then", i));
        AllUnderIndex(groups[i], "$.then", i);
      }
      FlattenUnder(groups, "$.then");
    }
  }

  lemma ThenErrorsRank(fields: seq<Field>)
    ensures AllRank(ThenErrors(fields), 4)
  {
    var errors := ThenErrors(fields);
    ThenUnder(fields);
    forall k | 0 <= k < |errors|
      ensures Rank(errors[k].path) == 4
    {
      ThenRank(errors[k].path);
    }
  }

  /** `validateRule` reports the id, then the severity, then the
      description, then everything under `$.when`, then everything under
      `$.then`. */
  lemma RuleErrorsInOrder(rule: Json)
    ensures InCheckOrder(RuleErrors(rule))
  {
    if rule.Obj? {
      var f := rule.fields;
      HeadInOrder(f);
      WhenErrorsRank(f);
      ThenErrorsRank(f);
      AppendInOrder(HeadErrors(f), WhenErrors(f), 3);
      AppendInOrder(HeadErrors(f) + WhenErrors(f), ThenErrors(f), 4);
    }
  }

  lemma HeadInOrder(fields: seq<Field>)
    ensures InCheckOrder(HeadErrors(fields))
    ensures forall k :: 0 <= k < |HeadErrors(fields)| ==> Rank(HeadErrors(fields)[k].path) <= 2
  {
    var severity, description := Get(fields, "severity"), Get(fields, "description");
    var e0 := Check(NonEmptyString(Get(fields, "rule_id")), "$.rule_id", RuleIdMessage);
    var e1 := Check(severity.Str? && severity.s in Severities, "$.severity", SeverityMessage);
    var e2 := Check(description == Undefined || description.Str?, "$.description", DescriptionMessage);
    CheckRank(NonEmptyString(Get(fields, "rule_id")), "$.rule_id", RuleIdMessage);
    CheckRank(severity.Str? && severity.s in Severities, "$.severity", SeverityMessage);
    CheckRank(description == Undefined || description.Str?, "$.description", DescriptionMessage);
    AppendInOrder(e0, e1, 1);
    AppendInOrder(e0 + e1, e2, 2);
  }

  /** `validateRule(rule)`: runs the checks in order, pushing onto one list. */
  method ValidateRule(rule: Json) returns (errors: seq<Error>)
    ensures errors == RuleErrors(rule)
  {
    if !rule.Obj? {
      return [Error("$", RuleObjectMessage)];
    }
    var f := rule.fields;
    errors := ValidateHead(f);
    if !Has(f, "when") {
      errors := errors + [Error("$.when", WhenMessage)];
    } else {
      errors := ValidateExpression(Get(f, "when"), "$.when", errors);
    }
    errors := ValidateThen(f, errors);
  }

  /** The checks of `rule_id`, `severity` and `description`. */
  method ValidateHead(f: seq<Field>) returns (errors: seq<Error>)
    ensures errors == HeadErrors(f)
  {
    errors := [];
    if !NonEmptyString(Get(f, "rule_id")) {
      errors := errors + [Error("$.rule_id", RuleIdMessage)];
    }
    var severity := Get(f, "severity");
    if !severity.Str? || severity.s !in Severities {
      errors := errors + [Error("$.severity", SeverityMessage)];
    }
    var description := Get(f, "description");
    if description != Undefined && !description.Str? {
      errors := errors + [Error("$.description", DescriptionMessage)];
    }
  }

  /** The `then` branch of `validateRule`: `forEach` over the actions. */
  method ValidateThen(fields: seq<Field>, errors: seq<Error>) returns (out: seq<Error>)
    ensures out == errors + ThenErrors(fields)
  {
    var actions := Get(fields, "then");
    if !actions.Arr? || actions.items == [] {
      return errors + [Error("$.then", ThenMessage)];
    }
    ghost var groups := seq(|actions.items|, i requires 0 <= i < |actions.items| =>
      ActionErrors(actions.items[i], Index("$.then", i)));
    out := errors;
    for i := 0 to |actions.items|
      invariant out == errors + Flatten(groups[..i])
    {
      FlattenSnoc(groups, i);
      ConcatAssoc(errors, Flatten(groups[..i]), groups[i]);
      out := ValidateAction(actions.items[i], Index("$.then", i), out);
    }
    assert groups[..|actions.items|] == groups;
  }

  // ---------------------------------------------------------------------
  // Rule lists (rule-language.validator.ts:267-278)
  // ---------------------------------------------------------------------

  const RulesArrayMessage := "Rules payload must be an array."

  /** `$[${index}]${path === '$' ? '' : path.slice(1)}`. */
  function Repath(i: nat, p: string): string {
    Index("$", i) + (if p == "$" || p == [] then "" else p[1..])
  }

  /** A rule's errors placed under its index in the list. */
  function RepathAll(i: nat, errors: seq<Error>): (r: seq<Error>)
    ensures |r| == |errors|
    ensures forall k :: 0 <= k < |r| ==> r[k].message == errors[k].message
  {
    seq(|errors|, k requires 0 <= k < |errors| => Error(Repath(i, errors[k].path), errors[k].message))
  }

  /** The errors `validateRules(rules)` returns. */
  function RulesErrors(rules: Json): seq<Error> {
    if !rules.Arr? then [Error("$", RulesArrayMessage)]
    else Flatten(seq(|rules.items|, i requires 0 <= i < |rules.items| =>
      RepathAll(i, RuleErrors(rules.items[i]))))
  }

  /** A rule's `$`-rooted path is re-rooted at `$[i]`: the root itself
      becomes `$[i]` and `$.x` becomes `$[i].x`. */
  lemma RepathDollar(i: nat, p: string)
    requires StartsWith(p, "$")
    ensures Repath(i, p) == Index("$", i) + p[1..]
  {
  }

  lemma AllUnderConcat(a: seq<Error>, b: seq<Error>, prefix: string)
    requires AllUnder(a, prefix) && AllUnder(b, prefix)
    ensures AllUnder(a + b, prefix)
  {
    forall k | |a| <= k < |a + b|
      ensures StartsWith((a + b)[k].path, prefix)
    {
      assert (a + b)[k] == b[k - |a|];
    }
  }

  lemma HeadRooted(fields: seq<Field>)
    ensures AllUnder(HeadErrors(fields), "$")
  {
    assert "$.rule_id"[..1] == "$" && "$.severity"[..1] == "$" && "$.description"[..1] == "$";
  }

  lemma WhenRooted(fields: seq<Field>)
    ensures AllUnder(WhenErrors(fields), "$")
  {
    assert "$.when" == "$" + ".when";
    if Has(fields, "when") {
      ExprErrorsUnder(Get(fields, "when"), "$.when");
    } else {
      SingleUnder("$", ".when", WhenMessage);
    }
    AllUnderAppended(WhenErrors(fields), "$", ".when");
  }

  lemma ThenRooted(fields: seq<Field>)
    ensures AllUnder(ThenErrors(fields), "$")
  {
    assert "$.then" == "$" + ".then";
    ThenUnder(fields);
    AllUnderAppended(ThenErrors(fields), "$", ".then");
  }

  /** Each error of a rule lies under `$`. */
  lemma RuleErrorsRooted(rule: Json)
    ensures AllUnder(RuleErrors(rule), "$")
  {
    if rule.Obj? {
      var f := rule.fields;
      HeadRooted(f);
      WhenRooted(f);
      ThenRooted(f);
      AllUnderConcat(HeadErrors(f), WhenErrors(f), "$");
      AllUnderConcat(HeadErrors(f) + WhenErrors(f), ThenErrors(f), "$");
    } else {
      assert "$"[..1] == "$";
    }
  }

  /** A list of rules is accepted exactly when every rule in it is
      well-formed; anything but an array is rejected. */
  lemma RulesErrorsEmptyIff(rules: Json)
    ensures RulesErrors(rules) == [] <==>
      rules.Arr? && forall i :: 0 <= i < |rules.items| ==> ValidRule(rules.items[i])
  {
    if rules.Arr? {
      var groups := seq(|rules.items|, i requires 0 <= i < |rules.items| =>
        RepathAll(i, RuleErrors(rules.items[i])));
      forall i | 0 <= i < |rules.items|
        ensures groups[i] == [] <==> ValidRule(rules.items[i])
      {
        RuleErrorsEmptyIff(rules.items[i]);
      }
      FlattenEmpty(groups);
    }
  }
}
