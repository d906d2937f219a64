/** Segment filters: the recursive evaluator with its short cuts and errors, and what it means. */
module Evaluator {
  import opened Wrappers

  /** A decoded JSON value as the comparisons see it: the text that formatting gives, and for a
      scalar the number it converts to, if any. */
  datatype Value =
    | Nil
    | Scalar(text: string, number: Option<real>)
    | List(listText: string, items: seq<Value>)
    | Object(objectText: string, fields: map<string, Value>)

  type ScalarValue = v: Value | v.Scalar? witness Scalar("", None)

  function Text(v: Value): string {
    match v
    case Nil => "<nil>"
    case Scalar(text, _) => text
    case List(text, _) => text
    case Object(text, _) => text
  }

  /** A contact row. Empty or malformed properties are None. */
  datatype Contact = Contact(
    email: ScalarValue,
    firstName: ScalarValue,
    lastName: ScalarValue,
    phone: ScalarValue,
    lifecycleStage: ScalarValue,
    leadScore: ScalarValue,
    createdAt: ScalarValue,
    properties: Option<map<string, Value>>)

  datatype Error = UnknownLogic(operator: string) | UnknownOperator(operator: string) | InvalidNumber(text: string)
      | EventLookup

  /** A contact with the answers to the event queries about it. */
  datatype Subject = Subject(contact: Contact, performed: string -> Result<bool, Error>)

  /** A filter node. It is a group if it has rules, and a condition otherwise. */
  datatype Node = Node(operator: string, rules: seq<Node>, field: string, value: Value)

  type Verdict = Result<bool, Error>

  // ---------------------------------------------------------------------------------------
  // Strings
  // ---------------------------------------------------------------------------------------

  function Upper(c: char): char { if 'a' <= c <= 'z' then c - 'a' + 'A' else c }

  function Lower(c: char): char { if 'A' <= c <= 'Z' then c - 'A' + 'a' else c }

  function ToUpper(s: string): string { seq(|s|, i requires 0 <= i < |s| => Upper(s[i])) }

  function ToLower(s: string): string { seq(|s|, i requires 0 <= i < |s| => Lower(s[i])) }

  predicate HasPrefix(s: string, p: string) { p <= s }

  predicate HasSuffix(s: string, p: string) { |p| <= |s| && s[|s| - |p|..] == p }

  predicate Contains(s: string, p: string) { exists i :: 0 <= i <= |s| && HasPrefix(s[i..], p) }

  function TrimPrefix(s: string, p: string): string { if HasPrefix(s, p) then s[|p|..] else s }

  /** The part before the first dot, and the part after it if there is one. */
  function SplitAtDot(key: string): (parts: (string, Option<string>))
    ensures '.' !in parts.0
    ensures key == parts.0 + if parts.1.None? then "" else "." + parts.1.value
  {
    if key == "" then ("", None)
    else if key[0] == '.' then ("", Some(key[1..]))
    else
      var (head, tail) := SplitAtDot(key[1..]);
      ([key[0]] + head, tail)
  }

  // ---------------------------------------------------------------------------------------
  // Conditions
  // ---------------------------------------------------------------------------------------

  function ExtractProperty(properties: Option<map<string, Value>>, key: string): Value {
    var (name, nested) := SplitAtDot(key);
    if properties.None? || name !in properties.value then Nil
    else
      var v := properties.value[name];
      if nested.None? then v
      else if v.Object? && nested.value in v.fields then v.fields[nested.value]
      else Nil
  }

  function ExtractField(ct: Contact, field: string): Value {
    if field == "email" then ct.email
    else if field == "first_name" || field == "firstName" then ct.firstName
    else if field == "last_name" || field == "lastName" then ct.lastName
    else if field == "phone" then ct.phone
    else if field == "lifecycle_stage" || field == "lifecycleStage" then ct.lifecycleStage
    else if field == "lead_score" || field == "leadScore" then ct.leadScore
    else if field == "created_at" || field == "createdAt" then ct.createdAt
    else if HasPrefix(field, "properties.") then ExtractProperty(ct.properties, TrimPrefix(field, "properties."))
    else Nil
  }

  predicate CompareEqual(a: Value, b: Value) { Text(a) == Text(b) }

  function ToFloat(v: Value): Option<real> { if v.Scalar? then v.number else None }

  function CompareNumeric(a: Value, b: Value, greater: bool): Verdict {
    var fa, fb := ToFloat(a), ToFloat(b);
    if fa.None? then Ok(false)
    else if fb.None? then Err(InvalidNumber(Text(b)))
    else Ok(if greater then fa.value > fb.value else fa.value < fb.value)
  }

  predicate CompareIn(a: Value, b: Value) {
    if b.List? then exists i :: 0 <= i < |b.items| && CompareEqual(a, b.items[i]) else CompareEqual(a, b)
  }

  function EvalCondition(ct: Contact, n: Node): Verdict {
    var v := ExtractField(ct, n.field);
    if n.operator == "exists" then Ok(!v.Nil? && Text(v) != "")
    else if n.operator == "not_exists" then Ok(v.Nil? || Text(v) == "")
    else if v.Nil? then Ok(false)
    else if n.operator == "equals" then Ok(CompareEqual(v, n.value))
    else if n.operator == "not_equals" then Ok(!CompareEqual(v, n.value))
    else if n.operator == "contains" then Ok(Contains(ToLower(Text(v)), ToLower(Text(n.value))))
    else if n.operator == "starts_with" then Ok(HasPrefix(ToLower(Text(v)), ToLower(Text(n.value))))
    else if n.operator == "ends_with" then Ok(HasSuffix(ToLower(Text(v)), ToLower(Text(n.value))))
    else if n.operator == "greater_than" then CompareNumeric(v, n.value, true)
    else if n.operator == "less_than" then CompareNumeric(v, n.value, false)
    else if n.operator == "in" then Ok(CompareIn(v, n.value))
    else if n.operator == "not_in" then Ok(!CompareIn(v, n.value))
    else Err(UnknownOperator(n.operator))
  }

  function EvalEvent(x: Subject, n: Node): Verdict {
    var performed := x.performed(TrimPrefix(n.field, "event:"));
    if n.operator == "exists" || n.operator == "occurred_within_days" then performed
    else if n.operator == "not_exists" then (if performed.Ok? then Ok(!performed.value) else performed)
    else Ok(false)
  }

  function EvalLeaf(x: Subject, n: Node): Verdict {
    if HasPrefix(n.field, "event:") then EvalEvent(x, n) else EvalCondition(x.contact, n)
  }

  /** The verdict of one operator on a contact's field. */
  function On(ct: Contact, operator: string, field: string, value: Value): Verdict {
    EvalCondition(ct, Node(operator, [], field, value))
  }

  lemma PresenceLaws(ct: Contact, operator: string, field: string, value: Value)
    ensures On(ct, "exists", field, value) == Ok(true) <==> On(ct, "not_exists", field, value) == Ok(false)
    ensures ExtractField(ct, field).Nil? && operator != "not_exists" ==> On(ct, operator, field, value) == Ok(false)
  {
    hide ExtractField, CompareNumeric, CompareIn, Contains, ToLower;
  }

  lemma ComparisonLaws(ct: Contact, field: string, value: Value)
    requires !ExtractField(ct, field).Nil?
    ensures On(ct, "equals", field, value) == Ok(true) <==> On(ct, "not_equals", field, value) == Ok(false)
    ensures On(ct, "in", field, value) == Ok(true) <==> On(ct, "not_in", field, value) == Ok(false)
    ensures On(ct, "greater_than", field, value) == Ok(true) ==> On(ct, "less_than", field, value) == Ok(false)
    ensures On(ct, "greater_than", field, value).Err? <==> On(ct, "less_than", field, value).Err?
  {
    hide ExtractField, CompareIn, CompareEqual;
  }

  lemma AffixLaws(ct: Contact, field: string, value: Value)
    ensures On(ct, "equals", field, value) == Ok(true) ==>
              On(ct, "starts_with", field, value) == Ok(true) && On(ct, "ends_with", field, value) == Ok(true)
    ensures On(ct, "starts_with", field, value) == Ok(true) || On(ct, "ends_with", field, value) == Ok(true) ==>
              On(ct, "contains", field, value) == Ok(true)
  {
    hide ExtractField, CompareIn, CompareNumeric, ToLower, Contains, HasPrefix, HasSuffix, Text;
    AffixesAreInfixes(ToLower(Text(ExtractField(ct, field))), ToLower(Text(value)));
  }

  /** How the operators hang together, on any contact, field and value: a field is present or
      missing and a missing one fails every comparison; on a present one equality
      and membership have exact negations; membership in a list is equality with some item; numbers
      compare as numbers; and equal texts start, end and contain each
      other. */
  lemma ConditionLaws(ct: Contact, operator: string, field: string, value: Value)
    ensures On(ct, "exists", field, value) == Ok(true) <==> On(ct, "not_exists", field, value) == Ok(false)
    ensures ExtractField(ct, field).Nil? && operator != "not_exists" ==> On(ct, operator, field, value) == Ok(false)
    ensures !ExtractField(ct, field).Nil? ==>
              && (On(ct, "equals", field, value) == Ok(true) <==> On(ct, "not_equals", field, value) == Ok(false))
              && (On(ct, "in", field, value) == Ok(true) <==> On(ct, "not_in", field, value) == Ok(false))
    ensures value.List? ==>
              (On(ct, "in", field, value) == Ok(true) <==>
                  exists v :: v in value.items && On(ct, "equals", field, v) == Ok(true))
    ensures var a, b := ToFloat(ExtractField(ct, field)), ToFloat(value);
            a.Some? && b.Some? ==>
              && (On(ct, "greater_than", field, value) == Ok(true) <==> a.value > b.value)
              && (On(ct, "less_than", field, value) == Ok(true) <==> a.value < b.value)
    ensures On(ct, "equals", field, value) == Ok(true) ==>
              On(ct, "starts_with", field, value) == Ok(true) && On(ct, "ends_with", field, value) == Ok(true)
    ensures On(ct, "starts_with", field, value) == Ok(true) || On(ct, "ends_with", field, value) == Ok(true) ==>
              On(ct, "contains", field, value) == Ok(true)
  {
    hide On;
    PresenceLaws(ct, operator, field, value);
    if !ExtractField(ct, field).Nil? { ComparisonLaws(ct, field, value); }
    if value.List? { MemberLaw(ct, field, value); }
    NumericLaw(ct, field, value);
    AffixLaws(ct, field, value);
  }

  lemma MemberLaw(ct: Contact, field: string, value: Value)
    requires value.List?
    ensures On(ct, "in", field, value) == Ok(true) <==>
              exists v :: v in value.items && On(ct, "equals", field, v) == Ok(true)
  {
    hide ExtractField, CompareNumeric;
    var f := ExtractField(ct, field);
    if On(ct, "in", field, value) == Ok(true) {
      var i :| 0 <= i < |value.items| && CompareEqual(f, value.items[i]);
      assert value.items[i] in value.items && On(ct, "equals", field, value.items[i]) == Ok(true);
    }
    if v :| v in value.items && On(ct, "equals", field, v) == Ok(true) {
      var i :| 0 <= i < |value.items| && value.items[i] == v;
      assert CompareEqual(f, value.items[i]);
    }
  }

  lemma NumericLaw(ct: Contact, field: string, value: Value)
    ensures var a, b := ToFloat(ExtractField(ct, field)), ToFloat(value);
            a.Some? && b.Some? ==>
              && (On(ct, "greater_than", field, value) == Ok(true) <==> a.value > b.value)
              && (On(ct, "less_than", field, value) == Ok(true) <==> a.value < b.value)
  {
    hide ExtractField;
  }

  lemma AffixesAreInfixes(s: string, p: string)
    ensures HasPrefix(s, p) || HasSuffix(s, p) ==> Contains(s, p)
    ensures s == p ==> HasPrefix(s, p) && HasSuffix(s, p)
  {
    if HasPrefix(s, p) { assert HasPrefix(s[0..], p); }
    if HasSuffix(s, p) { assert HasPrefix(s[|s| - |p|..], p); }
  }

  lemma ContainsIsInfix(s: string, p: string)
    ensures Contains(s, p) <==> exists before, after :: s == before + p + after
  {
    if i :| 0 <= i <= |s| && HasPrefix(s[i..], p) {
      assert s == s[..i] + p + s[i + |p|..];
    }
    if before, after :| s == before + p + after {
      assert HasPrefix(s[|before|..], p);
    }
  }

  // ---------------------------------------------------------------------------------------
  // What a condition says about the contact row
  // ---------------------------------------------------------------------------------------

  /** What an operator says of a value, nil for a missing one, without its helpers. */
  ghost function Says(operator: string, v: Value, given: Value): Verdict {
    var text, other := Text(v), Text(given);
    if operator == "exists" then Ok(v != Nil && |text| > 0)
    else if operator == "not_exists" then Ok(v == Nil || |text| == 0)
    else if v == Nil then Ok(false)
    else if operator == "equals" then Ok(text == other)
    else if operator == "not_equals" then Ok(text != other)
    else if operator == "contains" then Ok(exists before, after :: ToLower(text) == before + ToLower(other) + after)
    else if operator == "starts_with" then Ok(exists after :: ToLower(text) == ToLower(other) + after)
    else if operator == "ends_with" then Ok(exists before :: ToLower(text) == before + ToLower(other))
    else if operator == "greater_than" || operator == "less_than" then
      if !v.Scalar? || v.number.None? then Ok(false)
      else if !given.Scalar? || given.number.None? then Err(InvalidNumber(other))
      else Ok(if operator == "less_than" then v.number.value < given.number.value
              else v.number.value > given.number.value)
    else if operator == "in" then Ok(Among(text, given))
    else if operator == "not_in" then Ok(!Among(text, given))
    else Err(UnknownOperator(operator))
  }

  ghost predicate Among(text: string, given: Value) {
    if given.List? then exists item :: item in given.items && Text(item) == text else Text(given) == text
  }

  /** Case folding touches the 26 letters and nothing else, and the group operators ignore case. */
  lemma CaseLaws(s: string)
    ensures |ToLower(s)| == |s| == |ToUpper(s)|
    ensures forall i :: 0 <= i < |s| ==>
              && ToLower(s)[i] == (if 'A' <= s[i] <= 'Z' then (s[i] as int + 32) as char else s[i])
              && ToUpper(s)[i] == (if 'a' <= s[i] <= 'z' then (s[i] as int - 32) as char else s[i])
    ensures IsAnd(s) <==> |s| == 3 && s[0] in {'A', 'a'} && s[1] in {'N', 'n'} && s[2] in {'D', 'd'}
    ensures IsOr(s) <==> |s| == 2 && s[0] in {'O', 'o'} && s[1] in {'R', 'r'}
  {
    if |s| == 3 { assert ToUpper(s) == [Upper(s[0]), Upper(s[1]), Upper(s[2])]; }
    if |s| == 2 { assert ToUpper(s) == [Upper(s[0]), Upper(s[1])]; }
  }

  lemma ConditionSays(ct: Contact, n: Node)
    ensures EvalCondition(ct, n) == Says(n.operator, ExtractField(ct, n.field), n.value)
  {
    hide ExtractField, ToLower, Contains, HasPrefix, HasSuffix;
    var v := ExtractField(ct, n.field);
    var text, other := Text(v), Text(n.value);
    ContainsIsInfix(ToLower(text), ToLower(other));
    AffixesSay(ToLower(text), ToLower(other));
    AmongSays(v, n.value);
    hide CompareIn, Among;
  }

  lemma AffixesSay(s: string, p: string)
    ensures HasPrefix(s, p) <==> exists after :: s == p + after
    ensures HasSuffix(s, p) <==> exists before :: s == before + p
  {
    if HasPrefix(s, p) { assert s == p + s[|p|..]; }
    if HasSuffix(s, p) { assert s == s[..|s| - |p|] + p; }
  }

  lemma AmongSays(v: Value, given: Value)
    ensures CompareIn(v, given) <==> Among(Text(v), given)
  {
    if given.List? && CompareIn(v, given) {
      var i :| 0 <= i < |given.items| && CompareEqual(v, given.items[i]);
      assert given.items[i] in given.items;
    }
    if given.List? && Among(Text(v), given) {
      var item :| item in given.items && Text(item) == Text(v);
      var i :| 0 <= i < |given.items| && given.items[i] == item;
      assert CompareEqual(v, given.items[i]);
    }
  }

  /** The names the filter knows a contact's columns by, and the column each one stands for. */
  ghost predicate Names(ct: Contact, field: string, column: Value) {
    || (field == "email" && column == ct.email)
    || (field in {"first_name", "firstName"} && column == ct.firstName)
    || (field in {"last_name", "lastName"} && column == ct.lastName)
    || (field == "phone" && column == ct.phone)
    || (field in {"lifecycle_stage", "lifecycleStage"} && column == ct.lifecycleStage)
    || (field in {"lead_score", "leadScore"} && column == ct.leadScore)
    || (field in {"created_at", "createdAt"} && column == ct.createdAt)
  }

  /** A condition on a column says about the contact what its operator says of that column, whatever
      the other columns hold. */
  lemma ColumnMeans(x: Subject, operator: string, field: string, column: Value, given: Value)
    requires Names(x.contact, field, column)
    ensures Eval(x, Node(operator, [], field, given)) == Says(operator, column, given)
  {
    hide EvalCondition, Says;
    NamesNoEvent(x.contact, field, column);
    ConditionSays(x.contact, Node(operator, [], field, given));
  }

  lemma NamesNoEvent(ct: Contact, field: string, column: Value)
    requires Names(ct, field, column)
    ensures !HasPrefix(field, "event:") && ExtractField(ct, field) == column
  {
    assert field[0] == 'e' ==> field[1] == 'm';
  }

  /** A condition on a property is about the value under the name, or, after a dot, about that
      value's field, and about nothing if there is none. */
  lemma PropertyMeans(x: Subject, operator: string, name: string, inner: string, given: Value)
    requires '.' !in name
    ensures var p := x.contact.properties;
            && Eval(x, Node(operator, [], "properties." + name, given))
                 == Says(operator, if p.None? || name !in p.value then Nil else p.value[name], given)
            && Eval(x, Node(operator, [], "properties." + name + "." + inner, given))
                 == Says(operator,
                         if p.None? || name !in p.value || !p.value[name].Object? || inner !in p.value[name].fields
                         then Nil else p.value[name].fields[inner], given)
  {
    hide EvalCondition, Says;
    var flat, nested := "properties." + name, "properties." + name + "." + inner;
    ConditionSays(x.contact, Node(operator, [], flat, given));
    ConditionSays(x.contact, Node(operator, [], nested, given));
    SplitsAtFirstDot(name, inner);
    PropertyField(x.contact, name);
    PropertyField(x.contact, name + "." + inner);
    assert nested == "properties." + (name + "." + inner);
  }

  lemma PropertyField(ct: Contact, key: string)
    ensures !HasPrefix("properties." + key, "event:")
    ensures ExtractField(ct, "properties." + key) == ExtractProperty(ct.properties, key)
  {
    var field := "properties." + key;
    assert field[0] == 'p' && field[1] == 'r' && field[10] == '.';
    assert field[11..] == key;
  }

  lemma {:induction false} SplitsAtFirstDot(name: string, inner: string)
    requires '.' !in name
    ensures SplitAtDot(name) == (name, None) && SplitAtDot(name + "." + inner) == (name, Some(inner))
    decreases |name|
  {
    if name != "" {
      SplitsAtFirstDot(name[1..], inner);
      assert (name + "." + inner)[1..] == name[1..] + "." + inner;
      assert [name[0]] + name[1..] == name;
    } else {
      assert (name + "." + inner)[1..] == inner;
    }
  }

  /** A condition on an event asks whether the contact has performed it. */
  lemma EventMeans(x: Subject, operator: string, event: string, given: Value)
    ensures var verdict := Eval(x, Node(operator, [], "event:" + event, given));
            && (operator in {"exists", "occurred_within_days"} ==> verdict == x.performed(event))
            && (operator == "not_exists" ==>
                 if x.performed(event).Ok? then verdict == Ok(!x.performed(event).value)
                 else verdict == x.performed(event))
            && (operator !in {"exists", "not_exists", "occurred_within_days"} ==> verdict == Ok(false))
  {
    assert ("event:" + event)[6..] == event;
  }

  /** Any other field is missing. */
  lemma OtherFieldsAreMissing(x: Subject, operator: string, field: string, given: Value)
    requires forall column :: !Names(x.contact, field, column)
    requires forall rest :: field != "properties." + rest && field != "event:" + rest
    ensures Eval(x, Node(operator, [], field, given)) == Says(operator, Nil, given)
  {
    hide EvalCondition, Says;
    ConditionSays(x.contact, Node(operator, [], field, given));
    AffixesSay(field, "event:");
    AffixesSay(field, "properties.");
    var ct := x.contact;
    assert !Names(ct, field, ct.email) && !Names(ct, field, ct.firstName) && !Names(ct, field, ct.lastName)
           && !Names(ct, field, ct.phone) && !Names(ct, field, ct.lifecycleStage) && !Names(ct, field, ct.leadScore)
           && !Names(ct, field, ct.createdAt);
  }

  // ---------------------------------------------------------------------------------------
  // The evaluator
  // ---------------------------------------------------------------------------------------

  predicate IsAnd(operator: string) { ToUpper(operator) == "AND" }

  predicate IsOr(operator: string) { ToUpper(operator) == "OR" }

  function Eval(x: Subject, n: Node): Verdict
    decreases n, 0
  {
    if |n.rules| == 0 then EvalLeaf(x, n)
    else if IsAnd(n.operator) then EvalRules(x, n.rules, false)
    else if IsOr(n.operator) then EvalRules(x, n.rules, true)
    else Err(UnknownLogic(n.operator))
  }

  /** The loop over the children of a group: an error or the value `stop` ends it. */
  function EvalRules(x: Subject, rules: seq<Node>, stop: bool): Verdict
    decreases rules, 1
  {
    if rules == [] then Ok(!stop)
    else
      var first := Eval(x, rules[0]);
      if first.Err? || first.value == stop then first else EvalRules(x, rules[1..], stop)
  }

  /** A missing tree matches every contact. */
  function Matches(x: Subject, tree: Option<Node>): Verdict {
    if tree.None? then Ok(true) else Eval(x, tree.value)
  }

  // ---------------------------------------------------------------------------------------
  // Meaning
  // ---------------------------------------------------------------------------------------

  /** No condition in the tree errs for this subject, and every group is AND or OR. */
  ghost predicate Clean(x: Subject, n: Node)
    decreases n
  {
    if |n.rules| == 0 then EvalLeaf(x, n).Ok?
    else (IsAnd(n.operator) || IsOr(n.operator)) && forall i :: 0 <= i < |n.rules| ==> Clean(x, n.rules[i])
  }

  /** What a clean tree means, without order or short cuts. */
  ghost predicate Meaning(x: Subject, n: Node)
    decreases n
  {
    if |n.rules| == 0 then EvalLeaf(x, n) == Ok(true)
    else if IsAnd(n.operator) then forall i :: 0 <= i < |n.rules| ==> Meaning(x, n.rules[i])
    else exists i :: 0 <= i < |n.rules| && Meaning(x, n.rules[i])
  }

  /** On a clean tree the evaluator computes the meaning. */
  lemma {:induction false} EvalMeans(x: Subject, n: Node)
    requires Clean(x, n)
    ensures Eval(x, n) == Ok(Meaning(x, n)) == Matches(x, Some(n)) && Matches(x, None) == Ok(true)
    decreases n
  {
    if |n.rules| > 0 {
      forall i | 0 <= i < |n.rules| ensures Eval(x, n.rules[i]) == Ok(Meaning(x, n.rules[i])) {
        EvalMeans(x, n.rules[i]);
      }
      var stop := !IsAnd(n.operator);
      var k := FirstDecider(x, n.rules, stop);
      assert Eval(x, n) == EvalRules(x, n.rules, stop);
      if k < |n.rules| {
        assert Meaning(x, n.rules[k]) == stop;
      } else {
        forall i | 0 <= i < |n.rules| ensures Meaning(x, n.rules[i]) == !stop {
          assert !Decides(x, n.rules[i], stop);
        }
      }
      assert Meaning(x, n) == if k < |n.rules| then stop else !stop;
      assert EvalRules(x, n.rules, stop) == Ok(if k < |n.rules| then stop else !stop);
    } else {
      assert Eval(x, n) == if EvalLeaf(x, n).value then Ok(true) else Ok(false);
    }
  }

  /** The child neither errs nor lets the loop go on. */
  predicate Decides(x: Subject, n: Node, stop: bool) { Eval(x, n) != Ok(!stop) }

  /** Short-circuit evaluation, errors included: the first child that decides gives the result,
      and without one the result is the neutral value. */
  lemma {:induction false} FirstDecider(x: Subject, rules: seq<Node>, stop: bool) returns (k: nat)
    ensures k <= |rules| && forall i :: 0 <= i < k ==> !Decides(x, rules[i], stop)
    ensures k < |rules| ==> Decides(x, rules[k], stop)
    ensures EvalRules(x, rules, stop) == if k < |rules| then Eval(x, rules[k]) else Ok(!stop)
    decreases |rules|
  {
    if rules == [] || Decides(x, rules[0], stop) {
      k := 0;
    } else {
      var tail := rules[1..];
      var j := FirstDecider(x, tail, stop);
      k := j + 1;
      forall i | 0 <= i < k ensures !Decides(x, rules[i], stop) {
        if i > 0 { assert tail[i - 1] == rules[i]; }
      }
    }
  }

  /** Children that decide, all decide alike. */
  ghost predicate OneMind(x: Subject, rules: seq<Node>, stop: bool) {
    forall a, b :: a in rules && b in rules && Decides(x, a, stop) && Decides(x, b, stop) ==> Eval(x, a) == Eval(x, b)
  }

  ghost predicate Permutes(a: seq<Node>, b: seq<Node>) { multiset(a) == multiset(b) }

  lemma SameElements(a: seq<Node>, b: seq<Node>)
    requires Permutes(a, b)
    ensures forall n :: n in a <==> n in b
  {
    forall n ensures n in a <==> n in b { assert n in multiset(a) <==> n in multiset(b); }
  }

  /** The order of a group's children is immaterial exactly if those that decide agree. */
  lemma OrderIrrelevant(x: Subject, rules: seq<Node>, stop: bool)
    ensures OneMind(x, rules, stop) <==>
              forall other :: Permutes(rules, other) ==> EvalRules(x, other, stop) == EvalRules(x, rules, stop)
  {
    if OneMind(x, rules, stop) {
      forall other | Permutes(rules, other) ensures EvalRules(x, other, stop) == EvalRules(x, rules, stop) {
        SameElements(rules, other);
        var j := FirstDecider(x, rules, stop);
        var k := FirstDecider(x, other, stop);
        assert j < |rules| ==> rules[j] in other;
        assert k < |other| ==> other[k] in rules;
      }
    } else {
      var a, b :| a in rules && b in rules && Decides(x, a, stop) && Decides(x, b, stop) && Eval(x, a) != Eval(x, b);
      var front := ToFront(rules, a);
      var front' := ToFront(rules, b);
      assert EvalRules(x, front, stop) == Eval(x, a) && EvalRules(x, front', stop) == Eval(x, b);
    }
  }

  lemma ToFront(rules: seq<Node>, n: Node) returns (moved: seq<Node>)
    requires n in rules
    ensures Permutes(rules, moved) && moved != [] && moved[0] == n
  {
    var i :| 0 <= i < |rules| && rules[i] == n;
    moved := [n] + (rules[..i] + rules[i + 1..]);
    assert rules == rules[..i] + [n] + rules[i + 1..];
  }

  /** In a clean group the order never matters. */
  lemma CleanIsOneMind(x: Subject, rules: seq<Node>, stop: bool)
    requires forall i :: 0 <= i < |rules| ==> Clean(x, rules[i])
    ensures OneMind(x, rules, stop)
  {
    forall n | n in rules && Decides(x, n, stop) ensures Eval(x, n) == Ok(stop) {
      EvalMeans(x, n);
    }
  }

  /** `b` is `a` with the children of any of its groups, at any depth, in another order. */
  ghost predicate Rearranged(a: Node, b: Node)
    decreases a
  {
    && a.operator == b.operator && a.field == b.field && a.value == b.value
    && exists mid: seq<Node> ::
         && Permutes(mid, b.rules) && |mid| == |a.rules|
         && forall i :: 0 <= i < |mid| ==> Rearranged(a.rules[i], mid[i])
  }

  lemma GroupAlike(x: Subject, rules: seq<Node>, mid: seq<Node>, other: seq<Node>, stop: bool)
    requires |rules| == |mid| && Permutes(mid, other)
    requires forall i :: 0 <= i < |mid| ==> Clean(x, mid[i]) && Eval(x, rules[i]) == Eval(x, mid[i])
    ensures EvalRules(x, other, stop) == EvalRules(x, rules, stop)
    ensures forall i :: 0 <= i < |other| ==> Clean(x, other[i])
    ensures |other| == |rules|
  {
    hide EvalLeaf, EvalRules, IsAnd, IsOr, OneMind, Eval, Clean;
    SameElements(mid, other);
    assert |multiset(mid)| == |mid| && |multiset(other)| == |other|;
    forall i | 0 <= i < |other| ensures Clean(x, other[i]) { assert other[i] in mid; }
    RulesAgree(x, rules, mid, stop);
    CleanIsOneMind(x, mid, stop);
    OrderIrrelevant(x, mid, stop);
  }

  /** Rearranging a clean tree changes nothing. */
  lemma {:induction false} RearrangedAlike(x: Subject, a: Node, b: Node)
    requires Clean(x, a) && Rearranged(a, b)
    ensures Clean(x, b) && Eval(x, b) == Eval(x, a)
    decreases a
  {
    hide EvalLeaf, EvalRules, ToUpper, OneMind, Permutes;
    var mid: seq<Node> :|
      && Permutes(mid, b.rules) && |mid| == |a.rules|
      && forall i :: 0 <= i < |mid| ==> Rearranged(a.rules[i], mid[i]);
    if a.rules == [] {
      GroupAlike(x, [], mid, b.rules, true);
      assert a == b;
    } else {
      forall i | 0 <= i < |mid| ensures Clean(x, mid[i]) && Eval(x, a.rules[i]) == Eval(x, mid[i]) {
        RearrangedAlike(x, a.rules[i], mid[i]);
      }
      GroupAlike(x, a.rules, mid, b.rules, !IsAnd(a.operator));
    }
  }

  /** With errors it does: the same two children, in either order. */
  lemma ErrorsMakeOrderMatter(x: Subject)
    ensures var bad, no := Node("?", [], "email", Nil), Node("not_exists", [], "email", Nil);
            Text(x.contact.email) != "" ==>
              && Eval(x, Node("AND", [bad, no], "", Nil)) == Err(UnknownOperator("?"))
              && Eval(x, Node("AND", [no, bad], "", Nil)) == Ok(false)
  {
    var bad, no := Node("?", [], "email", Nil), Node("not_exists", [], "email", Nil);
    assert ToUpper("AND") == "AND";
    assert "email"[1] != "event:"[1];
    assert !HasPrefix("email", "event:");
    assert Eval(x, bad) == EvalLeaf(x, bad) && Eval(x, no) == EvalLeaf(x, no);
  }

  // ---------------------------------------------------------------------------------------
  // Membership conditions are groups of comparisons
  // ---------------------------------------------------------------------------------------

  function Leaf(operator: string, field: string, value: Value): Node { Node(operator, [], field, value) }

  function Leaves(operator: string, field: string, items: seq<Value>): seq<Node> {
    seq(|items|, i requires 0 <= i < |items| => Leaf(operator, field, items[i]))
  }

  /** `in` and `not_in` without lists: an OR of equals, an AND of not_equals, or a single
      comparison. Only an empty list stays. */
  function DesugarLeaf(n: Node): Node
    requires n.rules == []
  {
    if n.operator != "in" && n.operator != "not_in" then n
    else
      var (group, compare) := if n.operator == "in" then ("OR", "equals") else ("AND", "not_equals");
      if !n.value.List? then Leaf(compare, n.field, n.value)
      else if n.value.items == [] then n
      else Node(group, Leaves(compare, n.field, n.value.items), "", Nil)
  }

  function Desugar(n: Node): Node
    decreases n
  {
    if n.rules == [] then DesugarLeaf(n)
    else n.(rules := seq(|n.rules|, i requires 0 <= i < |n.rules| => Desugar(n.rules[i])))
  }

  ghost predicate NoLists(n: Node)
    decreases n
  {
    if n.rules == [] then (n.operator == "in" || n.operator == "not_in") ==> n.value == List(Text(n.value), [])
    else forall i :: 0 <= i < |n.rules| ==> NoLists(n.rules[i])
  }

  /** Whether the field has a value to compare. */
  predicate Present(x: Subject, field: string) {
    !HasPrefix(field, "event:") && !ExtractField(x.contact, field).Nil?
  }

  lemma ComparisonVerdicts(x: Subject, field: string, v: Value)
    ensures Eval(x, Leaf("equals", field, v))
              == Ok(Present(x, field) && CompareEqual(ExtractField(x.contact, field), v))
    ensures Eval(x, Leaf("not_equals", field, v))
              == Ok(Present(x, field) && !CompareEqual(ExtractField(x.contact, field), v))
  {
    hide ExtractField, HasPrefix;
  }

  lemma MembershipVerdicts(x: Subject, n: Node)
    requires n.rules == []
    ensures n.operator == "in" ==>
              Eval(x, n) == Ok(Present(x, n.field) && CompareIn(ExtractField(x.contact, n.field), n.value))
    ensures n.operator == "not_in" ==>
              Eval(x, n) == Ok(Present(x, n.field) && !CompareIn(ExtractField(x.contact, n.field), n.value))
  {
    hide ExtractField, HasPrefix, CompareIn;
  }

  lemma GroupVerdicts(x: Subject, rules: seq<Node>)
    requires rules != []
    ensures Eval(x, Node("OR", rules, "", Nil)) == EvalRules(x, rules, true)
    ensures Eval(x, Node("AND", rules, "", Nil)) == EvalRules(x, rules, false)
  {
    assert ToUpper("AND") == "AND" && ToUpper("OR") == "OR";
  }

  lemma {:induction false} DesugarLeafKeeps(x: Subject, n: Node)
    requires n.rules == []
    ensures Eval(x, DesugarLeaf(n)) == Eval(x, n)
  {
    hide Eval, ExtractField, HasPrefix;
    if n.operator == "in" || n.operator == "not_in" {
      MembershipVerdicts(x, n);
      ComparisonVerdicts(x, n.field, n.value);
      if n.value.List? && n.value.items != [] {
        var isIn := n.operator == "in";
        var items := n.value.items;
        var leaves := Leaves(if isIn then "equals" else "not_equals", n.field, items);
        GroupVerdicts(x, leaves);
        forall i | 0 <= i < |leaves|
          ensures Eval(x, leaves[i])
                    == Ok(Present(x, n.field) && (CompareEqual(ExtractField(x.contact, n.field), items[i]) == isIn))
        {
          ComparisonVerdicts(x, n.field, items[i]);
        }
        var k := FirstDecider(x, leaves, isIn);
      }
    }
  }

  /** Main result: rewriting every membership condition of a tree leaves its verdict the same, for
      every contact, event fields and missing fields and errors elsewhere included. */
  lemma {:induction false} DesugarKeeps(x: Subject, n: Node)
    ensures Eval(x, Desugar(n)) == Eval(x, n)
    decreases n
  {
    if n.rules == [] {
      DesugarLeafKeeps(x, n);
    } else {
      var rules := Desugar(n).rules;
      forall i | 0 <= i < |rules| ensures Eval(x, rules[i]) == Eval(x, n.rules[i]) {
        DesugarKeeps(x, n.rules[i]);
      }
      RulesAgree(x, rules, n.rules, false);
      RulesAgree(x, rules, n.rules, true);
    }
  }

  lemma {:induction false} RulesAgree(x: Subject, a: seq<Node>, b: seq<Node>, stop: bool)
    requires |a| == |b| && forall i :: 0 <= i < |a| ==> Eval(x, a[i]) == Eval(x, b[i])
    ensures EvalRules(x, a, stop) == EvalRules(x, b, stop)
    decreases |a|
  {
    if a != [] { RulesAgree(x, a[1..], b[1..], stop); }
  }

  /** And it leaves no lists but empty ones. */
  lemma {:induction false} DesugarRemovesLists(n: Node)
    ensures NoLists(Desugar(n))
    decreases n
  {
    forall i | 0 <= i < |n.rules| ensures NoLists(Desugar(n.rules[i])) { DesugarRemovesLists(n.rules[i]); }
  }
}
