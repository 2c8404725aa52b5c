/** The predicate engine: comparison operators, leaf conditions, constant
    predicates and AND/OR groups, evaluated against a record or rendered as a
    parameterised SQL fragment. */
module Condition {
  import opened Common
  import opened PyValues

  datatype Operator = Eq | Neq | Gt | Lt | Gte | Lte | In | NotIn | Null | NotNull

  /** The operator's enum value. */
  function Text(op: Operator): string
  {
    match op
    case Eq => "=="
    case Neq => "!="
    case Gt => ">"
    case Lt => "<"
    case Gte => ">="
    case Lte => "<="
    case In => "IN"
    case NotIn => "NOT IN"
    case Null => "IS NULL"
    case NotNull => "IS NOT NULL"
  }

  /** Whether the operator compares against an operand. */
  function HasValue(op: Operator): (b: bool)
    ensures !b <==> op == Null || op == NotNull
  {
    Text(op) !in ["IS NULL", "IS NOT NULL"]
  }

  /** The operator's SQL token. */
  function SqlToken(op: Operator): (t: string)
    ensures op == Eq ==> t == "="
    ensures op == Neq ==> t == "<>"
    ensures op != Eq && op != Neq ==> t == Text(op)
  {
    if op == Eq then "=" else if op == Neq then "<>" else Text(op)
  }

  /** Distinct operators render as distinct SQL tokens. */
  lemma SqlTokenInjective(a: Operator, b: Operator)
    requires SqlToken(a) == SqlToken(b)
    ensures a == b
  {
  }

  datatype Conjunction = And | Or

  function ConjunctionText(c: Conjunction): string
  {
    if c == And then "AND" else "OR"
  }

  /** How a leaf reads its value: a field name, or a function of the record,
      which may raise (the error holds the exception's class name). */
  datatype Accessor = Name(name: string) | Getter(get: Record -> Result<Value, string>)

  datatype Predicate =
    | Constant(isTrue: bool)
    | Leaf(field: Accessor, op: Operator, operand: Value)
    | Group(left: Predicate, conj: Conjunction, right: Option<Predicate>)

  datatype ConditionError =
    | ValueRequired(op: Operator)   // a value-requiring operator built without an operand
    | MissingField(name: string)    // the record has no such attribute
    | TypeMismatch(op: Operator)    // the values are not ordered, or not hashable for a set lookup
    | UnsupportedField              // SQL rendering of a leaf whose accessor is a function
    | AccessorRaised(kind: string)  // a function accessor raised this exception

  /** Building a leaf condition; fails fast when the operator needs an operand and gets None. */
  function MakeCondition(field: Accessor, op: Operator, operand: Value): (r: Result<Predicate, ConditionError>)
    ensures r.Err? <==> operand == VNone && op != Null && op != NotNull
    ensures r.Err? ==> r.error == ValueRequired(op)
    ensures r.Ok? ==> r.value == Leaf(field, op, operand)
  {
    if operand == VNone && HasValue(op) then Err(ValueRequired(op)) else Ok(Leaf(field, op, operand))
  }

  /** `left & right`: on every record, it evaluates without error exactly
      when both sides do, and then holds exactly when both hold. */
  function AndWith(left: Predicate, right: Predicate): (r: Predicate)
    ensures forall rec :: Evaluate(r, rec).Ok? <==> Evaluate(left, rec).Ok? && Evaluate(right, rec).Ok?
    ensures forall rec :: Evaluate(r, rec).Ok? ==>
      (Evaluate(r, rec).value <==> Evaluate(left, rec).value && Evaluate(right, rec).value)
  {
    Group(left, And, Some(right))
  }

  /** `left | right`: both sides are always evaluated, so it fails when
      either does, and otherwise holds exactly when either holds. */
  function OrWith(left: Predicate, right: Predicate): (r: Predicate)
    ensures forall rec :: Evaluate(r, rec).Ok? <==> Evaluate(left, rec).Ok? && Evaluate(right, rec).Ok?
    ensures forall rec :: Evaluate(r, rec).Ok? ==>
      (Evaluate(r, rec).value <==> Evaluate(left, rec).value || Evaluate(right, rec).value)
  {
    Group(left, Or, Some(right))
  }

  function Resolve(field: Accessor, rec: Record): Result<Value, ConditionError>
  {
    match field
    case Name(n) => if n in rec then Ok(rec[n]) else Err(MissingField(n))
    case Getter(get) => if get(rec).Ok? then Ok(get(rec).value) else Err(AccessorRaised(get(rec).error))
  }

  function Ordered(op: Operator, o: Order, v: Value, operand: Value): Result<bool, ConditionError>
  {
    match Compare(o, v, operand)
    case Some(b) => Ok(b)
    case None => Err(TypeMismatch(op))
  }

  /** When Python raises a TypeError for `v <op> operand`: an ordered
      comparison between values it cannot order, or a membership test of an
      unhashable value in a set. */
  predicate RaisesTypeError(op: Operator, v: Value, operand: Value)
  {
    match op
    case Gt => Compare(Greater, v, operand).None?
    case Lt => Compare(Less, v, operand).None?
    case Gte => Compare(GreaterEq, v, operand).None?
    case Lte => Compare(LessEq, v, operand).None?
    case In => operand.VSet? && !Hashable(v)
    case NotIn => operand.VSet? && !Hashable(v)
    case _ => false
  }

  /** Applying an operator to the field's value and the operand: it fails
      exactly when Python raises a TypeError, and NOT IN negates IN wherever
      the operand is a collection. */
  function Apply(op: Operator, v: Value, operand: Value): (r: Result<bool, ConditionError>)
    ensures r.Err? <==> RaisesTypeError(op, v, operand)
    ensures r.Err? ==> r.error == TypeMismatch(op)
    ensures op == Eq ==> r == Ok(PyEq(v, operand))
    ensures op == Neq ==> r == Ok(!PyEq(v, operand))
    ensures op == Null ==> r == Ok(v.VNone?)
    ensures op == NotNull ==> r == Ok(!v.VNone?)
    ensures op == Gt && r.Ok? ==> r.value == Compare(Greater, v, operand).value
    ensures op == Lt && r.Ok? ==> r.value == Compare(Less, v, operand).value
    ensures op == Gte && r.Ok? ==> r.value == Compare(GreaterEq, v, operand).value
    ensures op == Lte && r.Ok? ==> r.value == Compare(LessEq, v, operand).value
    ensures op == In && r.Ok? && (operand.VList? || operand.VSet?) ==> r.value == Member(v, operand).value
    ensures op == NotIn && r.Ok? && (operand.VList? || operand.VSet?) ==>
      r.value == !Member(v, operand).value
    ensures (op == In || op == NotIn) && !(operand.VList? || operand.VSet?) ==> r == Ok(false)
  {
    match op
    case Eq => Ok(PyEq(v, operand))
    case Neq => Ok(!PyEq(v, operand))
    case Gt => Ordered(op, Greater, v, operand)
    case Lt => Ordered(op, Less, v, operand)
    case Gte => Ordered(op, GreaterEq, v, operand)
    case Lte => Ordered(op, LessEq, v, operand)
    case In =>
      if operand.VList? || operand.VSet? then
        match Member(v, operand)
        case Some(b) => Ok(b)
        case None => Err(TypeMismatch(op))
      else Ok(false)
    case NotIn =>
      if operand.VList? || operand.VSet? then
        match Member(v, operand)
        case Some(b) => Ok(!b)
        case None => Err(TypeMismatch(op))
      else Ok(false)
    case Null => Ok(v == VNone)
    case NotNull => Ok(v != VNone)
  }

  /** Values of different kinds, other than two numbers, are never equal:
      EQ between them is false and NEQ true, without an error. */
  lemma CrossTypeEquality(v: Value, operand: Value)
    requires !(IsNumeric(v) && IsNumeric(operand))
    requires v.VNone? != operand.VNone? || v.VStr? != operand.VStr? || v.VDate? != operand.VDate? ||
             v.VList? != operand.VList? || v.VSet? != operand.VSet? || v.VDict? != operand.VDict? ||
             v.VIter? != operand.VIter? || v.VObject? != operand.VObject?
    ensures Apply(Eq, v, operand) == Ok(false) && Apply(Neq, v, operand) == Ok(true)
  {
  }

  /** The value a missing right-hand side stands for. */
  function Identity(c: Conjunction): bool
  {
    c == And
  }

  function Combine(c: Conjunction, x: bool, y: bool): bool
  {
    if c == And then x && y else x || y
  }

  /** Evaluating a predicate against a record. Both sides of a group are
      evaluated, left first, before they are combined. The only failures are
      a field the record lacks and a TypeError of a comparison. */
  function Evaluate(p: Predicate, rec: Record): (r: Result<bool, ConditionError>)
    ensures r.Err? ==> r.error.MissingField? || r.error.TypeMismatch? || r.error.AccessorRaised?
    ensures r.Err? && r.error.MissingField? ==> r.error.name !in rec
  {
    match p
    case Constant(b) => Ok(b)
    case Leaf(field, op, operand) =>
      var v :- Resolve(field, rec);
      Apply(op, v, operand)
    case Group(left, c, right) =>
      var x :- Evaluate(left, rec);
      var y :- if right.Some? then Evaluate(right.value, rec) else Ok(Identity(c));
      Ok(Combine(c, x, y))
  }

  /** `P & Q` holds exactly when both hold; an error on the left wins, then one on the right. */
  lemma AndSemantics(p: Predicate, q: Predicate, rec: Record)
    ensures Evaluate(AndWith(p, q), rec).Ok? <==> Evaluate(p, rec).Ok? && Evaluate(q, rec).Ok?
    ensures Evaluate(AndWith(p, q), rec).Ok? ==>
      Evaluate(AndWith(p, q), rec).value == (Evaluate(p, rec).value && Evaluate(q, rec).value)
    ensures Evaluate(p, rec).Err? ==> Evaluate(AndWith(p, q), rec) == Evaluate(p, rec)
    ensures Evaluate(p, rec).Ok? && Evaluate(q, rec).Err? ==> Evaluate(AndWith(p, q), rec) == Evaluate(q, rec)
  {
  }

  /** `P | Q` holds exactly when either holds, and never skips evaluating Q. */
  lemma OrSemantics(p: Predicate, q: Predicate, rec: Record)
    ensures Evaluate(OrWith(p, q), rec).Ok? <==> Evaluate(p, rec).Ok? && Evaluate(q, rec).Ok?
    ensures Evaluate(OrWith(p, q), rec).Ok? ==>
      Evaluate(OrWith(p, q), rec).value == (Evaluate(p, rec).value || Evaluate(q, rec).value)
    ensures Evaluate(p, rec).Err? ==> Evaluate(OrWith(p, q), rec) == Evaluate(p, rec)
    ensures Evaluate(p, rec).Ok? && Evaluate(q, rec).Err? ==> Evaluate(OrWith(p, q), rec) == Evaluate(q, rec)
  {
  }

  /** `P & Const(true)`, `P | Const(false)` and a group without a right side
      all evaluate like `P`. */
  lemma IdentityLaws(p: Predicate, rec: Record)
    ensures Evaluate(AndWith(p, Constant(true)), rec) == Evaluate(p, rec)
    ensures Evaluate(OrWith(p, Constant(false)), rec) == Evaluate(p, rec)
    ensures Evaluate(Group(p, And, None), rec) == Evaluate(p, rec)
    ensures Evaluate(Group(p, Or, None), rec) == Evaluate(p, rec)
  {
  }

  /** IN and NOT IN on a list or set operand are each other's negation;
      both are false when the operand is not a collection. */
  lemma MembershipOperators(field: Accessor, operand: Value, rec: Record)
    requires Resolve(field, rec).Ok?
    ensures var v := Resolve(field, rec).value;
      (operand.VList? || operand.VSet?) && Member(v, operand).Some? ==>
        Evaluate(Leaf(field, In, operand), rec) == Ok(Member(v, operand).value) &&
        Evaluate(Leaf(field, NotIn, operand), rec) == Ok(!Member(v, operand).value)
    ensures !(operand.VList? || operand.VSet?) ==>
      Evaluate(Leaf(field, In, operand), rec) == Ok(false) &&
      Evaluate(Leaf(field, NotIn, operand), rec) == Ok(false)
  {
  }

  /** A leaf's evaluation fails exactly when its named field is missing, or its
      ordered comparison or set lookup raises a TypeError. */
  lemma LeafErrors(n: string, op: Operator, operand: Value, rec: Record)
    ensures n !in rec ==> Evaluate(Leaf(Name(n), op, operand), rec) == Err(MissingField(n))
    ensures n in rec ==>
      (Evaluate(Leaf(Name(n), op, operand), rec).Err? <==> RaisesTypeError(op, rec[n], operand))
    ensures n in rec && Evaluate(Leaf(Name(n), op, operand), rec).Err? ==>
      Evaluate(Leaf(Name(n), op, operand), rec) == Err(TypeMismatch(op))
    ensures n in rec && (op == Eq || op == Neq || op == Null || op == NotNull) ==>
      Evaluate(Leaf(Name(n), op, operand), rec).Ok?
    ensures n in rec && (op == In || op == NotIn) ==>
      (Evaluate(Leaf(Name(n), op, operand), rec).Err? <==> operand.VSet? && !Hashable(rec[n]))
  {
  }

  /** A leaf reading through a function propagates whatever the function
      raises; otherwise the operator is applied to the value it returns. */
  lemma GetterLeaf(get: Record -> Result<Value, string>, op: Operator, operand: Value, rec: Record)
    ensures get(rec).Err? ==> Evaluate(Leaf(Getter(get), op, operand), rec) == Err(AccessorRaised(get(rec).error))
    ensures get(rec).Ok? ==> Evaluate(Leaf(Getter(get), op, operand), rec) == Apply(op, get(rec).value, operand)
  {
  }

  /** "(?, ?, ..., ?)" with `n` placeholders. */
  function Placeholders(n: nat): (s: string)
  {
    "(" + QuestionMarks(n) + ")"
  }

  function QuestionMarks(n: nat): string
  {
    if n == 0 then "" else if n == 1 then "?" else "?, " + QuestionMarks(n - 1)
  }

  function CountChar(s: string, c: char): nat
  {
    if s == [] then 0 else (if s[0] == c then 1 else 0) + CountChar(s[1..], c)
  }

  lemma {:induction false} CountCharAppend(a: string, b: string, c: char)
    ensures CountChar(a + b, c) == CountChar(a, c) + CountChar(b, c)
  {
    if a != [] {
      CountCharAppend(a[1..], b, c);
      assert (a + b)[1..] == a[1..] + b;
    } else {
      assert a + b == b;
    }
  }

  /** The placeholder list for a collection of size n holds exactly n question marks. */
  lemma {:induction false} PlaceholderCount(n: nat)
    ensures CountChar(Placeholders(n), '?') == n
  {
    QuestionMarkCount(n);
    CountCharAppend("(" + QuestionMarks(n), ")", '?');
    CountCharAppend("(", QuestionMarks(n), '?');
  }

  lemma {:induction false} QuestionMarkCount(n: nat)
    ensures CountChar(QuestionMarks(n), '?') == n
  {
    if n > 1 {
      QuestionMarkCount(n - 1);
      CountCharAppend("?, ", QuestionMarks(n - 1), '?');
    }
  }

  /** The placeholder text for a value: one per element of a list or set, else one. */
  function PlaceholdersFor(v: Value): string
  {
    if v.VList? then Placeholders(|v.items|)
    else if v.VSet? then Placeholders(|v.elems|)
    else "?"
  }

  type Sql = (string, seq<Value>)

  /** Rendering a predicate as a SQL template and its bindings. A leaf with a
      value-requiring operator binds the record's field value (not the operand). */
  function ToSql(p: Predicate, rec: Record): (r: Result<Sql, ConditionError>)
    ensures r.Err? ==> r.error == UnsupportedField || (r.error.MissingField? && r.error.name !in rec)
    ensures r.Ok? ==> |r.value.1| == ValueLeaves(p)
    ensures r.Ok? ==> forall i :: 0 <= i < |r.value.1| ==> r.value.1[i] in rec.Values
  {
    match p
    case Constant(b) => Ok((if b then "1=1" else "1=0", []))
    case Leaf(field, op, operand) =>
      if !field.Name? then Err(UnsupportedField)
      else if HasValue(op) then
        var v :- Resolve(field, rec);
        Ok((field.name + " " + SqlToken(op) + " " + PlaceholdersFor(v), [v]))
      else Ok((field.name + " " + SqlToken(op), []))
    case Group(left, c, right) =>
      var l :- ToSql(left, rec);
      var r :- if right.Some? then ToSql(right.value, rec)
               else Ok((if c == And then "1=1" else "1=0", []));
      Ok(("(" + l.0 + ") " + ConjunctionText(c) + " (" + r.0 + ")", l.1 + r.1))
  }

  /** The leaves that contribute a binding to the SQL rendering. */
  function ValueLeaves(p: Predicate): nat
  {
    match p
    case Constant(_) => 0
    case Leaf(_, op, _) => if HasValue(op) then 1 else 0
    case Group(left, _, right) => ValueLeaves(left) + (if right.Some? then ValueLeaves(right.value) else 0)
  }

  /** Every leaf is named, and every value-requiring leaf names a field of the record. */
  predicate Renderable(p: Predicate, rec: Record)
  {
    match p
    case Constant(_) => true
    case Leaf(field, op, _) => field.Name? && (HasValue(op) ==> field.name in rec)
    case Group(left, _, right) => Renderable(left, rec) && (right.Some? ==> Renderable(right.value, rec))
  }

  /** Rendering succeeds exactly for renderable predicates. */
  lemma {:induction false} ToSqlShape(p: Predicate, rec: Record)
    ensures ToSql(p, rec).Ok? <==> Renderable(p, rec)
  {
    match p
    case Constant(_) =>
    case Leaf(_, _, _) =>
    case Group(left, c, right) =>
      ToSqlShape(left, rec);
      if right.Some? {
        ToSqlShape(right.value, rec);
      }
  }

  /** The same tree with every operand replaced by None. */
  function EraseOperands(p: Predicate): Predicate
  {
    match p
    case Constant(b) => Constant(b)
    case Leaf(field, op, _) => Leaf(field, op, VNone)
    case Group(left, c, right) =>
      Group(EraseOperands(left), c, if right.Some? then Some(EraseOperands(right.value)) else None)
  }

  /** The rendering never looks at an operand: the bindings are the record's
      field values, so erasing every operand changes nothing. */
  lemma {:induction false} ToSqlIgnoresOperands(p: Predicate, rec: Record)
    ensures ToSql(EraseOperands(p), rec) == ToSql(p, rec)
  {
    match p
    case Constant(_) =>
    case Leaf(_, _, _) =>
    case Group(left, c, right) =>
      ToSqlIgnoresOperands(left, rec);
      if right.Some? {
        ToSqlIgnoresOperands(right.value, rec);
      }
  }

  /** A group renders as "(L) CONJ (R)" with the left bindings before the right ones;
      a missing right side renders as 1=1 under AND and 1=0 under OR. */
  lemma GroupRendering(left: Predicate, c: Conjunction, right: Option<Predicate>, rec: Record)
    requires ToSql(left, rec).Ok?
    requires right.Some? ==> ToSql(right.value, rec).Ok?
    ensures var l := ToSql(left, rec).value;
      var r := if right.Some? then ToSql(right.value, rec).value
               else (if c == And then "1=1" else "1=0", []);
      ToSql(Group(left, c, right), rec) ==
        Ok(("(" + l.0 + ") " + ConjunctionText(c) + " (" + r.0 + ")", l.1 + r.1))
  {
  }

  /** A constant evaluates to its flag and renders as 1=1 or 1=0 with no bindings. */
  lemma ConstantSemantics(b: bool, rec: Record)
    ensures Evaluate(Constant(b), rec) == Ok(b)
    ensures ToSql(Constant(b), rec) == Ok((if b then "1=1" else "1=0", []))
  {
  }

  /** A leaf reading through a function cannot be rendered; a named leaf with
      a value-requiring operator binds the record's value, with one placeholder
      per element of a collection (see `PlaceholderCount`), and a value-free
      operator binds nothing. */
  lemma LeafRendering(n: string, get: Record -> Result<Value, string>, op: Operator, operand: Value, rec: Record)
    ensures ToSql(Leaf(Getter(get), op, operand), rec) == Err(UnsupportedField)
    ensures HasValue(op) && n !in rec ==> ToSql(Leaf(Name(n), op, operand), rec) == Err(MissingField(n))
    ensures HasValue(op) && n in rec ==>
      ToSql(Leaf(Name(n), op, operand), rec) == Ok((n + " " + SqlToken(op) + " " + PlaceholdersFor(rec[n]), [rec[n]]))
    ensures !HasValue(op) ==> ToSql(Leaf(Name(n), op, operand), rec) == Ok((n + " " + SqlToken(op), []))
  {
  }

  lemma LeafRenderingExample(rec: Record)
    requires rec == map["age" := VInt(25), "country" := VStr("USA"), "status" := VStr("active")]
    ensures ToSql(Leaf(Name("age"), Gt, VInt(18)), rec) == Ok(("age > ?", [VInt(25)]))
    ensures ToSql(Leaf(Name("country"), Eq, VStr("USA")), rec) == Ok(("country = ?", [VStr("USA")]))
  {
    assert HasValue(Gt) && HasValue(Eq);
    assert SqlToken(Gt) == ">" && SqlToken(Eq) == "=";
    assert PlaceholdersFor(VInt(25)) == "?" && PlaceholdersFor(VStr("USA")) == "?";
    assert "age" + " " + ">" + " " + "?" == "age > ?";
    assert "country" + " " + "=" + " " + "?" == "country = ?";
  }

  /** `age > 18 AND country = 'USA'` against a record with age 25 renders
      "(age > ?) AND (country = ?)" and binds the record's 25 and "USA", not the operand 18. */
  lemma RenderingExample()
    ensures var p := AndWith(Leaf(Name("age"), Gt, VInt(18)), Leaf(Name("country"), Eq, VStr("USA")));
      var rec := map["age" := VInt(25), "country" := VStr("USA"), "status" := VStr("active")];
      ToSql(p, rec) == Ok(("(age > ?) AND (country = ?)", [VInt(25), VStr("USA")]))
  {
    var rec := map["age" := VInt(25), "country" := VStr("USA"), "status" := VStr("active")];
    LeafRenderingExample(rec);
    assert "(" + "age > ?" == "(age > ?";
    assert "(age > ?" + ") " == "(age > ?) ";
    assert "(age > ?) " + "AND" == "(age > ?) AND";
    assert "(age > ?) AND" + " (" == "(age > ?) AND (";
    assert "(age > ?) AND (" + "country = ?" == "(age > ?) AND (country = ?";
    assert "(age > ?) AND (country = ?" + ")" == "(age > ?) AND (country = ?)";
    GroupRendering(Leaf(Name("age"), Gt, VInt(18)), And, Some(Leaf(Name("country"), Eq, VStr("USA"))), rec);
    assert [VInt(25)] + [VStr("USA")] == [VInt(25), VStr("USA")];
  }

  function Person(age: int, country: string, status: string): Record
  {
    map["age" := VInt(age), "country" := VStr(country), "status" := VStr(status)]
  }

  const AgeOver18 := Leaf(Name("age"), Gt, VInt(18))
  const InUsa := Leaf(Name("country"), Eq, VStr("USA"))
  const ActiveOrPending := Leaf(Name("status"), In, VSet({VStr("active"), VStr("pending")}))
  const AgeUnder30 := Leaf(Getter((u: Record) => if "age" in u then Ok(u["age"]) else Err("AttributeError")), Lt, VInt(30))

  /** `age > 18 & country == "USA" | status IN {"active", "pending"} & (lambda u: u.age) < 30`. */
  function ExampleGroup(): Predicate
  {
    OrWith(AndWith(AgeOver18, InUsa), AndWith(ActiveOrPending, AgeUnder30))
  }

  /** The module's example usage: the three people evaluate to True, False and True. */
  lemma ExampleUsage()
    ensures Evaluate(ExampleGroup(), Person(25, "USA", "active")) == Ok(true)
    ensures Evaluate(ExampleGroup(), Person(15, "Canada", "inactive")) == Ok(false)
    ensures Evaluate(ExampleGroup(), Person(29, "Canada", "pending")) == Ok(true)
  {
    ExampleAdultInUsa();
    ExampleMinorInactive();
    ExamplePendingUnder30();
  }

  lemma ExampleAdultInUsa()
    ensures Evaluate(ExampleGroup(), Person(25, "USA", "active")) == Ok(true)
  {
    var rec := Person(25, "USA", "active");
    assert Evaluate(AgeOver18, rec) == Ok(true);
    assert Evaluate(InUsa, rec) == Ok(true);
    assert Evaluate(ActiveOrPending, rec) == Ok(true) by {
      assert PyEq(VStr("active"), VStr("active"));
    }
    assert Evaluate(AgeUnder30, rec) == Ok(true);
    AndSemantics(AgeOver18, InUsa, rec);
    AndSemantics(ActiveOrPending, AgeUnder30, rec);
    OrSemantics(AndWith(AgeOver18, InUsa), AndWith(ActiveOrPending, AgeUnder30), rec);
  }

  lemma ExampleMinorInactive()
    ensures Evaluate(ExampleGroup(), Person(15, "Canada", "inactive")) == Ok(false)
  {
    var rec := Person(15, "Canada", "inactive");
    assert Evaluate(AgeOver18, rec) == Ok(false);
    assert Evaluate(InUsa, rec) == Ok(false) by {
      assert !PyEq(VStr("Canada"), VStr("USA"));
    }
    assert Evaluate(ActiveOrPending, rec) == Ok(false) by {
      assert forall e | e in {VStr("active"), VStr("pending")} :: !PyEq(VStr("inactive"), e);
    }
    assert Evaluate(AgeUnder30, rec) == Ok(true);
    AndSemantics(AgeOver18, InUsa, rec);
    AndSemantics(ActiveOrPending, AgeUnder30, rec);
    OrSemantics(AndWith(AgeOver18, InUsa), AndWith(ActiveOrPending, AgeUnder30), rec);
  }

  /** `lambda u: u.age` raises AttributeError on a record without an age; the
      example group meets the named `age` leaf first and fails on that. */
  lemma ExampleMissingAge()
    ensures Evaluate(AgeUnder30, map["status" := VStr("active")]) == Err(AccessorRaised("AttributeError"))
    ensures Evaluate(ExampleGroup(), map["country" := VStr("USA"), "status" := VStr("active")]) == Err(MissingField("age"))
  {
  }

  lemma ExamplePendingUnder30()
    ensures Evaluate(ExampleGroup(), Person(29, "Canada", "pending")) == Ok(true)
  {
    var rec := Person(29, "Canada", "pending");
    assert Evaluate(AgeOver18, rec) == Ok(true);
    assert Evaluate(InUsa, rec) == Ok(false) by {
      assert !PyEq(VStr("Canada"), VStr("USA"));
    }
    assert Evaluate(ActiveOrPending, rec) == Ok(true) by {
      assert PyEq(VStr("pending"), VStr("pending"));
    }
    assert Evaluate(AgeUnder30, rec) == Ok(true);
    AndSemantics(AgeOver18, InUsa, rec);
    AndSemantics(ActiveOrPending, AgeUnder30, rec);
    OrSemantics(AndWith(AgeOver18, InUsa), AndWith(ActiveOrPending, AgeUnder30), rec);
  }
}
