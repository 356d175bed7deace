/** What the evaluator promises: the order in which operands are visited,
    which error is reported, how each operator treats ints and floats, and how
    the table changes. */
module InterpreterProperties {
  import opened Wrappers
  import opened Errors
  import opened Tokens
  import opened Nodes
  import opened Parser
  import opened ParserProperties
  import opened Values
  import opened Interpreter

  /** After a successful assignment the name reads back as the assigned payload. */
  lemma AssignThenRead(t: Token, v: Node, r: Token, table: SymbolTable)
    requires t.kind.INGREDIENT? && WellFormed(v) && r.kind == t.kind
    requires Eval(IngredientAssignNode(t, v), table).result.Success?
    ensures var o := Eval(IngredientAssignNode(t, v), table);
      var read := Eval(IngredientAccessNode(r), o.table);
      read.result.Success? && read.result.value.value == o.result.value.value
  {
  }

  /** The operators' arithmetic: `+ - *` keep ints as ints and compute the
      exact sum, difference or product; `/` yields the exact quotient as a
      float, or fails at the divisor's span when the divisor is zero. */
  lemma ApplyArithmetic(op: TokenKind, a: Number, b: Number)
    requires IsOperator(op)
    ensures var r := Apply(op, a, b);
      && (r.Failure? <==> op == DIV && AsReal(b.value) == 0.0)
      && (r.Failure? ==> r.error == Error(RuntimeError, b.start, b.end, "Division by zero"))
      && (r.Success? ==>
            && (r.value.value.Int? <==> op != DIV && a.value.Int? && b.value.Int?)
            && (op == PLUS ==> AsReal(r.value.value) == AsReal(a.value) + AsReal(b.value))
            && (op == MINUS ==> AsReal(r.value.value) == AsReal(a.value) - AsReal(b.value))
            && (op == MUL ==> AsReal(r.value.value) == AsReal(a.value) * AsReal(b.value))
            && (op == DIV ==> AsReal(r.value.value) * AsReal(b.value) == AsReal(a.value)))
  {
  }

  /** With both operands evaluated, the operation's arithmetic decides the
      outcome; a result is re-spanned by the whole operation, and a division
      by zero is reported at the divisor's expression. */
  lemma BinOpArithmetic(l: Node, op: Token, r: Node, table: SymbolTable)
    requires WellFormed(BinOpNode(l, op, r))
    requires Eval(l, table).result.Success?
    requires Eval(r, Eval(l, table).table).result.Success?
    ensures var lo := Eval(l, table);
      var ro := Eval(r, lo.table);
      var o := Eval(BinOpNode(l, op, r), table);
      var applied := Apply(op.kind, lo.result.value, ro.result.value);
      && o.table == ro.table
      && (o.result.Failure? <==> applied.Failure?)
      && (o.result.Failure? ==>
            o.result.error == Error(RuntimeError, Some(Start(Rhs(r))), Some(End(Rhs(r))), "Division by zero"))
      && (o.result.Success? ==>
            o.result.value == Number(applied.value.value, Some(Start(l)), Some(End(r))))
  {
    var lo := Eval(l, table);
    var ro := Eval(r, lo.table);
    ApplyArithmetic(op.kind, lo.result.value, ro.result.value);
  }

  /** An additive chain assigns nothing. */
  lemma {:induction false} LevelAssignsNothing(level: Level, n: Node)
    requires LevelShape(level, n)
    ensures Assigned(n) == {}
    decreases n, if level == Sum then 1 else 0
  {
    if n.BinOpNode? && IsLevelOp(level, n.opTok.kind) {
      LevelAssignsNothing(level, n.left);
      if level == Sum {
        LevelAssignsNothing(Product, n.right);
      }
    } else if level == Sum {
      LevelAssignsNothing(Product, n);
    }
  }

  /** A tree that assigns nothing leaves the table as it was. */
  lemma Unassigning(n: Node, table: SymbolTable)
    requires WellFormed(n) && Assigned(n) == {}
    ensures Eval(n, table).table == table
  {
    var o := Eval(n, table);
    assert o.table.Keys == table.Keys;
  }

  /** In a tree the parser can produce, assignments only nest as the value of
      another assignment, so a failed evaluation leaves the table untouched. */
  lemma {:induction false} FailureKeepsTable(n: Node, table: SymbolTable)
    requires ExprShape(n) && WellFormed(n)
    requires Eval(n, table).result.Failure?
    ensures Eval(n, table).table == table
  {
    if n.IngredientAssignNode? {
      FailureKeepsTable(n.value, table);
    } else {
      LevelAssignsNothing(Sum, n);
      Unassigning(n, table);
    }
  }

  // ---- the first error wins ----------------------------------------------

  /** The two things that can fail while a tree is visited: reading a name,
      and dividing by the value of a divisor expression. */
  datatype Event = ReadEvent(nameTok: Token) | DivisionEvent(divisor: Node)

  /** The events of a tree in the order `visit` meets them: the left operand's,
      then the right operand's, then the operation's own division; an
      assignment's value before its binding. */
  function Events(n: Node): seq<Event>
  {
    match n
    case NumberNode(_) => []
    case IngredientAccessNode(t) => [ReadEvent(t)]
    case IngredientAssignNode(_, v) => Events(v)
    case BinOpNode(l, op, r) => Events(l) + Events(r) + (if op.kind == DIV then [DivisionEvent(r)] else [])
  }

  /** A read fails when the table lacks the name; a division fails when its
      divisor evaluates to zero, int or float. */
  predicate Fails(e: Event, table: SymbolTable)
  {
    match e
    case ReadEvent(t) => t.kind.INGREDIENT? && t.kind.name !in table
    case DivisionEvent(d) =>
      && WellFormed(d)
      && var o := Eval(d, table);
      && o.result.Success?
      && AsReal(o.result.value.value) == 0.0
  }

  /** The error a failing event reports: "not defined" at the read, or
      "Division by zero" at the divisor's expression. */
  function EventError(e: Event): Error
    requires e.ReadEvent? ==> e.nameTok.kind.INGREDIENT?
  {
    match e
    case ReadEvent(t) => Error(RuntimeError, Some(t.start), Some(t.end), NotDefined(t.kind.name))
    case DivisionEvent(d) => Error(RuntimeError, Some(Start(Rhs(d))), Some(End(Rhs(d))), DivisionByZero)
  }

  /** The index of the first event that fails. */
  function FirstFailure(es: seq<Event>, table: SymbolTable): (u: Option<nat>)
    ensures u.Some? ==> u.value < |es| && Fails(es[u.value], table)
    ensures u.Some? ==> forall k :: 0 <= k < u.value ==> !Fails(es[k], table)
    ensures u.None? ==> forall k :: 0 <= k < |es| ==> !Fails(es[k], table)
  {
    if |es| == 0 then None
    else if Fails(es[0], table) then Some(0)
    else
      var rest := FirstFailure(es[1..], table);
      if rest.None? then None else Some(rest.value + 1)
  }

  /** The first failure of a concatenation is the first one of its left part,
      or else the first one of its right part, shifted. */
  lemma {:induction false} FirstFailureConcat(a: seq<Event>, b: seq<Event>, table: SymbolTable)
    ensures var ua := FirstFailure(a, table);
      var ub := FirstFailure(b, table);
      FirstFailure(a + b, table)
        == if ua.Some? then ua else if ub.Some? then Some(|a| + ub.value) else None
  {
    if |a| == 0 {
      assert a + b == b;
    } else {
      var ab := a + b;
      assert ab[0] == a[0];
      assert ab[1..] == a[1..] + b;
      if !Fails(a[0], table) {
        FirstFailureConcat(a[1..], b, table);
      }
    }
  }

  /** First error wins: the evaluation succeeds exactly when none of the
      tree's events fails, and otherwise reports the error of the first event
      that does, unchanged. */
  predicate FirstErrorWins(n: Node, table: SymbolTable)
    requires WellFormed(n)
  {
    var o := Eval(n, table);
    var es := Events(n);
    var u := FirstFailure(es, table);
    && (o.result.Success? <==> u.None?)
    && (u.Some? ==> o.result.error == EventError(es[u.value]))
  }

  /** In a tree that assigns nothing, every event sees the table as given, so
      the first failing event decides the outcome. */
  lemma {:induction false} AssignFreeFirstErrorWins(n: Node, table: SymbolTable)
    requires WellFormed(n) && Assigned(n) == {}
    ensures FirstErrorWins(n, table)
  {
    if n.BinOpNode? {
      AssignFreeFirstErrorWins(n.left, table);
      AssignFreeFirstErrorWins(n.right, table);
      Unassigning(n.left, table);
      OperationFirstError(n.left, n.opTok, n.right, table);
    } else if n.IngredientAccessNode? {
      assert [ReadEvent(n.nameTok)][1..] == [];
    }
  }

  /** The case of `AssignFreeFirstErrorWins` at an operation: the left
      operand's events come first, then the right operand's against the same
      table, then the division, whose divisor has by then evaluated. */
  lemma OperationFirstError(l: Node, op: Token, r: Node, table: SymbolTable)
    requires WellFormed(BinOpNode(l, op, r))
    requires FirstErrorWins(l, table) && FirstErrorWins(r, table)
    requires Eval(l, table).table == table
    ensures FirstErrorWins(BinOpNode(l, op, r), table)
  {
    var a, b := Events(l), Events(r);
    var c := if op.kind == DIV then [DivisionEvent(r)] else [];
    FirstFailureConcat(a, b, table);
    FirstFailureConcat(a + b, c, table);
    assert Events(BinOpNode(l, op, r)) == (a + b) + c;
    var lo := Eval(l, table);
    if lo.result.Success? {
      var ro := Eval(r, table);
      if ro.result.Success? {
        ApplyArithmetic(op.kind, lo.result.value, ro.result.value);
        if op.kind == DIV {
          assert c[0] == DivisionEvent(r) && [DivisionEvent(r)][1..] == [];
          assert ((a + b) + c)[|a + b|] == DivisionEvent(r);
        }
      } else {
        var k := FirstFailure(b, table).value;
        assert ((a + b) + c)[|a| + k] == b[k];
      }
    } else {
      var k := FirstFailure(a, table).value;
      assert ((a + b) + c)[k] == a[k];
    }
  }

  /** For the trees the parser builds, an assignment evaluates its value
      before it binds, so first error wins for every such tree: an unbound
      read reached before a zero divisor is the error, and the other way round. */
  lemma {:induction false} ParsedFirstErrorWins(n: Node, table: SymbolTable)
    requires ExprShape(n) && WellFormed(n)
    ensures FirstErrorWins(n, table)
  {
    if n.IngredientAssignNode? {
      ParsedFirstErrorWins(n.value, table);
    } else {
      LevelAssignsNothing(Sum, n);
      AssignFreeFirstErrorWins(n, table);
    }
  }
}
