/** The evaluator (`Interpreter`, `SymbolTable`, `RTResult`): a syntax tree is
    reduced to a number against a table of ingredients, threading the table
    through assignments from left to right. */
module Interpreter {
  import opened Wrappers
  import opened Errors
  import opened Tokens
  import opened Nodes
  import opened Values

  /** A flat table from ingredient names to their numbers. */
  type SymbolTable = map<string, Number>

  /** `SymbolTable.get`: any stored number is found, zero included. */
  function Get(table: SymbolTable, name: string): (found: Option<Number>)
    ensures found.Some? <==> name in table
    ensures found.Some? ==> found.value == table[name]
  {
    if name in table then Some(table[name]) else None
  }

  /** What a visit returns (`RTResult`), with the table as it stands afterwards. */
  datatype Outcome = Outcome(result: Result<Number, Error>, table: SymbolTable)

  /** The payload of a number token. */
  function Literal(k: TokenKind): Num
    requires k.INT? || k.FLOAT?
  {
    if k.INT? then Int(k.intValue) else Float(k.floatValue)
  }

  function NotDefined(name: string): string
  {
    "'" + name + "' is not defined"
  }

  /** The names a tree assigns to. */
  function Assigned(n: Node): set<string>
  {
    match n
    case NumberNode(_) => {}
    case IngredientAccessNode(_) => {}
    case IngredientAssignNode(t, v) => (if t.kind.INGREDIENT? then {t.kind.name} else {}) + Assigned(v)
    case BinOpNode(l, _, r) => Assigned(l) + Assigned(r)
  }

  /** The expression an assignment chain finally evaluates; its span is the result's span. */
  function Rhs(n: Node): Node
  {
    if n.IngredientAssignNode? then Rhs(n.value) else n
  }

  /** The arithmetic of a binary operator token. */
  function Apply(op: TokenKind, a: Number, b: Number): Result<Number, Error>
    requires IsOperator(op)
  {
    match op
    case PLUS => Success(AddedTo(a, b))
    case MINUS => Success(SubbedBy(a, b))
    case MUL => Success(MultedBy(a, b))
    case DIV => DivedBy(a, b)
  }

  /** `visit`: the evaluation of one node. A successful result is spanned by
      the evaluated expression (an assignment passes its value through); the
      table changes only at the names the tree assigns, and never loses one. */
  function Eval(n: Node, table: SymbolTable): (o: Outcome)
    requires WellFormed(n)
    ensures o.result.Success? ==> o.result.value.start == Some(Start(Rhs(n))) && o.result.value.end == Some(End(Rhs(n)))
    ensures o.result.Failure? ==> o.result.error.kind == RuntimeError
    ensures forall x :: x in o.table ==> x in table || x in Assigned(n)
    ensures forall x :: x in table && x !in Assigned(n) ==> x in o.table && o.table[x] == table[x]
    ensures forall x :: x in table ==> x in o.table
  {
    match n
    case NumberNode(t) =>
      Outcome(Success(Number(Literal(t.kind), Some(Start(n)), Some(End(n)))), table)
    case IngredientAccessNode(t) =>
      var name := t.kind.name;
      var found := Get(table, name);
      if found.None? then Outcome(Failure(Error(RuntimeError, Some(Start(n)), Some(End(n)), NotDefined(name))), table)
      else Outcome(Success(SetPos(found.value, Some(Start(n)), Some(End(n)))), table)
    case IngredientAssignNode(t, v) =>
      var o := Eval(v, table);
      if o.result.Failure? then o
      else Outcome(o.result, o.table[t.kind.name := o.result.value])
    case BinOpNode(l, op, r) =>
      var lo := Eval(l, table);
      if lo.result.Failure? then lo
      else
        var ro := Eval(r, lo.table);
        if ro.result.Failure? then ro
        else
          var applied := Apply(op.kind, lo.result.value, ro.result.value);
          if applied.Failure? then Outcome(Failure(applied.error), ro.table)
          else Outcome(Success(SetPos(applied.value, Some(Start(n)), Some(End(n)))), ro.table)
  }
}
