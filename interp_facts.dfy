/** What interpret and evaluateExpression promise, for all statements, expressions and
  * oracles. */
module InterpFacts {
  import opened Ast
  import opened Interp

  /** A statement leaves every variable but its target as it was, and binds nothing else. */
  lemma StepFrame<N>(ctx: Context<N>, s: State<N>, n: Node, k: string)
    requires Step(ctx, s, n).Continue? && k !in Target(n)
    ensures var after := Step(ctx, s, n).state.variables;
      (k in after <==> k in s.variables) && (k in s.variables ==> after[k] == s.variables[k])
  {
  }

  /** Text, print and query statements, and every other statement without a target, leave
    * the variables as they were. */
  lemma StepKeepsVariables<N>(ctx: Context<N>, s: State<N>, n: Node)
    requires Step(ctx, s, n).Continue? && Target(n) == {}
    ensures Step(ctx, s, n).state.variables == s.variables
  {
  }

  /** A statement only appends to the output; only text, print and query statements
    * write anything. */
  lemma StepAppends<N>(ctx: Context<N>, s: State<N>, n: Node)
    requires Step(ctx, s, n).Continue?
    ensures s.output <= Step(ctx, s, n).state.output
    ensures !(n.Text? || n.Print? || n.DbQuery?) ==> Step(ctx, s, n).state.output == s.output
  {
  }

  /** The variables a statement list may bind. */
  function Targets(nodes: seq<Node>): set<string>
    decreases |nodes|
  {
    if nodes == [] then {} else Target(nodes[0]) + Targets(nodes[1..])
  }

  /** A variable no statement binds keeps its binding, or its absence, through a run. */
  lemma {:induction false} RunFrame<N>(ctx: Context<N>, s: State<N>, nodes: seq<Node>, k: string)
    requires k !in Targets(nodes)
    ensures var after := RunFrom(ctx, s, nodes).state.variables;
      (k in after <==> k in s.variables) && (k in s.variables ==> after[k] == s.variables[k])
    decreases |nodes|
  {
    if nodes != [] && Step(ctx, s, nodes[0]).Continue? {
      StepFrame(ctx, s, nodes[0], k);
      RunFrame(ctx, Step(ctx, s, nodes[0]).state, nodes[1..], k);
    }
  }

  /** The output of a run starts with the output it started from. */
  lemma {:induction false} RunAppends<N>(ctx: Context<N>, s: State<N>, nodes: seq<Node>)
    ensures s.output <= RunFrom(ctx, s, nodes).state.output
    decreases |nodes|
  {
    if nodes != [] && Step(ctx, s, nodes[0]).Continue? {
      StepAppends(ctx, s, nodes[0]);
      RunAppends(ctx, Step(ctx, s, nodes[0]).state, nodes[1..]);
    }
  }

  /** Running two statement lists one after the other is running their concatenation;
    * an abort in the first skips the second. */
  lemma {:induction false} RunConcat<N>(ctx: Context<N>, s: State<N>, a: seq<Node>, b: seq<Node>)
    ensures RunFrom(ctx, s, a + b)
         == (var r := RunFrom(ctx, s, a); if r.aborted then r else RunFrom(ctx, r.state, b))
    decreases |a|
  {
    if a == [] {
      assert a + b == b;
    } else {
      assert (a + b)[0] == a[0] && (a + b)[1..] == a[1..] + b;
      if Step(ctx, s, a[0]).Continue? {
        RunConcat(ctx, Step(ctx, s, a[0]).state, a[1..], b);
      }
    }
  }

  /** The variables an expression reads. */
  function FreeVariables(e: Node): set<string> {
    match e
    case Variable(x) => {x}
    case Binary(l, _, r) => FreeVariables(l) + FreeVariables(r)
    case _ => {}
  }

  /** Two environments that agree on the variables an expression reads give it the same
    * value. */
  lemma {:induction false} EvaluateLocal<N>(nums: Numerics<N>, v1: Env<N>, v2: Env<N>, e: Node)
    requires forall x | x in FreeVariables(e) :: (x in v1 <==> x in v2) && (x in v1 ==> v1[x] == v2[x])
    ensures Evaluate(nums, v1, e) == Evaluate(nums, v2, e)
  {
    match e
    case Binary(l, _, r) =>
      EvaluateLocal(nums, v1, v2, l);
      EvaluateLocal(nums, v1, v2, r);
    case _ =>
  }

  /** Expressions built from leaves, non-empty string literals and `.`: no std::stod, no
    * substr on an empty lexeme. */
  predicate NoArithmetic(e: Node) {
    match e
    case Binary(l, op, r) => !IsArithmetic(op) && NoArithmetic(l) && NoArithmetic(r)
    case Str(v) => |v| > 0
    case _ => true
  }

  /** Such expressions never throw, whatever the variables and the number oracle. */
  lemma {:induction false} NoArithmeticEvaluates<N>(nums: Numerics<N>, vars: Env<N>, e: Node)
    requires NoArithmetic(e)
    ensures Evaluate(nums, vars, e).Ok?
  {
    match e
    case Binary(l, _, r) =>
      NoArithmeticEvaluates(nums, vars, l);
      NoArithmeticEvaluates(nums, vars, r);
    case _ =>
  }

  /** An arithmetic operator whose operand the number parser rejects, as Invalid or as
    * out of range, makes the whole expression throw. */
  lemma RejectedOperandAborts<N>(nums: Numerics<N>, vars: Env<N>, l: Node, op: string, r: Node)
    requires IsArithmetic(op)
    requires var a, b := Evaluate(nums, vars, l), Evaluate(nums, vars, r);
      a.Ok? && b.Ok? && (!nums.parse(a.value).Numeric? || !nums.parse(b.value).Numeric?)
    ensures Evaluate(nums, vars, Binary(l, op, r)) == Abort
  {
  }

  /** A string literal evaluates to the text between its quotes. */
  lemma QuotedLiteral<N>(nums: Numerics<N>, vars: Env<N>, w: string)
    ensures Evaluate(nums, vars, Str("\"" + w + "\"")) == Ok(w)
  {
    var v := "\"" + w + "\"";
    assert v[1..|v| - 1] == w;
  }

  /** `.` is associative on values: grouping does not change a concatenation. */
  lemma ConcatAssociative<N>(nums: Numerics<N>, vars: Env<N>, a: Node, b: Node, c: Node)
    ensures Evaluate(nums, vars, Binary(Binary(a, ".", b), ".", c)) == Evaluate(nums, vars, Binary(a, ".", Binary(b, ".", c)))
  {
    var x, y, z := Evaluate(nums, vars, a), Evaluate(nums, vars, b), Evaluate(nums, vars, c);
    var ab, bc := Binary(a, ".", b), Binary(b, ".", c);
    if x.Ok? && y.Ok? && z.Ok? {
      ConcatStrings(nums, vars, a, b);
      ConcatStrings(nums, vars, b, c);
      ConcatStrings(nums, vars, ab, c);
      ConcatStrings(nums, vars, a, bc);
      assert x.value + y.value + z.value == x.value + (y.value + z.value);
    } else {
      OperandAborts(nums, vars, a, ".", b);
      OperandAborts(nums, vars, b, ".", c);
      OperandAborts(nums, vars, ab, ".", c);
      OperandAborts(nums, vars, a, ".", bc);
    }
  }

  /** Whatever the operator, an operand that throws makes the expression throw. */
  lemma OperandAborts<N>(nums: Numerics<N>, vars: Env<N>, l: Node, op: string, r: Node)
    ensures Evaluate(nums, vars, l).Abort? || Evaluate(nums, vars, r).Abort? ==> Evaluate(nums, vars, Binary(l, op, r)) == Abort
  {
  }

  /** An http statement binds its variable to the command's output, as a string, and the
    * request type takes no part in it. */
  lemma HttpBinds<N>(ctx: Context<N>, s: State<N>, v: string, url: string, data: string, header: string, t1: string, t2: string)
    ensures var n1 := HttpRequestAssign(v, url, data, header, t1);
      && Step(ctx, s, n1) == Step(ctx, s, HttpRequestAssign(v, url, data, header, t2))
      && Step(ctx, s, n1).Continue?
      && Evaluate(ctx.nums, Step(ctx, s, n1).state.variables, Variable(v)) == Ok(ctx.exec(HttpCommand(url, data, header)))
  {
  }

  /** After an assignment the variable reads back as the number the parser produced,
    * formatted, or as the evaluated string when it is not a number; a value out of range
    * leaves every variable as it was. */
  lemma AssignmentReads<N>(ctx: Context<N>, s: State<N>, x: string, e: Node)
    requires Evaluate(ctx.nums, s.variables, e).Ok?
    ensures var v := Evaluate(ctx.nums, s.variables, e).value;
      var after := Step(ctx, s, Assignment(x, e));
      && after.Continue? && after.state.output == s.output
      && (ctx.nums.parse(v).OutOfRange? ==> after.state == s)
      && (ctx.nums.parse(v).Invalid? ==> Evaluate(ctx.nums, after.state.variables, Variable(x)) == Ok(v))
      && (ctx.nums.parse(v).Numeric? ==>
            Evaluate(ctx.nums, after.state.variables, Variable(x)) == Ok(ctx.nums.format(ctx.nums.parse(v).n)))
  {
  }

  /** A statement throws exactly when it evaluates an expression that throws; the run then
    * stops with the state before that statement. */
  lemma StepAborts<N>(ctx: Context<N>, s: State<N>, n: Node)
    ensures Step(ctx, s, n).Aborted?
        <==> ((n.Print? || n.Assignment?) && Evaluate(ctx.nums, s.variables, n.expr).Abort?)
  {
  }

  /** A number literal is its raw lexeme; an unbound variable and the null node read as
    * "0". */
  lemma LeafValues<N>(nums: Numerics<N>, vars: Env<N>, w: string, x: string)
    ensures Evaluate(nums, vars, Num(w)) == Ok(w)
    ensures x !in vars ==> Evaluate(nums, vars, Variable(x)) == Ok("0")
    ensures Evaluate(nums, vars, Hole) == Ok("0")
  {
  }

  /** `.` is the plain concatenation of its operands' strings, numeric or not. */
  lemma ConcatStrings<N>(nums: Numerics<N>, vars: Env<N>, l: Node, r: Node)
    requires Evaluate(nums, vars, l).Ok? && Evaluate(nums, vars, r).Ok?
    ensures Evaluate(nums, vars, Binary(l, ".", r)) == Ok(Evaluate(nums, vars, l).value + Evaluate(nums, vars, r).value)
  {
    assert !IsArithmetic(".");
  }
}
