/** The tree-walking interpreter (interpret.h, interpret.cpp). Numbers and the external
  * command runner are parameters: std::stod, std::to_string and double arithmetic become
  * the fields of a Numerics value, and exec becomes a function from the command line to
  * the text the command prints. */
module Interp {
  import opened Ast

  /** The three outcomes of std::stod on a string. */
  datatype NumParse<N> = Numeric(n: N) | Invalid | OutOfRange

  /** Parsing, formatting and arithmetic of the number type N. */
  datatype Numerics<!N> = Numerics(
    parse: string -> NumParse<N>,
    format: N -> string,
    add: (N, N) -> N,
    sub: (N, N) -> N,
    mul: (N, N) -> N,
    div: (N, N) -> N)

  /** VariableValue: a number or a string, never both. */
  datatype Value<N> = NumberValue(n: N) | StringValue(s: string)

  type Env<N> = map<string, Value<N>>

  /** The string an expression evaluates to, or Abort where evaluateExpression throws. */
  datatype Evaluation = Ok(value: string) | Abort

  predicate IsArithmetic(op: string) { op == "+" || op == "-" || op == "*" || op == "/" }

  function Apply<N>(nums: Numerics<N>, op: string, a: N, b: N): N
    requires IsArithmetic(op)
  {
    if op == "+" then nums.add(a, b)
    else if op == "-" then nums.sub(a, b)
    else if op == "*" then nums.mul(a, b)
    else nums.div(a, b)
  }

  /** `+ - * /`: both operands go through std::stod, whose exceptions are not caught. */
  function Arithmetic<N>(nums: Numerics<N>, op: string, left: string, right: string): (r: Evaluation)
    requires IsArithmetic(op)
    ensures r.Ok? <==> nums.parse(left).Numeric? && nums.parse(right).Numeric?
  {
    match (nums.parse(left), nums.parse(right))
    case (Numeric(a), Numeric(b)) => Ok(nums.format(Apply(nums, op, a, b)))
    case _ => Abort
  }

  /** std::string::substr(1, length - 2) on a string literal's lexeme: it throws on the
    * empty string, the length wraps around for a single character, and otherwise the
    * two quotes are removed. */
  function Unquote(v: string): (r: Evaluation)
    ensures r.Ok? <==> |v| > 0
    ensures |v| == 1 ==> r == Ok("")
    ensures |v| >= 2 ==> r == Ok(v[1..|v| - 1])
  {
    if |v| == 0 then Abort else if |v| == 1 then Ok("") else Ok(v[1..|v| - 1])
  }

  /** evaluateExpression: the node's string, given the variables. */
  function Evaluate<N>(nums: Numerics<N>, vars: Env<N>, e: Node): Evaluation {
    match e
    case Text(t) => Ok(t)
    case Variable(x) =>
      if x !in vars then Ok("0")
      else (match vars[x] case NumberValue(n) => Ok(nums.format(n)) case StringValue(s) => Ok(s))
    case Binary(l, op, r) =>
      var left := Evaluate(nums, vars, l);
      var right := Evaluate(nums, vars, r);
      if left.Abort? || right.Abort? then Abort
      else if IsArithmetic(op) then Arithmetic(nums, op, left.value, right.value)
      else if op == "." then Ok(left.value + right.value)
      else Ok("0")
    case Str(v) => Unquote(v)
    case Num(v) => Ok(v)
    case _ => Ok("0")
  }

  /** The command a database query runs. */
  function DbCommand(query: string): string {
    "echo \"Database query: " + query + "\""
  }

  /** The command an http statement runs; the request type takes no part in it. */
  function HttpCommand(url: string, data: string, header: string): string {
    "curl -X GET " + "--data \"" + data + "\" " + "-H \"" + header + "\" " + url
  }

  /** The oracles the interpreter runs against. */
  datatype Context<!N> = Context(nums: Numerics<N>, exec: string -> string)

  /** The variables and the text written to standard output so far. */
  datatype State<N> = State(variables: Env<N>, output: string)

  datatype Outcome<N> = Continue(state: State<N>) | Aborted

  /** The variable a statement may bind, if any. */
  function Target(n: Node): set<string> {
    match n
    case HttpRequestAssign(v, _, _, _, _) => {v}
    case Assignment(x, _) => {x}
    case _ => {}
  }

  /** One pass of the loop of interpret. */
  function Step<N>(ctx: Context<N>, s: State<N>, n: Node): Outcome<N> {
    match n
    case Text(t) => Continue(State(s.variables, s.output + t))
    case Print(e) =>
      var v := Evaluate(ctx.nums, s.variables, e);
      if v.Abort? then Aborted else Continue(State(s.variables, s.output + v.value + "\n"))
    case DbQuery(q) => Continue(State(s.variables, s.output + ctx.exec(DbCommand(q)) + "\n"))
    case HttpRequestAssign(v, url, data, header, _) =>
      Continue(State(s.variables[v := StringValue(ctx.exec(HttpCommand(url, data, header)))], s.output))
    case Assignment(x, e) =>
      var v := Evaluate(ctx.nums, s.variables, e);
      if v.Abort? then Aborted
      else (match ctx.nums.parse(v.value)
        case Numeric(n) => Continue(State(s.variables[x := NumberValue(n)], s.output))
        case Invalid => Continue(State(s.variables[x := StringValue(v.value)], s.output))
        case OutOfRange => Continue(s))
    case _ => Continue(s)
  }

  /** The state interpret ends in, and whether an exception ended it early. */
  datatype Run<N> = Run(state: State<N>, aborted: bool)

  /** interpret: the statements in order, stopping at the first one that throws. */
  function RunFrom<N>(ctx: Context<N>, s: State<N>, nodes: seq<Node>): Run<N>
    decreases |nodes|
  {
    if nodes == [] then Run(s, false)
    else match Step(ctx, s, nodes[0])
      case Aborted => Run(s, true)
      case Continue(next) => RunFrom(ctx, next, nodes[1..])
  }

  /** The interpreter object: its only state is the variables map. */
  class Interpreter<N> {
    const context: Context<N>
    var variables: Env<N>

    /** Each interpreter starts with no variables. */
    constructor (context: Context<N>)
      ensures this.context == context && variables == map[]
    {
      this.context := context;
      variables := map[];
    }

    /** interpret: runs the statements in order, appending to the output and updating
      * the variables; aborted is set when a statement throws, and the statements after
      * it are not run. */
    method Interpret(nodes: seq<Node>) returns (output: string, aborted: bool)
      modifies this`variables
      ensures RunFrom(context, State(old(variables), ""), nodes) == Run(State(variables, output), aborted)
    {
      output := "";
      aborted := false;
      var i := 0;
      while i < |nodes|
        invariant i <= |nodes|
        invariant RunFrom(context, State(old(variables), ""), nodes) == RunFrom(context, State(variables, output), nodes[i..])
      {
        assert nodes[i..][1..] == nodes[i + 1..];
        match nodes[i] {
          case Text(t) =>
            output := output + t;
          case Print(e) =>
            var v := Evaluate(context.nums, variables, e);
            if v.Abort? {
              aborted := true;
              return;
            }
            output := output + v.value + "\n";
          case DbQuery(q) =>
            var result := context.exec(DbCommand(q));
            output := output + result + "\n";
          case HttpRequestAssign(name, url, data, header, _) =>
            var result := context.exec(HttpCommand(url, data, header));
            variables := variables[name := StringValue(result)];
          case Assignment(x, e) =>
            var v := Evaluate(context.nums, variables, e);
            if v.Abort? {
              aborted := true;
              return;
            }
            match context.nums.parse(v.value) {
              case Numeric(n) => variables := variables[x := NumberValue(n)];
              case Invalid => variables := variables[x := StringValue(v.value)];
              case OutOfRange =>
            }
          case _ =>
        }
        i := i + 1;
      }
      assert nodes[i..] == [];
    }
  }
}
