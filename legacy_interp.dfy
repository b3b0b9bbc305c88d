/** The interpreter of the single-file variant (php.cpp): the canonical one without the
  * http branch. Its node types are those of the canonical syntax tree, and an http node,
  * which this parser never builds, would match none of its branches and do nothing. */
module LegacyInterp {
  import opened Ast
  import Interp

  /** One pass of the loop of interpret. */
  function Step<N>(ctx: Interp.Context<N>, s: Interp.State<N>, n: Node): Interp.Outcome<N> {
    if n.HttpRequestAssign? then Interp.Continue(s) else Interp.Step(ctx, s, n)
  }

  /** interpret: the statements in order, stopping at the first one that throws. */
  function RunFrom<N>(ctx: Interp.Context<N>, s: Interp.State<N>, nodes: seq<Node>): Interp.Run<N>
    decreases |nodes|
  {
    if nodes == [] then Interp.Run(s, false)
    else match Step(ctx, s, nodes[0])
      case Aborted => Interp.Run(s, true)
      case Continue(next) => RunFrom(ctx, next, nodes[1..])
  }

  /** On statements without an http statement the two interpreters agree. */
  lemma {:induction false} AgreesWithCanonical<N>(ctx: Interp.Context<N>, s: Interp.State<N>, nodes: seq<Node>)
    requires forall i | 0 <= i < |nodes| :: !nodes[i].HttpRequestAssign?
    ensures RunFrom(ctx, s, nodes) == Interp.RunFrom(ctx, s, nodes)
    decreases |nodes|
  {
    if nodes != [] {
      assert !nodes[0].HttpRequestAssign?;
      if Interp.Step(ctx, s, nodes[0]).Continue? {
        forall i | 0 <= i < |nodes[1..]| ensures !nodes[1..][i].HttpRequestAssign? {
          assert nodes[1..][i] == nodes[i + 1];
        }
        AgreesWithCanonical(ctx, Interp.Step(ctx, s, nodes[0]).state, nodes[1..]);
      }
    }
  }

  /** An http node in the list changes nothing: the run is that of the list without it. */
  lemma HttpIgnored<N>(ctx: Interp.Context<N>, s: Interp.State<N>, n: Node, rest: seq<Node>)
    requires n.HttpRequestAssign?
    ensures RunFrom(ctx, s, [n] + rest) == RunFrom(ctx, s, rest)
  {
    assert ([n] + rest)[1..] == rest;
  }

  /** The interpreter object: its only state is the variables map. */
  class Interpreter<N> {
    const context: Interp.Context<N>
    var variables: Interp.Env<N>

    /** Each interpreter starts with no variables. */
    constructor (context: Interp.Context<N>)
      ensures this.context == context && variables == map[]
    {
      this.context := context;
      variables := map[];
    }

    /** interpret: runs the statements in order, appending to the output and updating
      * the variables; aborted is set when a statement throws, and the statements after
      * it are not run. */
    method Interpret(nodes: seq<Node>) returns (output: string, aborted: bool)
      modifies this`variables
      ensures RunFrom(context, Interp.State(old(variables), ""), nodes) == Interp.Run(Interp.State(variables, output), aborted)
    {
      output := "";
      aborted := false;
      var i := 0;
      while i < |nodes|
        invariant i <= |nodes|
        invariant RunFrom(context, Interp.State(old(variables), ""), nodes) == RunFrom(context, Interp.State(variables, output), nodes[i..])
      {
        assert nodes[i..][1..] == nodes[i + 1..];
        match nodes[i] {
          case Text(t) =>
            output := output + t;
          case Print(e) =>
            var v := Interp.Evaluate(context.nums, variables, e);
            if v.Abort? {
              aborted := true;
              return;
            }
            output := output + v.value + "\n";
          case DbQuery(q) =>
            var result := context.exec(Interp.DbCommand(q));
            output := output + result + "\n";
          case Assignment(x, e) =>
            var v := Interp.Evaluate(context.nums, variables, e);
            if v.Abort? {
              aborted := true;
              return;
            }
            match context.nums.parse(v.value) {
              case Numeric(n) => variables := variables[x := Interp.NumberValue(n)];
              case Invalid => variables := variables[x := Interp.StringValue(v.value)];
              case OutOfRange =>
            }
          case _ =>
        }
        i := i + 1;
      }
      assert nodes[i..] == [];
    }
  }
}
