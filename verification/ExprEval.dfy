/** Evaluating expressions in an environment of named values. */
module ExprEval {
  import opened Options
  import opened ExprText
  import opened ExprParser

  predicate IsFalse(v: Value) {
    v == Boolean(false)
  }

  // ----- the functions an expression can call; operand 0 is the function itself -----

  method FunctionNot(operands: seq<Value>) returns (r: Value)
    ensures |operands| != 2 ==> r == Nothing
    ensures |operands| == 2 ==> r == Boolean(operands[1] == Boolean(false))
    ensures r == Apply(Not, operands)
  {
    if |operands| != 2 {
      return Nothing;
    }
    r := Boolean(operands[1].Boolean? && !operands[1].b);
  }

  /** False when an operand is, else the last operand. */
  method FunctionAnd(operands: seq<Value>) returns (r: Value)
    ensures r == Boolean(false) <==> exists i :: 0 < i < |operands| && operands[i] == Boolean(false)
    ensures r != Boolean(false) ==> r == if |operands| <= 1 then Boolean(true) else operands[|operands| - 1]
    ensures r == Apply(And, operands)
  {
    var n := |operands|;
    if n <= 1 {
      return Boolean(true);
    }
    for i := 0 to n
      invariant forall k :: 0 < k < i ==> !IsFalse(operands[k])
    {
      if i == 0 {
        continue;
      }
      if operands[i].Boolean? && !operands[i].b {
        assert IsFalse(operands[i]);
        return Boolean(false);
      }
    }
    r := operands[n - 1];
  }

  /** The first operand that is not false. */
  method FunctionOr(operands: seq<Value>) returns (r: Value)
    ensures r == Boolean(false) <==> forall i :: 0 < i < |operands| ==> operands[i] == Boolean(false)
    ensures r != Boolean(false) ==>
              exists i :: 0 < i < |operands| && r == operands[i] && forall k :: 0 < k < i ==>
                operands[k] == Boolean(false)
    ensures r == Apply(Or, operands)
  {
    for i := 0 to |operands|
      invariant forall k :: 0 < k < i ==> IsFalse(operands[k])
      invariant FirstTrue(operands, 1) == FirstTrue(operands, if i == 0 then 1 else i)
    {
      if i == 0 {
        continue;
      }
      if !operands[i].Boolean? || operands[i].b {
        return operands[i];
      }
    }
    r := Boolean(false);
  }

  /** All operands are equal. */
  method FunctionEqual(operands: seq<Value>) returns (r: Value)
    ensures r == Boolean(forall i, k :: 0 < i < |operands| && 0 < k < |operands| ==> operands[i] == operands[k])
    ensures r == Apply(Equal, operands)
  {
    for i := 0 to |operands|
      invariant forall k :: 0 < k < i ==> operands[k] == operands[1]
    {
      if i <= 1 {
        continue;
      }
      if operands[i - 1] != operands[i] {
        return Boolean(false);
      }
    }
    r := Boolean(true);
  }

  function FirstTrue(operands: seq<Value>, i: nat): Value
    decreases |operands| - i
  {
    if i >= |operands| then Boolean(false)
    else if !IsFalse(operands[i]) then operands[i]
    else FirstTrue(operands, i + 1)
  }

  function Apply(f: Builtin, operands: seq<Value>): Value {
    match f
    case Not => if |operands| != 2 then Nothing else Boolean(IsFalse(operands[1]))
    case And =>
      if exists i :: 0 < i < |operands| && IsFalse(operands[i]) then Boolean(false)
      else if |operands| <= 1 then Boolean(true)
      else operands[|operands| - 1]
    case Or => FirstTrue(operands, 1)
    case Equal => Boolean(forall i :: 0 < i < |operands| ==> operands[i] == operands[1])
  }

  method Call(f: Builtin, operands: seq<Value>) returns (r: Value)
    ensures r == Apply(f, operands)
  {
    match f
    case Not => r := FunctionNot(operands);
    case And => r := FunctionAnd(operands);
    case Or => r := FunctionOr(operands);
    case Equal => r := FunctionEqual(operands);
  }

  // ----- evaluation -----

  type Bindings = map<string, Value>

  function Eval(e: Expr, env: Bindings): Value
    decreases e, 0
  {
    match e
    case Literal(v) => v
    case Variable(name) => if name in env then env[name] else Nothing
    case Compound(children) =>
      var values := EvalAll(children, env);
      if values != [] && values[0].Function? then Apply(values[0].f, values) else Nothing
  }

  function EvalAll(es: seq<Expr>, env: Bindings): (r: seq<Value>)
    ensures |r| == |es|
    decreases es, 1
  {
    if es == [] then [] else [Eval(es[0], env)] + EvalAll(es[1..], env)
  }

  lemma {:induction false} EvalAllAt(es: seq<Expr>, env: Bindings, i: nat)
    requires i < |es|
    ensures EvalAll(es, env)[i] == Eval(es[i], env)
  {
    if i > 0 {
      EvalAllAt(es[1..], env, i - 1);
    }
  }

  /** A literal is its value, a name what it is bound to, and only a function can be called. */
  lemma {:induction false} EvalSays(v: Value, name: string, children: seq<Expr>, env: Bindings)
    ensures Eval(Literal(v), env) == v
    ensures Eval(Variable(name), env) == if name in env then env[name] else Nothing
    ensures children == [] || !Eval(children[0], env).Function? ==> Eval(Compound(children), env) == Nothing
  {
    if children != [] {
      EvalAllAt(children, env, 0);
    }
  }

  ghost predicate NamesDiffer(keys: seq<string>) {
    forall i, j :: 0 <= i < j < |keys| ==> keys[i] != keys[j]
  }

  ghost function BindingsOf(keys: seq<string>, values: seq<Value>): Bindings
    requires |keys| == |values|
  {
    map k | k in keys :: values[IndexOf(keys, k)]
  }

  /** Setting the value of a name at its position, or behind all others when it is new. */
  lemma {:induction false} BindingsSet(keys: seq<string>, values: seq<Value>, i: nat, name: string, value: Value)
    requires |keys| == |values| && NamesDiffer(keys)
    requires i <= |keys| && (i < |keys| ==> keys[i] == name) && (i == |keys| ==> name !in keys)
    ensures var (keys', values') := if i < |keys| then (keys, values) else (keys + [name], values + [Nothing]);
            && NamesDiffer(keys') && i < |values'|
            && BindingsOf(keys', values'[i := value]) == BindingsOf(keys, values)[name := value]
  {
    var (keys', values') := if i < |keys| then (keys, values) else (keys + [name], values + [Nothing]);
    var was, now := BindingsOf(keys, values)[name := value], BindingsOf(keys', values'[i := value]);
    assert forall k :: k in now <==> k in was by {
      assert forall k :: k in keys' <==> k in keys || k == name;
    }
    forall k | k in keys'
      ensures now[k] == was[k]
    {
      var j := IndexOf(keys', k);
      if k != name {
        assert j < |keys| && keys[j] == k && IndexOf(keys, k) == j;
      } else {
        assert j == i;
      }
    }
  }

  class Env {
    var keys: seq<string>
    var values: seq<Value>

    ghost predicate Valid()
      reads this
    {
      |keys| == |values| && NamesDiffer(keys)
    }

    ghost function View(): Bindings
      reads this
      requires Valid()
    {
      BindingsOf(keys, values)
    }

    constructor ()
      ensures Valid() && View() == map[]
    {
      keys, values := [], [];
    }

    /** The position of a name, or the number of names. */
    method FindValue(name: string) returns (i: nat)
      requires Valid()
      ensures i <= |keys| && (i < |keys| ==> keys[i] == name && name in View() && View()[name] == values[i])
      ensures i == |keys| ==> name !in View()
    {
      i := 0;
      while i < |keys|
        invariant i <= |keys| && forall k :: 0 <= k < i ==> keys[k] != name
      {
        if keys[i] == name {
          return;
        }
        i := i + 1;
      }
    }

    /** Changes the value of a name, or adds the name. */
    method SetVariable(name: string, value: Value)
      requires Valid()
      modifies this
      ensures Valid() && View() == old(View())[name := value]
    {
      var i := FindValue(name);
      BindingsSet(keys, values, i, name, value);
      if i == |keys| {
        keys, values := keys + [name], values + [Nothing];
      }
      values := values[i := value];
    }

    method InstallBuiltins()
      requires Valid()
      modifies this
      ensures Valid() && View() == WithBuiltins(old(View())) && HasBuiltins(View())
    {
      BuiltinsPresent(View());
      hide WithBuiltins, HasBuiltins;
      ghost var before := View();
      SetVariable("not", Function(Not));
      SetVariable("and", Function(And));
      SetVariable("or", Function(Or));
      SetVariable("equal?", Function(Equal));
      WithBuiltinsIs(before);
    }

    method EvalExpression(e: Expr) returns (r: Value)
      requires Valid()
      ensures r == Eval(e, View())
      decreases e
    {
      match e
      case Literal(v) =>
        r := v;
      case Variable(name) =>
        var i := FindValue(name);
        r := if i < |keys| then values[i] else Nothing;
      case Compound(children) =>
        var operands := [];
        for i := 0 to |children|
          invariant |operands| == i
          invariant forall k :: 0 <= k < i ==> operands[k] == Eval(children[k], View())
        {
          var v := EvalExpression(children[i]);
          operands := operands + [v];
        }
        forall k | 0 <= k < |children|
          ensures operands[k] == EvalAll(children, View())[k]
        {
          EvalAllAt(children, View(), k);
        }
        assert operands == EvalAll(children, View());
        if |operands| > 0 && operands[0].Function? {
          r := Call(operands[0].f, operands);
        } else {
          r := Nothing;
        }
    }

    /** Whether a plugin with this disable condition is left out. */
    method IsDisabled(condition: string) returns (disabled: bool)
      requires Valid()
      ensures disabled <==> Parse(condition).0.Some? && Eval(Parse(condition).0.value, View()) == Boolean(true)
    {
      assert condition[0..] == condition;
      var e, pos := ParseOneExpr(condition, 0);
      if e.None? {
        return false;
      }
      var v := EvalExpression(e.value);
      disabled := v.Boolean? && v.b;
    }
  }

  function IndexOf(keys: seq<string>, key: string): (i: nat)
    requires key in keys
    ensures i < |keys| && keys[i] == key
  {
    if keys[0] == key then 0 else 1 + IndexOf(keys[1..], key)
  }

  function WithBuiltins(env: Bindings): Bindings {
    env["not" := Function(Not)]["and" := Function(And)]["or" := Function(Or)]["equal?" := Function(Equal)]
  }

  lemma {:induction false} WithBuiltinsIs(env: Bindings)
    ensures WithBuiltins(env) ==
              env["not" := Function(Not)]["and" := Function(And)]["or" := Function(Or)]["equal?" := Function(Equal)]
  {
  }

  lemma {:induction false} BuiltinsPresent(env: Bindings)
    ensures HasBuiltins(WithBuiltins(env))
  {
    assert "not" != "and" && "not" != "or" && "not" != "equal?" && "and" != "or" && "and" != "equal?"
           && "or" != "equal?";
  }

  ghost predicate HasBuiltins(env: Bindings) {
    && "not" in env && env["not"] == Function(Not) && "and" in env && env["and"] == Function(And)
    && "or" in env && env["or"] == Function(Or) && "equal?" in env && env["equal?"] == Function(Equal)
  }

  /** The value of a call is that of its function on the values of its operands. */
  lemma {:induction false} EvalCall(name: string, f: Builtin, es: seq<Expr>, env: Bindings)
    requires name in env && env[name] == Function(f)
    ensures Eval(Compound([Variable(name)] + es), env) == Apply(f, [Function(f)] + EvalAll(es, env))
  {
    var all := [Variable(name)] + es;
    assert all[1..] == es;
    assert EvalAll(all, env) == [Function(f)] + EvalAll(es, env);
  }

  /** `and` and `or` of the same operands, through `not`, are each other's negation. */
  lemma {:induction false} DeMorgan(es: seq<Expr>, negated: seq<Expr>, env: Bindings)
    requires HasBuiltins(env) && |es| == |negated|
    requires forall i :: 0 <= i < |es| ==> negated[i] == Compound([Variable("not"), es[i]])
    ensures Eval(Compound([Variable("and")] + es), env) == Boolean(false) <==>
              Eval(Compound([Variable("or")] + negated), env) != Boolean(false)
  {
    hide Apply, Eval, EvalAll;
    EvalCall("and", And, es, env);
    EvalCall("or", Or, negated, env);
    var ands, ors := [Function(And)] + EvalAll(es, env), [Function(Or)] + EvalAll(negated, env);
    forall i | 0 < i < |ands|
      ensures IsFalse(ands[i]) <==> !IsFalse(ors[i])
    {
      EvalAllAt(es, env, i - 1);
      EvalAllAt(negated, env, i - 1);
      EvalNot(es[i - 1], env);
    }
    AndIsFalse(ands);
    OrIsFalse(ors);
  }

  lemma {:induction false} EvalEqual(d: Expr, e: Expr, env: Bindings)
    requires HasBuiltins(env)
    ensures Eval(Compound([Variable("equal?"), d, e]), env) == Boolean(Eval(d, env) == Eval(e, env))
  {
    EvalCall("equal?", Equal, [d, e], env);
    assert [Variable("equal?")] + [d, e] == [Variable("equal?"), d, e];
    EvalAllAt([d, e], env, 0);
    EvalAllAt([d, e], env, 1);
    hide EvalAll, Eval;
    var values := [Function(Equal)] + EvalAll([d, e], env);
    assert values[1] == Eval(d, env) && values[2] == Eval(e, env);
  }

  lemma {:induction false} EvalNot(e: Expr, env: Bindings)
    requires HasBuiltins(env)
    ensures Eval(Compound([Variable("not"), e]), env) == Boolean(Eval(e, env) == Boolean(false))
  {
    EvalCall("not", Not, [e], env);
    assert [Variable("not")] + [e] == [Variable("not"), e];
    assert EvalAll([e], env) == [Eval(e, env)];
  }

  lemma {:induction false} AndIsFalse(operands: seq<Value>)
    ensures IsFalse(Apply(And, operands)) <==> exists i :: 0 < i < |operands| && IsFalse(operands[i])
  {
  }

  lemma {:induction false} OrIsFalse(operands: seq<Value>)
    ensures IsFalse(Apply(Or, operands)) <==> forall i :: 0 < i < |operands| ==> IsFalse(operands[i])
  {
    FirstTrueIs(operands, 1);
  }

  lemma {:induction false} FirstTrueIs(operands: seq<Value>, i: nat)
    ensures IsFalse(FirstTrue(operands, i)) <==> forall k :: i <= k < |operands| ==> IsFalse(operands[k])
    decreases |operands| - i
  {
    if i < |operands| && IsFalse(operands[i]) {
      FirstTrueIs(operands, i + 1);
    }
  }
}
