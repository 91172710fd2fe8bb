/** The scope chain (state.py). An `Environment` and its chain of parents
    is a sequence of frames, the current environment first and the root
    last. A frame holds the variable and function tables; a table entry
    may hold Python's `None`, which is `None` here, so that a name bound
    to `None` is told apart from an unbound name. Values are of any type
    `V`. */
module State {
  import opened Common

  datatype Frame<V> = Frame(vars: map<string, Option<V>>, funcs: map<string, Option<V>>)

  /** The two tables of a frame are separate namespaces. */
  datatype Namespace = Vars | Funcs

  function Table<V>(f: Frame<V>, ns: Namespace): map<string, Option<V>> {
    match ns
    case Vars => f.vars
    case Funcs => f.funcs
  }

  /** `Environment()`: a root with empty tables and no parent. */
  function Root<V>(): (env: seq<Frame<V>>)
    ensures |env| == 1 && env[0].vars == map[] && env[0].funcs == map[]
  {
    [Frame(map[], map[])]
  }

  /** The table holds a value other than `None` for `name`. */
  predicate Holds<V>(t: map<string, Option<V>>, name: string) {
    name in t && t[name].Some?
  }

  /** The index of the nearest environment whose table `ns` holds a
      value other than `None` for `name`. */
  function FirstHolding<V>(env: seq<Frame<V>>, name: string, ns: Namespace): (r: Option<nat>)
    ensures r.Some? ==> r.value < |env| && Holds(Table(env[r.value], ns), name)
    ensures r.Some? ==> forall i | 0 <= i < r.value :: !Holds(Table(env[i], ns), name)
    ensures r.None? ==> forall i | 0 <= i < |env| :: !Holds(Table(env[i], ns), name)
  {
    if env == [] then None
    else if Holds(Table(env[0], ns), name) then Some(0)
    else
      match FirstHolding(env[1..], name, ns)
      case None =>
        assert forall i | 1 <= i < |env| :: env[i] == env[1..][i - 1];
        None
      case Some(k) =>
        assert forall i | 1 <= i < k + 1 :: env[i] == env[1..][i - 1];
        Some(k + 1)
  }

  /** The nearest holding environment is the only index with those two
      properties. */
  lemma {:induction false} FirstHoldingIsUnique<V>(env: seq<Frame<V>>, name: string, ns: Namespace, k: nat)
    requires k < |env| && Holds(Table(env[k], ns), name)
    requires forall i | 0 <= i < k :: !Holds(Table(env[i], ns), name)
    ensures FirstHolding(env, name, ns) == Some(k)
  {
  }

  /** The `while self` loops of `get_var` and `get_func`: walk outward
      from the current environment and return the first value that is not
      `None`; `None` once the root has been passed. */
  function Lookup<V>(env: seq<Frame<V>>, name: string, ns: Namespace): (r: Option<V>)
    ensures FirstHolding(env, name, ns).None? ==> r.None?
    ensures FirstHolding(env, name, ns).Some? ==> r == Table(env[FirstHolding(env, name, ns).value], ns)[name]
  {
    if env == [] then None
    else if Holds(Table(env[0], ns), name) then Table(env[0], ns)[name]
    else Lookup(env[1..], name, ns)
  }

  /** `get_var`. */
  function GetVar<V>(env: seq<Frame<V>>, name: string): Option<V> {
    Lookup(env, name, Vars)
  }

  /** `get_func`. */
  function GetFunc<V>(env: seq<Frame<V>>, name: string): Option<V> {
    Lookup(env, name, Funcs)
  }

  /** The index of the nearest environment whose variable table has the
      key `name` at all, whatever it holds. */
  function Nearest<V>(env: seq<Frame<V>>, name: string): (r: Option<nat>)
    ensures r.Some? ==> r.value < |env| && name in env[r.value].vars
    ensures r.Some? ==> forall i | 0 <= i < r.value :: name !in env[i].vars
    ensures r.None? ==> forall i | 0 <= i < |env| :: name !in env[i].vars
  {
    if env == [] then None
    else if name in env[0].vars then Some(0)
    else
      match Nearest(env[1..], name)
      case None =>
        assert forall i | 1 <= i < |env| :: env[i] == env[1..][i - 1];
        None
      case Some(k) =>
        assert forall i | 1 <= i < k + 1 :: env[i] == env[1..][i - 1];
        Some(k + 1)
  }

  function Bind<V>(f: Frame<V>, name: string, value: Option<V>): Frame<V> {
    f.(vars := f.vars[name := value])
  }

  /** The `while self` loop of `set_var`: overwrite the variable in the
      nearest environment that has the key; `None` when no environment
      has it. */
  function Overwrite<V>(env: seq<Frame<V>>, name: string, value: Option<V>): (r: Option<seq<Frame<V>>>)
    ensures r.None? <==> Nearest(env, name).None?
    ensures r.Some? ==> r.value == env[Nearest(env, name).value := Bind(env[Nearest(env, name).value], name, value)]
  {
    if env == [] then None
    else if name in env[0].vars then Some([Bind(env[0], name, value)] + env[1..])
    else
      match Overwrite(env[1..], name, value)
      case None => None
      case Some(rest) => Some([env[0]] + rest)
  }

  /** `set_var`: the updated chain and the return value, which is `value`
      when the name was found and `None` when it was bound anew in the
      current environment. */
  function SetVar<V>(env: seq<Frame<V>>, name: string, value: Option<V>): (r: (seq<Frame<V>>, Option<V>))
    requires |env| > 0
    ensures |r.0| == |env|
    ensures Nearest(env, name).Some? ==>
      var j := Nearest(env, name).value;
      r.0 == env[j := Bind(env[j], name, value)] && r.1 == value
    ensures Nearest(env, name).None? ==> r.0 == env[0 := Bind(env[0], name, value)] && r.1 == None
  {
    match Overwrite(env, name, value)
    case Some(updated) => (updated, value)
    case None => (env[0 := Bind(env[0], name, value)], None)
  }

  /** `set_func`: only the current environment's function table. */
  function SetFunc<V>(env: seq<Frame<V>>, name: string, value: Option<V>): (r: seq<Frame<V>>)
    requires |env| > 0
    ensures |r| == |env| && r[1..] == env[1..] && r[0].vars == env[0].vars
    ensures r[0].funcs == env[0].funcs[name := value]
  {
    env[0 := env[0].(funcs := env[0].funcs[name := value])]
  }

  /** `new_env`: a child with empty tables whose parent is the current
      environment, which is left as it was. */
  function NewEnv<V>(env: seq<Frame<V>>): (r: seq<Frame<V>>)
    ensures |r| == |env| + 1 && r[1..] == env
    ensures r[0].vars == map[] && r[0].funcs == map[]
  {
    [Frame(map[], map[])] + env
  }

  /** Changing one frame in a way that keeps what its table `ns` holds for
      `name` keeps every lookup of `name`. */
  lemma {:induction false} LookupAfterFrameChange<V>(env: seq<Frame<V>>, j: nat, f: Frame<V>, name: string, ns: Namespace)
    requires j < |env|
    requires Holds(Table(f, ns), name) == Holds(Table(env[j], ns), name)
    requires Holds(Table(f, ns), name) ==> Table(f, ns)[name] == Table(env[j], ns)[name]
    ensures Lookup(env[j := f], name, ns) == Lookup(env, name, ns)
  {
    var env2 := env[j := f];
    assert forall i | 0 <= i < |env| :: Holds(Table(env2[i], ns), name) == Holds(Table(env[i], ns), name);
    match FirstHolding(env, name, ns)
    case None =>
    case Some(k) =>
      FirstHoldingIsUnique(env2, name, ns, k);
  }

  /** After `set_var(name, v)` with `v` not `None`, `get_var(name)` from
      the same environment gives `v`, whichever frame was written. */
  lemma {:induction false} GetVarAfterSetVar<V>(env: seq<Frame<V>>, name: string, value: Option<V>)
    requires |env| > 0 && value.Some?
    ensures GetVar(SetVar(env, name, value).0, name) == value
  {
    var j := if Nearest(env, name).Some? then Nearest(env, name).value else 0;
    var env2 := SetVar(env, name, value).0;
    assert env2 == env[j := Bind(env[j], name, value)];
    assert forall i | 0 <= i < j :: !Holds(Table(env2[i], Vars), name);
    FirstHoldingIsUnique(env2, name, Vars, j);
  }

  /** `set_var` changes no other variable and no function. */
  lemma {:induction false} SetVarKeepsTheRest<V>(env: seq<Frame<V>>, name: string, value: Option<V>, other: string)
    requires |env| > 0
    ensures other != name ==> GetVar(SetVar(env, name, value).0, other) == GetVar(env, other)
    ensures GetFunc(SetVar(env, name, value).0, other) == GetFunc(env, other)
  {
    var j := if Nearest(env, name).Some? then Nearest(env, name).value else 0;
    var f := Bind(env[j], name, value);
    assert SetVar(env, name, value).0 == env[j := f];
    if other != name {
      LookupAfterFrameChange(env, j, f, other, Vars);
    }
    LookupAfterFrameChange(env, j, f, other, Funcs);
  }

  /** After `set_func(name, v)` with `v` not `None`, `get_func(name)`
      gives `v`; other functions and every variable are unchanged. */
  lemma {:induction false} SetFuncEffect<V>(env: seq<Frame<V>>, name: string, value: Option<V>, other: string)
    requires |env| > 0
    ensures value.Some? ==> GetFunc(SetFunc(env, name, value), name) == value
    ensures other != name ==> GetFunc(SetFunc(env, name, value), other) == GetFunc(env, other)
    ensures GetVar(SetFunc(env, name, value), other) == GetVar(env, other)
  {
    var f := env[0].(funcs := env[0].funcs[name := value]);
    assert SetFunc(env, name, value) == env[0 := f];
    if value.Some? {
      FirstHoldingIsUnique(env[0 := f], name, Funcs, 0);
    }
    if other != name {
      LookupAfterFrameChange(env, 0, f, other, Funcs);
    }
    LookupAfterFrameChange(env, 0, f, other, Vars);
  }

  /** A new scope sees every binding of its parent. */
  lemma {:induction false} NewEnvSeesParent<V>(env: seq<Frame<V>>, name: string, ns: Namespace)
    ensures Lookup(NewEnv(env), name, ns) == Lookup(env, name, ns)
  {
    assert NewEnv(env)[1..] == env;
  }

  /** In a new scope, `set_var` of a name bound nowhere creates it in the
      new scope and leaves the parent chain as it was; a name bound in an
      enclosing scope is overwritten there and the new scope stays
      empty. */
  lemma {:induction false} SetVarInNewScope<V>(env: seq<Frame<V>>, name: string, value: Option<V>)
    requires |env| > 0
    ensures Nearest(env, name).None? ==>
      SetVar(NewEnv(env), name, value) == ([Frame(map[name := value], map[])] + env, None)
    ensures Nearest(env, name).Some? ==>
      SetVar(NewEnv(env), name, value) == ([Frame(map[], map[])] + SetVar(env, name, value).0, value)
  {
    var child := NewEnv(env);
    assert forall i | 1 <= i < |child| :: child[i] == env[i - 1];
    if Nearest(env, name).Some? {
      var j := Nearest(env, name).value;
      assert Nearest(child, name) == Some(j + 1);
      assert child[j + 1 := Bind(child[j + 1], name, value)] == [Frame(map[], map[])] + env[j := Bind(env[j], name, value)];
    } else {
      assert Nearest(child, name).None?;
      assert child[0 := Bind(child[0], name, value)] == [Frame(map[name := value], map[])] + env;
    }
  }
}
