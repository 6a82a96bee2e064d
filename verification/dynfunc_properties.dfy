/**
 * What resolution promises, proved about the functional definition `Resolve`
 * (which the imperative resolver `PopulateArgs` is proved to compute).
 */
module DynfuncProperties {
  import opened Dynfunc

  /** Parameter `i` is the first, in declared order, that cannot be resolved. */
  ghost predicate FirstFailureAt<V>(ps: seq<Param<V>>, data: map<string, V>, i: int) {
    && 0 <= i < |ps|
    && (forall j :: 0 <= j < i ==> ParamOutcome(ps[j], data).Ok?)
    && ParamOutcome(ps[i], data).Err?
  }

  /** The positional-only parameters of `ps`, in declared order. */
  function PositionalOnlyParams<V>(ps: seq<Param<V>>): seq<Param<V>>
    decreases |ps|
  {
    if ps == [] then []
    else
      var last := ps[|ps| - 1];
      PositionalOnlyParams(ps[..|ps| - 1]) + (if last.kind == PositionalOnly then [last] else [])
  }

  /** The names resolution passes by keyword. */
  ghost function KeywordNames<V>(ps: seq<Param<V>>): set<string> {
    set p | p in ps && IsKeyword(p.kind) :: p.name
  }

  /** `data` and `data'` agree on every name a parameter of `ps` carries. */
  ghost predicate AgreeOnNames<V>(ps: seq<Param<V>>, data: map<string, V>, data': map<string, V>) {
    forall p :: p in ps ==>
      && (p.name in data <==> p.name in data')
      && (p.name in data ==> data[p.name] == data'[p.name])
  }

  /** The same error, with a ParameterError's key list replaced by `keys`. */
  function WithValidArgs(e: Error, keys: set<string>): Error {
    match e
    case ParameterError(name, _) => ParameterError(name, keys)
    case UnsupportedKind(_, _) => e
  }

  /** Resolution succeeds exactly when every parameter can be resolved on its own. */
  lemma {:induction false} ResolveSucceedsIff<V>(ps: seq<Param<V>>, data: map<string, V>)
    ensures Resolve(ps, data).Ok? <==>
      forall i :: 0 <= i < |ps| ==> !IsVariadic(ps[i].kind) && (ps[i].name in data || ps[i].default.Some?)
  {
    if ps != [] {
      var pre := ps[..|ps| - 1];
      ResolveSucceedsIff(pre, data);
      assert forall i :: 0 <= i < |pre| ==> pre[i] == ps[i];
    }
  }

  /**
   * On success the positional list holds exactly the looked-up values of the
   * positional-only parameters, in declared order.
   */
  lemma {:induction false} ArgsArePositionalOnly<V>(ps: seq<Param<V>>, data: map<string, V>)
    requires Resolve(ps, data).Ok?
    ensures var args := Resolve(ps, data).value.args;
      && |args| == |PositionalOnlyParams(ps)|
      && forall j :: 0 <= j < |args| ==> GetArgValue(PositionalOnlyParams(ps)[j], data) == Ok(args[j])
  {
    if ps != [] {
      ArgsArePositionalOnly(ps[..|ps| - 1], data);
    }
  }

  /** On success the keyword map's keys are exactly the keyword-passed parameters' names. */
  lemma {:induction false} KwargsKeys<V>(ps: seq<Param<V>>, data: map<string, V>)
    requires Resolve(ps, data).Ok?
    ensures Resolve(ps, data).value.kwargs.Keys == KeywordNames(ps)
  {
    if ps != [] {
      var pre, last := ps[..|ps| - 1], ps[|ps| - 1];
      KwargsKeys(pre, data);
      assert ps == pre + [last];
      assert KeywordNames(ps) == KeywordNames(pre) + (if IsKeyword(last.kind) then {last.name} else {});
    }
  }

  /**
   * On success, with unique parameter names, every keyword-passed parameter's
   * name maps to that parameter's looked-up value.
   */
  lemma {:induction false} KwargsValues<V>(ps: seq<Param<V>>, data: map<string, V>)
    requires UniqueNames(ps)
    requires Resolve(ps, data).Ok?
    ensures var kwargs := Resolve(ps, data).value.kwargs;
      forall i :: 0 <= i < |ps| && IsKeyword(ps[i].kind) ==>
        ps[i].name in kwargs && GetArgValue(ps[i], data) == Ok(kwargs[ps[i].name])
  {
    if ps != [] {
      var pre := ps[..|ps| - 1];
      assert forall i :: 0 <= i < |pre| ==> pre[i] == ps[i];
      KwargsValues(pre, data);
    }
  }

  /** Resolution fails with the error of the first parameter, in declared order, that cannot be resolved. */
  lemma {:induction false} FirstFailureReported<V>(ps: seq<Param<V>>, data: map<string, V>, i: int)
    requires FirstFailureAt(ps, data, i)
    ensures Resolve(ps, data) == Err(ParamOutcome(ps[i], data).error)
  {
    var pre := ps[..|ps| - 1];
    assert forall j :: 0 <= j < |pre| ==> pre[j] == ps[j];
    if i == |ps| - 1 {
      ResolveSucceedsIff(pre, data);
    } else {
      FirstFailureReported(pre, data, i);
    }
  }

  /** Every failure of resolution is the error of a first unresolvable parameter. */
  lemma {:induction false} FailureHasFirstCause<V>(ps: seq<Param<V>>, data: map<string, V>)
    requires Resolve(ps, data).Err?
    ensures exists i :: FirstFailureAt(ps, data, i) && ParamOutcome(ps[i], data).error == Resolve(ps, data).error
  {
    var pre := ps[..|ps| - 1];
    assert forall j :: 0 <= j < |pre| ==> pre[j] == ps[j];
    if Resolve(pre, data).Err? {
      FailureHasFirstCause(pre, data);
      var i :| FirstFailureAt(pre, data, i) && ParamOutcome(pre[i], data).error == Resolve(pre, data).error;
      assert FirstFailureAt(ps, data, i);
    } else {
      ResolveSucceedsIff(pre, data);
      assert FirstFailureAt(ps, data, |ps| - 1);
    }
  }

  /**
   * A variadic parameter reached with every earlier parameter resolvable makes
   * resolution fail with UnsupportedKind naming it and its kind.
   */
  lemma VariadicRejected<V>(ps: seq<Param<V>>, data: map<string, V>, i: int)
    requires 0 <= i < |ps| && IsVariadic(ps[i].kind)
    requires forall j :: 0 <= j < i ==> ParamOutcome(ps[j], data).Ok?
    ensures Resolve(ps, data) == Err(UnsupportedKind(ps[i].name, ps[i].kind))
  {
    FirstFailureReported(ps, data, i);
  }

  /** A signature with a variadic parameter never resolves, whatever the data map holds. */
  lemma VariadicNeverResolves<V>(ps: seq<Param<V>>, data: map<string, V>, i: int)
    requires 0 <= i < |ps| && IsVariadic(ps[i].kind)
    ensures Resolve(ps, data).Err?
  {
    ResolveSucceedsIff(ps, data);
  }

  /**
   * A parameter without a default and absent from the data map, reached with
   * every earlier parameter resolvable, makes resolution fail with a
   * ParameterError carrying its name and the data map's keys.
   */
  lemma MissingReported<V>(ps: seq<Param<V>>, data: map<string, V>, i: int)
    requires 0 <= i < |ps| && !IsVariadic(ps[i].kind)
    requires ps[i].name !in data && ps[i].default.None?
    requires forall j :: 0 <= j < i ==> ParamOutcome(ps[j], data).Ok?
    ensures Resolve(ps, data) == Err(ParameterError(ps[i].name, data.Keys))
  {
    FirstFailureReported(ps, data, i);
  }

  /**
   * Keys that name no parameter do not matter: two data maps that agree on the
   * parameters' names give the same success, or the same error up to the key
   * list a ParameterError carries.
   */
  lemma {:induction false} UnusedKeysIgnored<V>(ps: seq<Param<V>>, data: map<string, V>, data': map<string, V>)
    requires AgreeOnNames(ps, data, data')
    ensures Resolve(ps, data).Ok? <==> Resolve(ps, data').Ok?
    ensures Resolve(ps, data).Ok? ==> Resolve(ps, data') == Resolve(ps, data)
    ensures Resolve(ps, data).Err? ==>
      Resolve(ps, data').error == WithValidArgs(Resolve(ps, data).error, data'.Keys)
  {
    if ps != [] {
      var pre, last := ps[..|ps| - 1], ps[|ps| - 1];
      assert forall p :: p in pre ==> p in ps;
      UnusedKeysIgnored(pre, data, data');
      assert last in ps;
    }
  }

  /**
   * A signature of keyword-passed parameters that the data map all names
   * resolves to no positional values and the data map restricted to those
   * names, so the call wrapper calls `f` with exactly that.
   */
  lemma {:induction false} AllNamedPresent<V, R>(f: (seq<V>, map<string, V>) -> R, ps: seq<Param<V>>, data: map<string, V>)
    requires forall p :: p in ps ==> IsKeyword(p.kind) && p.name in data
    ensures Resolve(ps, data) == Ok(Call([], map k | k in data && k in KeywordNames(ps) :: data[k]))
    ensures CallWithArgs(f, ps, data) == Ok(f([], map k | k in data && k in KeywordNames(ps) :: data[k]))
  {
    if ps != [] {
      var pre, last := ps[..|ps| - 1], ps[|ps| - 1];
      assert ps == pre + [last];
      AllNamedPresent(f, pre, data);
      assert last in ps;
      assert KeywordNames(ps) == KeywordNames(pre) + {last.name};
      var before := map k | k in data && k in KeywordNames(pre) :: data[k];
      assert Resolve(pre, data) == Ok(Call([], before));
      assert before[last.name := data[last.name]] == map k | k in data && k in KeywordNames(ps) :: data[k];
    }
  }
}
