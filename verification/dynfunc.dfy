/**
 * Resolution of a callable's declared parameters against a name -> value map,
 * and the call wrapper built on it.
 *
 * A callable's signature is given as an explicit sequence of parameter
 * descriptors (name, passing kind, optional default) in declared order.
 * Resolution walks that sequence once, looking every resolvable parameter up
 * in the data map (falling back to its default) and sending it either to the
 * positional-argument list or to the keyword-argument map. It stops at the
 * first parameter it cannot resolve and reports that parameter's error.
 */
module Dynfunc {

  datatype Option<+T> = None | Some(value: T)

  datatype Result<+T, +E> = Ok(value: T) | Err(error: E)

  /** The five passing kinds a declared parameter can have. */
  datatype ParamKind =
    | PositionalOnly
    | PositionalOrKeyword
    | KeywordOnly
    | VarPositional
    | VarKeyword

  /** One declared parameter: its name, its kind and its default, if any. */
  datatype Param<V> = Param(name: string, kind: ParamKind, default: Option<V>)

  /**
   * The two ways resolution fails.
   * ParameterError: a parameter without a default is absent from the data
   *   map; carries that parameter's name and the keys the map does hold.
   * UnsupportedKind: the callable declares a variadic parameter, which a flat
   *   name -> value map cannot fill; carries its name and its kind.
   */
  datatype Error =
    | ParameterError(name: string, validArgs: set<string>)
    | UnsupportedKind(name: string, kind: ParamKind)

  /** A resolved call: positional values in order, and keyword values by name. */
  datatype Call<V> = Call(args: seq<V>, kwargs: map<string, V>)

  /** Kinds that resolution passes by name. */
  predicate IsKeyword(kind: ParamKind) {
    kind == KeywordOnly || kind == PositionalOrKeyword
  }

  /** Kinds that resolution refuses. */
  predicate IsVariadic(kind: ParamKind) {
    kind == VarPositional || kind == VarKeyword
  }

  /** Parameter names are unique within a signature. */
  ghost predicate UniqueNames<V>(ps: seq<Param<V>>) {
    forall i, j :: 0 <= i < j < |ps| ==> ps[i].name != ps[j].name
  }

  /**
   * The value for one parameter: the data map's entry for its name when there
   * is one (even if the parameter also has a default), else its default, else
   * a ParameterError naming it and listing the map's keys.
   */
  function GetArgValue<V>(p: Param<V>, data: map<string, V>): (r: Result<V, Error>)
    ensures r.Ok? <==> p.name in data || p.default.Some?
    ensures p.name in data ==> r == Ok(data[p.name])
    ensures p.name !in data && p.default.Some? ==> r == Ok(p.default.value)
    ensures r.Err? ==> r.error == ParameterError(p.name, data.Keys)
  {
    if p.name in data then
      Ok(data[p.name])
    else if p.default.None? then
      Err(ParameterError(p.name, data.Keys))
    else
      Ok(p.default.value)
  }

  /**
   * What resolution makes of one parameter on its own: an UnsupportedKind
   * error for a variadic one, its looked-up value for any other.
   */
  function ParamOutcome<V>(p: Param<V>, data: map<string, V>): (r: Result<V, Error>)
    ensures r.Ok? <==> !IsVariadic(p.kind) && (p.name in data || p.default.Some?)
    ensures IsVariadic(p.kind) ==> r == Err(UnsupportedKind(p.name, p.kind))
    ensures !IsVariadic(p.kind) ==> r == GetArgValue(p, data)
  {
    match p.kind
    case VarPositional => Err(UnsupportedKind(p.name, VarPositional))
    case VarKeyword => Err(UnsupportedKind(p.name, VarKeyword))
    case _ => GetArgValue(p, data)
  }

  /**
   * One step of resolution: a failure so far stays that failure; otherwise the
   * parameter's value is appended to the positional list (positional-only) or
   * stored under its name in the keyword map (keyword-only and
   * positional-or-keyword), or its error ends resolution.
   */
  function Step<V>(acc: Result<Call<V>, Error>, p: Param<V>, data: map<string, V>): Result<Call<V>, Error> {
    match acc
    case Err(_) => acc
    case Ok(call) =>
      match ParamOutcome(p, data)
      case Err(e) => Err(e)
      case Ok(v) =>
        if p.kind == PositionalOnly then Ok(Call(call.args + [v], call.kwargs))
        else Ok(Call(call.args, call.kwargs[p.name := v]))
  }

  /** Resolution of the parameters `ps`, in declared order, as a function. */
  function Resolve<V>(ps: seq<Param<V>>, data: map<string, V>): Result<Call<V>, Error>
    decreases |ps|
  {
    if ps == [] then Ok(Call([], map[]))
    else Step(Resolve(ps[..|ps| - 1], data), ps[|ps| - 1], data)
  }

  /** Once a prefix of the parameters fails, resolution of the whole fails with that same error. */
  lemma {:induction false} FailurePersists<V>(ps: seq<Param<V>>, data: map<string, V>, i: nat)
    requires i <= |ps|
    requires Resolve(ps[..i], data).Err?
    ensures Resolve(ps, data) == Resolve(ps[..i], data)
  {
    if i < |ps| {
      var pre := ps[..|ps| - 1];
      assert pre[..i] == ps[..i];
      FailurePersists(pre, data, i);
    } else {
      assert ps[..i] == ps;
    }
  }

  /**
   * The resolver: one pass over the parameters, building the positional list
   * by appending and the keyword map by assignment, returning at the first
   * parameter that cannot be resolved.
   */
  method PopulateArgs<V>(ps: seq<Param<V>>, data: map<string, V>) returns (r: Result<Call<V>, Error>)
    ensures r == Resolve(ps, data)
  {
    var args: seq<V> := [];
    var kwargs: map<string, V> := map[];
    for i := 0 to |ps|
      invariant Resolve(ps[..i], data) == Ok(Call(args, kwargs))
    {
      var p := ps[i];
      assert ps[..i + 1][..i] == ps[..i];
      match p.kind {
        case KeywordOnly =>
          var v := GetArgValue(p, data);
          if v.Err? {
            FailurePersists(ps, data, i + 1);
            return Err(v.error);
          }
          kwargs := kwargs[p.name := v.value];
        case PositionalOnly =>
          var v := GetArgValue(p, data);
          if v.Err? {
            FailurePersists(ps, data, i + 1);
            return Err(v.error);
          }
          args := args + [v.value];
        case PositionalOrKeyword =>
          var v := GetArgValue(p, data);
          if v.Err? {
            FailurePersists(ps, data, i + 1);
            return Err(v.error);
          }
          kwargs := kwargs[p.name := v.value];
        case VarKeyword =>
          FailurePersists(ps, data, i + 1);
          return Err(UnsupportedKind(p.name, VarKeyword));
        case VarPositional =>
          FailurePersists(ps, data, i + 1);
          return Err(UnsupportedKind(p.name, VarPositional));
      }
    }
    assert ps[..|ps|] == ps;
    return Ok(Call(args, kwargs));
  }

  /**
   * The call wrapper: resolve, then apply the callable `f` to the positional
   * list and the keyword map. A resolution error is returned unchanged.
   */
  function CallWithArgs<V, R>(f: (seq<V>, map<string, V>) -> R, ps: seq<Param<V>>, data: map<string, V>): (r: Result<R, Error>)
    ensures r.Err? <==> Resolve(ps, data).Err?
    ensures r.Err? ==> r.error == Resolve(ps, data).error
    ensures r.Ok? ==> r.value == f(Resolve(ps, data).value.args, Resolve(ps, data).value.kwargs)
  {
    match Resolve(ps, data)
    case Err(e) => Err(e)
    case Ok(call) => Ok(f(call.args, call.kwargs))
  }
}
