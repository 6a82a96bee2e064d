# dynfunc: signature-driven argument resolution, in Dafny

`dynfunc` calls a Python callable with values it picks out of a name -> value
map, going by the names in the callable's signature. `populate_args` walks the
signature's parameters in declared order and sorts each one by its kind:

- a keyword-only or positional-or-keyword parameter goes into the keyword map
  under its name;
- a positional-only parameter is appended to the positional list;
- a `*args` or `**kwargs` parameter is refused with a `TypeError`.

Each value comes from `_get_arg_value`. It returns the map's entry for the name
when there is one, even if the parameter also has a default. Otherwise it
returns the default. With neither, it raises `ParameterError`, which carries
the missing name and the map's keys. `call_with_args` resolves the arguments
and then calls the function with them.

The model is split into three modules:

- `Dynfunc` (`dynfunc.dfy`) holds the data model. `Param` is a parameter
  descriptor, `ParamKind` has the five kinds, `Error` has the two failures and
  `Call` is a resolved call. It also holds the lookup `GetArgValue`, the
  per-parameter classification `ParamOutcome`, and a functional definition of
  resolution, `Resolve`, which folds `Step` over the parameters. `PopulateArgs`
  is the resolver written the way the source is written: one loop that appends
  to `args`, assigns into `kwargs` and returns at the first error. It is proved
  to compute `Resolve`. `CallWithArgs` is the wrapper.
- `DynfuncProperties` (`dynfunc_properties.dfy`) proves what resolution
  promises. It proves when resolution succeeds, what `args` and `kwargs` hold,
  which error is reported, and that unused keys have no effect.
- `DynfuncExamples` (`dynfunc_examples.dfy`) restates the usage examples in
  `call_with_args`'s docstring as lemmas.

The signature is an explicit `seq<Param<V>>` instead of being introspected.
Values have a type parameter `V`. The data map is a `map<string, V>`. The
callable given to `CallWithArgs` is a total Dafny function of the positional
list and the keyword map.

## Model

| member | source | states |
|---|---|---|
| `Dynfunc.GetArgValue` | dynfunc/__init__.py:23-34 | The lookup succeeds exactly when the name is in the map or a default exists. A present key wins over a default. Otherwise the default is returned unchanged. The error is a `ParameterError` carrying exactly this parameter's name and the map's keys. |
| `Dynfunc.ParamOutcome` | dynfunc/__init__.py:45-54 | A parameter resolves on its own exactly when it is not variadic and is named in the map or has a default. A variadic one yields `UnsupportedKind` with its name and kind. Any other one yields its lookup result. |
| `Dynfunc.FailurePersists` | dynfunc/__init__.py:44-58 | Once resolution of a prefix of the parameters has failed, resolving the whole signature fails with that same error. Later parameters cannot change or undo it. |
| `Dynfunc.PopulateArgs` | dynfunc/__init__.py:37-58 | The loop that appends to `args`, sets `kwargs[name]` and returns at the first error. It returns exactly the functional resolution `Resolve` of the whole signature. |
| `Dynfunc.CallWithArgs` | dynfunc/__init__.py:61-102 | The wrapper fails exactly when resolution fails, and then returns the resolution error unchanged. Otherwise it returns the callable applied to the resolved positional list and keyword map. |
| `DynfuncProperties.ResolveSucceedsIff` | dynfunc/__init__.py:44-58 | Resolution succeeds if and only if every parameter is non-variadic and is either named in the map or has a default. |
| `DynfuncProperties.ArgsArePositionalOnly` | dynfunc/__init__.py:44-48 | On success, `args` has one entry per positional-only parameter, in declared order. Each entry is that parameter's looked-up value. |
| `DynfuncProperties.KwargsKeys` | dynfunc/__init__.py:44-50 | On success, the keys of `kwargs` are exactly the names of the keyword-only and positional-or-keyword parameters. |
| `DynfuncProperties.KwargsValues` | dynfunc/__init__.py:45-50 | On success, with unique names, each keyword-only or positional-or-keyword parameter's name maps to that parameter's looked-up value. |
| `DynfuncProperties.FirstFailureReported` | dynfunc/__init__.py:44-56 | If parameter `i` is the first in declared order that cannot be resolved, resolution fails with parameter `i`'s error. The failure carries no partial call. |
| `DynfuncProperties.FailureHasFirstCause` | dynfunc/__init__.py:44-56 | Every failure of resolution is the error of some parameter that is the first unresolvable one in declared order. |
| `DynfuncProperties.VariadicRejected` | dynfunc/__init__.py:51-54 | A `*args` or `**kwargs` parameter makes resolution fail with `UnsupportedKind` naming that parameter and its kind, provided every earlier parameter resolves. |
| `DynfuncProperties.VariadicNeverResolves` | dynfunc/__init__.py:51-54 | A signature that declares a variadic parameter never resolves successfully, whatever the map holds. |
| `DynfuncProperties.MissingReported` | dynfunc/__init__.py:28-32 | A parameter with no default and no map entry makes resolution fail with `ParameterError(name, keys of the map)`, provided every earlier parameter resolves. |
| `DynfuncProperties.UnusedKeysIgnored` | dynfunc/__init__.py:28-34 | Take two maps that agree on every parameter's name. Either both succeed with the same call or both fail. When they fail, the errors agree except for the key list a `ParameterError` carries. |
| `DynfuncProperties.AllNamedPresent` | dynfunc/__init__.py:45-50 | Suppose every parameter is passed by keyword and is named in the map. Then resolution gives no positional values and the map restricted to those names. The wrapper calls the function with exactly that. |
| `DynfuncExamples.SquareExample` | dynfunc/__init__.py:68-71 | `a(n)` with `{n: 5, s: 4, tm: 3}` resolves to `kwargs = {n: 5}`. The extra keys are ignored, and squaring gives 25. |
| `DynfuncExamples.KeywordOnlyExample` | dynfunc/__init__.py:73-81 | `func(*, param)` gets `param="foo"` from `{param: "foo"}`. With `{other: "foo"}` it fails with `ParameterError("param", {"other"})`. |
| `DynfuncExamples.VariadicExamples` | dynfunc/__init__.py:83-91 | `lambda *args` and `lambda **args` with `{args: [1]}` both fail with `UnsupportedKind("args", ...)` of the matching kind. |
| `DynfuncExamples.DefaultExample` | dynfunc/__init__.py:93-94 | `lambda a, b=1, c=2` with `{a: 1, b: 3}` resolves to `a=1, b=3, c=2`. The default is used only for `c`, which is absent from the map. |

## Left out

- Signature introspection (`inspect.signature`, dynfunc/__init__.py:9, 43) is not modelled. The parameter descriptors are an explicit input. Python guarantees unique parameter names; only `KwargsValues` needs that, and it requires `UniqueNames`.
- Calling the function (dynfunc/__init__.py:102) is modelled as a total Dafny function. Python's argument binding of `*args, **kwargs` and any exception the callable raises are not modelled.
- The "unknown parameter type" branch (dynfunc/__init__.py:55-56) cannot be reached, because `ParamKind` has exactly the five kinds.
- Exception message text, the `TypeError` wording and `raise ... from e` chaining are not modelled. Only the data the errors carry is: the name and key list for `ParameterError`, and the name and kind for the unsupported kind.
- `Dynfunc.GetArgValue`: `ParameterError.validArgs` is the set of the map's keys, not Python's list in insertion order, because a Dafny `map` has no order. The same holds for every member that mentions `validArgs`.
- The data map is a `map<string, V>`. A Python `Mapping` with non-string keys, or one whose `__getitem__` misbehaves, is not modelled.
- `__version__` and `__all__` (dynfunc/__init__.py:1-7) are metadata and are not modelled.
