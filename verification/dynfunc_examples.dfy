/**
 * The usage examples of the call wrapper's documentation, stated as facts
 * about the model.
 */
module DynfuncExamples {
  import opened Dynfunc

  /** `a(n)` returning `n ** 2`, called with {n: 5, s: 4, tm: 3}: the extra keys are ignored and the result is 25. */
  lemma SquareExample()
    ensures var ps: seq<Param<int>> := [Param("n", PositionalOrKeyword, None)];
      var data := map["n" := 5, "s" := 4, "tm" := 3];
      var square := (args: seq<int>, kwargs: map<string, int>) => if "n" in kwargs then kwargs["n"] * kwargs["n"] else 0;
      && Resolve(ps, data) == Ok(Call([], map["n" := 5]))
      && CallWithArgs(square, ps, data) == Ok(25)
  {
    var ps: seq<Param<int>> := [Param("n", PositionalOrKeyword, None)];
    assert ps[..0] == [];
  }

  /** `func(*, param)`: {param: "foo"} passes "foo" by keyword; {other: "foo"} fails naming 'param' and listing ['other']. */
  lemma KeywordOnlyExample()
    ensures var ps: seq<Param<string>> := [Param("param", KeywordOnly, None)];
      && Resolve(ps, map["param" := "foo"]) == Ok(Call([], map["param" := "foo"]))
      && Resolve(ps, map["other" := "foo"]) == Err(ParameterError("param", {"other"}))
  {
    var ps: seq<Param<string>> := [Param("param", KeywordOnly, None)];
    assert ps[..0] == [];
    assert map["other" := "foo"].Keys == {"other"};
  }

  /** `lambda *args` and `lambda **args` with {args: [1]}: both are refused, naming 'args' and the variadic kind. */
  lemma VariadicExamples()
    ensures Resolve([Param("args", VarPositional, None)], map["args" := [1]])
      == Err(UnsupportedKind("args", VarPositional))
    ensures Resolve([Param("args", VarKeyword, None)], map["args" := [1]])
      == Err(UnsupportedKind("args", VarKeyword))
  {
    var ps1: seq<Param<seq<int>>> := [Param("args", VarPositional, None)];
    var ps2: seq<Param<seq<int>>> := [Param("args", VarKeyword, None)];
    assert ps1[..0] == [] && ps2[..0] == [];
  }

  /** `lambda a, b=1, c=2` with {a: 1, b: 3}: a and b come from the map, c from its default, giving (1, 3, 2). */
  lemma DefaultExample()
    ensures Resolve([Param("a", PositionalOrKeyword, None), Param("b", PositionalOrKeyword, Some(1)), Param("c", PositionalOrKeyword, Some(2))],
                    map["a" := 1, "b" := 3])
      == Ok(Call([], map["a" := 1, "b" := 3, "c" := 2]))
  {
    var ps := [Param("a", PositionalOrKeyword, None), Param("b", PositionalOrKeyword, Some(1)), Param("c", PositionalOrKeyword, Some(2))];
    var data := map["a" := 1, "b" := 3];
    assert ps[..2][..1] == ps[..1];
    assert ps[..1][..0] == [];
    assert Resolve(ps[..1], data) == Ok(Call([], map["a" := 1]));
    assert Resolve(ps[..2], data) == Ok(Call([], map["a" := 1, "b" := 3]));
  }
}
