/** The attractor catalog: parameter schemas, the three built-in systems, the defaulting
    map and the positional binding of parameter values that precedes integration.
    Python floats are modelled as exact `real`s. */
module Attractors {
  import opened Builtins

  /** The three right-hand sides the catalog knows, as a tagged variant. */
  datatype Equation = Lorenz | Rossler | Dadras {
    /** The number of positional parameters the right-hand side takes after `(x_var, t)`. */
    function Arity(): nat {
      match this
      case Lorenz => 3
      case Rossler => 3
      case Dadras => 5
    }
  }

  /** One tunable scalar of an equation and the bounds its slider offers. */
  datatype AttractorParam = AttractorParam(name: string, default: real, minVal: real, maxVal: real, step: real)

  /** One catalog entry. `timeDefaults` is the source's dictionary with keys
      "t_min", "t_max" and "n". */
  datatype AttractorConfig = AttractorConfig(
    name: string,
    equation: Equation,
    params: seq<AttractorParam>,
    initialConditions: seq<real>,
    timeDefaults: map<string, int>)

  // ---------------------------------------------------------------------------
  // Right-hand sides

  function LorenzRhs(sigma: real, rho: real, beta: real, x: real, y: real, z: real): seq<real> {
    [sigma * (y - x), x * (rho - z) - y, x * y - beta * z]
  }

  function RosslerRhs(a: real, b: real, c: real, x: real, y: real, z: real): seq<real> {
    [-y - z, x + a * y, b + z * (x - c)]
  }

  function DadrasRhs(a: real, b: real, c: real, d: real, e: real, x: real, y: real, z: real): seq<real> {
    [y - a * x + b * y * z, c * y - x * z + z, d * x * y - e * z]
  }

  /** Calls the equation as `odeint` does, `equation(x_var, t, *args)`. A wrong number of
      arguments fails at the call; a state that is not a 3-vector fails at `x, y, z = x_var`.
      The systems are autonomous: `t` is accepted and not used. */
  function Evaluate(eq: Equation, xVar: seq<real>, t: real, args: seq<real>): (r: Result<seq<real>>)
    ensures r.Ok? <==> |args| == eq.Arity() && |xVar| == 3
    ensures |args| != eq.Arity() ==> r == Err(TypeError)
    ensures |args| == eq.Arity() && |xVar| != 3 ==> r == Err(ValueError)
    ensures r.Ok? ==> |r.value| == 3
  {
    if |args| != eq.Arity() then Err(TypeError)
    else if |xVar| != 3 then Err(ValueError)
    else
      var x, y, z := xVar[0], xVar[1], xVar[2];
      match eq
      case Lorenz => Ok(LorenzRhs(args[0], args[1], args[2], x, y, z))
      case Rossler => Ok(RosslerRhs(args[0], args[1], args[2], x, y, z))
      case Dadras => Ok(DadrasRhs(args[0], args[1], args[2], args[3], args[4], x, y, z))
  }

  /** The Lorenz field is symmetric under the rotation (x, y, z) -> (-x, -y, z). */
  lemma LorenzSymmetry(args: seq<real>, t: real, x: real, y: real, z: real)
    requires |args| == 3
    ensures var d := Evaluate(Lorenz, [x, y, z], t, args).value;
            Evaluate(Lorenz, [-x, -y, z], t, args) == Ok([-d[0], -d[1], d[2]])
  {
    var sigma, rho, beta := args[0], args[1], args[2];
    assert Evaluate(Lorenz, [x, y, z], t, args) == Ok(LorenzRhs(sigma, rho, beta, x, y, z));
    assert Evaluate(Lorenz, [-x, -y, z], t, args) == Ok(LorenzRhs(sigma, rho, beta, -x, -y, z));
    assert sigma * (-y - -x) == -(sigma * (y - x));
    assert -x * (rho - z) - -y == -(x * (rho - z) - y);
    assert (-x) * (-y) == x * y;
    var d := LorenzRhs(sigma, rho, beta, x, y, z);
    assert LorenzRhs(sigma, rho, beta, -x, -y, z)[0] == -d[0];
    assert LorenzRhs(sigma, rho, beta, -x, -y, z)[1] == -d[1];
    assert LorenzRhs(sigma, rho, beta, -x, -y, z)[2] == d[2];
  }

  /** The origin is an equilibrium of Lorenz for all parameters. */
  lemma LorenzAtOrigin(sigma: real, rho: real, beta: real, t: real)
    ensures Evaluate(Lorenz, [0.0, 0.0, 0.0], t, [sigma, rho, beta]) == Ok([0.0, 0.0, 0.0])
  {
  }

  /** For beta * (rho - 1) >= 0 the two points C+ and C- are equilibria of Lorenz. */
  lemma LorenzEquilibria(sigma: real, rho: real, beta: real, t: real, w: real)
    requires w * w == beta * (rho - 1.0)
    ensures Evaluate(Lorenz, [w, w, rho - 1.0], t, [sigma, rho, beta]) == Ok([0.0, 0.0, 0.0])
  {
    assert Evaluate(Lorenz, [w, w, rho - 1.0], t, [sigma, rho, beta]) == Ok(LorenzRhs(sigma, rho, beta, w, w, rho - 1.0));
    assert sigma * (w - w) == 0.0;
    assert w * (rho - (rho - 1.0)) - w == 0.0;
    assert w * w - beta * (rho - 1.0) == 0.0;
    var e := LorenzRhs(sigma, rho, beta, w, w, rho - 1.0);
    assert e[0] == 0.0 && e[1] == 0.0 && e[2] == 0.0;
    assert e == [0.0, 0.0, 0.0];
  }

  /** At the origin the Rossler field points along z with speed b. */
  lemma RosslerAtOrigin(a: real, b: real, c: real, t: real)
    ensures Evaluate(Rossler, [0.0, 0.0, 0.0], t, [a, b, c]) == Ok([0.0, 0.0, b])
  {
  }

  /** The origin is an equilibrium of Dadras for all parameters. */
  lemma DadrasEquilibrium(args: seq<real>, t: real)
    requires |args| == 5
    ensures Evaluate(Dadras, [0.0, 0.0, 0.0], t, args) == Ok([0.0, 0.0, 0.0])
  {
  }

  // ---------------------------------------------------------------------------
  // The catalog

  const LorenzAttractor := AttractorConfig(
    "lorenz",
    Lorenz,
    [ AttractorParam("sigma", 10.0, 0.0, 50.0, 0.1),
      AttractorParam("rho", 28.0, 0.0, 50.0, 0.1),
      AttractorParam("beta", 2.67, 0.0, 50.0, 0.1) ],
    [0.0, 1.5, 15.0],
    map["t_min" := 0, "t_max" := 50, "n" := 10000])

  const RosslerAttractor := AttractorConfig(
    "Rossler attractor",
    Rossler,
    [ AttractorParam("a", 0.2, 0.0, 1.0, 0.01),
      AttractorParam("b", 0.2, 0.0, 1.0, 0.01),
      AttractorParam("c", 5.7, 0.0, 20.0, 0.01) ],
    [1.0, 1.0, 1.0],
    map["t_min" := 0, "t_max" := 100, "n" := 10000])

  const DadrasAttractor := AttractorConfig(
    "Dadras attractor",
    Dadras,
    [ AttractorParam("a", 3.0, -10.0, 10.0, 0.1),
      AttractorParam("b", 2.7, -10.0, 10.0, 0.1),
      AttractorParam("c", 1.7, -10.0, 10.0, 0.1),
      AttractorParam("d", 2.0, -10.0, 10.0, 0.1),
      AttractorParam("e", 9.0, -10.0, 10.0, 0.1) ],
    [1.1, 2.1, -2.0],
    map["t_min" := 0, "t_max" := 75, "n" := 10000])

  /** The registry, keyed by the names the sidebar offers (not by `config.name`). */
  const Catalog: map<string, AttractorConfig> :=
    map["Lorenz" := LorenzAttractor, "Rossler" := RosslerAttractor, "Dadras" := DadrasAttractor]

  /** The registry's keys in insertion order, as `list(ATTRACTORS.keys())` yields them. */
  const CatalogKeys: seq<string> := ["Lorenz", "Rossler", "Dadras"]

  // ---------------------------------------------------------------------------
  // Well-formedness of a catalog entry

  function Names(ps: seq<AttractorParam>): set<string> {
    set i | 0 <= i < |ps| :: ps[i].name
  }

  predicate DistinctNames(ps: seq<AttractorParam>) {
    forall i, j :: 0 <= i < j < |ps| ==> ps[i].name != ps[j].name
  }

  predicate DefaultsWithinBounds(ps: seq<AttractorParam>) {
    forall i :: 0 <= i < |ps| ==> ps[i].minVal <= ps[i].default <= ps[i].maxVal
  }

  predicate ValidTimeDefaults(td: map<string, int>) {
    && "t_min" in td && "t_max" in td && "n" in td
    && td["t_min"] < td["t_max"]
    && td["n"] >= 2
  }

  /** What every entry of the catalog satisfies. */
  predicate WellFormed(c: AttractorConfig) {
    && DefaultsWithinBounds(c.params)
    && DistinctNames(c.params)
    && |c.params| == c.equation.Arity()
    && |c.initialConditions| == 3
    && ValidTimeDefaults(c.timeDefaults)
  }

  /** The catalog has exactly three keys, each bound to its config; the keys differ
      from the configs' own names. */
  lemma CatalogContents()
    ensures Catalog.Keys == {"Lorenz", "Rossler", "Dadras"}
    ensures Catalog["Lorenz"] == LorenzAttractor && LorenzAttractor.name == "lorenz"
    ensures Catalog["Rossler"] == RosslerAttractor && RosslerAttractor.name == "Rossler attractor"
    ensures Catalog["Dadras"] == DadrasAttractor && DadrasAttractor.name == "Dadras attractor"
    ensures forall k :: k in Catalog ==> Catalog[k].name != k
    ensures |CatalogKeys| == 3 && (set k | k in CatalogKeys) == Catalog.Keys
  {
    assert Catalog["Lorenz"].name != "Lorenz";
  }

  /** Every catalog entry is well formed: defaults within bounds, distinct parameter
      names, one parameter per positional argument, a 3-vector start and a valid time span. */
  lemma CatalogWellFormed()
    ensures forall k :: k in Catalog ==> WellFormed(Catalog[k])
    ensures forall k :: k in Catalog ==> Catalog[k].timeDefaults["n"] == 10000
  {
    LorenzWellFormed();
    RosslerWellFormed();
    DadrasWellFormed();
  }

  lemma LorenzWellFormed()
    ensures WellFormed(LorenzAttractor)
  {
    var ps := LorenzAttractor.params;
    assert ps[0].name != ps[1].name && ps[0].name != ps[2].name && ps[1].name != ps[2].name;
  }

  lemma RosslerWellFormed()
    ensures WellFormed(RosslerAttractor)
  {
    var ps := RosslerAttractor.params;
    assert ps[0].name != ps[1].name && ps[0].name != ps[2].name && ps[1].name != ps[2].name;
  }

  lemma DadrasWellFormed()
    ensures WellFormed(DadrasAttractor)
  {
    var ps := DadrasAttractor.params;
    assert forall i, j :: 0 <= i < j < |ps| ==> ps[i].name[0] != ps[j].name[0];
  }

  // ---------------------------------------------------------------------------
  // Defaults and binding

  /** True when no later parameter reuses the name of `ps[i]`. */
  predicate LastWithName(ps: seq<AttractorParam>, i: int)
    requires 0 <= i < |ps|
  {
    forall j :: i < j < |ps| ==> ps[j].name != ps[i].name
  }

  /** The dict comprehension `{p.name: f(p) for p in ps}`: one key per schema name. */
  function DictByName(ps: seq<AttractorParam>, f: AttractorParam -> real): (m: map<string, real>)
    ensures m.Keys == Names(ps)
    decreases |ps|
  {
    if ps == [] then map[]
    else
      NamesOfSnoc(ps);
      DictByName(ps[..|ps| - 1], f)[ps[|ps| - 1].name := f(ps[|ps| - 1])]
  }

  /** For a repeated name the last parameter wins; so with distinct names each
      parameter's name maps to `f` of that parameter. */
  lemma {:induction false} DictByNameLastWins(ps: seq<AttractorParam>, f: AttractorParam -> real, i: int)
    requires 0 <= i < |ps| && LastWithName(ps, i)
    ensures DictByName(ps, f)[ps[i].name] == f(ps[i])
    decreases |ps|
  {
    if i < |ps| - 1 {
      var init := ps[..|ps| - 1];
      assert init[i] == ps[i];
      assert ps[|ps| - 1].name != ps[i].name;
      assert LastWithName(init, i) by {
        forall j | i < j < |init| ensures init[j].name != init[i].name {
          assert init[j] == ps[j];
        }
      }
      DictByNameLastWins(init, f, i);
    }
  }

  lemma NamesOfSnoc(ps: seq<AttractorParam>)
    requires ps != []
    ensures Names(ps) == Names(ps[..|ps| - 1]) + {ps[|ps| - 1].name}
  {
    var init := ps[..|ps| - 1];
    assert forall i :: 0 <= i < |init| ==> init[i] == ps[i];
    forall n | n in Names(ps) ensures n in Names(init) + {ps[|ps| - 1].name} {
      var i :| 0 <= i < |ps| && ps[i].name == n;
      if i < |init| { assert init[i].name == n; }
    }
  }

  /** `get_default_params`: every schema name, mapped to its default. */
  function GetDefaultParams(config: AttractorConfig): (m: map<string, real>)
    ensures m.Keys == Names(config.params)
    ensures forall i :: 0 <= i < |config.params| ==> config.params[i].name in m
    ensures DistinctNames(config.params) ==>
      forall i :: 0 <= i < |config.params| ==> m[config.params[i].name] == config.params[i].default
  {
    var m := DictByName(config.params, (p: AttractorParam) => p.default);
    assert DistinctNames(config.params) ==>
      forall i :: 0 <= i < |config.params| ==> m[config.params[i].name] == config.params[i].default by {
      if DistinctNames(config.params) {
        forall i | 0 <= i < |config.params| ensures m[config.params[i].name] == config.params[i].default {
          DictByNameLastWins(config.params, (p: AttractorParam) => p.default, i);
        }
      }
    }
    m
  }

  /** With repeated names, the default of the last parameter with a name wins. */
  lemma DefaultsLastWins(config: AttractorConfig, j: int)
    requires 0 <= j < |config.params| && LastWithName(config.params, j)
    ensures GetDefaultParams(config)[config.params[j].name] == config.params[j].default
  {
    DictByNameLastWins(config.params, (p: AttractorParam) => p.default, j);
  }

  /** The schema's defaults, in schema order. */
  function Defaults(ps: seq<AttractorParam>): seq<real> {
    seq(|ps|, i requires 0 <= i < |ps| => ps[i].default)
  }

  /** `tuple(param_values[p.name] for p in config.params)`: one value per schema entry, in
      schema order. It fails with `KeyError` on the first schema name that is missing;
      keys of `paramValues` that are not schema names are ignored, and values are not
      checked against the bounds. */
  function BindArgs(ps: seq<AttractorParam>, paramValues: map<string, real>): (r: Result<seq<real>>)
    ensures r.Ok? <==> forall i :: 0 <= i < |ps| ==> ps[i].name in paramValues
    ensures r.Ok? ==> |r.value| == |ps| && forall i :: 0 <= i < |ps| ==> r.value[i] == paramValues[ps[i].name]
    ensures r.Err? ==> exists i :: && 0 <= i < |ps| && r.error == KeyError(ps[i].name)
                                   && ps[i].name !in paramValues
                                   && forall j :: 0 <= j < i ==> ps[j].name in paramValues
    decreases |ps|
  {
    if ps == [] then Ok([])
    else if ps[0].name !in paramValues then Err(KeyError(ps[0].name))
    else
      match BindArgs(ps[1..], paramValues)
      case Ok(rest) => Ok([paramValues[ps[0].name]] + rest)
      case Err(e) =>
        assert forall i :: 1 <= i < |ps| ==> ps[i] == ps[1..][i - 1];
        Err(e)
  }

  /** Binding the default map reproduces the defaults in schema order. */
  lemma BindDefaults(config: AttractorConfig)
    requires DistinctNames(config.params)
    ensures BindArgs(config.params, GetDefaultParams(config)) == Ok(Defaults(config.params))
  {
    var ps := config.params;
    var m := GetDefaultParams(config);
    assert forall i :: 0 <= i < |ps| ==> ps[i].name in m;
    var r := BindArgs(ps, m);
    assert r.value == Defaults(ps);
  }

  /** Extra keys are ignored: binding depends only on the schema names' values. */
  lemma BindIgnoresExtraKeys(ps: seq<AttractorParam>, paramValues: map<string, real>, more: map<string, real>)
    requires BindArgs(ps, paramValues).Ok?
    requires forall k :: k in paramValues ==> k in more && more[k] == paramValues[k]
    ensures BindArgs(ps, more) == BindArgs(ps, paramValues)
  {
    var a, b := BindArgs(ps, paramValues), BindArgs(ps, more);
    assert b.Ok?;
    assert a.value == b.value;
  }

  // ---------------------------------------------------------------------------
  // solve_attractor

  /** `np.linspace(start, stop, num)`, kept as its arguments; `num` is its length. */
  datatype Linspace = Linspace(start: int, stop: int, num: nat)

  /** Everything `solve_attractor` hands to `odeint`. */
  datatype OdeintCall = OdeintCall(equation: Equation, y0: seq<real>, t: Linspace, args: seq<real>)

  /** The time grid of an entry, or the error raised while building it: a missing
      key is a `KeyError` (looked up in the order "t_min", "t_max", "n") and a
      negative sample count a `ValueError` of `np.linspace`. */
  function TimeGrid(td: map<string, int>): (r: Result<Linspace>)
    ensures r.Ok? <==> "t_min" in td && "t_max" in td && "n" in td && td["n"] >= 0
    ensures r.Ok? ==> r.value == Linspace(td["t_min"], td["t_max"], td["n"])
    ensures "t_min" !in td ==> r == Err(KeyError("t_min"))
    ensures "t_min" in td && "t_max" !in td ==> r == Err(KeyError("t_max"))
    ensures "t_min" in td && "t_max" in td && "n" !in td ==> r == Err(KeyError("n"))
    ensures "t_min" in td && "t_max" in td && "n" in td && td["n"] < 0 ==> r == Err(ValueError)
  {
    if "t_min" !in td then Err(KeyError("t_min"))
    else if "t_max" !in td then Err(KeyError("t_max"))
    else if "n" !in td then Err(KeyError("n"))
    else if td["n"] < 0 then Err(ValueError)
    else Ok(Linspace(td["t_min"], td["t_max"], td["n"]))
  }

  /** `solve_attractor(config, param_values)`: builds the grid, binds the parameters
      positionally and returns what `odeint` returns for that call. `odeint` itself
      is a parameter. There is no range check and no unknown-name check. */
  function SolveAttractor<S>(config: AttractorConfig, paramValues: map<string, real>, odeint: OdeintCall -> S): (r: Result<S>)
    ensures r.Ok? <==> TimeGrid(config.timeDefaults).Ok? && BindArgs(config.params, paramValues).Ok?
    ensures TimeGrid(config.timeDefaults).Err? ==> r == Err(TimeGrid(config.timeDefaults).error)
    ensures TimeGrid(config.timeDefaults).Ok? && BindArgs(config.params, paramValues).Err? ==>
              r == Err(BindArgs(config.params, paramValues).error)
    ensures r.Ok? ==> r.value == odeint(OdeintCall(config.equation, config.initialConditions,
                                                   TimeGrid(config.timeDefaults).value,
                                                   BindArgs(config.params, paramValues).value))
  {
    match TimeGrid(config.timeDefaults)
    case Err(e) => Err(e)
    case Ok(t) =>
      match BindArgs(config.params, paramValues)
      case Err(e) => Err(e)
      case Ok(args) => Ok(odeint(OdeintCall(config.equation, config.initialConditions, t, args)))
  }

  /** A well-formed entry solved with its defaults always reaches `odeint`, with the
      defaults in schema order, the entry's start state and a grid of `n >= 2` points
      over a non-empty span; the equation accepts that start state and those arguments. */
  lemma SolveWithDefaults<S>(config: AttractorConfig, odeint: OdeintCall -> S, t: real)
    requires WellFormed(config)
    ensures var td := config.timeDefaults;
            var call := OdeintCall(config.equation, config.initialConditions,
                                   Linspace(td["t_min"], td["t_max"], td["n"]), Defaults(config.params));
            && SolveAttractor(config, GetDefaultParams(config), odeint) == Ok(odeint(call))
            && call.t.start < call.t.stop && call.t.num >= 2
            && Evaluate(call.equation, call.y0, t, call.args).Ok?
  {
    BindDefaults(config);
  }

  /** The same for every catalog entry, whose grids have 10000 points. */
  lemma CatalogSolvesWithDefaults<S>(odeint: OdeintCall -> S, t: real)
    ensures forall k :: k in Catalog ==>
      var c := Catalog[k];
      && SolveAttractor(c, GetDefaultParams(c), odeint).Ok?
      && Evaluate(c.equation, c.initialConditions, t, Defaults(c.params)).Ok?
  {
    CatalogWellFormed();
    forall k | k in Catalog
      ensures SolveAttractor(Catalog[k], GetDefaultParams(Catalog[k]), odeint).Ok?
      ensures Evaluate(Catalog[k].equation, Catalog[k].initialConditions, t, Defaults(Catalog[k].params)).Ok?
    {
      SolveWithDefaults(Catalog[k], odeint, t);
    }
  }
}
