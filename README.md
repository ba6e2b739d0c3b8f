# Strange attractor visualiser — a Dafny model

This project models the non-numerical core of a small Streamlit app that simulates
and draws three chaotic systems (Lorenz, Rössler, Dadras).

- `attractors.dfy` (module `Attractors`) models `attractors.py`. It has the parameter
  schema records and the three catalog entries. The `ATTRACTORS` registry is `Catalog`.
  The three right-hand sides are one tagged variant, `Equation`. Also modelled:
  `get_default_params`, the positional binding of parameter values inside
  `solve_attractor`, and the time-grid lookups that come before the call to `odeint`.
- `plot.dfy` (module `Plot`) models the bookkeeping in `plot.py`:
  - looking up the selected entry;
  - the density sample size;
  - the animation step, the frame prefix lengths, the frames and their names;
  - the initial trace and the slider steps.
  A class `SessionState` stands for `st.session_state`. Its methods model the
  sidebar loop that fills `param_values`, `reset_parameters`, creating
  `saved_values`, and the "Save values" append.
- `builtins.dfy` (module `Builtins`) holds the Python runtime pieces the core relies
  on: the exceptions it raises (`KeyError`, `TypeError`, `ValueError`,
  `AttributeError`), a `Result` type that carries them, and `str` on non-negative
  integers with its inverse.

Python floats are modelled as exact `real`s, so constants such as `2.67` are exact.
`odeint` is a parameter of `SolveAttractor`, so the model states exactly which call
`solve_attractor` makes. The random draw and the density fit are not modelled.

Notes on what the code does:
- `solve_attractor` checks nothing. It does no range check and rejects no unknown
  parameter names. A missing schema name fails with `KeyError` (attractors.py:105),
  and extra keys are ignored.
- An unknown catalog key fails as a plain `KeyError` from the dict lookup
  (plot.py:33). There is no dedicated "unknown attractor" error.
- The frames come from `range(step, len(x), step)`, and the range excludes its stop.
  So the full trajectory is never a frame. For 10000 samples there are 303 frames,
  not at most 300. The proved bound is "fewer than 600".

## Model

| member | source | states |
|---|---|---|
| `Builtins.NatToString` | plot.py:99 | `str(i)` is a non-empty string of decimal digits with no leading zero |
| `Builtins.DecimalValueOfNatToString` | plot.py:99 | reading back the digits `str(i)` prints gives `i` again |
| `Builtins.NatToStringInjective` | plot.py:99 | `str(a) == str(b)` exactly when `a == b`, so frame names are unique |
| `Attractors.Evaluate` | attractors.py:26-75 | calling an equation succeeds exactly when it gets its arity's worth of arguments and a 3-vector state; otherwise `TypeError` (arguments) or `ValueError` (unpacking); success gives a 3-vector |
| `Attractors.LorenzSymmetry` | attractors.py:26-32 | the Lorenz field commutes with the rotation (x, y, z) -> (-x, -y, z) |
| `Attractors.LorenzAtOrigin` | attractors.py:26-32 | the origin is a Lorenz equilibrium for all parameters |
| `Attractors.LorenzEquilibria` | attractors.py:26-32 | the points (w, w, rho - 1) with w² = beta(rho - 1) are Lorenz equilibria |
| `Attractors.RosslerAtOrigin` | attractors.py:48-54 | at the origin the Rössler field is (0, 0, b) |
| `Attractors.DadrasEquilibrium` | attractors.py:70-75 | the origin is a Dadras equilibrium for all parameters |
| `Attractors.CatalogContents` | attractors.py:94-98 | the registry has exactly the keys Lorenz, Rossler and Dadras, each bound to its config; no key equals its config's `name` ("lorenz", "Rossler attractor", "Dadras attractor"); the select box lists those three keys |
| `Attractors.CatalogWellFormed` | attractors.py:35-92 | in every entry each default lies within [min_val, max_val], parameter names are pairwise distinct, the schema length is the equation's arity (3, 3, 5), the start state is a 3-vector, t_min < t_max, and n = 10000 ≥ 2 |
| `Attractors.DictByName` | attractors.py:113 | the dict comprehension over the schema has exactly the schema's names as keys |
| `Attractors.DictByNameLastWins` | attractors.py:113 | for a repeated name the last parameter's value wins; a name used once maps to its own parameter's value |
| `Attractors.GetDefaultParams` | attractors.py:112-113 | the default map has exactly the schema names as keys; with distinct names each maps to its parameter's default |
| `Attractors.DefaultsLastWins` | attractors.py:112-113 | with repeated names, a name maps to the default of the last parameter carrying it |
| `Attractors.BindArgs` | attractors.py:105 | binding is defined exactly when every schema name is a key; it then yields one value per parameter, `args[i] = param_values[params[i].name]`, in schema order; otherwise `KeyError` of the first missing name in schema order |
| `Attractors.BindDefaults` | attractors.py:105-113 | binding the default map gives the defaults in schema order |
| `Attractors.BindIgnoresExtraKeys` | attractors.py:105 | adding keys to a map that already binds changes nothing |
| `Attractors.TimeGrid` | attractors.py:102-103 | the grid is `linspace(t_min, t_max, n)` when all three keys exist and n ≥ 0; a missing key is the `KeyError` of the first missing one in the order "t_min", "t_max", "n"; a negative n is a `ValueError` |
| `Attractors.SolveAttractor` | attractors.py:101-109 | the result is defined exactly when the grid and the binding are; it is then `odeint` applied to the entry's equation, start state, grid and bound arguments; a grid error comes first, and otherwise a binding failure is the binding's `KeyError` |
| `Attractors.SolveWithDefaults` | attractors.py:101-113 | a well-formed entry solved with its defaults calls `odeint` with the defaults in schema order, on a grid of n ≥ 2 points over a non-empty span, and the equation accepts that state and those arguments |
| `Attractors.CatalogSolvesWithDefaults` | attractors.py:94-113 | every catalog entry solved with its defaults reaches `odeint`, and its equation accepts its start state and defaults |
| `Plot.SelectConfig` | plot.py:30-33 | the lookup succeeds exactly for registry keys and returns that entry; otherwise `KeyError` of the name |
| `Plot.SelectableOptions` | plot.py:30-33 | every option the select box offers selects a well-formed entry |
| `Plot.SampleSize` | plot.py:80 | the sample size is at most n and at most 1000, and equals one of the two |
| `Plot.CatalogSampleSize` | plot.py:78-81 | for every catalog entry the draw without replacement is well defined: 1000 of 10000 |
| `Plot.FrameStep` | plot.py:90 | `1 ≤ step`; `step ≤ len(x)` when `len(x) ≥ 1`; for `len(x) ≥ 300`, `300·step ≤ len(x) < 300·(step+1)`; below 600 samples the step is 1 |
| `Plot.Range` | plot.py:101 | `range(start, stop, step)` lists `start + i·step` for every value below `stop` and stops at the first one that is not |
| `Plot.FrameLengths` | plot.py:90-101 | prefix length k is `(k+1)·step`, strictly between 0 and `len(x)`, and lengths strictly increase; the full trajectory is never a frame |
| `Plot.FrameCount` | plot.py:90-101 | for `len(x) ≥ 1` the frame count is `ceil(len(x)/step) − 1` |
| `Plot.FramesEmpty` | plot.py:90-101 | there are no frames exactly when `len(x) ≤ step` |
| `Plot.FrameCountBound` | plot.py:90-101 | there are always fewer than 600 frames |
| `Plot.FramesOfTenThousand` | plot.py:90-101 | for 10000 samples the step is 33 and there are 303 frames, the last of 9999 samples |
| `Plot.PyPrefix` | plot.py:96 | `s[:i]` has length `min(i, len(s))` and is a prefix of `s` |
| `Plot.AnimationFrames` | plot.py:92-102 | there is one frame per prefix length; frame k shows the first `(k+1)·step` samples of x, y and z and is named `str((k+1)·step)` |
| `Plot.FrameSizes` | plot.py:92-102 | for equal-length columns frame k is exactly `x[..len], y[..len], z[..len]` with `0 < len < len(x)` |
| `Plot.FramesGrow` | plot.py:92-102 | each frame's x column strictly extends every earlier one's, and so do y and z when the columns have equal length; frame names are pairwise distinct |
| `Plot.InitialTrace` | plot.py:104-115 | the initial trace is `x[:step], y[:step], z[:step]`: each column a prefix of its input, of length `step` or the whole column if shorter; it is the first frame whenever frames exist |
| `Plot.SliderSteps` | plot.py:166-179 | one slider step per frame, in frame order, step k labelled `str(k)` and targeting frame k's name |
| `Plot.SliderStepsMatchFrames` | plot.py:166-179 | slider step k is labelled `str(k)`, which reads back as k, and targets the frame of `(k+1)·step` samples; labels are pairwise distinct, and so are targets |
| `Plot.WidgetKeyParts` | plot.py:19 | the key `f"{selected_name}_{name}"` is the attractor's key, then `_`, then the parameter's name |
| `Plot.WidgetKeyInjective` | plot.py:19 | under one attractor, two parameters share a session key `"{selected_name}_{name}"` only if they share a name |
| `Plot.SliderValues` | plot.py:38-48 | `param_values` has exactly the schema names as keys |
| `Plot.SliderValuesLastWins` | plot.py:38-48 | a name maps to what the slider of the last parameter carrying it shows |
| `Plot.SavedEntry` | plot.py:57 | the saved entry is `param_values` restricted to the schema names, one entry per name; a missing name is the `KeyError` the binding reports |
| `Plot.SaveSliderValues` | plot.py:38-58 | saving what the sliders show always succeeds and stores exactly those values |
| `Plot.ResetWidgets` | plot.py:16-20 | the reset writes leave exactly the old keys plus the reset keys |
| `Plot.ResetWidgetsSpec` | plot.py:16-20 | after the reset writes, each parameter's key holds its default, the key set grows by exactly the reset keys, and every other key keeps its value |
| `Plot.SlidersShowDefaults` | plot.py:16-48 | when every slider key holds its default, `param_values` is exactly `get_default_params(config)` |
| `Plot.ResetRestoresDefaults` | plot.py:16-46 | after a reset the sliders, which read the same keys, show exactly `get_default_params(config)` |
| `Plot.SessionState.InitSavedValues` | plot.py:35-36 | `saved_values` exists afterwards; it is `[]` if it was absent and unchanged otherwise |
| `Plot.SessionState.CollectParamValues` | plot.py:38-48 | the loop builds the map from each schema name to its slider's value, with exactly the schema names as keys |
| `Plot.SessionState.ResetParameters` | plot.py:16-20 | the new widget state is `ResetWidgets` of the old one with the defaults; the saved list is untouched |
| `Plot.SessionState.SaveValues` | plot.py:55-58 | appends exactly one entry, `SavedEntry(params, param_values)`, and leaves earlier entries unchanged; it fails and changes nothing when `saved_values` was never created or a schema name is missing |

## Left out

- `odeint` (attractors.py:107): an adaptive floating-point solver from SciPy. It is a function parameter of `SolveAttractor`, and nothing is assumed about it.
- The points of `np.linspace` (attractors.py:103): the grid is kept as its arguments. Only its length `n` and its span are stated.
- `np.random.choice` and `gaussian_kde` (plot.py:81-83): randomness and floating-point density fitting. Only the sample size is modelled.
- Streamlit widgets, containers and text (plot.py:13, 24-33, 40-47, 50-53, 60-64, 69-76, 88, 201): UI plumbing. The model keeps one rule of keyed widgets: a slider shows the session value under its key if there is one, and its `value=` default otherwise (`SliderValue`). It does not model a slider writing its key into the session, or a slider keeping its value within its bounds.
- The order in which `reset_parameters` walks the default map: `ResetParameters` walks the schema instead. It writes the same keys with the same values, so the final state is the same.
- The Plotly figure outside the frame and slider indexing (plot.py:84-86, 104-199): presentation only. The marker dict, the play and pause buttons, the layout and the camera are left out.
- The floating-point behaviour of the right-hand sides: they are exact `real` arithmetic.
- The `step = 0.1` default of `AttractorParam` (attractors.py:14): every catalog entry passes its step explicitly.
