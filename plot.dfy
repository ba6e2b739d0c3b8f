/** The bookkeeping of the Streamlit page: which attractor is selected, the animation
    frames and their slider, the density sample size, and the session-state updates
    behind the "Reset" and "Save values" buttons. Widgets and Plotly figures are not
    modelled; the trajectory arrives as its three coordinate columns. */
module Plot {
  import opened Builtins
  import opened Attractors

  // ---------------------------------------------------------------------------
  // Selecting an attractor

  /** `ATTRACTORS[selected_name]`: the config, or `KeyError` for an unknown name. */
  function SelectConfig(selectedName: string): (r: Result<AttractorConfig>)
    ensures r.Ok? <==> selectedName in Catalog
    ensures r.Ok? ==> r.value == Catalog[selectedName]
    ensures r.Err? ==> r.error == KeyError(selectedName)
  {
    if selectedName in Catalog then Ok(Catalog[selectedName]) else Err(KeyError(selectedName))
  }

  /** Every option the select box offers selects a well-formed entry. */
  lemma SelectableOptions()
    ensures forall i :: 0 <= i < |CatalogKeys| ==>
      SelectConfig(CatalogKeys[i]).Ok? && WellFormed(SelectConfig(CatalogKeys[i]).value)
  {
    CatalogContents();
    CatalogWellFormed();
  }

  // ---------------------------------------------------------------------------
  // Density sample size

  /** `min(1000, n)`: the number of points drawn without replacement to fit the density. */
  function SampleSize(n: int): (size: int)
    ensures size <= n && size <= 1000
    ensures size == n || size == 1000
  {
    if 1000 <= n then 1000 else n
  }

  /** For every catalog entry `np.random.choice(n, sample_size, replace=False)` is
      well defined: 1000 distinct indices out of the entry's 10000. */
  lemma CatalogSampleSize()
    ensures forall k :: k in Catalog ==>
      var n := Catalog[k].timeDefaults["n"];
      0 <= SampleSize(n) <= n && SampleSize(n) == 1000
  {
    CatalogWellFormed();
  }

  // ---------------------------------------------------------------------------
  // Animation frames

  /** The number of frames the animation aims at. */
  const MaxFrames: nat := 300

  /** `max(1, len(x) // 300)`. */
  function FrameStep(n: nat): (step: nat)
    ensures 1 <= step
    ensures n >= 1 ==> step <= n
    ensures n >= MaxFrames ==> step * MaxFrames <= n < (step + 1) * MaxFrames
    ensures n < 2 * MaxFrames ==> step == 1
  {
    if n / MaxFrames >= 1 then n / MaxFrames else 1
  }

  /** Python's `range(start, stop, step)` for a positive step: start, start + step, ...,
      every value below stop, and nothing else. */
  function Range(start: int, stop: int, step: int): (r: seq<int>)
    requires step > 0
    ensures forall i :: 0 <= i < |r| ==> r[i] == start + i * step && r[i] < stop
    ensures start >= stop ==> r == []
    ensures start < stop ==> |r| >= 1 && stop <= start + |r| * step
    decreases stop - start
  {
    if start >= stop then []
    else
      var rest := Range(start + step, stop, step);
      var r := [start] + rest;
      assert forall i :: 1 <= i < |r| ==> r[i] == start + i * step by {
        forall i | 1 <= i < |r| ensures r[i] == start + i * step {
          assert r[i] == rest[i - 1];
          MulSucc(i - 1, step);
        }
      }
      MulSucc(|rest|, step);
      r
  }

  lemma MulSucc(a: int, b: int)
    ensures (a + 1) * b == a * b + b
  {
  }

  lemma MulMonotone(a: int, b: int, s: int)
    requires a <= b && s >= 0
    ensures a * s <= b * s
  {
    assert b * s == a * s + (b - a) * s;
  }

  /** Euclidean division is pinned down by its bracket. */
  lemma DivPinned(m: int, s: int, q: int)
    requires s >= 1 && q * s <= m < (q + 1) * s
    ensures m / s == q
  {
    var q' := m / s;
    assert m == q' * s + m % s && 0 <= m % s < s;
    MulSucc(q', s);
    if q' < q {
      MulMonotone(q' + 1, q, s);
      assert false;
    } else if q' > q {
      MulMonotone(q + 1, q', s);
      assert false;
    }
  }

  /** The prefix lengths `range(step, len(x), step)` the frames are cut at. */
  function FrameLengths(n: nat): (ls: seq<int>)
    ensures forall k :: 0 <= k < |ls| ==> ls[k] == (k + 1) * FrameStep(n)
    ensures forall k :: 0 <= k < |ls| ==> 0 < ls[k] < n
    ensures forall j, k :: 0 <= j < k < |ls| ==> ls[j] < ls[k]
  {
    var step := FrameStep(n);
    var ls := Range(step, n, step);
    assert forall k :: 0 <= k < |ls| ==> ls[k] == (k + 1) * step && ls[k] > 0 by {
      forall k | 0 <= k < |ls| ensures ls[k] == (k + 1) * step && ls[k] > 0 {
        MulSucc(k, step);
        MulMonotone(0, k, step);
      }
    }
    assert forall j, k :: 0 <= j < k < |ls| ==> ls[j] < ls[k] by {
      forall j, k | 0 <= j < k < |ls| ensures ls[j] < ls[k] {
        MulSucc(j, step);
        MulMonotone(j + 1, k, step);
      }
    }
    ls
  }

  /** The frame count is `ceil(len(x) / step) - 1` for a non-empty trajectory. */
  lemma FrameCount(n: nat)
    requires n >= 1
    ensures |FrameLengths(n)| == (n + FrameStep(n) - 1) / FrameStep(n) - 1
  {
    var step := FrameStep(n);
    var ls := FrameLengths(n);
    var k := |ls|;
    if k == 0 {
      FramesEmpty(n);
      DivPinned(n + step - 1, step, 1);
    } else {
      assert ls[k - 1] == k * step < n;
      assert n <= step + k * step by { RangeCovers(n); }
      MulSucc(k, step);
      DivPinned(n + step - 1, step, k + 1);
    }
  }

  /** The last frame length leaves less than one step to the end. */
  lemma RangeCovers(n: nat)
    ensures FrameStep(n) < n ==> n <= FrameStep(n) + |FrameLengths(n)| * FrameStep(n)
  {
  }

  /** There are no frames exactly when the trajectory is no longer than one step. */
  lemma FramesEmpty(n: nat)
    ensures FrameLengths(n) == [] <==> n <= FrameStep(n)
  {
    if n > FrameStep(n) {
      assert Range(FrameStep(n), n, FrameStep(n)) != [];
    }
  }

  /** There are always fewer than 600 frames (the animation aims at about 300). */
  lemma FrameCountBound(n: nat)
    ensures |FrameLengths(n)| < 2 * MaxFrames
  {
    var step := FrameStep(n);
    var ls := FrameLengths(n);
    var k := |ls|;
    if k > 0 {
      assert ls[k - 1] == k * step < n;
      if n >= MaxFrames {
        assert n < (step + 1) * MaxFrames;
        MulSucc(step, MaxFrames);
        if k >= 2 * MaxFrames {
          MulMonotone(2 * MaxFrames, k, step);
          assert false;
        }
      } else {
        assert step == 1;
      }
    }
  }

  /** For the catalog's 10000 samples the step is 33 and there are 303 frames, the
      last one of 9999 samples. */
  lemma FramesOfTenThousand()
    ensures FrameStep(10000) == 33
    ensures |FrameLengths(10000)| == 303
    ensures FrameLengths(10000)[302] == 9999
  {
    var ls := FrameLengths(10000);
    var r := Range(33, 10000, 33);
    assert ls == r;
    assert r[|r| - 1] == 33 + (|r| - 1) * 33 < 10000;
    assert 10000 <= 33 + |r| * 33;
  }

  /** One coordinate column cut at `i`, as `x[:i]` does for `i >= 0`. */
  function PyPrefix(s: seq<real>, i: nat): (p: seq<real>)
    ensures |p| == if i <= |s| then i else |s|
    ensures p <= s
  {
    if i <= |s| then s[..i] else s
  }

  /** The three columns of a (partial) trajectory, as one `Scatter3d` trace shows them. */
  datatype Trace = Trace(x: seq<real>, y: seq<real>, z: seq<real>)

  function PrefixTrace(x: seq<real>, y: seq<real>, z: seq<real>, i: nat): Trace {
    Trace(PyPrefix(x, i), PyPrefix(y, i), PyPrefix(z, i))
  }

  /** One `go.Frame`: its trace and its name. */
  datatype Frame = Frame(data: Trace, name: string)

  /** The frame list: frame k shows the first `(k + 1) * step` samples and is named
      `str` of that length. The whole trajectory is never a frame. */
  function AnimationFrames(x: seq<real>, y: seq<real>, z: seq<real>): (frames: seq<Frame>)
    ensures |frames| == |FrameLengths(|x|)|
    ensures forall k :: 0 <= k < |frames| ==>
      && frames[k].data == PrefixTrace(x, y, z, (k + 1) * FrameStep(|x|))
      && frames[k].name == NatToString((k + 1) * FrameStep(|x|))
  {
    var ls := FrameLengths(|x|);
    seq(|ls|, k requires 0 <= k < |ls| => Frame(PrefixTrace(x, y, z, ls[k]), NatToString(ls[k])))
  }

  /** For columns of equal length, frame k is exactly the first `FrameLengths(len(x))[k]`
      samples of each column, never all of them. */
  lemma FrameSizes(x: seq<real>, y: seq<real>, z: seq<real>)
    requires |y| == |x| && |z| == |x|
    ensures var fs, ls := AnimationFrames(x, y, z), FrameLengths(|x|);
            forall k :: 0 <= k < |fs| ==>
              && 0 < ls[k] < |x|
              && fs[k].data == Trace(x[..ls[k]], y[..ls[k]], z[..ls[k]])
  {
    var fs, ls := AnimationFrames(x, y, z), FrameLengths(|x|);
    forall k | 0 <= k < |fs|
      ensures 0 < ls[k] < |x| && fs[k].data == Trace(x[..ls[k]], y[..ls[k]], z[..ls[k]])
    {
      assert fs[k].data == PrefixTrace(x, y, z, ls[k]);
    }
  }

  /** The trace the figure starts with, `x[:step]`. */
  function InitialTrace(x: seq<real>, y: seq<real>, z: seq<real>): (t: Trace)
    ensures AnimationFrames(x, y, z) != [] ==> t == AnimationFrames(x, y, z)[0].data
    ensures t.x <= x && t.y <= y && t.z <= z
    ensures |t.x| == if FrameStep(|x|) <= |x| then FrameStep(|x|) else |x|
    ensures |t.y| == if FrameStep(|x|) <= |y| then FrameStep(|x|) else |y|
    ensures |t.z| == if FrameStep(|x|) <= |z| then FrameStep(|x|) else |z|
  {
    PrefixTrace(x, y, z, FrameStep(|x|))
  }

  /** Each frame extends the previous one, and frame names are pairwise distinct. */
  lemma FramesGrow(x: seq<real>, y: seq<real>, z: seq<real>)
    ensures var fs := AnimationFrames(x, y, z);
            forall j, k :: 0 <= j < k < |fs| ==>
              && fs[j].data.x < fs[k].data.x
              && fs[j].name != fs[k].name
    ensures var fs := AnimationFrames(x, y, z);
            |y| == |x| && |z| == |x| ==>
              forall j, k :: 0 <= j < k < |fs| ==> fs[j].data.y < fs[k].data.y && fs[j].data.z < fs[k].data.z
  {
    var fs := AnimationFrames(x, y, z);
    var ls := FrameLengths(|x|);
    forall j, k | 0 <= j < k < |fs|
      ensures fs[j].data.x < fs[k].data.x && fs[j].name != fs[k].name
    {
      assert ls[j] < ls[k];
      NatToStringInjective(ls[j], ls[k]);
    }
    if |y| == |x| && |z| == |x| {
      FrameSizes(x, y, z);
      forall j, k | 0 <= j < k < |fs|
        ensures fs[j].data.y < fs[k].data.y && fs[j].data.z < fs[k].data.z
      {
        assert ls[j] < ls[k];
      }
    }
  }

  // ---------------------------------------------------------------------------
  // Slider steps

  /** One entry of the slider's `steps`: its label and the frame it animates to. */
  datatype SliderStep = SliderStep(labelText: string, target: string)

  /** `[{"args": [[f.name], ...], "label": str(i), ...} for i, f in enumerate(frames)]`. */
  function SliderSteps(frames: seq<Frame>): (steps: seq<SliderStep>)
    ensures |steps| == |frames|
    ensures forall k :: 0 <= k < |steps| ==> steps[k].target == frames[k].name
    ensures forall k :: 0 <= k < |steps| ==> steps[k].labelText == NatToString(k)
  {
    seq(|frames|, k requires 0 <= k < |frames| => SliderStep(NatToString(k), frames[k].name))
  }

  /** Slider step k reads "k" and targets the frame showing `(k + 1) * step` samples;
      labels and targets are pairwise distinct. */
  lemma SliderStepsMatchFrames(x: seq<real>, y: seq<real>, z: seq<real>)
    ensures var fs := AnimationFrames(x, y, z);
            var steps := SliderSteps(fs);
            && |steps| == |fs|
            && (forall k :: 0 <= k < |steps| ==>
                  && steps[k].labelText == NatToString(k)
                  && DecimalValue(steps[k].labelText) == k
                  && DecimalValue(steps[k].target) == (k + 1) * FrameStep(|x|)
                  && |fs[k].data.x| == DecimalValue(steps[k].target))
            && (forall j, k :: 0 <= j < k < |steps| ==>
                  steps[j].labelText != steps[k].labelText && steps[j].target != steps[k].target)
  {
    var fs := AnimationFrames(x, y, z);
    var steps := SliderSteps(fs);
    forall k | 0 <= k < |steps|
      ensures DecimalValue(steps[k].labelText) == k
      ensures DecimalValue(steps[k].target) == (k + 1) * FrameStep(|x|)
    {
      DecimalValueOfNatToString(k);
      DecimalValueOfNatToString((k + 1) * FrameStep(|x|));
    }
    FramesGrow(x, y, z);
    forall j, k | 0 <= j < k < |steps| ensures steps[j].labelText != steps[k].labelText {
      NatToStringInjective(j, k);
    }
  }

  // ---------------------------------------------------------------------------
  // Session state

  /** `f"{selected_name}_{param.name}"`, the session key of a parameter's slider. */
  function WidgetKey(selectedName: string, paramName: string): string {
    selectedName + "_" + paramName
  }

  /** A slider key is the attractor's key, an underscore and the parameter's name. */
  lemma WidgetKeyParts(selectedName: string, paramName: string)
    ensures var k := WidgetKey(selectedName, paramName);
            && |k| == |selectedName| + 1 + |paramName|
            && k[..|selectedName|] == selectedName && k[|selectedName|] == '_'
            && k[|selectedName| + 1..] == paramName
  {
  }

  /** Under one attractor, different parameters have different slider keys. */
  lemma WidgetKeyInjective(selectedName: string, a: string, b: string)
    ensures WidgetKey(selectedName, a) == WidgetKey(selectedName, b) <==> a == b
  {
    if WidgetKey(selectedName, a) == WidgetKey(selectedName, b) {
      WidgetKeyParts(selectedName, a);
      WidgetKeyParts(selectedName, b);
    }
  }

  /** The value a keyed slider shows: the session's value under its key when there
      is one, otherwise the `value=` default it was created with. */
  function SliderValue(widgets: map<string, real>, key: string, default: real): (v: real)
    ensures key in widgets ==> v == widgets[key]
    ensures key !in widgets ==> v == default
  {
    if key in widgets then widgets[key] else default
  }

  /** `param_values` as the loop of the sidebar builds it. */
  function SliderValues(widgets: map<string, real>, ps: seq<AttractorParam>, selectedName: string): (m: map<string, real>)
    ensures m.Keys == Names(ps)
  {
    DictByName(ps, (p: AttractorParam) => SliderValue(widgets, WidgetKey(selectedName, p.name), p.default))
  }

  /** The entry "Save values" appends, `{p.name: param_values[p.name] for p in params}`:
      `param_values` restricted to the schema names, or the `KeyError` of the first
      schema name it lacks. */
  function SavedEntry(ps: seq<AttractorParam>, paramValues: map<string, real>): (r: Result<map<string, real>>)
    ensures r.Ok? <==> Names(ps) <= paramValues.Keys
    ensures r.Ok? ==> r.value.Keys == Names(ps) && forall n :: n in r.value ==> r.value[n] == paramValues[n]
    ensures r.Err? ==> r == Err(BindArgs(ps, paramValues).error)
  {
    match BindArgs(ps, paramValues)
    case Err(e) => Err(e)
    case Ok(_) => Ok(map n | n in Names(ps) :: paramValues[n])
  }

  /** Saving what the sliders show always succeeds and stores exactly those values. */
  lemma SaveSliderValues(widgets: map<string, real>, ps: seq<AttractorParam>, selectedName: string)
    ensures SavedEntry(ps, SliderValues(widgets, ps, selectedName)) == Ok(SliderValues(widgets, ps, selectedName))
  {
    var pv := SliderValues(widgets, ps, selectedName);
    var r := SavedEntry(ps, pv);
    assert r.value == pv;
  }

  /** Every parameter's name is a key of `m`. */
  predicate NamedIn(ps: seq<AttractorParam>, m: map<string, real>) {
    forall i :: 0 <= i < |ps| ==> ps[i].name in m
  }

  /** The slider keys `reset_parameters` writes. */
  function ResetKeys(ps: seq<AttractorParam>, selectedName: string): set<string> {
    set i | 0 <= i < |ps| :: WidgetKey(selectedName, ps[i].name)
  }

  /** The widget state after the reset loop has written the keys of `ps`, in order. */
  function ResetWidgets(widgets: map<string, real>, ps: seq<AttractorParam>, selectedName: string,
                        defaults: map<string, real>): (m: map<string, real>)
    requires NamedIn(ps, defaults)
    ensures m.Keys == widgets.Keys + ResetKeys(ps, selectedName)
    decreases |ps|
  {
    if ps == [] then widgets
    else
      var last := ps[|ps| - 1];
      assert forall i :: 0 <= i < |ps| - 1 ==> ps[..|ps| - 1][i] == ps[i];
      ResetKeysSnoc(ps, selectedName);
      ResetWidgets(widgets, ps[..|ps| - 1], selectedName, defaults)[WidgetKey(selectedName, last.name) := defaults[last.name]]
  }

  /** After the reset writes, each parameter's key holds `defaults[p.name]`, the keys are
      the old ones plus the reset keys, and every other key keeps its value. */
  lemma {:induction false} ResetWidgetsSpec(widgets: map<string, real>, ps: seq<AttractorParam>, selectedName: string,
                                            defaults: map<string, real>)
    requires NamedIn(ps, defaults)
    ensures var w := ResetWidgets(widgets, ps, selectedName, defaults);
            && w.Keys == widgets.Keys + ResetKeys(ps, selectedName)
            && (forall i :: 0 <= i < |ps| ==>
                  WidgetKey(selectedName, ps[i].name) in w && w[WidgetKey(selectedName, ps[i].name)] == defaults[ps[i].name])
            && (forall k :: k in widgets && k !in ResetKeys(ps, selectedName) ==> w[k] == widgets[k])
    decreases |ps|
  {
    if ps != [] {
      var init := ps[..|ps| - 1];
      assert forall i :: 0 <= i < |init| ==> init[i] == ps[i];
      ResetWidgetsSpec(widgets, init, selectedName, defaults);
      ResetKeysSnoc(ps, selectedName);
      var w0 := ResetWidgets(widgets, init, selectedName, defaults);
      assert forall i :: 0 <= i < |ps| - 1 ==> WidgetKey(selectedName, ps[i].name) in ResetKeys(init, selectedName) by {
        forall i | 0 <= i < |ps| - 1 ensures WidgetKey(selectedName, ps[i].name) in ResetKeys(init, selectedName) {
          assert WidgetKey(selectedName, init[i].name) in ResetKeys(init, selectedName);
        }
      }
      ResetValuesSnoc(w0, ps, selectedName, defaults);
    }
  }

  lemma ResetKeysSnoc(ps: seq<AttractorParam>, selectedName: string)
    requires ps != []
    ensures ResetKeys(ps, selectedName)
         == ResetKeys(ps[..|ps| - 1], selectedName) + {WidgetKey(selectedName, ps[|ps| - 1].name)}
  {
    var init := ps[..|ps| - 1];
    assert forall i :: 0 <= i < |init| ==> init[i] == ps[i];
    forall key | key in ResetKeys(ps, selectedName)
      ensures key in ResetKeys(init, selectedName) + {WidgetKey(selectedName, ps[|ps| - 1].name)}
    {
      var i :| 0 <= i < |ps| && key == WidgetKey(selectedName, ps[i].name);
      if i < |init| { assert key == WidgetKey(selectedName, init[i].name); }
    }
  }

  /** Writing the last parameter's key keeps the earlier parameters' keys at their
      defaults: a key it overwrites belongs to the same name. */
  lemma ResetValuesSnoc(w0: map<string, real>, ps: seq<AttractorParam>, selectedName: string,
                        defaults: map<string, real>)
    requires ps != [] && NamedIn(ps, defaults)
    requires forall i :: 0 <= i < |ps| - 1 ==>
      WidgetKey(selectedName, ps[i].name) in w0 && w0[WidgetKey(selectedName, ps[i].name)] == defaults[ps[i].name]
    ensures var last := ps[|ps| - 1];
            var w := w0[WidgetKey(selectedName, last.name) := defaults[last.name]];
            forall i :: 0 <= i < |ps| ==> w[WidgetKey(selectedName, ps[i].name)] == defaults[ps[i].name]
  {
    var init, last := ps[..|ps| - 1], ps[|ps| - 1];
    var w := w0[WidgetKey(selectedName, last.name) := defaults[last.name]];
    forall i | 0 <= i < |ps| ensures w[WidgetKey(selectedName, ps[i].name)] == defaults[ps[i].name] {
      if i < |init| {
        WidgetKeyInjective(selectedName, ps[i].name, last.name);
      }
    }
  }

  /** One more iteration of the reset loop writes one more key. */
  lemma ResetWidgetsStep(widgets: map<string, real>, ps: seq<AttractorParam>, i: int, selectedName: string,
                         defaults: map<string, real>)
    requires 0 <= i < |ps| && NamedIn(ps, defaults)
    ensures NamedIn(ps[..i], defaults) && NamedIn(ps[..i + 1], defaults)
    ensures ResetWidgets(widgets, ps[..i + 1], selectedName, defaults)
         == ResetWidgets(widgets, ps[..i], selectedName, defaults)[WidgetKey(selectedName, ps[i].name) := defaults[ps[i].name]]
  {
    assert ps[..i + 1][..i] == ps[..i];
  }

  /** After "Reset" the sliders of the selected attractor show its defaults again. */
  lemma ResetRestoresDefaults(widgets: map<string, real>, config: AttractorConfig, selectedName: string)
    ensures var w := ResetWidgets(widgets, config.params, selectedName, GetDefaultParams(config));
            SliderValues(w, config.params, selectedName) == GetDefaultParams(config)
  {
    var d := GetDefaultParams(config);
    ResetWidgetsSpec(widgets, config.params, selectedName, d);
    SlidersShowDefaults(ResetWidgets(widgets, config.params, selectedName, d), config, selectedName);
  }

  /** Sliders whose keys all hold their defaults show exactly `get_default_params(config)`. */
  lemma SlidersShowDefaults(w: map<string, real>, config: AttractorConfig, selectedName: string)
    requires forall i :: 0 <= i < |config.params| ==>
      var key := WidgetKey(selectedName, config.params[i].name);
      key in w && w[key] == GetDefaultParams(config)[config.params[i].name]
    ensures SliderValues(w, config.params, selectedName) == GetDefaultParams(config)
  {
    var ps, d := config.params, GetDefaultParams(config);
    var sv := SliderValues(w, ps, selectedName);
    assert sv.Keys == d.Keys;
    forall n | n in d ensures sv[n] == d[n] {
      var i :| 0 <= i < |ps| && ps[i].name == n;
      var j := LastIndexOf(ps, i);
      SliderValuesLastWins(w, ps, selectedName, j);
    }
  }

  lemma SliderValuesLastWins(widgets: map<string, real>, ps: seq<AttractorParam>, selectedName: string, j: int)
    requires 0 <= j < |ps| && LastWithName(ps, j)
    ensures SliderValues(widgets, ps, selectedName)[ps[j].name]
         == SliderValue(widgets, WidgetKey(selectedName, ps[j].name), ps[j].default)
  {
    DictByNameLastWins(ps, (p: AttractorParam) => SliderValue(widgets, WidgetKey(selectedName, p.name), p.default), j);
  }

  /** The last position holding the same name as `ps[i]`. */
  lemma LastIndexOf(ps: seq<AttractorParam>, i: int) returns (j: int)
    requires 0 <= i < |ps|
    ensures i <= j < |ps| && ps[j].name == ps[i].name && LastWithName(ps, j)
    decreases |ps| - i
  {
    if exists k :: i < k < |ps| && ps[k].name == ps[i].name {
      var k :| i < k < |ps| && ps[k].name == ps[i].name;
      j := LastIndexOf(ps, k);
    } else {
      j := i;
    }
  }

  /** The parts of `st.session_state` the page reads and writes: the slider values
      under their widget keys, and the list of saved parameter sets (absent until the
      page first creates it). */
  class SessionState {
    var widgets: map<string, real>
    var hasSavedValues: bool
    var savedValues: seq<map<string, real>>

    /** A fresh session holds nothing. */
    constructor ()
      ensures widgets == map[] && !hasSavedValues && savedValues == []
    {
      widgets := map[];
      hasSavedValues := false;
      savedValues := [];
    }

    /** `if "saved_values" not in st.session_state: st.session_state.saved_values = []`. */
    method InitSavedValues()
      modifies this`hasSavedValues, this`savedValues
      ensures hasSavedValues
      ensures savedValues == if old(hasSavedValues) then old(savedValues) else []
      ensures widgets == old(widgets)
    {
      if !hasSavedValues {
        savedValues := [];
        hasSavedValues := true;
      }
    }

    /** The sidebar loop: one slider per schema parameter, its value stored under the
      parameter's name. */
    method CollectParamValues(config: AttractorConfig, selectedName: string) returns (paramValues: map<string, real>)
      ensures paramValues == SliderValues(widgets, config.params, selectedName)
      ensures paramValues.Keys == Names(config.params)
    {
      var w := widgets;
      var f := (p: AttractorParam) => SliderValue(w, WidgetKey(selectedName, p.name), p.default);
      paramValues := map[];
      var i := 0;
      while i < |config.params|
        invariant 0 <= i <= |config.params|
        invariant paramValues == DictByName(config.params[..i], f)
      {
        var param := config.params[i];
        var value := SliderValue(w, WidgetKey(selectedName, param.name), param.default);
        assert config.params[..i + 1][..i] == config.params[..i];
        assert DictByName(config.params[..i + 1], f) == DictByName(config.params[..i], f)[param.name := value];
        paramValues := paramValues[param.name := value];
        i := i + 1;
      }
      assert config.params[..i] == config.params;
    }

    /** `reset_parameters(config, selected_name)`: every slider key of the selected
      attractor is set to its parameter's default; all other session keys keep their
      values. The source walks the default map in insertion order; walking the schema
      writes the same keys with the same values. */
    method ResetParameters(config: AttractorConfig, selectedName: string)
      modifies this`widgets
      ensures widgets == ResetWidgets(old(widgets), config.params, selectedName, GetDefaultParams(config))
      ensures hasSavedValues == old(hasSavedValues) && savedValues == old(savedValues)
    {
      var params := GetDefaultParams(config);
      assert NamedIn(config.params, params);
      var i := 0;
      while i < |config.params|
        invariant 0 <= i <= |config.params|
        invariant widgets == ResetWidgets(old(widgets), config.params[..i], selectedName, params)
      {
        var name := config.params[i].name;
        ResetWidgetsStep(old(widgets), config.params, i, selectedName, params);
        widgets := widgets[WidgetKey(selectedName, name) := params[name]];
        i := i + 1;
      }
      assert config.params[..i] == config.params;
    }

    /** The "Save values" button: appends one entry built from `paramValues`, or raises
      (and changes nothing) when the list was never created or a schema name is missing. */
    method SaveValues(config: AttractorConfig, paramValues: map<string, real>) returns (outcome: Outcome)
      modifies this`savedValues
      ensures !old(hasSavedValues) ==> outcome == Fail(AttributeError("saved_values"))
      ensures old(hasSavedValues) && SavedEntry(config.params, paramValues).Err? ==>
        outcome == Fail(SavedEntry(config.params, paramValues).error)
      ensures outcome.Pass? <==> old(hasSavedValues) && SavedEntry(config.params, paramValues).Ok?
      ensures savedValues == if outcome.Pass? then old(savedValues) + [SavedEntry(config.params, paramValues).value]
                             else old(savedValues)
      ensures widgets == old(widgets) && hasSavedValues == old(hasSavedValues)
    {
      if !hasSavedValues {
        return Fail(AttributeError("saved_values"));
      }
      var entry := SavedEntry(config.params, paramValues);
      if entry.Err? {
        return Fail(entry.error);
      }
      savedValues := savedValues + [entry.value];
      outcome := Pass;
    }
  }
}
