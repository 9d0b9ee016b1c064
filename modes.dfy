/** The two run loops of the adaptor (src/modes.rs): the default loop for
    OS 15 and later, which follows the OS brightness and screen-state
    properties, and the display-panel loop for OS 14 and earlier, which
    ramps the hardware value toward the panel file. Each loop body is a
    pure step function over the values it reads in one iteration; the
    loop objects apply those steps to their state. The three floating-point
    curves of src/scaling.rs are a parameter (`Curves`). */
module Modes {
  import opened Base
  import opened Decimal
  import opened Properties
  import opened Writer
  import opened State
  import opened Utils
  import opened Range

  /** `get_prop(key).as_deref() == Some(text)`, the test behind the mode
      flags. */
  function PropIs(props: Props, k: Key, text: string): (r: bool)
    requires text != []
    ensures r <==> k in props && props[k] == text
  {
    GetProp(props, k) == Some(text)
  }

  /** `run`: panel mode when the panel-support flag reads "true". */
  function IsPanelMode(props: Props): (r: bool)
    ensures r <==> PanelSupport in props && props[PanelSupport] == "true"
  {
    PropIs(props, PanelSupport, "true")
  }

  /** `is_ips_mode`. */
  function IsIpsMode(props: Props): (r: bool)
    ensures r <==> DisplayType in props && props[DisplayType] == "IPS"
  {
    PropIs(props, DisplayType, "IPS")
  }

  /** `is_lux_aod_mode`. */
  function IsLuxAodMode(props: Props): (r: bool)
    ensures r <==> LuxAod in props && props[LuxAod] == "true"
  {
    PropIs(props, LuxAod, "true")
  }

  datatype ScalingMode = Curved | Linear | Custom

  /** `get_brightness_mode` followed by the `match` on it: 1 is linear, 2
      is custom, anything else (a missing or unparseable value reads as 0)
      is curved. */
  function CurrentMode(props: Props): (m: ScalingMode)
    ensures m == Linear <==> GetPropInt(props, BrightnessMode) == Some(1)
    ensures m == Custom <==> GetPropInt(props, BrightnessMode) == Some(2)
    ensures m == Curved <==> GetPropInt(props, BrightnessMode) != Some(1) && GetPropInt(props, BrightnessMode) != Some(2)
  {
    match GetPropInt(props, BrightnessMode).GetOr(0)
    case 1 => Linear
    case 2 => Custom
    case _ => Curved
  }

  /** A scaler `(val, hw_min, hw_max, input_min, input_max) -> hw value`. */
  type ScaleFn = (int, int, int, int, int) -> int

  /** The three curves of src/scaling.rs, which are floating-point and
      therefore not modelled here. */
  datatype Curves = Curves(linear: ScaleFn, custom: ScaleFn, curved: ScaleFn)

  /** The hardware range and the logical input range a loop scales with. */
  datatype Bounds = Bounds(hwMin: int, hwMax: int, inMin: int, inMax: int)

  /** The curve the mode selects, applied to `v`. */
  function Scale(c: Curves, m: ScalingMode, v: int, b: Bounds): (r: int)
    ensures m == Linear ==> r == c.linear(v, b.hwMin, b.hwMax, b.inMin, b.inMax)
    ensures m == Custom ==> r == c.custom(v, b.hwMin, b.hwMax, b.inMin, b.inMax)
    ensures m == Curved ==> r == c.curved(v, b.hwMin, b.hwMax, b.inMin, b.inMax)
  {
    match m
    case Linear => c.linear(v, b.hwMin, b.hwMax, b.inMin, b.inMax)
    case Custom => c.custom(v, b.hwMin, b.hwMax, b.inMin, b.inMax)
    case Curved => c.curved(v, b.hwMin, b.hwMax, b.inMin, b.inMax)
  }

  // ---------------------------------------------------------------------
  // Hardware range and startup

  /** Hardware bounds looked up at startup (minimum first, then maximum),
      with the `set_prop` calls made while finding them. */
  datatype HwBounds = HwBounds(hwMin: int, hwMax: int, sets: seq<SetCall>)

  /** `get_min_brightness` then `get_max_brightness`. */
  function LookupHw(props: Props, minFile: Option<string>, maxFile: Option<string>): (r: HwBounds)
    // the two lookups do not see each other's cache writes
    ensures r.hwMin == MinBrightness(props, minFile).value
    ensures r.hwMax == MaxBrightness(props, maxFile).value
    ensures r.sets == MinBrightness(props, minFile).sets + MaxBrightness(props, maxFile).sets
  {
    var lo := MinBrightness(props, minFile);
    MaxIgnoresMinCache(props, minFile, maxFile);
    var hi := MaxBrightness(Apply(props, lo.sets), maxFile);
    HwBounds(lo.value, hi.value, lo.sets + hi.sets)
  }

  /** The maximum looked up after the minimum is the one looked up on the
      original store. */
  lemma MaxIgnoresMinCache(props: Props, minFile: Option<string>, maxFile: Option<string>)
    ensures MaxBrightness(Apply(props, MinBrightness(props, minFile).sets), maxFile) == MaxBrightness(props, maxFile)
  {
    MinSetsKeepOtherKeys(props, minFile);
    var p := Apply(props, MinBrightness(props, minFile).sets);
    assert GetProp(p, CustomDevMax) == GetProp(props, CustomDevMax);
    assert GetProp(p, CachedHwMax) == GetProp(props, CachedHwMax);
    MaxBrightnessReadsTwoKeys(p, props, maxFile);
  }

  /** The maximum depends on the store only through the custom override and
      the cached maximum. */
  lemma MaxBrightnessReadsTwoKeys(p: Props, q: Props, maxFile: Option<string>)
    requires GetProp(p, CustomDevMax) == GetProp(q, CustomDevMax)
    requires GetProp(p, CachedHwMax) == GetProp(q, CachedHwMax)
    ensures MaxBrightness(p, maxFile) == MaxBrightness(q, maxFile)
  {
    assert GetPropInt(p, CustomDevMax) == GetPropInt(q, CustomDevMax);
    assert GetPropInt(p, CachedHwMax) == GetPropInt(q, CachedHwMax);
  }

  /** `get_min_brightness` then `get_max_brightness` against the live
      store. */
  method LookupHwIn(store: PropertyStore, minFile: Option<string>, maxFile: Option<string>)
    returns (hwMin: int, hwMax: int)
    modifies store
    ensures var hw := LookupHw(old(store.props), minFile, maxFile);
            && hwMin == hw.hwMin && hwMax == hw.hwMax
            && store.props == Apply(old(store.props), hw.sets)
            && store.log == old(store.log) + hw.sets
  {
    ghost var props0 := store.props;
    ghost var log0 := store.log;
    ghost var lo := MinBrightness(props0, minFile).sets;
    ghost var hi := MaxBrightness(props0, maxFile).sets;
    hwMin := GetMinBrightness(store, minFile);
    assert store.props == Apply(props0, lo) && store.log == log0 + lo;
    MaxIgnoresMinCache(props0, minFile, maxFile);
    hwMax := GetMaxBrightness(store, maxFile);
    assert store.props == Apply(Apply(props0, lo), hi) && store.log == log0 + lo + hi;
    ApplyAppend(props0, lo, hi);
    ConcatAssoc(log0, lo, hi);
  }

  /** `BrightnessRange::init` followed by one `refresh_range`. */
  method CalibrateRange(store: PropertyStore) returns (range: BrightnessRange)
    modifies store
    ensures fresh(range)
    ensures var rf := Refresh(InitRange(old(store.props)), old(store.props));
            && range.State() == rf.state
            && store.props == Apply(old(store.props), rf.sets)
            && store.log == old(store.log) + rf.sets
  {
    range := new BrightnessRange.Init(store);
    range.RefreshRange(store);
  }

  /** A cache write, at most one `set_prop` on `key`, touches no other
      property. */
  lemma CacheWriteKeepsOtherKeys(props: Props, sets: seq<SetCall>, key: Key)
    requires sets == [] || (|sets| == 1 && sets[0].key == key)
    ensures forall k :: k != key ==> GetProp(Apply(props, sets), k) == GetProp(props, k)
  {
    if sets != [] {
      ApplyOne(props, sets[0]);
    }
  }

  /** The minimum's cache write touches no other property. */
  lemma MinSetsKeepOtherKeys(props: Props, minFile: Option<string>)
    ensures var p := Apply(props, MinBrightness(props, minFile).sets);
            forall k :: k != CachedHwMin ==> GetProp(p, k) == GetProp(props, k)
  {
    CacheWriteKeepsOtherKeys(props, MinBrightness(props, minFile).sets, CachedHwMin);
  }

  /** What `run_default_mode` has fixed before its first write: the scaling
      bounds, the calibrated range, and the store after its writes. */
  datatype DefaultSetup = DefaultSetup(bounds: Bounds, range: RangeState, props: Props, sets: seq<SetCall>)

  /** `run_default_mode` up to the opening of the brightness file: hardware
      bounds, then `BrightnessRange::init` and one `refresh_range`. */
  function DefaultStartup(props: Props, minFile: Option<string>, maxFile: Option<string>): (r: DefaultSetup)
    ensures var hw := LookupHw(props, minFile, maxFile);
            && r.bounds == Bounds(hw.hwMin, hw.hwMax, r.range.min, r.range.max)
            && r.range.min < r.range.max
            // the range is locked exactly when the live pair was usable
            && (r.range.locked <==> ValidPair(GetPropInt(props, LiveMin), GetPropInt(props, LiveMax)))
            && r.props == Apply(props, r.sets)
            && |r.sets| >= |hw.sets|
            && r.sets[..|hw.sets|] == hw.sets
  {
    var hw := LookupHw(props, minFile, maxFile);
    var p1 := Apply(props, hw.sets);
    var rf := Refresh(InitRange(p1), p1);
    StartupLocksOnLivePair(props, minFile, maxFile);
    ApplyAppend(props, hw.sets, rf.sets);
    assert (hw.sets + rf.sets)[..|hw.sets|] == hw.sets;
    DefaultSetup(Bounds(hw.hwMin, hw.hwMax, rf.state.min, rf.state.max), rf.state, Apply(p1, rf.sets), hw.sets + rf.sets)
  }

  /** The startup calibration, made after the hardware lookups, locks
      exactly when the original store shows a valid live pair. */
  lemma StartupLocksOnLivePair(props: Props, minFile: Option<string>, maxFile: Option<string>)
    ensures var p1 := Apply(props, LookupHw(props, minFile, maxFile).sets);
            Refresh(InitRange(p1), p1).state.locked
            <==> ValidPair(GetPropInt(props, LiveMin), GetPropInt(props, LiveMax))
  {
    var p1 := Apply(props, LookupHw(props, minFile, maxFile).sets);
    HwSetsKeepKey(props, minFile, maxFile, LiveMin);
    HwSetsKeepKey(props, minFile, maxFile, LiveMax);
    RefreshLocksExactlyOnLivePair(InitRange(p1), p1);
  }

  /** One property the hardware lookups do not write reads the same
      afterwards. */
  lemma HwSetsKeepKey(props: Props, minFile: Option<string>, maxFile: Option<string>, k: Key)
    requires k != CachedHwMin && k != CachedHwMax
    ensures GetPropInt(Apply(props, LookupHw(props, minFile, maxFile).sets), k) == GetPropInt(props, k)
  {
    HwSetsKeepRangeKeys(props, minFile, maxFile);
    assert GetProp(Apply(props, LookupHw(props, minFile, maxFile).sets), k) == GetProp(props, k);
  }

  /** The hardware-bound cache writes touch neither the live nor the
      persisted range properties, nor the flags the loops read. */
  lemma HwSetsKeepRangeKeys(props: Props, minFile: Option<string>, maxFile: Option<string>)
    ensures var p := Apply(props, LookupHw(props, minFile, maxFile).sets);
            forall k :: k != CachedHwMin && k != CachedHwMax ==> GetProp(p, k) == GetProp(props, k)
  {
    var lo := MinBrightness(props, minFile).sets;
    var hi := MaxBrightness(props, maxFile).sets;
    ApplyAppend(props, lo, hi);
    var p1 := Apply(props, lo);
    CacheWriteKeepsOtherKeys(props, lo, CachedHwMin);
    CacheWriteKeepsOtherKeys(p1, hi, CachedHwMax);
  }

  // ---------------------------------------------------------------------
  // Default mode

  /** The value the default loop decides to write when the brightness or
      the screen state has changed (src/modes.rs, the `val_to_write`
      chain). `scaled` is the selected curve applied to the current
      brightness, `lux` the lux-AOD brightness property and `raw` the
      brightness property's text ("" when absent). */
  function Decide(cur: int, prev: int, last: int, ips: bool, luxAod: bool, panoramic: bool,
                  lux: Option<int>, raw: string, scaled: int): (r: int)
    // screen on: the scaled brightness
    ensures cur == On ==> r == scaled
    // screen not on, IPS panel: off
    ensures cur != On && ips ==> r == BrightnessOff
    // off and AOD-off states: off
    ensures cur == Off || cur == OffAod ==> r == BrightnessOff
    // doze with lux AOD and panoramic AOD: a positive lux property, else unchanged
    ensures !ips && (cur == Doze || cur == DozeSuspend) && luxAod && panoramic
            ==> r == if lux.Some? && lux.value > 0 then lux.value else last
    // doze with lux AOD only: the lux property (default 1) on the AOD marker, else the scaled brightness
    ensures !ips && cur == Doze && luxAod && !panoramic
            ==> r == if Trim(raw) == "2937.773" then lux.GetOr(1) else scaled
    // doze otherwise: unchanged with panoramic AOD, off without
    ensures (!ips && (cur == Doze || cur == DozeSuspend) && !luxAod)
            || (!ips && cur == DozeSuspend && luxAod && !panoramic)
            ==> r == if panoramic then last else BrightnessOff
    // any other state just after leaving on: unchanged with panoramic AOD, off without
    ensures !ips && !(Off <= cur <= DozeSuspend) && prev == On
            ==> r == if panoramic then last else BrightnessOff
    // any other state otherwise: unchanged
    ensures !ips && !(Off <= cur <= DozeSuspend) && prev != On ==> r == last
    // the value always comes from one of these sources
    ensures r in {scaled, BrightnessOff, last, lux.GetOr(1)}
  {
    if cur == On then scaled
    else if ips then BrightnessOff
    else if cur == Off || cur == OffAod then BrightnessOff
    else if cur == Doze || cur == DozeSuspend then
      if luxAod && panoramic then
        match lux
        case Some(t) => if t > 0 then t else last
        case None => last
      else if cur == Doze && luxAod then
        if Trim(raw) == "2937.773" then lux.GetOr(1) else scaled
      else if panoramic then last
      else BrightnessOff
    else if prev == On then
      if panoramic then last else BrightnessOff
    else last
  }

  /** With panoramic AOD on an AMOLED panel, no doze or unknown state
      blanks the display: the value is kept, or is a positive lux value. */
  lemma PanoramicKeepsDisplayLit(cur: int, prev: int, last: int, luxAod: bool,
                                 lux: Option<int>, raw: string, scaled: int)
    requires cur != On && cur != Off && cur != OffAod
    ensures var r := Decide(cur, prev, last, false, luxAod, true, lux, raw, scaled);
            r == last || (lux == Some(r) && r > 0)
  {
  }

  /** Leaving the on state without panoramic AOD blanks the display,
      except in doze with lux AOD, which keeps following the brightness. */
  lemma LeavingOnBlanks(cur: int, last: int, ips: bool, luxAod: bool,
                        lux: Option<int>, raw: string, scaled: int)
    requires cur != On && !(cur == Doze && luxAod)
    ensures Decide(cur, On, last, ips, luxAod, false, lux, raw, scaled) == BrightnessOff
  {
  }

  /** The brightness only matters when the screen is on, or in doze with
      lux AOD and without panoramic AOD on an AMOLED panel. */
  lemma BrightnessIgnoredWhileOff(cur: int, prev: int, last: int, ips: bool, luxAod: bool, panoramic: bool,
                                  lux: Option<int>, raw: string, s1: int, s2: int)
    requires cur != On && !(cur == Doze && luxAod && !panoramic && !ips)
    ensures Decide(cur, prev, last, ips, luxAod, panoramic, lux, raw, s1)
            == Decide(cur, prev, last, ips, luxAod, panoramic, lux, raw, s2)
  {
  }

  /** The flags `run_default_mode` reads once, and its fixed bounds. */
  datatype DefaultConfig = DefaultConfig(ips: bool, luxAod: bool, bounds: Bounds)

  /** The variables the default loop carries between iterations. */
  datatype DefaultState = DefaultState(prevState: int, prevBright: int, last: int)

  /** One iteration's new state and the byte strings it wrote. */
  datatype DefaultStep = DefaultStep(state: DefaultState, sent: seq<seq<Byte>>)

  /** This iteration's brightness: the skip sentinel -1 keeps the
      previous one. */
  function CurrentBrightness(props: Props, prevBright: int): (r: int)
    ensures PropBrightness(props) == -1 ==> r == prevBright
    ensures PropBrightness(props) != -1 ==> r == PropBrightness(props) && r != 0
  {
    var raw := PropBrightness(props);
    if raw == -1 then prevBright else raw
  }

  /** The `val_to_write` of an iteration that sees `props`. */
  function Decision(s: DefaultState, cfg: DefaultConfig, curves: Curves, props: Props, panoramic: bool): (r: int)
    // on: the current brightness through the mode's curve
    ensures ScreenState(props) == On
            ==> r == Scale(curves, CurrentMode(props), CurrentBrightness(props, s.prevBright), cfg.bounds)
    // not on, on an IPS panel, or off: BRIGHTNESS_OFF
    ensures ScreenState(props) != On && (cfg.ips || ScreenState(props) == Off || ScreenState(props) == OffAod)
            ==> r == BrightnessOff
    // an unrecognised state not just after leaving on keeps the last value
    ensures !cfg.ips && !(Off <= ScreenState(props) <= DozeSuspend) && s.prevState != On ==> r == s.last
  {
    Decide(ScreenState(props), s.prevState, s.last, cfg.ips, cfg.luxAod, panoramic,
           GetPropInt(props, LuxAodBrightness), GetProp(props, TracingBrightness).GetOr(""),
           Scale(curves, CurrentMode(props), CurrentBrightness(props, s.prevBright), cfg.bounds))
  }

  /** One iteration of the default loop; `result` is what the `write` call
      returns if one is made. */
  function DefaultTick(s: DefaultState, cfg: DefaultConfig, curves: Curves, props: Props,
                       panoramic: bool, result: int): (t: DefaultStep)
    // the previous state and brightness are updated on every iteration
    ensures t.state.prevState == ScreenState(props)
    ensures t.state.prevBright == CurrentBrightness(props, s.prevBright)
    // nothing changed: nothing is decided and nothing is written
    ensures t.state.prevState == s.prevState && t.state.prevBright == s.prevBright
            ==> t.state.last == s.last && t.sent == []
    // something changed: the decision goes through the deduplicating writer
    ensures !(t.state.prevState == s.prevState && t.state.prevBright == s.prevBright)
            ==> var w := WriteStep(s.last, Decision(s, cfg, curves, props, panoramic), result);
                t.state.last == w.last && t.sent == w.sent
  {
    var cur := ScreenState(props);
    var bright := CurrentBrightness(props, s.prevBright);
    if bright != s.prevBright || cur != s.prevState then
      var v := Decision(s, cfg, curves, props, panoramic);
      var w := if v != s.last then WriteStep(s.last, v, result) else Written(s.last, []);
      DefaultStep(DefaultState(cur, bright, w.last), w.sent)
    else
      DefaultStep(DefaultState(cur, bright, s.last), [])
  }

  /** An unchanged snapshot is acted on once: the iteration after it writes
      nothing and changes nothing, whether or not the first write worked. */
  lemma RepeatedSnapshotIsIgnored(s: DefaultState, cfg: DefaultConfig, curves: Curves, props: Props,
                                  p1: bool, p2: bool, r1: int, r2: int)
    ensures var t1 := DefaultTick(s, cfg, curves, props, p1, r1);
            DefaultTick(t1.state, cfg, curves, props, p2, r2) == DefaultStep(t1.state, [])
  {
  }

  /** Turning the screen on with a successful write leaves the scaled
      current brightness as the last value written. */
  lemma ScreenOnShowsScaledBrightness(s: DefaultState, cfg: DefaultConfig, curves: Curves, props: Props,
                                      panoramic: bool, result: int)
    requires s.prevState != On && ScreenState(props) == On && result >= 0
    ensures var t := DefaultTick(s, cfg, curves, props, panoramic, result);
            t.state.last == Scale(curves, CurrentMode(props), t.state.prevBright, cfg.bounds)
  {
  }

  /** Leaving the on state without panoramic AOD (and not into lux doze)
      writes 0, unless 0 was already the last value. */
  lemma ScreenOffBlanks(s: DefaultState, cfg: DefaultConfig, curves: Curves, props: Props, result: int)
    requires s.prevState == On && ScreenState(props) != On && result >= 0
    requires !(ScreenState(props) == Doze && cfg.luxAod)
    ensures var t := DefaultTick(s, cfg, curves, props, false, result);
            t.state.last == BrightnessOff
            && (t.sent == [] <==> s.last == BrightnessOff)
  {
    LeavingOnBlanks(ScreenState(props), s.last, cfg.ips, cfg.luxAod,
                    GetPropInt(props, LuxAodBrightness), GetProp(props, TracingBrightness).GetOr(""),
                    Scale(curves, CurrentMode(props), CurrentBrightness(props, s.prevBright), cfg.bounds));
  }

  /** The brightness the default loop starts from: the sentinel becomes
      FALLBACK_MIN. */
  function StartBrightness(props: Props): (r: int)
    ensures r != -1 && r != 0
    ensures PropBrightness(props) == -1 ==> r == FallbackMin
    ensures PropBrightness(props) != -1 ==> r == PropBrightness(props)
  {
    var b := PropBrightness(props);
    if b == -1 then FallbackMin else b
  }

  /** The state after the initial write of `run_default_mode`, made with
      the mode read at startup. */
  function DefaultBegin(cfg: DefaultConfig, curves: Curves, props: Props, result: int): (t: DefaultStep)
    ensures t.state.prevState == ScreenState(props) && t.state.prevBright == StartBrightness(props)
    // the first write is always attempted, since `last_val` starts at -1
    ensures var v := Scale(curves, CurrentMode(props), StartBrightness(props), cfg.bounds);
            v != -1 ==> t.sent == [WireBytes(v)] && (t.state.last == v <==> result >= 0)
    // otherwise `last_val` keeps -1 after a failed write, or when the value itself is -1
    ensures var v := Scale(curves, CurrentMode(props), StartBrightness(props), cfg.bounds);
            t.state.last == WriteStep(-1, v, result).last && t.sent == WriteStep(-1, v, result).sent
  {
    var b := StartBrightness(props);
    var w := WriteStep(-1, Scale(curves, CurrentMode(props), b, cfg.bounds), result);
    DefaultStep(DefaultState(ScreenState(props), b, w.last), w.sent)
  }

  lemma ConcatAssoc<T>(a: seq<T>, b: seq<T>, c: seq<T>)
    ensures a + b + c == a + (b + c)
  {
  }

  /** `DefaultStartup` against the live store. */
  method DefaultSetupIn(store: PropertyStore, minFile: Option<string>, maxFile: Option<string>)
    returns (bounds: Bounds)
    modifies store
    ensures var setup := DefaultStartup(old(store.props), minFile, maxFile);
            && bounds == setup.bounds
            && store.props == setup.props
            && store.log == old(store.log) + setup.sets
  {
    ghost var props0 := store.props;
    ghost var log0 := store.log;
    var hwMin, hwMax := LookupHwIn(store, minFile, maxFile);
    ghost var hw := LookupHw(props0, minFile, maxFile);
    var range := CalibrateRange(store);
    assert store.log == log0 + hw.sets + Refresh(InitRange(Apply(props0, hw.sets)), Apply(props0, hw.sets)).sets;
    ghost var p1 := Apply(props0, hw.sets);
    ghost var rf := Refresh(InitRange(p1), p1);
    ghost var setup := DefaultStartup(props0, minFile, maxFile);
    assert setup.bounds == Bounds(hw.hwMin, hw.hwMax, rf.state.min, rf.state.max)
           && setup.props == Apply(p1, rf.sets) && setup.sets == hw.sets + rf.sets by {
      assert setup == DefaultSetup(Bounds(hw.hwMin, hw.hwMax, rf.state.min, rf.state.max), rf.state,
                                   Apply(p1, rf.sets), hw.sets + rf.sets);
    }
    ConcatAssoc(log0, hw.sets, rf.sets);
    bounds := Bounds(hwMin, hwMax, range.min, range.max);
  }

  /** The first reading and the initial write of `run_default_mode`, on a
      new writer. */
  method DefaultBeginIn(cfg: DefaultConfig, curves: Curves, props: Props, result: int)
    returns (st: DefaultState, w: BrightnessWriter)
    ensures fresh(w)
    ensures var t := DefaultBegin(cfg, curves, props, result);
            st == t.state && w.lastVal == t.state.last && w.sent == t.sent
  {
    var bright := PropBrightness(props);
    if bright == -1 {
      bright := FallbackMin;
    }
    w := new BrightnessWriter();
    w.Write(Scale(curves, CurrentMode(props), bright, cfg.bounds), result);
    st := DefaultState(ScreenState(props), bright, w.lastVal);
  }

  /** `run_default_mode` as an object: the setup in the constructor and one
      loop iteration per `Tick`. */
  class DefaultLoop {
    const writer: BrightnessWriter
    const cfg: DefaultConfig
    var prevState: int
    var prevBright: int

    function State(): DefaultState
      reads this, writer
    {
      DefaultState(prevState, prevBright, writer.lastVal)
    }

    /** Startup: hardware bounds, range calibration, the flags, the first
        brightness and the initial write. */
    constructor Start(store: PropertyStore, curves: Curves, minFile: Option<string>, maxFile: Option<string>,
                      result: int)
      modifies store
      ensures var setup := DefaultStartup(old(store.props), minFile, maxFile);
              && store.props == setup.props
              && store.log == old(store.log) + setup.sets
              && cfg == DefaultConfig(IsIpsMode(setup.props), IsLuxAodMode(setup.props), setup.bounds)
      ensures var t := DefaultBegin(cfg, curves, store.props, result);
              State() == t.state && writer.sent == t.sent
      ensures fresh(writer)
    {
      var bounds := DefaultSetupIn(store, minFile, maxFile);
      var props := store.props;
      var c := DefaultConfig(IsIpsMode(props), IsLuxAodMode(props), bounds);
      var st, w := DefaultBeginIn(c, curves, props, result);
      writer := w;
      cfg := c;
      prevState := st.prevState;
      prevBright := st.prevBright;
    }

    /** One iteration of the loop, reading the store, the panoramic-AOD
        setting and the write result. */
    method Tick(store: PropertyStore, curves: Curves, panoramic: bool, result: int)
      modifies this, writer
      ensures var t := DefaultTick(old(State()), cfg, curves, store.props, panoramic, result);
              State() == t.state && writer.sent == old(writer.sent) + t.sent
    {
      var props := store.props;
      var curState := ScreenState(props);
      var raw := PropBrightness(props);
      var curBright := if raw == -1 then prevBright else raw;
      var mode := CurrentMode(props);
      if curBright != prevBright || curState != prevState {
        var scaled := Scale(curves, mode, curBright, cfg.bounds);
        var v := Decide(curState, prevState, writer.lastVal, cfg.ips, cfg.luxAod, panoramic,
                        GetPropInt(props, LuxAodBrightness), GetProp(props, TracingBrightness).GetOr(""), scaled);
        if v != writer.lastVal {
          writer.Write(v, result);
        }
      }
      prevBright := curBright;
      prevState := curState;
    }
  }

  // ---------------------------------------------------------------------
  // Display-panel mode

  /** The ramp's step toward `target`: a quarter of the distance,
      truncated toward zero, but at least one unit. */
  function RampDelta(diff: int): (step: int)
    ensures diff > 0 ==> 1 <= step && (step == 1 || 4 * step <= diff)
    ensures diff < 0 ==> step <= -1 && (step == -1 || diff <= 4 * step)
    ensures diff == 0 ==> step == 0
    ensures Abs(diff) >= 4 ==> step == QuarterTowardZero(diff)
  {
    var q := QuarterTowardZero(diff);
    if diff != 0 && q == 0 then (if diff > 0 then 1 else -1) else q
  }

  /** One ramp step from `current` toward `target`, including the
      overshoot guard. */
  function RampStep(current: int, target: int): (r: int)
    // never past the target
    ensures current <= target ==> current <= r <= target
    ensures target <= current ==> target <= r <= current
    // strictly closer whenever not already there
    ensures current != target ==> Abs(target - r) < Abs(target - current)
    // reaches the target in this step only from one unit away
    ensures r == target <==> Abs(target - current) <= 1
  {
    var step := RampDelta(target - current);
    var next := current + step;
    if (step > 0 && next > target) || (step < 0 && next < target) then target else next
  }

  /** The ramp step as the loop body computes it. */
  method RampToward(current: int, target: int) returns (next: int)
    ensures next == RampStep(current, target)
  {
    var diff := target - current;
    var step := QuarterTowardZero(diff);
    if diff != 0 && step == 0 {
      step := if diff > 0 then 1 else -1;
    }
    assert step == RampDelta(diff);
    next := current + step;
    // the overshoot guard; `RampGuardIsRedundant` shows it never fires
    next := if (step > 0 && next > target) || (step < 0 && next < target) then target else next;
  }

  /** The overshoot guard never fires: the step alone stays on the near
      side of the target. */
  lemma RampGuardIsRedundant(current: int, target: int)
    ensures var next := current + RampDelta(target - current);
            RampStep(current, target) == next
  {
  }

  /** `n` ramp steps; a step is only taken while the target is not
      reached. */
  function Ramp(current: int, target: int, n: nat): int
    decreases n
  {
    if n == 0 || current == target then current
    else Ramp(RampStep(current, target), target, n - 1)
  }

  /** The ramp converges: as many steps as the initial distance always
      reach the target, and further steps stay there. */
  lemma {:induction false} RampReachesTarget(current: int, target: int, n: nat)
    requires n >= Abs(target - current)
    ensures Ramp(current, target, n) == target
    decreases n
  {
    if n != 0 && current != target {
      RampReachesTarget(RampStep(current, target), target, n - 1);
    }
  }

  /** The panel loop's carried variables: `current_val` and `last_val`. */
  datatype PanelState = PanelState(current: int, last: int)

  datatype PanelStep = PanelStep(state: PanelState, sent: seq<seq<Byte>>)

  /** The hardware value the panel file's value `b` asks for. */
  function PanelTarget(b: int, bounds: Bounds, curves: Curves, props: Props): int {
    Scale(curves, CurrentMode(props), b, bounds)
  }

  /** One iteration of `run_oplus_panel_mode`'s loop: re-read the current
      value, then follow the panel file. */
  function PanelTick(s: PanelState, bounds: Bounds, curves: Curves, props: Props,
                     brightFile: Option<string>, panelFile: Option<string>, result: int): (t: PanelStep)
    // the brightness file, when readable, replaces the current value
    ensures var c := ReadFileInt(brightFile).GetOr(s.current);
            && (ReadFileInt(panelFile).None? ==> t == PanelStep(PanelState(c, s.last), []))
            // a panel value of 0 switches off at once
            && (ReadFileInt(panelFile) == Some(0) ==>
                  t.state.current == BrightnessOff && (c == BrightnessOff ==> t == PanelStep(PanelState(c, s.last), [])))
            // any other panel value ramps one step toward its target
            && (ReadFileInt(panelFile).Some? && ReadFileInt(panelFile).value != 0 ==>
                  t.state.current == RampStep(c, PanelTarget(ReadFileInt(panelFile).value, bounds, curves, props)))
    // only the new current value is ever written, through the deduplicating writer
    ensures t.sent != [] ==> t.sent == [WireBytes(t.state.current)] && s.last != t.state.current
    ensures t.state.last == s.last || (t.state.last == t.state.current && result >= 0)
    // switching off writes BRIGHTNESS_OFF through the writer
    ensures var c := ReadFileInt(brightFile).GetOr(s.current);
            ReadFileInt(panelFile) == Some(0) && c != BrightnessOff ==>
              var w := WriteStep(s.last, BrightnessOff, result);
              t.sent == w.sent && t.state.last == w.last
    // a ramp step writes the stepped value through the writer; at the target nothing happens
    ensures var c := ReadFileInt(brightFile).GetOr(s.current);
            ReadFileInt(panelFile).Some? && ReadFileInt(panelFile).value != 0 ==>
              var target := PanelTarget(ReadFileInt(panelFile).value, bounds, curves, props);
              && (c != target ==> var w := WriteStep(s.last, RampStep(c, target), result);
                                  t.sent == w.sent && t.state.last == w.last)
              && (c == target ==> t == PanelStep(PanelState(c, s.last), []))
  {
    var c := ReadFileInt(brightFile).GetOr(s.current);
    match ReadFileInt(panelFile)
    case None => PanelStep(PanelState(c, s.last), [])
    case Some(b) =>
      if b == 0 then
        if c != BrightnessOff then
          var w := WriteStep(s.last, BrightnessOff, result);
          PanelStep(PanelState(BrightnessOff, w.last), w.sent)
        else PanelStep(PanelState(c, s.last), [])
      else
        var target := PanelTarget(b, bounds, curves, props);
        if c != target then
          var next := RampStep(c, target);
          var w := WriteStep(s.last, next, result);
          PanelStep(PanelState(next, w.last), w.sent)
        else PanelStep(PanelState(c, s.last), [])
  }

  /** Iterations of the panel loop in which the brightness file shows
      nothing new (it cannot be read) and the panel file stays the same. */
  function PanelRun(s: PanelState, bounds: Bounds, curves: Curves, props: Props,
                    panelFile: Option<string>, results: seq<int>): PanelState
    decreases |results|
  {
    if results == [] then s
    else PanelRun(PanelTick(s, bounds, curves, props, None, panelFile, results[0]).state,
                  bounds, curves, props, panelFile, results[1..])
  }

  /** With a steady non-zero panel value, the current value reaches the
      target within as many iterations as its initial distance. */
  lemma {:induction false} PanelSettles(s: PanelState, bounds: Bounds, curves: Curves, props: Props,
                                        panelFile: Option<string>, results: seq<int>)
    requires ReadFileInt(panelFile).Some? && ReadFileInt(panelFile).value != 0
    requires |results| >= Abs(PanelTarget(ReadFileInt(panelFile).value, bounds, curves, props) - s.current)
    ensures PanelRun(s, bounds, curves, props, panelFile, results).current
            == PanelTarget(ReadFileInt(panelFile).value, bounds, curves, props)
    decreases |results|
  {
    if results != [] {
      var t := PanelTick(s, bounds, curves, props, None, panelFile, results[0]);
      PanelSettles(t.state, bounds, curves, props, panelFile, results[1..]);
    }
  }

  datatype PanelSetup = PanelSetup(bounds: Bounds, props: Props, sets: seq<SetCall>)

  /** What `run_oplus_panel_mode` fixes at startup: the hardware bounds and
      the panel input range (22..5118 unless overridden). */
  function PanelStartup(props: Props, minFile: Option<string>, maxFile: Option<string>): (r: PanelSetup)
    ensures var hw := LookupHw(props, minFile, maxFile);
            && r.bounds.hwMin == hw.hwMin && r.bounds.hwMax == hw.hwMax
            && r.bounds.inMin == GetPropInt(props, PanelMin).GetOr(Os14Min)
            && r.bounds.inMax == GetPropInt(props, PanelMax).GetOr(Os14Max)
            && r.sets == hw.sets && r.props == Apply(props, hw.sets)
  {
    var hw := LookupHw(props, minFile, maxFile);
    var p := Apply(props, hw.sets);
    HwSetsKeepRangeKeys(props, minFile, maxFile);
    assert GetProp(p, PanelMin) == GetProp(props, PanelMin) && GetProp(p, PanelMax) == GetProp(props, PanelMax);
    PanelSetup(Bounds(hw.hwMin, hw.hwMax, GetPropInt(p, PanelMin).GetOr(Os14Min), GetPropInt(p, PanelMax).GetOr(Os14Max)),
               p, hw.sets)
  }

  /** `run_oplus_panel_mode` as an object. */
  class PanelLoop {
    const writer: BrightnessWriter
    const bounds: Bounds
    var current: int

    function State(): PanelState
      reads this, writer
    {
      PanelState(current, writer.lastVal)
    }

    /** Startup: hardware bounds, input range, the current value from the
        brightness file (else the hardware minimum) and its first write. */
    constructor Start(store: PropertyStore, minFile: Option<string>, maxFile: Option<string>,
                      brightFile: Option<string>, result: int)
      modifies store
      ensures var setup := PanelStartup(old(store.props), minFile, maxFile);
              && bounds == setup.bounds
              && store.props == setup.props
              && store.log == old(store.log) + setup.sets
      ensures current == ReadFileInt(brightFile).GetOr(bounds.hwMin)
      ensures var w := WriteStep(-1, current, result);
              writer.lastVal == w.last && writer.sent == w.sent
      ensures fresh(writer)
    {
      ghost var props0 := store.props;
      var hwMin, hwMax := LookupHwIn(store, minFile, maxFile);
      ghost var setup := PanelStartup(props0, minFile, maxFile);
      var inMin := GetPropInt(store.props, PanelMin).GetOr(Os14Min);
      var inMax := GetPropInt(store.props, PanelMax).GetOr(Os14Max);
      var c := ReadFileInt(brightFile).GetOr(hwMin);
      var w := new BrightnessWriter();
      w.Write(c, result);
      writer := w;
      assert Bounds(hwMin, hwMax, inMin, inMax) == setup.bounds;
      bounds := Bounds(hwMin, hwMax, inMin, inMax);
      current := c;
    }

    /** One iteration: re-read `current_val`, then switch off or ramp. */
    method Tick(store: PropertyStore, curves: Curves, brightFile: Option<string>, panelFile: Option<string>,
                result: int)
      modifies this, writer
      ensures var t := PanelTick(old(State()), bounds, curves, store.props, brightFile, panelFile, result);
              State() == t.state && writer.sent == old(writer.sent) + t.sent
    {
      current := ReadFileInt(brightFile).GetOr(current);
      var panel := ReadFileInt(panelFile);
      if panel.Some? {
        if panel.value == 0 {
          if current != BrightnessOff {
            current := BrightnessOff;
            writer.Write(current, result);
          }
        } else {
          var target := Scale(curves, CurrentMode(store.props), panel.value, bounds);
          if current != target {
            current := RampToward(current, target);
            writer.Write(current, result);
          }
        }
      }
    }
  }
}
