/** The older standalone adaptor (src/bin/xia.displayadaptor.rs). Its
    helpers `sb`, `sb_linear`, `IR`, `wb`, `gb` and `gs` are modelled in
    Scaling, Range, Writer and State; this module holds what is its own:
    the whole-file reader `rf`, the legacy loop that follows the OS
    brightness, and the old panel loop that follows the panel file. */
module Legacy {
  import opened Base
  import opened Decimal
  import opened Properties
  import opened Writer
  import opened State
  import opened Scaling
  import opened Range
  import opened Utils
  import opened Modes

  /** `rf`: the trimmed file content parsed as an `i32`; unlike
      `read_file_int`, a sign is accepted and trailing text is not. */
  function ReadWhole(content: Option<string>): (r: Option<int>)
    ensures content.None? ==> r.None?
    ensures r.Some? ==> InI32(r.value)
    ensures content.Some? ==> r == ParseI32(Trim(content.value))
  {
    match content
    case None => None
    case Some(c) => ParseI32(Trim(c))
  }

  /** Unlike `read_file_int`, trailing text makes the whole read fail
      (`read_file_int` reads "123abc" as 123). */
  lemma ReadWholeRejectsTrailingText()
    ensures ReadWhole(Some("123abc")) == None
  {
    var c := "123abc";
    assert TrimStart(c) == c && TrimEnd(c) == c;
    assert !IsDigit(c[3]);
  }

  /** Unlike `read_file_int`, a sign is accepted (`read_file_int` reads
      "-5" as `None`). */
  lemma ReadWholeAcceptsSign()
    ensures ReadWhole(Some("-5")) == Some(-5)
  {
    var m := "-5";
    assert TrimStart(m) == m && TrimEnd(m) == m;
    assert m[1..] == "5";
    assert DigitsValue("5") == 5;
  }

  /** The hardware range of both xia loops: `rf(min).unwrap_or(1)` and
      `rf(max).unwrap_or(511)`, with no property cache. */
  function LegacyHw(minFile: Option<string>, maxFile: Option<string>): (r: (int, int))
    ensures ReadWhole(minFile).Some? ==> r.0 == ReadWhole(minFile).value
    ensures ReadWhole(minFile).None? ==> r.0 == DefaultHwMin
    ensures ReadWhole(maxFile).Some? ==> r.1 == ReadWhole(maxFile).value
    ensures ReadWhole(maxFile).None? ==> r.1 == DefaultHwMax
    ensures InI32(r.0) && InI32(r.1)
  {
    (ReadWhole(minFile).GetOr(DefaultHwMin), ReadWhole(maxFile).GetOr(DefaultHwMax))
  }

  // ---------------------------------------------------------------------
  // Legacy loop

  /** The legacy loop's `val_to_write` once the brightness or the state has
      changed; `scaled` is `sb` of the current brightness. */
  function LegacyDecide(cur: int, prev: int, last: int, scaled: int): (r: int)
    // leaving the on state: off
    ensures cur != On && prev == On ==> r == BrightnessOff
    // on: the scaled brightness
    ensures cur == On ==> r == scaled
    // otherwise: unchanged
    ensures cur != On && prev != On ==> r == last
  {
    if cur != On && prev == On then BrightnessOff
    else if cur == On then scaled
    else last
  }

  /** `sb` over the calibrated range is defined (no `i32` overflow) for
      the brightness `props` shows. */
  predicate LegacyScalable(b: Bounds, props: Props) {
    CurvedDefined(LegacyPerceptual, LegacyPropBrightness(props), b.hwMin, b.hwMax, b.inMin, b.inMax)
  }

  /** One iteration of `run_legacy_mode`'s loop. */
  function LegacyTick(s: DefaultState, b: Bounds, props: Props, result: int): (t: DefaultStep)
    requires LegacyScalable(b, props)
    ensures t.state.prevState == ScreenState(props)
    // no sentinel here: a brightness of 0 is taken as it is
    ensures t.state.prevBright == LegacyPropBrightness(props)
    ensures t.state.prevState == s.prevState && t.state.prevBright == s.prevBright
            ==> t.state.last == s.last && t.sent == []
    ensures !(t.state.prevState == s.prevState && t.state.prevBright == s.prevBright)
            ==> var v := LegacyDecide(ScreenState(props), s.prevState, s.last,
                                      ScaleSb(LegacyPropBrightness(props), b.hwMin, b.hwMax, b.inMin, b.inMax));
                var w := WriteStep(s.last, v, result);
                t.state.last == w.last && t.sent == w.sent
  {
    var cur := ScreenState(props);
    var bright := LegacyPropBrightness(props);
    if bright != s.prevBright || cur != s.prevState then
      var v := LegacyDecide(cur, s.prevState, s.last, ScaleSb(bright, b.hwMin, b.hwMax, b.inMin, b.inMax));
      var w := if v != s.last then WriteStep(s.last, v, result) else Written(s.last, []);
      DefaultStep(DefaultState(cur, bright, w.last), w.sent)
    else
      DefaultStep(DefaultState(cur, bright, s.last), [])
  }

  /** Leaving the on state always blanks the legacy display (there is no
      AOD handling), and with a successful write 0 is the last value. */
  lemma LegacyScreenOffBlanks(s: DefaultState, b: Bounds, props: Props, result: int)
    requires LegacyScalable(b, props)
    requires s.prevState == On && ScreenState(props) != On && result >= 0
    ensures LegacyTick(s, b, props, result).state.last == BrightnessOff
  {
  }

  /** With the screen on, a changed brightness that is written leaves a
      value inside the hardware range. */
  lemma LegacyOnStaysInHwRange(s: DefaultState, b: Bounds, props: Props, result: int)
    requires LegacyScalable(b, props) && b.hwMin < b.hwMax
    requires ScreenState(props) == On && LegacyPropBrightness(props) != s.prevBright && result >= 0
    ensures b.hwMin <= LegacyTick(s, b, props, result).state.last <= b.hwMax
  {
  }

  /** As in the default loop, an unchanged snapshot is acted on once. */
  lemma LegacyRepeatedSnapshotIsIgnored(s: DefaultState, b: Bounds, props: Props, r1: int, r2: int)
    requires LegacyScalable(b, props)
    ensures var t1 := LegacyTick(s, b, props, r1);
            LegacyTick(t1.state, b, props, r2) == DefaultStep(t1.state, [])
  {
  }

  /** The state after the initial write of `run_legacy_mode`. */
  function LegacyBegin(b: Bounds, props: Props, result: int): (t: DefaultStep)
    requires LegacyScalable(b, props)
    ensures t.state.prevState == ScreenState(props) && t.state.prevBright == LegacyPropBrightness(props)
    // `last_val` starts at -1 and `sb` never returns a negative value, so the first write is made
    ensures var v := ScaleSb(LegacyPropBrightness(props), b.hwMin, b.hwMax, b.inMin, b.inMax);
            (b.hwMin >= 0 || b.hwMin >= b.hwMax) ==> t.sent == [WireBytes(v)] && (t.state.last == v <==> result >= 0)
    // in every case, including a scaled -1 and a failed write, the writer's step from -1
    ensures var v := ScaleSb(LegacyPropBrightness(props), b.hwMin, b.hwMax, b.inMin, b.inMax);
            t.state.last == WriteStep(-1, v, result).last && t.sent == WriteStep(-1, v, result).sent
  {
    var v := ScaleSb(LegacyPropBrightness(props), b.hwMin, b.hwMax, b.inMin, b.inMax);
    var w := WriteStep(-1, v, result);
    DefaultStep(DefaultState(ScreenState(props), LegacyPropBrightness(props), w.last), w.sent)
  }

  /** `run_legacy_mode` as an object. */
  class LegacyLoop {
    const writer: BrightnessWriter
    const bounds: Bounds
    var prevState: int
    var prevBright: int

    function State(): DefaultState
      reads this, writer
    {
      DefaultState(prevState, prevBright, writer.lastVal)
    }

    /** Startup: hardware range from the files, `IR::init` and one
        `IR::rf`, then the initial write. */
    constructor Start(store: PropertyStore, minFile: Option<string>, maxFile: Option<string>, result: int)
      requires var hw := LegacyHw(minFile, maxFile);
               var rg := Refresh(InitRange(store.props), store.props).state;
               LegacyScalable(Bounds(hw.0, hw.1, rg.min, rg.max), Apply(store.props, Refresh(InitRange(store.props), store.props).sets))
      modifies store
      ensures var hw := LegacyHw(minFile, maxFile);
              var rf := Refresh(InitRange(old(store.props)), old(store.props));
              && bounds == Bounds(hw.0, hw.1, rf.state.min, rf.state.max)
              && store.props == Apply(old(store.props), rf.sets)
              && store.log == old(store.log) + rf.sets
      ensures LegacyScalable(bounds, store.props)
      ensures var t := LegacyBegin(bounds, store.props, result);
              State() == t.state && writer.sent == t.sent
      ensures fresh(writer)
    {
      var hw := LegacyHw(minFile, maxFile);
      var range := CalibrateRange(store);
      var b := Bounds(hw.0, hw.1, range.min, range.max);
      var props := store.props;
      var bright := LegacyPropBrightness(props);
      var w := new BrightnessWriter();
      w.Write(ScaleSb(bright, b.hwMin, b.hwMax, b.inMin, b.inMax), result);
      writer := w;
      bounds := b;
      prevState := ScreenState(props);
      prevBright := bright;
    }

    /** One iteration of the legacy loop. */
    method Tick(store: PropertyStore, result: int)
      requires LegacyScalable(bounds, store.props)
      modifies this, writer
      ensures var t := LegacyTick(old(State()), bounds, store.props, result);
              State() == t.state && writer.sent == old(writer.sent) + t.sent
    {
      var props := store.props;
      var curState := ScreenState(props);
      var curBright := LegacyPropBrightness(props);
      if curBright != prevBright || curState != prevState {
        var v := LegacyDecide(curState, prevState, writer.lastVal,
                              ScaleSb(curBright, bounds.hwMin, bounds.hwMax, bounds.inMin, bounds.inMax));
        if v != writer.lastVal {
          writer.Write(v, result);
        }
      }
      prevBright := curBright;
      prevState := curState;
    }
  }

  // ---------------------------------------------------------------------
  // Old panel loop

  /** `sb_linear` is defined (no `i32` overflow) for a panel value. */
  predicate PanelScalable(b: Bounds, panel: Option<int>) {
    panel.Some? ==> LinearDefined(panel.value, b.hwMin, b.hwMax, b.inMin, b.inMax)
  }

  /** The old panel loop's `val_to_write`, made on every iteration. */
  function OldPanelDecide(cur: int, last: int, panel: Option<int>, b: Bounds): (r: int)
    requires PanelScalable(b, panel)
    // screen not on: off
    ensures cur != On ==> r == BrightnessOff
    // on, panel file unreadable: unchanged
    ensures cur == On && panel.None? ==> r == last
    // on: the panel value mapped linearly into the hardware range
    ensures cur == On && panel.Some? && b.inMin < b.inMax && b.hwMin < b.hwMax
            ==> b.hwMin <= r <= b.hwMax
                && (panel.value <= b.inMin ==> r == b.hwMin)
                && (panel.value >= b.inMax ==> r == b.hwMax)
    ensures cur == On && panel.Some? ==> r == ScaleLinear(panel.value, b.hwMin, b.hwMax, b.inMin, b.inMax)
  {
    if cur == On then
      match panel
      case Some(v) => ScaleLinear(v, b.hwMin, b.hwMax, b.inMin, b.inMax)
      case None => last
    else BrightnessOff
  }

  /** One iteration of `run_oplus_panel_mode` in the old adaptor: decide,
      then write if the value differs from the last one. */
  function OldPanelTick(last: int, b: Bounds, props: Props, panelFile: Option<string>, result: int): (w: Written)
    requires PanelScalable(b, ReadWhole(panelFile))
    ensures w == WriteStep(last, OldPanelDecide(ScreenState(props), last, ReadWhole(panelFile), b), result)
  {
    var v := OldPanelDecide(ScreenState(props), last, ReadWhole(panelFile), b);
    if v != last then WriteStep(last, v, result) else Written(last, [])
  }

  /** Unlike the loops that only act on a change, this one retries: after a
      failed write the same inputs are written again on the next
      iteration, and after a successful one nothing more is written. */
  lemma OldPanelRetriesUntilWritten(last: int, b: Bounds, props: Props, panelFile: Option<string>, r1: int, r2: int)
    requires PanelScalable(b, ReadWhole(panelFile))
    requires ScreenState(props) != On || ReadWhole(panelFile).Some?
    ensures var w1 := OldPanelTick(last, b, props, panelFile, r1);
            var w2 := OldPanelTick(w1.last, b, props, panelFile, r2);
            && (r1 < 0 ==> w2.sent == w1.sent)
            && (r1 >= 0 ==> w2.sent == [])
  {
  }

  /** The old panel loop's ranges: hardware from the files, input from the
      panel properties (22..5118 unless overridden). */
  function OldPanelBounds(props: Props, minFile: Option<string>, maxFile: Option<string>): (b: Bounds)
    ensures b.hwMin == LegacyHw(minFile, maxFile).0 && b.hwMax == LegacyHw(minFile, maxFile).1
    ensures GetPropInt(props, PanelMin).Some? ==> b.inMin == GetPropInt(props, PanelMin).value
    ensures GetPropInt(props, PanelMin).None? ==> b.inMin == Os14Min
    ensures GetPropInt(props, PanelMax).Some? ==> b.inMax == GetPropInt(props, PanelMax).value
    ensures GetPropInt(props, PanelMax).None? ==> b.inMax == Os14Max
  {
    var hw := LegacyHw(minFile, maxFile);
    Bounds(hw.0, hw.1, GetPropInt(props, PanelMin).GetOr(Os14Min), GetPropInt(props, PanelMax).GetOr(Os14Max))
  }

  /** The old `run_oplus_panel_mode` as an object. Its `prev_state` only
      chooses whether to sleep, so it is not kept. */
  class OldPanelLoop {
    const writer: BrightnessWriter
    const bounds: Bounds

    constructor Start(props: Props, minFile: Option<string>, maxFile: Option<string>)
      ensures bounds == OldPanelBounds(props, minFile, maxFile)
      ensures writer.lastVal == -1 && writer.sent == []
      ensures fresh(writer)
    {
      bounds := OldPanelBounds(props, minFile, maxFile);
      writer := new BrightnessWriter();
    }

    /** One iteration of the loop. */
    method Tick(store: PropertyStore, panelFile: Option<string>, result: int)
      requires PanelScalable(bounds, ReadWhole(panelFile))
      modifies writer
      ensures var w := OldPanelTick(old(writer.lastVal), bounds, store.props, panelFile, result);
              writer.lastVal == w.last && writer.sent == old(writer.sent) + w.sent
    {
      var v := OldPanelDecide(ScreenState(store.props), writer.lastVal, ReadWhole(panelFile), bounds);
      if v != writer.lastVal {
        writer.Write(v, result);
      }
    }
  }
}
