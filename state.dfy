/** Reading the OS brightness and screen state from the property store
    (src/state.rs, and `gb`/`gs` in src/bin/xia.displayadaptor.rs). Only the
    integer (non-float) brightness format is modelled. */
module State {
  import opened Base
  import opened Decimal
  import opened Properties

  /** Screen-state codes of debug.tracing.screen_state. */
  const Off: int := 0
  const OffAod: int := 1
  const On: int := 2
  const Doze: int := 3
  const DozeSuspend: int := 4

  /** The brightness property's integer part: the `i32` parse of the text
      before its first `.`; `None` when absent or unparseable. */
  function IntegerPart(props: Props): (r: Option<int>)
    ensures r.Some? ==> TracingBrightness in props && InI32(r.value)
    ensures r.Some? ==> ParseI32(BeforeDot(props[TracingBrightness])) == r
    ensures r == if TracingBrightness in props && props[TracingBrightness] != []
                 then ParseI32(BeforeDot(props[TracingBrightness])) else None
  {
    match GetProp(props, TracingBrightness)
    case Some(v) => ParseI32(BeforeDot(v))
    case None => None
  }

  /** `get_prop_brightness` with `is_float == false`: the integer part, with
      0 reported as the skip sentinel -1 and FALLBACK_MIN when there is no
      usable value. */
  function PropBrightness(props: Props): (r: int)
    ensures r != 0 && InI32(r)
    ensures IntegerPart(props).None? ==> r == FallbackMin
    ensures IntegerPart(props) == Some(0) ==> r == -1
    ensures IntegerPart(props).Some? && IntegerPart(props).value != 0 ==> r == IntegerPart(props).value
  {
    match IntegerPart(props)
    case Some(0) => -1
    case Some(v) => v
    case None => FallbackMin
  }

  /** `get_screen_state` (and the identical `gs`): the parsed state code,
      or On (2) when the property is absent or unparseable. */
  function ScreenState(props: Props): (r: int)
    ensures GetPropInt(props, TracingState).Some? ==> r == GetPropInt(props, TracingState).value
    ensures GetPropInt(props, TracingState).None? ==> r == On
    ensures InI32(r)
  {
    GetPropInt(props, TracingState).GetOr(On)
  }

  /** `gb` with `is_float == false`: the same integer part, but without the
      zero sentinel. */
  function LegacyPropBrightness(props: Props): (r: int)
    ensures IntegerPart(props).Some? ==> r == IntegerPart(props).value
    ensures IntegerPart(props).None? ==> r == FallbackMin
  {
    IntegerPart(props).GetOr(FallbackMin)
  }

  /** The two readers differ only in the zero sentinel. */
  lemma PropBrightnessVersusLegacy(props: Props)
    ensures PropBrightness(props)
            == if LegacyPropBrightness(props) == 0 then -1 else LegacyPropBrightness(props)
  {
  }

  /** A fractional reading keeps its integer part. */
  lemma PropBrightnessDropsFraction()
    ensures PropBrightness(map[TracingBrightness := "2937.773"]) == 2937
  {
    IntegerPartOf2937();
    assert "29"[..1] == "2" && "293"[..2] == "29" && "2937"[..3] == "293";
    assert DigitsValue("2937") == 2937;
    ParseDigits("2937");
  }

  lemma IntegerPartOf2937()
    ensures BeforeDot("2937.773") == "2937"
  {
    assert BeforeDot(".773") == "";
    assert BeforeDot("7.773") == "7";
    assert BeforeDot("37.773") == "37";
    assert BeforeDot("937.773") == "937";
  }

  /** A reading whose integer part is 0 is the skip sentinel. */
  lemma PropBrightnessZeroIsSentinel()
    ensures PropBrightness(map[TracingBrightness := "0.5"]) == -1
  {
    assert BeforeDot(".5") == "";
    assert BeforeDot("0.5") == "0";
  }

  /** Readings without a leading integer, and an unset property, give
      FALLBACK_MIN. */
  lemma PropBrightnessFallbacks()
    ensures PropBrightness(map[TracingBrightness := ".5"]) == FallbackMin
    ensures PropBrightness(map[TracingBrightness := "abc"]) == FallbackMin
    ensures PropBrightness(map[]) == FallbackMin
  {
    assert BeforeDot(".5") == "";
    assert BeforeDot("c") == "c";
    assert BeforeDot("bc") == "bc";
    assert BeforeDot("abc") == "abc";
    assert !IsDigit('a');
  }
}
