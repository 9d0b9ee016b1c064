/** Hardware-range discovery (src/utils.rs): `read_file_int` and the source
    priority of `get_max_brightness` / `get_min_brightness`. A file is given
    by its content, `None` when it cannot be read. */
module Utils {
  import opened Base
  import opened Decimal
  import opened Properties

  /** Default hardware bounds when nothing better is known. */
  const DefaultHwMax: int := 511
  const DefaultHwMin: int := 1

  /** `read_file_int`: trim, keep the leading ASCII digits, parse as `i32`. */
  function ReadFileInt(content: Option<string>): (r: Option<int>)
    ensures r.Some? ==> 0 <= r.value <= I32Max
    ensures r.Some? <==> content.Some? && var d := DigitPrefix(Trim(content.value));
                          d != [] && DigitsValue(d) <= I32Max
    ensures r.Some? ==> r.value == DigitsValue(DigitPrefix(Trim(content.value)))
  {
    match content
    case None => None
    case Some(c) =>
      var d := DigitPrefix(Trim(c));
      ParseDigits(d);
      ParseI32(d)
  }

  /** A file holding "123abc" reads as 123. */
  lemma ReadFileIntDigitsThenText()
    ensures ReadFileInt(Some("123abc")) == Some(123)
  {
    LeadingDigitsOf123abc();
    ParsesAs123();
  }

  lemma LeadingDigitsOf123abc()
    ensures DigitPrefix(Trim("123abc")) == "123"
  {
    var c := "123abc";
    TrimUnpadded(c);
    assert DigitPrefix("abc") == [];
    assert DigitPrefix("3abc") == "3";
    assert DigitPrefix("23abc") == "23";
  }

  lemma ParsesAs123()
    ensures ParseI32("123") == Some(123)
  {
    assert "123"[..2] == "12" && "12"[..1] == "1";
    assert DigitsValue("123") == 123;
  }

  /** A file without leading digits reads as `None`. */
  lemma ReadFileIntRejectsText()
    ensures ReadFileInt(Some("abc")) == None
  {
    var c := "abc";
    TrimUnpadded(c);
    assert DigitPrefix(Trim(c)) == [];
  }

  /** A negative number is not a digit run, so it reads as `None`, and so
      does an unreadable file. */
  lemma ReadFileIntRejectsSign()
    ensures ReadFileInt(Some("-5")) == None
    ensures ReadFileInt(None) == None
  {
    var c := "-5";
    TrimUnpadded(c);
    assert DigitPrefix(Trim(c)) == [];
  }

  /** A hardware bound and the `set_prop` calls made while finding it. */
  datatype HwValue = HwValue(value: int, sets: seq<SetCall>)

  /** `get_max_brightness`: a positive custom override, else the cached
      value as it is, else the file value (which is then cached), else 511. */
  function MaxBrightness(props: Props, maxFile: Option<string>): (r: HwValue)
    ensures var custom := GetPropInt(props, CustomDevMax);
            var cached := GetPropInt(props, CachedHwMax);
            && (custom.Some? && custom.value > 0 ==> r == HwValue(custom.value, []))
            && (!(custom.Some? && custom.value > 0) && cached.Some? ==> r == HwValue(cached.value, []))
            && (!(custom.Some? && custom.value > 0) && cached.None? ==>
                  r.value == ReadFileInt(maxFile).GetOr(DefaultHwMax))
    // set_prop is called only when the value comes from the file
    ensures r.sets != [] <==> !(GetPropInt(props, CustomDevMax).Some? && GetPropInt(props, CustomDevMax).value > 0)
                              && GetPropInt(props, CachedHwMax).None? && ReadFileInt(maxFile).Some?
    ensures r.sets != [] ==> r.sets == [SetCall(CachedHwMax, IntToString(r.value))]
    ensures InI32(r.value)
  {
    var custom := GetPropInt(props, CustomDevMax);
    if custom.Some? && custom.value > 0 then HwValue(custom.value, [])
    else
      match GetPropInt(props, CachedHwMax)
      case Some(h) => HwValue(h, [])
      case None =>
        match ReadFileInt(maxFile)
        case Some(v) => HwValue(v, [SetCall(CachedHwMax, IntToString(v))])
        case None => HwValue(DefaultHwMax, [])
  }

  /** `get_min_brightness`: the cached value as it is, else the file value
      with 0 raised to 1 (which is then cached), else 1. */
  function MinBrightness(props: Props, minFile: Option<string>): (r: HwValue)
    ensures GetPropInt(props, CachedHwMin).Some? ==> r == HwValue(GetPropInt(props, CachedHwMin).value, [])
    // without a cached value the minimum is never 0
    ensures GetPropInt(props, CachedHwMin).None? ==> 1 <= r.value
    ensures (GetPropInt(props, CachedHwMin).None? && ReadFileInt(minFile).Some? && ReadFileInt(minFile).value != 0)
            ==> r.value == ReadFileInt(minFile).value
    ensures GetPropInt(props, CachedHwMin).None? && ReadFileInt(minFile) == Some(0) ==> r.value == 1
    ensures GetPropInt(props, CachedHwMin).None? && ReadFileInt(minFile).None? ==> r.value == DefaultHwMin
    ensures r.sets != [] <==> GetPropInt(props, CachedHwMin).None? && ReadFileInt(minFile).Some?
    ensures r.sets != [] ==> r.sets == [SetCall(CachedHwMin, IntToString(r.value))]
    ensures InI32(r.value)
  {
    match GetPropInt(props, CachedHwMin)
    case Some(h) => HwValue(h, [])
    case None =>
      match ReadFileInt(minFile)
      case Some(v) =>
        var w := if v == 0 then 1 else v;
        HwValue(w, [SetCall(CachedHwMin, IntToString(w))])
      case None => HwValue(DefaultHwMin, [])
  }

  /** Looking the maximum up again, with the store as the first lookup left
      it and the same file, gives the same value and writes nothing. */
  lemma MaxBrightnessStable(props: Props, maxFile: Option<string>)
    ensures var r := MaxBrightness(props, maxFile);
            MaxBrightness(Apply(props, r.sets), maxFile) == HwValue(r.value, [])
  {
    var r := MaxBrightness(props, maxFile);
    if r.sets != [] {
      ApplyOne(props, r.sets[0]);
      SetIntReadsBack(props, CachedHwMax, r.value);
      assert GetPropInt(Apply(props, r.sets), CustomDevMax) == GetPropInt(props, CustomDevMax);
    }
  }

  /** The same for the minimum, including a 0 read from the file, which is
      cached as 1. */
  lemma MinBrightnessStable(props: Props, minFile: Option<string>)
    ensures var r := MinBrightness(props, minFile);
            MinBrightness(Apply(props, r.sets), minFile) == HwValue(r.value, [])
  {
    var r := MinBrightness(props, minFile);
    if r.sets != [] {
      ApplyOne(props, r.sets[0]);
      SetIntReadsBack(props, CachedHwMin, r.value);
    }
  }

  /** `get_max_brightness` against the live store. */
  method GetMaxBrightness(store: PropertyStore, maxFile: Option<string>) returns (v: int)
    modifies store
    ensures v == MaxBrightness(old(store.props), maxFile).value
    ensures store.log == old(store.log) + MaxBrightness(old(store.props), maxFile).sets
    ensures store.props == Apply(old(store.props), MaxBrightness(old(store.props), maxFile).sets)
  {
    var custom := GetPropInt(store.props, CustomDevMax);
    if custom.Some? && custom.value > 0 {
      return custom.value;
    }
    var cached := GetPropInt(store.props, CachedHwMax);
    if cached.Some? {
      return cached.value;
    }
    var file := ReadFileInt(maxFile);
    if file.Some? {
      v := file.value;
      ApplyOne(store.props, SetCall(CachedHwMax, IntToString(v)));
      store.Set(CachedHwMax, IntToString(v));
    } else {
      v := DefaultHwMax;
    }
  }

  /** `get_min_brightness` against the live store. */
  method GetMinBrightness(store: PropertyStore, minFile: Option<string>) returns (v: int)
    modifies store
    ensures v == MinBrightness(old(store.props), minFile).value
    ensures store.log == old(store.log) + MinBrightness(old(store.props), minFile).sets
    ensures store.props == Apply(old(store.props), MinBrightness(old(store.props), minFile).sets)
  {
    var cached := GetPropInt(store.props, CachedHwMin);
    if cached.Some? {
      return cached.value;
    }
    var file := ReadFileInt(minFile);
    if file.Some? {
      v := file.value;
      if v == 0 {
        v := 1;
      }
      ApplyOne(store.props, SetCall(CachedHwMin, IntToString(v)));
      store.Set(CachedHwMin, IntToString(v));
    } else {
      v := DefaultHwMin;
    }
  }
}
