/** The platform property store as the core sees it: string values under
    fixed keys, read with `get_prop`/`get_prop_int` and written with
    `set_prop` (src/bin/properties.rs). */
module Properties {
  import opened Base
  import opened Decimal

  /** The properties the core reads or writes. */
  datatype Key =
    | PersistMin          // persist.sys.rianixia.multibrightness.min: persisted logical min
    | PersistMax          // persist.sys.rianixia.multibrightness.max: persisted logical max
    | LiveMin             // sys.oplus.multibrightness.min: live logical min
    | LiveMax             // sys.oplus.multibrightness: live logical max
    | TracingBrightness   // debug.tracing.screen_brightness: the OS brightness
    | TracingState        // debug.tracing.screen_state: the screen state code
    | BrightnessMode      // persist.sys.rianixia.brightness.mode: 0 curved, 1 linear, 2 custom
    | CustomDevMax        // persist.sys.rianixia.custom.devmax.brightness: hw max override
    | CachedHwMin         // persist.sys.rianixia.hw_min: cached hardware min
    | CachedHwMax         // persist.sys.rianixia.hw_max: cached hardware max
    | LuxAodBrightness    // the forced lux-AOD brightness
    | PanelMin            // persist.sys.rianixia-display.min: panel-mode input min
    | PanelMax            // persist.sys.rianixia-display.max: panel-mode input max
    | PanelSupport        // persist.sys.rianixia.is-displaypanel.support: "true" selects panel mode
    | DisplayType         // persist.sys.rianixia.display.type: "IPS" or "AMOLED"
    | LuxAod              // persist.sys.rianixia.oplus.lux_aod: "true" enables lux AOD

  type Props = map<Key, string>

  /** `get_prop`: the platform getter reports a value's length, so an unset
      key and an empty value both read as `None`. */
  function GetProp(props: Props, k: Key): (r: Option<string>)
    ensures r.Some? <==> k in props && props[k] != []
    ensures r.Some? ==> r.value == props[k]
  {
    if k in props && |props[k]| > 0 then Some(props[k]) else None
  }

  /** `get_prop_int`: the value parsed as an `i32`, `None` when absent or
      unparseable. */
  function GetPropInt(props: Props, k: Key): (r: Option<int>)
    ensures r.Some? ==> k in props && ParseI32(props[k]) == r
    ensures r == (if k in props && props[k] != [] then ParseI32(props[k]) else None)
  {
    match GetProp(props, k)
    case Some(v) => ParseI32(v)
    case None => None
  }

  /** One call of `set_prop(key, value)`. */
  datatype SetCall = SetCall(key: Key, value: string)

  /** The store after the given `set_prop` calls, in order. */
  function Apply(props: Props, sets: seq<SetCall>): (r: Props)
    ensures r.Keys == props.Keys + (set i | 0 <= i < |sets| :: sets[i].key)
    decreases |sets|
  {
    if sets == [] then props
    else Apply(props[sets[0].key := sets[0].value], sets[1..])
  }

  /** Applying two batches of calls one after the other is applying them
      together. */
  lemma {:induction false} ApplyAppend(props: Props, a: seq<SetCall>, b: seq<SetCall>)
    ensures Apply(props, a + b) == Apply(Apply(props, a), b)
    decreases |a|
  {
    if a != [] {
      assert (a + b)[0] == a[0] && (a + b)[1..] == a[1..] + b;
      ApplyAppend(props[a[0].key := a[0].value], a[1..], b);
    } else {
      assert a + b == b;
    }
  }

  lemma ApplyOne(props: Props, c: SetCall)
    ensures Apply(props, [c]) == props[c.key := c.value]
  {
    assert [c][1..] == [];
  }

  /** An integer stored with `set_prop(k, &n.to_string())` reads back as
      the same integer. */
  lemma SetIntReadsBack(props: Props, k: Key, n: int)
    requires InI32(n)
    ensures GetPropInt(props[k := IntToString(n)], k) == Some(n)
  {
    IntToStringParses(n);
  }

  /** The property store as mutable state, with the log of every `set_prop`
      call made on it. */
  class PropertyStore {
    var props: Props
    var log: seq<SetCall>

    constructor (initial: Props)
      ensures props == initial && log == []
    {
      props := initial;
      log := [];
    }

    /** `set_prop`: the platform is assumed to accept the value. */
    method Set(k: Key, value: string)
      modifies this
      ensures props == old(props)[k := value]
      ensures log == old(log) + [SetCall(k, value)]
    {
      props := props[k := value];
      log := log + [SetCall(k, value)];
    }
  }
}
