/** The range calibrator (`BrightnessRange` in src/bin/range.rs, and the
    identical `IR` in src/bin/xia.displayadaptor.rs): finds the logical input
    range `[min, max]` once per process and then freezes it. */
module Range {
  import opened Base
  import opened Decimal
  import opened Properties

  datatype RangeState = RangeState(min: int, max: int, locked: bool)

  /** Both values present and forming a non-empty range. */
  predicate ValidPair(lo: Option<int>, hi: Option<int>) {
    lo.Some? && hi.Some? && lo.value < hi.value
  }

  /** `BrightnessRange::init`: the persisted pair when it parses and is
      ordered, the fallback pair otherwise; never locked. */
  function InitRange(props: Props): (r: RangeState)
    ensures !r.locked && r.min < r.max
    ensures var pmin, pmax := GetPropInt(props, PersistMin), GetPropInt(props, PersistMax);
            if ValidPair(pmin, pmax) then r.min == pmin.value && r.max == pmax.value
            else r.min == FallbackMin && r.max == FallbackMax
  {
    match (GetPropInt(props, PersistMin), GetPropInt(props, PersistMax))
    case (Some(a), Some(b)) =>
      if a < b then RangeState(a, b, false) else RangeState(FallbackMin, FallbackMax, false)
    case _ => RangeState(FallbackMin, FallbackMax, false)
  }

  /** The result of one `refresh_range` call: the new range and the
      `set_prop` calls it made, in order. */
  datatype Refreshed = Refreshed(state: RangeState, sets: seq<SetCall>)

  /** The `set_prop` calls of the locking branch: a persisted key is
      rewritten only when it does not already hold the live value. */
  function WriteThrough(pmin: Option<int>, pmax: Option<int>, rm: int, rx: int): (r: seq<SetCall>)
    ensures |r| == (if pmin != Some(rm) then 1 else 0) + (if pmax != Some(rx) then 1 else 0)
    // the minimum is written first, and only when it differs
    ensures pmin != Some(rm) <==> r != [] && r[0] == SetCall(PersistMin, IntToString(rm))
    ensures pmax != Some(rx) <==> r != [] && r[|r| - 1] == SetCall(PersistMax, IntToString(rx))
  {
    (if pmin != Some(rm) then [SetCall(PersistMin, IntToString(rm))] else [])
    + (if pmax != Some(rx) then [SetCall(PersistMax, IntToString(rx))] else [])
  }

  /** `BrightnessRange::refresh_range`. */
  function Refresh(s: RangeState, props: Props): (r: Refreshed)
    // once locked, nothing changes and nothing is written
    ensures s.locked ==> r == Refreshed(s, [])
    // every unlocked call leaves a non-empty range
    ensures !s.locked ==> r.state.min < r.state.max
    // set_prop is only called by the call that locks
    ensures r.sets != [] ==> !s.locked && r.state.locked
    ensures forall i :: 0 <= i < |r.sets| ==> r.sets[i].key == PersistMin || r.sets[i].key == PersistMax
    ensures r.state.locked ==> s.locked || ValidPair(GetPropInt(props, LiveMin), GetPropInt(props, LiveMax))
  {
    if s.locked then Refreshed(s, [])
    else
      var pmin := GetPropInt(props, PersistMin);
      var pmax := GetPropInt(props, PersistMax);
      var rmin := GetPropInt(props, LiveMin);
      var rmax := GetPropInt(props, LiveMax);
      var step :=
        if rmin.Some? && rmax.Some? then
          if rmin.value < rmax.value then
            Refreshed(RangeState(rmin.value, rmax.value, true), WriteThrough(pmin, pmax, rmin.value, rmax.value))
          else Refreshed(s, [])
        else if pmin.Some? && pmax.Some? then
          if pmin.value < pmax.value then Refreshed(RangeState(pmin.value, pmax.value, false), [])
          else Refreshed(s, [])
        else Refreshed(RangeState(FallbackMin, FallbackMax, false), []);
      if step.state.min >= step.state.max then
        Refreshed(step.state.(min := FallbackMin, max := FallbackMax), step.sets)
      else step
  }

  /** A valid live pair is adopted and locks the range, and afterwards the
      persisted pair reads back as the live pair. */
  lemma RefreshLocksOnLivePair(s: RangeState, props: Props)
    requires !s.locked
    requires ValidPair(GetPropInt(props, LiveMin), GetPropInt(props, LiveMax))
    ensures var r := Refresh(s, props);
            var rm, rx := GetPropInt(props, LiveMin).value, GetPropInt(props, LiveMax).value;
            && r.state == RangeState(rm, rx, true)
            && GetPropInt(Apply(props, r.sets), PersistMin) == Some(rm)
            && GetPropInt(Apply(props, r.sets), PersistMax) == Some(rx)
            && (GetPropInt(props, PersistMin) == Some(rm) ==> forall i :: 0 <= i < |r.sets| ==> r.sets[i].key != PersistMin)
            && (GetPropInt(props, PersistMax) == Some(rx) ==> forall i :: 0 <= i < |r.sets| ==> r.sets[i].key != PersistMax)
  {
    var pmin, pmax := GetPropInt(props, PersistMin), GetPropInt(props, PersistMax);
    var rm, rx := GetPropInt(props, LiveMin).value, GetPropInt(props, LiveMax).value;
    assert Refresh(s, props).sets == WriteThrough(pmin, pmax, rm, rx);
    WriteThroughReadsBack(props, rm, rx);
  }

  /** After the write-through the persisted keys read back as the live
      pair. */
  lemma WriteThroughReadsBack(props: Props, rm: int, rx: int)
    requires InI32(rm) && InI32(rx)
    ensures var p := Apply(props, WriteThrough(GetPropInt(props, PersistMin), GetPropInt(props, PersistMax), rm, rx));
            GetPropInt(p, PersistMin) == Some(rm) && GetPropInt(p, PersistMax) == Some(rx)
  {
    var pmin, pmax := GetPropInt(props, PersistMin), GetPropInt(props, PersistMax);
    var first := if pmin != Some(rm) then [SetCall(PersistMin, IntToString(rm))] else [];
    var second := if pmax != Some(rx) then [SetCall(PersistMax, IntToString(rx))] else [];
    ApplyAppend(props, first, second);
    if pmin != Some(rm) {
      ApplyOne(props, first[0]);
      SetIntReadsBack(props, PersistMin, rm);
    }
    var mid := Apply(props, first);
    assert GetPropInt(mid, PersistMin) == Some(rm);
    assert GetPropInt(mid, PersistMax) == pmax;
    if pmax != Some(rx) {
      ApplyOne(mid, second[0]);
      SetIntReadsBack(mid, PersistMax, rx);
    }
  }

  /** An unlocked calibrator locks exactly when it sees a valid live
      pair. */
  lemma RefreshLocksExactlyOnLivePair(s: RangeState, props: Props)
    requires !s.locked && s.min < s.max
    ensures Refresh(s, props).state.locked <==> ValidPair(GetPropInt(props, LiveMin), GetPropInt(props, LiveMax))
  {
    if ValidPair(GetPropInt(props, LiveMin), GetPropInt(props, LiveMax)) {
      RefreshLocksOnLivePair(s, props);
    } else if GetPropInt(props, LiveMin).Some? && GetPropInt(props, LiveMax).Some? {
      RefreshIgnoresPersistedOnBadLivePair(s, props);
    } else {
      RefreshWithoutLivePair(s, props);
    }
  }

  /** Both live values present but out of order: the persisted pair is not
      consulted, the range is kept and stays unlocked. */
  lemma RefreshIgnoresPersistedOnBadLivePair(s: RangeState, props: Props)
    requires !s.locked && s.min < s.max
    requires GetPropInt(props, LiveMin).Some? && GetPropInt(props, LiveMax).Some?
    requires GetPropInt(props, LiveMin).value >= GetPropInt(props, LiveMax).value
    ensures Refresh(s, props) == Refreshed(s, [])
  {
  }

  /** Live pair incomplete: a valid persisted pair is adopted, an invalid
      one keeps the range, and with no persisted pair the fallback is used;
      the range stays unlocked and nothing is written. */
  lemma RefreshWithoutLivePair(s: RangeState, props: Props)
    requires !s.locked && s.min < s.max
    requires GetPropInt(props, LiveMin).None? || GetPropInt(props, LiveMax).None?
    ensures var r := Refresh(s, props);
            var pmin, pmax := GetPropInt(props, PersistMin), GetPropInt(props, PersistMax);
            && r.sets == [] && !r.state.locked
            && (ValidPair(pmin, pmax) ==> r.state.min == pmin.value && r.state.max == pmax.value)
            && (pmin.Some? && pmax.Some? && !ValidPair(pmin, pmax) ==> r.state == s)
            && (pmin.None? || pmax.None? ==> r.state == RangeState(FallbackMin, FallbackMax, false))
  {
  }

  /** The calibrator after each of a series of refreshes, one per store
      snapshot the main loop observes. */
  function RefreshAll(s: RangeState, snapshots: seq<Props>): RangeState
    decreases |snapshots|
  {
    if snapshots == [] then s else RefreshAll(Refresh(s, snapshots[0]).state, snapshots[1..])
  }

  /** Locking is permanent: whatever the live signal does later, a locked
      range never changes again. */
  lemma {:induction false} LockIsPermanent(s: RangeState, snapshots: seq<Props>)
    requires s.locked
    ensures RefreshAll(s, snapshots) == s
    decreases |snapshots|
  {
    if snapshots != [] {
      LockIsPermanent(Refresh(s, snapshots[0]).state, snapshots[1..]);
    }
  }

  predicate LivePairIn(props: Props) {
    ValidPair(GetPropInt(props, LiveMin), GetPropInt(props, LiveMax))
  }

  /** Some snapshot shows a valid live pair. */
  predicate SawLivePair(snapshots: seq<Props>) {
    exists i :: 0 <= i < |snapshots| && LivePairIn(snapshots[i])
  }

  /** Calibration converges: after any series of refreshes the range is
      non-empty, and once a snapshot shows a valid live pair the range is
      locked for good. */
  lemma {:induction false} RefreshAllSettles(s: RangeState, snapshots: seq<Props>)
    requires s.min < s.max
    ensures var t := RefreshAll(s, snapshots);
            && t.min < t.max
            && (s.locked || SawLivePair(snapshots) ==> t.locked)
    decreases |snapshots|
  {
    if snapshots != [] {
      var r := Refresh(s, snapshots[0]);
      if LivePairIn(snapshots[0]) && !s.locked {
        RefreshLocksOnLivePair(s, snapshots[0]);
      }
      RefreshAllSettles(r.state, snapshots[1..]);
      var t := RefreshAll(s, snapshots);
      if SawLivePair(snapshots) {
        var i :| 0 <= i < |snapshots| && LivePairIn(snapshots[i]);
        if i > 0 {
          assert snapshots[1..][i - 1] == snapshots[i];
        }
      }
    }
  }

  /** The write-through pays off at the next start: `init` then adopts the
      live pair that locked the previous run. */
  lemma LockedRangeSurvivesRestart(s: RangeState, props: Props)
    requires !s.locked
    requires ValidPair(GetPropInt(props, LiveMin), GetPropInt(props, LiveMax))
    ensures var r := Refresh(s, props);
            InitRange(Apply(props, r.sets)) == r.state.(locked := false)
  {
    RefreshLocksOnLivePair(s, props);
  }

  /** The calibrator as the mutable object the main loop owns. */
  class BrightnessRange {
    var min: int
    var max: int
    var locked: bool

    function State(): RangeState
      reads this
    {
      RangeState(min, max, locked)
    }

    ghost predicate Valid()
      reads this
    {
      min < max
    }

    /** `BrightnessRange::init`. */
    constructor Init(store: PropertyStore)
      ensures Valid() && State() == InitRange(store.props)
    {
      var a := GetPropInt(store.props, PersistMin);
      var b := GetPropInt(store.props, PersistMax);
      if a.Some? && b.Some? && a.value < b.value {
        min, max := a.value, b.value;
      } else {
        min, max := FallbackMin, FallbackMax;
      }
      locked := false;
    }

    /** `BrightnessRange::refresh_range`: reads the four properties, then
        updates the range and writes the persisted pair through. */
    method RefreshRange(store: PropertyStore)
      requires Valid()
      modifies this, store
      ensures Valid()
      ensures State() == Refresh(old(State()), old(store.props)).state
      ensures store.log == old(store.log) + Refresh(old(State()), old(store.props)).sets
      ensures store.props == Apply(old(store.props), Refresh(old(State()), old(store.props)).sets)
    {
      if locked {
        return;
      }
      var pmin := GetPropInt(store.props, PersistMin);
      var pmax := GetPropInt(store.props, PersistMax);
      var rmin := GetPropInt(store.props, LiveMin);
      var rmax := GetPropInt(store.props, LiveMax);
      if rmin.Some? && rmax.Some? {
        var rm, rx := rmin.value, rmax.value;
        if rm < rx {
          min := rm;
          max := rx;
          WriteThroughIn(store, pmin, pmax, rm, rx);
          locked := true;
        }
      } else if pmin.Some? && pmax.Some? {
        if pmin.value < pmax.value {
          min := pmin.value;
          max := pmax.value;
        }
      } else {
        min := FallbackMin;
        max := FallbackMax;
      }
      // the final reset of an empty range (never needed, see `Refresh`)
      var reset := min >= max;
      min, max := (if reset then FallbackMin else min), (if reset then FallbackMax else max);
    }
  }

  /** The write-through of a newly locked live pair: each persisted key
      not already holding its live value is set, the minimum first. */
  method WriteThroughIn(store: PropertyStore, pmin: Option<int>, pmax: Option<int>, rm: int, rx: int)
    modifies store
    ensures store.props == Apply(old(store.props), WriteThrough(pmin, pmax, rm, rx))
    ensures store.log == old(store.log) + WriteThrough(pmin, pmax, rm, rx)
  {
    ghost var props0 := store.props;
    ghost var first := if pmin != Some(rm) then [SetCall(PersistMin, IntToString(rm))] else [];
    ghost var second := if pmax != Some(rx) then [SetCall(PersistMax, IntToString(rx))] else [];
    if pmin != Some(rm) {
      store.Set(PersistMin, IntToString(rm));
      ApplyOne(props0, first[0]);
    }
    assert store.props == Apply(props0, first);
    if pmax != Some(rx) {
      ApplyOne(store.props, second[0]);
      store.Set(PersistMax, IntToString(rx));
    }
    ApplyAppend(props0, first, second);
  }
}
