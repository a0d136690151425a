/** The plugin's parameters (src/params.rs): the `ParameterEvent` messages, the
    event buffer that each parameter's change callback updates, `get_param`,
    and the declared defaults and ranges. */
module Params {
  import opened Numerics
  import opened GainComputer

  const DefaultThreshold: real := -10.0
  const DefaultRatio: real := 4.0
  const DefaultKnee: real := 5.0
  const DefaultAttackTime: real := 0.001
  const DefaultReleaseTime: real := 0.05

  /** Number of parameters, one per `ParameterEvent` variant. */
  const NumParameters: nat := 8

  /** A parameter change: which parameter, and its new value. */
  datatype ParameterEvent =
    | Ratio(value: real)
    | Threshold(value: real)
    | AttackTime(value: real)
    | ReleaseTime(value: real)
    | KneeWidth(value: real)
    | InputGain(value: real)
    | OutputGain(value: real)
    | DryWet(value: real)
  {
    /** The variant, numbered in declaration order; stands for
        `std::mem::discriminant`, which compares variants and ignores values. */
    function Discriminant(): (d: nat)
      ensures d < NumParameters
    {
      match this
      case Ratio(_) => 0
      case Threshold(_) => 1
      case AttackTime(_) => 2
      case ReleaseTime(_) => 3
      case KneeWidth(_) => 4
      case InputGain(_) => 5
      case OutputGain(_) => 6
      case DryWet(_) => 7
    }
  }

  /** A host parameter: its stable id, display name, default and range. */
  datatype FloatParam = FloatParam(id: string, name: string, default: real, min: real, max: real)
  {
    predicate DefaultInRange()
    {
      min <= default <= max
    }
  }

  datatype CompressorParams = CompressorParams(
    threshold: FloatParam,
    ratio: FloatParam,
    attackTime: FloatParam,
    releaseTime: FloatParam,
    kneeWidth: FloatParam,
    inputGain: FloatParam,
    outputGain: FloatParam,
    dryWet: FloatParam)
  {
    /** The eight parameters carry eight different ids. */
    predicate DistinctIds()
    {
      var ids := [ratio.id, threshold.id, attackTime.id, releaseTime.id,
                  kneeWidth.id, inputGain.id, outputGain.id, dryWet.id];
      forall i, j :: 0 <= i < j < |ids| ==> ids[i] != ids[j]
    }
  }

  /** `get_param`: the parameter an event addresses, and the value it carries. */
  function GetParam(params: CompressorParams, action: ParameterEvent): (r: (FloatParam, real))
    ensures r.1 == action.value
    ensures r.0 in {params.threshold, params.ratio, params.attackTime, params.releaseTime,
                    params.kneeWidth, params.inputGain, params.outputGain, params.dryWet}
  {
    match action
    case Ratio(value) => (params.ratio, value)
    case Threshold(value) => (params.threshold, value)
    case AttackTime(value) => (params.attackTime, value)
    case ReleaseTime(value) => (params.releaseTime, value)
    case KneeWidth(value) => (params.kneeWidth, value)
    case InputGain(value) => (params.inputGain, value)
    case OutputGain(value) => (params.outputGain, value)
    case DryWet(value) => (params.dryWet, value)
  }

  /** With distinct ids, two events address the same parameter exactly when
      they are of the same variant: the eight variants select eight different
      parameters. */
  lemma GetParamSelectsByVariant(params: CompressorParams, a: ParameterEvent, b: ParameterEvent)
    requires params.DistinctIds()
    ensures GetParam(params, a).0 == GetParam(params, b).0 <==> a.Discriminant() == b.Discriminant()
  {
    var ids := [params.ratio.id, params.threshold.id, params.attackTime.id, params.releaseTime.id,
                params.kneeWidth.id, params.inputGain.id, params.outputGain.id, params.dryWet.id];
    var i, j := a.Discriminant(), b.Discriminant();
    assert GetParam(params, a).0.id == ids[i];
    assert GetParam(params, b).0.id == ids[j];
    if i < j {
      assert ids[i] != ids[j];
    } else if j < i {
      assert ids[j] != ids[i];
    }
  }

  /** `CompressorParams::default`: ids, names, defaults and ranges as declared.
      The gain parameters are declared through `db_to_gain`, which is passed in. */
  function DefaultParams(dbToGain: real -> real): (p: CompressorParams)
    ensures p.DistinctIds()
    ensures p.threshold.DefaultInRange() && p.ratio.DefaultInRange()
    ensures p.attackTime.DefaultInRange() && p.releaseTime.DefaultInRange()
    ensures p.kneeWidth.DefaultInRange() && p.dryWet.DefaultInRange()
    ensures DbToGainLaws(dbToGain) ==> p.inputGain.DefaultInRange() && p.outputGain.DefaultInRange()
    // every ratio the range admits is at least 1
    ensures p.ratio.min == 1.0
  {
    var p := CompressorParams(
      FloatParam("threshold", "Threshold", DefaultThreshold, -100.0, 5.0),
      FloatParam("ratio", "Ratio", DefaultRatio, 1.0, 100.0),
      FloatParam("attack", "Attack Time", DefaultAttackTime, 0.0, 1.0),
      FloatParam("release", "Release Time", DefaultReleaseTime, 0.0, 5.0),
      FloatParam("knee", "Knee Width", DefaultKnee, 0.0, 20.0),
      FloatParam("ingain", "Input Gain", dbToGain(0.0), dbToGain(-30.0), dbToGain(30.0)),
      FloatParam("outgain", "Output Gain", dbToGain(0.0), dbToGain(-30.0), dbToGain(30.0)),
      FloatParam("drywet", "Dry/Wet", 1.0, 0.0, 1.0));
    assert p.DistinctIds() by {
      var ids := [p.ratio.id, p.threshold.id, p.attackTime.id, p.releaseTime.id,
                  p.kneeWidth.id, p.inputGain.id, p.outputGain.id, p.dryWet.id];
      assert ids == ["ratio", "threshold", "attack", "release", "knee", "ingain", "outgain", "drywet"];
    }
    p
  }

  /** Any ratio and knee width inside their declared ranges meet the premises
      of the no-boost property. The gain change as the source computes it is
      then defined and never positive, except at the one point the declared
      knee range still admits: a knee of 0 with the level at the threshold. The
      corrected computer is defined and never positive everywhere. */
  lemma DeclaredRangesNeverBoost(dbToGain: real -> real, ratio: real, kneeWidth: real,
                                 inputDb: real, threshold: real)
    requires DefaultParams(dbToGain).ratio.min <= ratio <= DefaultParams(dbToGain).ratio.max
    requires DefaultParams(dbToGain).kneeWidth.min <= kneeWidth <= DefaultParams(dbToGain).kneeWidth.max
    ensures ReductionDbAsWritten(inputDb, threshold, ratio, kneeWidth).None?
        <==> kneeWidth == 0.0 && inputDb == threshold
    ensures !(kneeWidth == 0.0 && inputDb == threshold) ==>
      ReductionDbAsWritten(inputDb, threshold, ratio, kneeWidth).Some? &&
      ReductionDbAsWritten(inputDb, threshold, ratio, kneeWidth).value <= 0.0
    ensures ReductionDb(inputDb, threshold, ratio, kneeWidth).Some?
    ensures ReductionDb(inputDb, threshold, ratio, kneeWidth).value <= 0.0
  {
    NoBoost(inputDb, threshold, ratio, kneeWidth);
    if !(kneeWidth == 0.0 && inputDb == threshold) {
      CorrectionIsLocal(inputDb, threshold, ratio, kneeWidth);
    }
  }

  // ----- The event buffer -----

  /** The events of `events` whose variant is not `d`, in their original order. */
  function Without(events: seq<ParameterEvent>, d: nat): seq<ParameterEvent>
  {
    if events == [] then []
    else (if events[0].Discriminant() == d then [] else [events[0]]) + Without(events[1..], d)
  }

  /** The events of `events` whose variant is `d`, in their original order. */
  function Only(events: seq<ParameterEvent>, d: nat): seq<ParameterEvent>
  {
    if events == [] then []
    else (if events[0].Discriminant() == d then [events[0]] else []) + Only(events[1..], d)
  }

  /** The buffer after the change callback handles `newEvent`: every queued
      event of the same variant removed, then `newEvent` appended. */
  function Handled(events: seq<ParameterEvent>, newEvent: ParameterEvent): seq<ParameterEvent>
  {
    Without(events, newEvent.Discriminant()) + [newEvent]
  }

  /** At most one queued event per variant. */
  predicate AtMostOnePerVariant(events: seq<ParameterEvent>)
  {
    forall i, j :: 0 <= i < j < |events| ==> events[i].Discriminant() != events[j].Discriminant()
  }

  lemma {:induction false} WithoutAppend(a: seq<ParameterEvent>, b: seq<ParameterEvent>, d: nat)
    ensures Without(a + b, d) == Without(a, d) + Without(b, d)
  {
    if a == [] {
      assert a + b == b;
    } else {
      var head := if a[0].Discriminant() == d then [] else [a[0]];
      assert (a + b)[0] == a[0];
      assert (a + b)[1..] == a[1..] + b;
      assert Without(a + b, d) == head + Without(a[1..] + b, d);
      WithoutAppend(a[1..], b, d);
      assert Without(a, d) == head + Without(a[1..], d);
    }
  }

  lemma {:induction false} OnlyAppend(a: seq<ParameterEvent>, b: seq<ParameterEvent>, d: nat)
    ensures Only(a + b, d) == Only(a, d) + Only(b, d)
  {
    if a == [] {
      assert a + b == b;
    } else {
      var head := if a[0].Discriminant() == d then [a[0]] else [];
      assert (a + b)[0] == a[0];
      assert (a + b)[1..] == a[1..] + b;
      assert Only(a + b, d) == head + Only(a[1..] + b, d);
      OnlyAppend(a[1..], b, d);
      assert Only(a, d) == head + Only(a[1..], d);
    }
  }

  /** Removing one variant leaves none of it and keeps every other variant's
      events exactly, in order. */
  lemma {:induction false} WithoutKeepsOthers(events: seq<ParameterEvent>, d: nat, q: nat)
    ensures Only(Without(events, d), d) == []
    ensures q != d ==> Only(Without(events, d), q) == Only(events, q)
  {
    if events != [] {
      var head := if events[0].Discriminant() == d then [] else [events[0]];
      WithoutKeepsOthers(events[1..], d, q);
      OnlyAppend(head, Without(events[1..], d), d);
      OnlyAppend(head, Without(events[1..], d), q);
    }
  }

  /** Removing a variant twice is removing it once. */
  lemma {:induction false} WithoutIdempotent(events: seq<ParameterEvent>, d: nat)
    ensures Without(Without(events, d), d) == Without(events, d)
  {
    if events != [] {
      var head := if events[0].Discriminant() == d then [] else [events[0]];
      WithoutIdempotent(events[1..], d);
      WithoutAppend(head, Without(events[1..], d), d);
    }
  }

  /** After the callback: exactly one event of the new event's variant, the new
      event itself, and it is last; every other variant's events unchanged. */
  lemma HandledReplacesVariant(events: seq<ParameterEvent>, newEvent: ParameterEvent, q: nat)
    ensures Only(Handled(events, newEvent), newEvent.Discriminant()) == [newEvent]
    ensures Handled(events, newEvent)[|Handled(events, newEvent)| - 1] == newEvent
    ensures q != newEvent.Discriminant() ==> Only(Handled(events, newEvent), q) == Only(events, q)
  {
    var d := newEvent.Discriminant();
    WithoutKeepsOthers(events, d, q);
    OnlyAppend(Without(events, d), [newEvent], d);
    OnlyAppend(Without(events, d), [newEvent], q);
    assert [newEvent][1..] == [];
  }

  /** Handling the same event twice gives the buffer of handling it once. */
  lemma HandledIdempotent(events: seq<ParameterEvent>, newEvent: ParameterEvent)
    ensures Handled(Handled(events, newEvent), newEvent) == Handled(events, newEvent)
  {
    var d := newEvent.Discriminant();
    WithoutAppend(Without(events, d), [newEvent], d);
    assert Without([newEvent], d) == [];
    WithoutIdempotent(events, d);
  }

  /** Last writer wins: a later event of the same variant replaces an earlier
      one's value. */
  lemma HandledLastWriterWins(events: seq<ParameterEvent>, first: ParameterEvent, second: ParameterEvent)
    requires first.Discriminant() == second.Discriminant()
    ensures Handled(Handled(events, first), second) == Handled(events, second)
  {
    var d := first.Discriminant();
    WithoutAppend(Without(events, d), [first], d);
    assert Without([first], d) == [];
    WithoutIdempotent(events, d);
  }

  /** Removal only drops events: it never lengthens the buffer, never brings in
      an event that was not there, and keeps the at-most-one-per-variant property. */
  lemma {:induction false} WithoutOnlyRemoves(events: seq<ParameterEvent>, d: nat)
    ensures |Without(events, d)| <= |events|
    ensures forall e :: e in Without(events, d) ==> e in events && e.Discriminant() != d
    ensures AtMostOnePerVariant(events) ==> AtMostOnePerVariant(Without(events, d))
  {
    if events != [] {
      WithoutOnlyRemoves(events[1..], d);
      var rest := Without(events[1..], d);
      if events[0].Discriminant() != d && AtMostOnePerVariant(events) {
        assert forall e :: e in rest ==> e.Discriminant() != events[0].Discriminant() by {
          forall e | e in rest
            ensures e.Discriminant() != events[0].Discriminant()
          {
            var k :| 0 <= k < |events[1..]| && events[1..][k] == e;
            assert events[k + 1] == e;
          }
        }
        assert Without(events, d) == [events[0]] + rest;
      }
    }
  }

  /** The callback keeps the buffer at most one event per variant. */
  lemma HandledKeepsAtMostOne(events: seq<ParameterEvent>, newEvent: ParameterEvent)
    requires AtMostOnePerVariant(events)
    ensures AtMostOnePerVariant(Handled(events, newEvent))
  {
    var d := newEvent.Discriminant();
    WithoutOnlyRemoves(events, d);
    var kept := Without(events, d);
    forall i | 0 <= i < |kept|
      ensures kept[i].Discriminant() != d
    {
      assert kept[i] in kept;
    }
  }

  /** Variants are drawn from `NumParameters` values, so a buffer with at most
      one event per variant never holds more than `NumParameters` events. */
  lemma AtMostOneBoundsLength(events: seq<ParameterEvent>)
    requires AtMostOnePerVariant(events)
    ensures |events| <= NumParameters
  {
    var allowed: set<nat> := {0, 1, 2, 3, 4, 5, 6, 7};
    assert |allowed| == NumParameters;
    BoundByAllowed(events, allowed);
  }

  lemma {:induction false} BoundByAllowed(events: seq<ParameterEvent>, allowed: set<nat>)
    requires AtMostOnePerVariant(events)
    requires forall i :: 0 <= i < |events| ==> events[i].Discriminant() in allowed
    ensures |events| <= |allowed|
  {
    if events != [] {
      var d := events[0].Discriminant();
      var rest := events[1..];
      forall i | 0 <= i < |rest|
        ensures rest[i].Discriminant() in allowed - {d}
      {
        assert rest[i] == events[i + 1];
      }
      BoundByAllowed(rest, allowed - {d});
    }
  }

  /** `Vec::retain` with the callback's predicate: keep the events whose
      variant differs from `newEvent`'s. */
  method Retain(events: seq<ParameterEvent>, newEvent: ParameterEvent) returns (kept: seq<ParameterEvent>)
    ensures kept == Without(events, newEvent.Discriminant())
  {
    var d := newEvent.Discriminant();
    kept := [];
    var i := 0;
    while i < |events|
      invariant 0 <= i <= |events|
      invariant kept == Without(events[..i], d)
    {
      assert events[..i + 1] == events[..i] + [events[i]];
      WithoutAppend(events[..i], [events[i]], d);
      if events[i].Discriminant() != d {
        kept := kept + [events[i]];
      }
      i := i + 1;
    }
    assert events[..i] == events;
  }

  /** The shared buffer of pending parameter events. */
  class EventBuffer {
    var events: seq<ParameterEvent>

    /** `Vec::with_capacity(NUM_PARAMETERS)`: empty. */
    constructor ()
      ensures events == []
    {
      events := [];
    }

    /** The callback `generate_callback` builds for one parameter: build the
        event with `variant`, drop every queued event of that variant, append
        the new one. */
    method OnChange(variant: real -> ParameterEvent, value: real)
      modifies this
      ensures events == Handled(old(events), variant(value))
      ensures |events| > 0 && events[|events| - 1] == variant(value)
      ensures AtMostOnePerVariant(old(events)) ==>
                AtMostOnePerVariant(events) && |events| <= NumParameters
    {
      var newEvent := variant(value);
      var kept := Retain(events, newEvent);
      events := kept + [newEvent];
      if AtMostOnePerVariant(old(events)) {
        HandledKeepsAtMostOne(old(events), newEvent);
        AtMostOneBoundsLength(events);
      }
    }
  }
}
