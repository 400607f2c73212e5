/**
 * VoiceRecorderInfo: the voice recorder attached to a call, and its builder.
 * All four fields are mandatory for the fail-fast `build()`; the tolerant
 * `build(errors)` appends one message per missing field to the caller's list
 * and still returns an object whose missing fields stay absent.
 */
module VoiceRecorderInfos {
  import opened Wrappers
  import opened Lists
  import opened Validation

  /** Wrapped value types of the library; only the string they store is part
      of this model. */
  datatype RecorderNumber = RecorderNumber(value: string)
  datatype RecorderPort = RecorderPort(value: string)
  datatype RecorderChannel = RecorderChannel(value: string)
  datatype RecorderType = RecorderType(value: string)

  /** The built entity: each getter's `Optional` is the field below. */
  datatype VoiceRecorderInfo = VoiceRecorderInfo(
    recorderNumber: Option<RecorderNumber>,
    recorderPort: Option<RecorderPort>,
    recorderChannel: Option<RecorderChannel>,
    recorderType: Option<RecorderType>)

  /** Every field is present. */
  predicate Complete(v: VoiceRecorderInfo)
  {
    v.recorderNumber.Some? && v.recorderPort.Some? && v.recorderChannel.Some? && v.recorderType.Some?
  }

  /** How many fields are absent. */
  function MissingCount(v: VoiceRecorderInfo): nat
  {
    (if v.recorderNumber.None? then 1 else 0) + (if v.recorderPort.None? then 1 else 0) +
    (if v.recorderChannel.None? then 1 else 0) + (if v.recorderType.None? then 1 else 0)
  }

  /** The checks of `build()`, in order. */
  function FailFastRules(v: VoiceRecorderInfo): seq<Rule>
  {
    [ Rule(v.recorderNumber.None?, "The VoiceRecorder recorderNumber has not been set"),
      Rule(v.recorderPort.None?, "The VoiceRecorder recorderPort has not been set"),
      Rule(v.recorderChannel.None?, "The VoiceRecorder recorderChannel has not been set"),
      Rule(v.recorderType.None?, "The VoiceRecorder recorderType has not been set") ]
  }

  /** The checks of `build(errors)`, in order. */
  function TolerantRules(v: VoiceRecorderInfo): seq<Rule>
  {
    [ Rule(v.recorderNumber.None?, "Invalid VoiceRecorderInfo; missing recorderNumber is mandatory"),
      Rule(v.recorderPort.None?, "Invalid VoiceRecorderInfo; missing recorderPort is mandatory"),
      Rule(v.recorderChannel.None?, "Invalid VoiceRecorderInfo; missing recorderChannel is mandatory"),
      Rule(v.recorderType.None?, "Invalid VoiceRecorderInfo; missing recorderType is mandatory") ]
  }

  class Builder {
    var recorderNumber: Option<RecorderNumber>
    var recorderPort: Option<RecorderPort>
    var recorderChannel: Option<RecorderChannel>
    var recorderType: Option<RecorderType>

    /** `Builder.start()`: every field unset. */
    constructor Start()
      ensures Current() == VoiceRecorderInfo(None, None, None, None)
    {
      recorderNumber, recorderPort, recorderChannel, recorderType := None, None, None, None;
    }

    /** The entity the builder's fields describe. */
    function Current(): VoiceRecorderInfo
      reads this
    {
      VoiceRecorderInfo(recorderNumber, recorderPort, recorderChannel, recorderType)
    }

    /** `build()`: the entity, or the message of the first missing field. */
    method Build() returns (r: Result<VoiceRecorderInfo, string>)
      ensures r.Success? <==> Complete(Current())
      ensures r.Success? ==> r.value == Current()
      ensures r.Failure? ==> FirstBroken(FailFastRules(Current())) == Fail(r.error)
    {
      FailFastOrder(Current());
      BuildModesAgree(Current());
      if recorderNumber.None? {
        return Failure("The VoiceRecorder recorderNumber has not been set");
      }
      if recorderPort.None? {
        return Failure("The VoiceRecorder recorderPort has not been set");
      }
      if recorderChannel.None? {
        return Failure("The VoiceRecorder recorderChannel has not been set");
      }
      if recorderType.None? {
        return Failure("The VoiceRecorder recorderType has not been set");
      }
      return Success(Current());
    }

    /** `build(errors)`: never fails; appends one message per missing field
        to the caller's list, after what it already held. */
    method BuildTolerant(errors: MutableList<string>) returns (r: VoiceRecorderInfo)
      modifies errors
      ensures r == Current()
      ensures errors.elems == old(errors.elems) + AllBroken(TolerantRules(Current()))
    {
      TolerantMessages(Current());
      if recorderNumber.None? {
        errors.Add("Invalid VoiceRecorderInfo; missing recorderNumber is mandatory");
      }
      if recorderPort.None? {
        errors.Add("Invalid VoiceRecorderInfo; missing recorderPort is mandatory");
      }
      if recorderChannel.None? {
        errors.Add("Invalid VoiceRecorderInfo; missing recorderChannel is mandatory");
      }
      if recorderType.None? {
        errors.Add("Invalid VoiceRecorderInfo; missing recorderType is mandatory");
      }
      return Current();
    }

    /** `setRecorderNumber`: null clears the field; the last write wins. */
    method SetRecorderNumber(n: Option<RecorderNumber>)
      modifies this
      ensures Current() == old(Current()).(recorderNumber := n)
    {
      recorderNumber := n;
    }

    method SetRecorderPort(p: Option<RecorderPort>)
      modifies this
      ensures Current() == old(Current()).(recorderPort := p)
    {
      recorderPort := p;
    }

    method SetRecorderChannel(c: Option<RecorderChannel>)
      modifies this
      ensures Current() == old(Current()).(recorderChannel := c)
    {
      recorderChannel := c;
    }

    method SetRecorderType(t: Option<RecorderType>)
      modifies this
      ensures Current() == old(Current()).(recorderType := t)
    {
      recorderType := t;
    }
  }

  /** The messages `build(errors)` appends, field by field. */
  lemma TolerantMessages(v: VoiceRecorderInfo)
    ensures AllBroken(TolerantRules(v)) ==
      (if v.recorderNumber.None? then ["Invalid VoiceRecorderInfo; missing recorderNumber is mandatory"] else []) +
      (if v.recorderPort.None? then ["Invalid VoiceRecorderInfo; missing recorderPort is mandatory"] else []) +
      (if v.recorderChannel.None? then ["Invalid VoiceRecorderInfo; missing recorderChannel is mandatory"] else []) +
      (if v.recorderType.None? then ["Invalid VoiceRecorderInfo; missing recorderType is mandatory"] else [])
  {
    var rules := TolerantRules(v);
    assert rules[..0] == [];
    AllBrokenStep(rules, 0);
    AllBrokenStep(rules, 1);
    AllBrokenStep(rules, 2);
    AllBrokenStep(rules, 3);
    assert rules[..4] == rules;
  }

  /** Both modes check the four fields in the same order: recorderNumber,
      recorderPort, recorderChannel, recorderType. */
  lemma SameOrder(v: VoiceRecorderInfo)
    ensures SameConditions(FailFastRules(v), TolerantRules(v))
    ensures forall i :: 0 <= i < 4 ==> FailFastRules(v)[i].broken == TolerantRules(v)[i].broken
  {
  }

  /** `build()` succeeds exactly when every field is set, and then the
      tolerant mode appends nothing; otherwise it fails with the message of the
      first missing field, whose tolerant message heads the appended list. */
  lemma BuildModesAgree(v: VoiceRecorderInfo)
    ensures FirstBroken(FailFastRules(v)).Pass? <==> Complete(v)
    ensures FirstBroken(FailFastRules(v)).Pass? <==> AllBroken(TolerantRules(v)) == []
    ensures FirstBroken(FailFastRules(v)).Fail? ==>
              AllBroken(TolerantRules(v))[0] == TolerantRules(v)[FirstBrokenIndex(FailFastRules(v))].message
  {
    TwoDisciplines(FailFastRules(v), TolerantRules(v));
    FailFastOrder(v);
    if Complete(v) {
      assert forall j :: 0 <= j < 4 ==> !FailFastRules(v)[j].broken;
    }
  }

  /** The tolerant mode appends exactly one message per missing field. */
  lemma TolerantCountsMissing(v: VoiceRecorderInfo)
    ensures |AllBroken(TolerantRules(v))| == MissingCount(v)
    ensures MissingCount(v) == 0 <==> Complete(v)
  {
    TolerantMessages(v);
  }

  /** The first missing field in the order recorderNumber, recorderPort,
      recorderChannel, recorderType decides `build()`'s message. */
  lemma FailFastOrder(v: VoiceRecorderInfo)
    ensures v.recorderNumber.None? ==>
      FirstBroken(FailFastRules(v)) == Fail("The VoiceRecorder recorderNumber has not been set")
    ensures v.recorderNumber.Some? && v.recorderPort.None? ==>
      FirstBroken(FailFastRules(v)) == Fail("The VoiceRecorder recorderPort has not been set")
    ensures v.recorderNumber.Some? && v.recorderPort.Some? && v.recorderChannel.None? ==>
      FirstBroken(FailFastRules(v)) == Fail("The VoiceRecorder recorderChannel has not been set")
    ensures v.recorderNumber.Some? && v.recorderPort.Some? && v.recorderChannel.Some? && v.recorderType.None? ==>
      FirstBroken(FailFastRules(v)) == Fail("The VoiceRecorder recorderType has not been set")
  {
    var rules := FailFastRules(v);
    if v.recorderNumber.None? {
      FirstBrokenAt(rules, 0);
    } else if v.recorderPort.None? {
      FirstBrokenAt(rules, 1);
    } else if v.recorderChannel.None? {
      FirstBrokenAt(rules, 2);
    } else if v.recorderType.None? {
      FirstBrokenAt(rules, 3);
    }
  }
}
