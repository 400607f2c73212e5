/**
 * RequestActionResultBuilder: the builder of the result of a request-action
 * (make-call) command. At least one call is mandatory; the same call may be
 * added more than once, and every copy is kept in order.
 */
module RequestActionResults {
  import opened Wrappers
  import opened Lists
  import opened Validation

  /** A call of the library; only its id is part of this model. */
  datatype Call = Call(id: string)

  const NoCalls := "The make-call result has no calls"
  const NoCallsTolerant := "Invalid make-call result stanza; missing or invalid calls"

  /** The checks of `validate()`. */
  function FailFastRules(calls: seq<Call>): seq<Rule>
  {
    [Rule(|calls| == 0, NoCalls)]
  }

  /** The checks of `validate(errors)`. */
  function TolerantRules(calls: seq<Call>): seq<Rule>
  {
    [Rule(|calls| == 0, NoCallsTolerant)]
  }

  class Builder {
    var calls: seq<Call>

    constructor Start()
      ensures calls == []
    {
      calls := [];
    }

    /** `addCall`: appends, duplicates included. */
    method AddCall(c: Call)
      modifies this
      ensures calls == old(calls) + [c]
    {
      calls := calls + [c];
    }

    /** `validate()`: raises when there is no call. Changes nothing. */
    method Validate() returns (r: Outcome<string>)
      ensures r == FirstBroken(FailFastRules(calls))
      ensures r.Pass? <==> |calls| > 0
    {
      if |calls| == 0 {
        FirstBrokenAt(FailFastRules(calls), 0);
        return Fail(NoCalls);
      }
      return Pass;
    }

    /** `validate(errors)`: never raises; appends the message when there is
        no call. Changes nothing but the caller's list. */
    method ValidateTolerant(errors: MutableList<string>)
      modifies errors
      ensures errors.elems == old(errors.elems) + AllBroken(TolerantRules(calls))
    {
      assert AllBroken(TolerantRules(calls)) == Reported(TolerantRules(calls)[0]) + AllBroken([]);
      if |calls| == 0 {
        errors.Add(NoCallsTolerant);
      }
    }
  }

  /** Validation passes exactly when there is a call, in both modes; with no
      call the tolerant mode appends exactly one message. */
  lemma ValidIffSomeCall(calls: seq<Call>)
    ensures FirstBroken(FailFastRules(calls)).Pass? <==> |calls| > 0
    ensures FirstBroken(FailFastRules(calls)) == if |calls| == 0 then Fail(NoCalls) else Pass
    ensures AllBroken(TolerantRules(calls)) == if |calls| == 0 then [NoCallsTolerant] else []
  {
    assert AllBroken(TolerantRules(calls)) == Reported(TolerantRules(calls)[0]) + AllBroken([]);
    if |calls| == 0 {
      FirstBrokenAt(FailFastRules(calls), 0);
    }
  }

  /** There is no uniqueness rule on calls: a call added twice validates. */
  lemma DuplicateCallsAccepted(calls: seq<Call>, c: Call)
    ensures FirstBroken(FailFastRules(calls + [c, c])) == Pass
    ensures AllBroken(TolerantRules(calls + [c, c])) == []
  {
    ValidIffSomeCall(calls + [c, c]);
  }
}
