/**
 * GetProfilesRequestBuilder: the builder of a get-profiles request, which asks
 * for the profiles of one user. The user's jid is mandatory.
 */
module GetProfilesRequests {
  import opened Wrappers
  import opened Lists
  import opened Validation
  import opened Stanzas

  const JidMissing := "The get-profiles request 'jid' has not been set"
  const JidMissingTolerant := "Invalid get-profiles request stanza; missing or invalid 'jid'"

  /** The checks of `validate()`. */
  function FailFastRules(jid: Option<Jid>): seq<Rule>
  {
    [Rule(jid.None?, JidMissing)]
  }

  /** The checks of `validate(errors)`. */
  function TolerantRules(jid: Option<Jid>): seq<Rule>
  {
    [Rule(jid.None?, JidMissingTolerant)]
  }

  class Builder {
    var jid: Option<Jid>

    constructor Start()
      ensures jid == None
    {
      jid := None;
    }

    /** `setJID`: `getJID` then returns the value set. */
    method SetJid(j: Jid)
      modifies this
      ensures jid == Some(j)
    {
      jid := Some(j);
    }

    /** `validate()`: raises when the jid is missing. Changes nothing. */
    method Validate() returns (r: Outcome<string>)
      ensures r == FirstBroken(FailFastRules(jid))
      ensures r.Pass? <==> jid.Some?
    {
      if jid.None? {
        FirstBrokenAt(FailFastRules(jid), 0);
        return Fail(JidMissing);
      }
      return Pass;
    }

    /** `validate(errors)`: never raises; appends the message when the jid is
        missing. Changes nothing but the caller's list. */
    method ValidateTolerant(errors: MutableList<string>)
      modifies errors
      ensures errors.elems == old(errors.elems) + AllBroken(TolerantRules(jid))
    {
      assert AllBroken(TolerantRules(jid)) == Reported(TolerantRules(jid)[0]) + AllBroken([]);
      if jid.None? {
        errors.Add(JidMissingTolerant);
      }
    }
  }

  /** Validation passes exactly when the jid is set, in both modes; without it
      the tolerant mode appends exactly one message. */
  lemma ValidIffJidSet(jid: Option<Jid>)
    ensures FirstBroken(FailFastRules(jid)) == if jid.None? then Fail(JidMissing) else Pass
    ensures AllBroken(TolerantRules(jid)) == if jid.None? then [JidMissingTolerant] else []
  {
    assert AllBroken(TolerantRules(jid)) == Reported(TolerantRules(jid)[0]) + AllBroken([]);
    if jid.None? {
      FirstBrokenAt(FailFastRules(jid), 0);
    }
  }
}
