/**
 * The routing envelope of an IQ stanza (to, from, id, type) and the order in
 * which a tolerant decode reports its problems: the four envelope checks
 * first, then the payload's own checks. GetInterestRequest, whose payload is a
 * single mandatory interest id, is the stanza this is shown for.
 */
module Stanzas {
  import opened Wrappers
  import opened Validation

  /** A Jabber id; its structure is not part of this model. */
  datatype Jid = Jid(value: string)

  /** The `type` attribute of an IQ stanza. */
  datatype IqType = Get | Set | Result | Error

  /** The envelope fields as decoded from the wire; `None` when absent. */
  datatype Envelope = Envelope(to: Option<Jid>, from: Option<Jid>, id: Option<string>, iqType: Option<IqType>)

  /** The tolerant envelope checks, in order, for a stanza of the given type. */
  function EnvelopeRules(e: Envelope, expected: IqType): seq<Rule>
  {
    [ Rule(e.to.None?, "Invalid stanza; missing 'to' attribute is mandatory"),
      Rule(e.from.None?, "Invalid stanza; missing 'from' attribute is mandatory"),
      Rule(e.id.None?, "Invalid stanza; missing 'id' attribute is mandatory"),
      Rule(e.iqType != Some(expected), "Invalid stanza; missing or incorrect 'type' attribute") ]
  }

  datatype InterestId = InterestId(value: string)

  const InterestMissing := "Invalid get-interest request stanza; missing 'interest'"

  /** The tolerant checks of a decoded get-interest request: a `set` envelope,
      then the interest id. */
  function GetInterestRequestRules(e: Envelope, interest: Option<InterestId>): seq<Rule>
  {
    EnvelopeRules(e, Set) + [Rule(interest.None?, InterestMissing)]
  }

  /** The stanza is a `set` with to, from, id and the interest all present. */
  predicate WellFormed(e: Envelope, interest: Option<InterestId>)
  {
    e.to.Some? && e.from.Some? && e.id.Some? && e.iqType == Some(Set) && interest.Some?
  }

  /** The parse errors a decoded get-interest request carries: none exactly
      when the stanza is well formed, at most one per check, and a missing
      interest is always reported last. */
  function GetInterestRequestParseErrors(e: Envelope, interest: Option<InterestId>): (r: seq<string>)
    ensures r == [] <==> WellFormed(e, interest)
    ensures |r| <= 5
    ensures interest.None? ==> |r| > 0 && r[|r| - 1] == InterestMissing
    ensures e.to.None? ==> r[0] == "Invalid stanza; missing 'to' attribute is mandatory"
  {
    EnvelopeBeforePayload(e, interest);
    AllBroken(GetInterestRequestRules(e, interest))
  }

  /** The envelope's messages come first, in the order to, from, id, type,
      and the payload's message last. */
  lemma EnvelopeBeforePayload(e: Envelope, interest: Option<InterestId>)
    ensures AllBroken(GetInterestRequestRules(e, interest)) ==
      (if e.to.None? then ["Invalid stanza; missing 'to' attribute is mandatory"] else []) +
      (if e.from.None? then ["Invalid stanza; missing 'from' attribute is mandatory"] else []) +
      (if e.id.None? then ["Invalid stanza; missing 'id' attribute is mandatory"] else []) +
      (if e.iqType != Some(Set) then ["Invalid stanza; missing or incorrect 'type' attribute"] else []) +
      (if interest.None? then [InterestMissing] else [])
  {
    var rules := GetInterestRequestRules(e, interest);
    assert rules[..0] == [];
    AllBrokenStep(rules, 0);
    AllBrokenStep(rules, 1);
    AllBrokenStep(rules, 2);
    AllBrokenStep(rules, 3);
    AllBrokenStep(rules, 4);
    assert rules[..5] == rules;
  }

  /** A `get` stanza with no to, from, id or interest reports all five
      problems, envelope first. */
  lemma BadValuesReportEverything()
    ensures GetInterestRequestParseErrors(Envelope(None, None, None, Some(Get)), None) ==
      [ "Invalid stanza; missing 'to' attribute is mandatory",
        "Invalid stanza; missing 'from' attribute is mandatory",
        "Invalid stanza; missing 'id' attribute is mandatory",
        "Invalid stanza; missing or incorrect 'type' attribute",
        "Invalid get-interest request stanza; missing 'interest'" ]
  {
    EnvelopeBeforePayload(Envelope(None, None, None, Some(Get)), None);
  }

  /** A complete `set` request decodes with no parse errors. */
  lemma WellFormedHasNoErrors(to: Jid, from: Jid, id: string, interest: InterestId)
    ensures GetInterestRequestParseErrors(Envelope(Some(to), Some(from), Some(id), Some(Set)), Some(interest)) == []
  {
    EnvelopeBeforePayload(Envelope(Some(to), Some(from), Some(id), Some(Set)), Some(interest));
  }
}
