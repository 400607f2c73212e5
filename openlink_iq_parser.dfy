/**
 * OpenlinkIQParser: routes an incoming IQ stanza to the decoder of the
 * Openlink command it carries. The command's `node` attribute names the
 * command's namespace; a fixed table of eight (namespace, IQ type) bindings is
 * scanned in order and the first that matches decides the decoder. A stanza
 * without a node, or one no binding matches, is returned unchanged.
 */
module OpenlinkIqParser {
  import opened Wrappers
  import opened Stanzas

  /** The four Openlink command namespaces the table knows. */
  datatype Namespace = GetProfiles | GetInterests | GetInterest | GetFeatures

  /** The namespace's URI, as it appears in a command's `node` attribute. */
  function Uri(ns: Namespace): string
  {
    match ns
    case GetProfiles => "http://xmpp.org/protocol/openlink:01:00:00#get-profiles"
    case GetInterests => "http://xmpp.org/protocol/openlink:01:00:00#get-interests"
    case GetInterest => "http://xmpp.org/protocol/openlink:01:00:00#get-interest"
    case GetFeatures => "http://xmpp.org/protocol/openlink:01:00:00#get-features"
  }

  /** The stanza decoders (`X::from`) the table binds to. */
  datatype Factory =
    | GetProfilesRequestFrom | GetProfilesResultFrom
    | GetInterestsRequestFrom | GetInterestsResultFrom
    | GetInterestRequestFrom | GetInterestResultFrom
    | GetFeaturesRequestFrom | GetFeaturesResultFrom

  /** One binding of the table. */
  datatype IqMatcher = IqMatcher(namespace: Namespace, iqType: IqType, factory: Factory)

  /** An incoming IQ: its type, the `node` attribute of its command element,
      and the rest of its wire tree, which this model does not look into. */
  datatype Iq = Iq(iqType: Option<IqType>, node: Option<string>, wire: string)

  /** The namespace a `node` attribute names, if it is one of the four URIs. */
  function NamespaceOf(uri: string): (r: Option<Namespace>)
    ensures r.Some? ==> Uri(r.value) == uri
    ensures r.None? ==> forall ns :: Uri(ns) != uri
  {
    if uri == Uri(GetProfiles) then Some(GetProfiles)
    else if uri == Uri(GetInterests) then Some(GetInterests)
    else if uri == Uri(GetInterest) then Some(GetInterest)
    else if uri == Uri(GetFeatures) then Some(GetFeatures)
    else None
  }

  /** `IQMatcher.matches`: the same IQ type and exactly the namespace's URI,
      so a node matches a binding exactly when it names that binding's
      namespace. A missing type matches nothing. */
  function Matches(m: IqMatcher, namespace: string, t: Option<IqType>): (r: bool)
    ensures r <==> t == Some(m.iqType) && NamespaceOf(namespace) == Some(m.namespace)
  {
    UriInjective(m.namespace);
    t == Some(m.iqType) && Uri(m.namespace) == namespace
  }

  /** `STANZA_TYPE_MATCHER_LIST`, in its order. */
  const Matchers: seq<IqMatcher> := [
    IqMatcher(GetProfiles, Set, GetProfilesRequestFrom),
    IqMatcher(GetProfiles, Result, GetProfilesResultFrom),
    IqMatcher(GetInterests, Set, GetInterestsRequestFrom),
    IqMatcher(GetInterests, Result, GetInterestsResultFrom),
    IqMatcher(GetInterest, Set, GetInterestRequestFrom),
    IqMatcher(GetInterest, Result, GetInterestResultFrom),
    IqMatcher(GetFeatures, Set, GetFeaturesRequestFrom),
    IqMatcher(GetFeatures, Result, GetFeaturesResultFrom)
  ]

  /** The position of the first binding that matches, if any. */
  function FirstMatch(matchers: seq<IqMatcher>, namespace: string, t: Option<IqType>): (r: Option<nat>)
    ensures r.None? ==> forall j :: 0 <= j < |matchers| ==> !Matches(matchers[j], namespace, t)
    ensures r.Some? ==> r.value < |matchers| && Matches(matchers[r.value], namespace, t)
    ensures r.Some? ==> forall j :: 0 <= j < r.value ==> !Matches(matchers[j], namespace, t)
  {
    if matchers == [] then None
    else if Matches(matchers[0], namespace, t) then Some(0)
    else
      match FirstMatch(matchers[1..], namespace, t)
      case None => None
      case Some(k) => Some(k + 1)
  }

  /** `OpenlinkIQParser.parse`, with the decoders passed in as `decode`. */
  function Parse(iq: Iq, decode: (Factory, Iq) -> Iq): (r: Iq)
    ensures iq.node.None? ==> r == iq
    ensures iq.node.Some? ==>
              (forall j :: 0 <= j < |Matchers| ==> !Matches(Matchers[j], iq.node.value, iq.iqType)) ==>
              r == iq
    ensures forall i :: 0 <= i < |Matchers| ==>
              (iq.node.Some? && Matches(Matchers[i], iq.node.value, iq.iqType) &&
               forall j :: 0 <= j < i ==> !Matches(Matchers[j], iq.node.value, iq.iqType)) ==>
              r == decode(Matchers[i].factory, iq)
  {
    if iq.node.None? then iq
    else
      match FirstMatch(Matchers, iq.node.value, iq.iqType)
      case None => iq
      case Some(i) => decode(Matchers[i].factory, iq)
  }

  /** Distinct namespaces have distinct URIs; in particular get-interest is not
      confused with get-interests, of which its URI is a prefix. */
  lemma UriInjective(a: Namespace)
    ensures forall b :: Uri(a) == Uri(b) ==> a == b
    ensures NamespaceOf(Uri(a)) == Some(a)
  {
  }

  /** The table's (namespace, type) keys are pairwise distinct. */
  lemma KeysDistinct()
    ensures forall i, j :: 0 <= i < j < |Matchers| ==>
              (Matchers[i].namespace, Matchers[i].iqType) != (Matchers[j].namespace, Matchers[j].iqType)
  {
  }

  /** At most one binding matches any stanza, so the result does not depend on
      the order of the scan. */
  lemma AtMostOneMatch(namespace: string, t: Option<IqType>)
    ensures forall i, j :: 0 <= i < |Matchers| && 0 <= j < |Matchers| ==>
              Matches(Matchers[i], namespace, t) && Matches(Matchers[j], namespace, t) ==> i == j
  {
    forall i, j | 0 <= i < |Matchers| && 0 <= j < |Matchers| &&
                  Matches(Matchers[i], namespace, t) && Matches(Matchers[j], namespace, t)
      ensures i == j
    {
      UriInjective(Matchers[i].namespace);
      KeysDistinct();
    }
  }

  /** The decoder a namespace's `set` stanzas go to. */
  function RequestFactory(ns: Namespace): Factory
  {
    match ns
    case GetProfiles => GetProfilesRequestFrom
    case GetInterests => GetInterestsRequestFrom
    case GetInterest => GetInterestRequestFrom
    case GetFeatures => GetFeaturesRequestFrom
  }

  /** The decoder a namespace's `result` stanzas go to. */
  function ResultFactory(ns: Namespace): Factory
  {
    match ns
    case GetProfiles => GetProfilesResultFrom
    case GetInterests => GetInterestsResultFrom
    case GetInterest => GetInterestResultFrom
    case GetFeatures => GetFeaturesResultFrom
  }

  /** A `set` on any of the four namespaces goes to its request decoder, a
      `result` to its result decoder. */
  lemma SetAndResultDispatch(ns: Namespace, wire: string, decode: (Factory, Iq) -> Iq)
    ensures Parse(Iq(Some(Set), Some(Uri(ns)), wire), decode) ==
              decode(RequestFactory(ns), Iq(Some(Set), Some(Uri(ns)), wire))
    ensures Parse(Iq(Some(Result), Some(Uri(ns)), wire), decode) ==
              decode(ResultFactory(ns), Iq(Some(Result), Some(Uri(ns)), wire))
  {
    var k := match ns
      case GetProfiles => 0
      case GetInterests => 2
      case GetInterest => 4
      case GetFeatures => 6;
    forall j | 0 <= j < k
      ensures !Matches(Matchers[j], Uri(ns), Some(Set)) && !Matches(Matchers[j], Uri(ns), Some(Result))
    {
      assert Matchers[j].namespace != ns;
      UriInjective(ns);
    }
    assert Matches(Matchers[k], Uri(ns), Some(Set));
    assert !Matches(Matchers[k], Uri(ns), Some(Result));
    assert Matches(Matchers[k + 1], Uri(ns), Some(Result));
  }

  /** Any other IQ type, such as `get`, is never dispatched. */
  lemma OtherTypesPassThrough(iq: Iq, decode: (Factory, Iq) -> Iq)
    requires iq.iqType != Some(Set) && iq.iqType != Some(Result)
    ensures Parse(iq, decode) == iq
  {
  }

  /** A node that is none of the four URIs is passed through unchanged. */
  lemma ForeignNodePassesThrough(iq: Iq, decode: (Factory, Iq) -> Iq)
    requires iq.node.Some?
    requires forall ns: Namespace :: Uri(ns) != iq.node.value
    ensures Parse(iq, decode) == iq
  {
  }
}
