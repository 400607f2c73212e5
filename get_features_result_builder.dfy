/**
 * GetFeaturesResultBuilder: the builder of a get-features result, holding the
 * profile the result is about and the features that profile offers.
 *
 * The profile is mandatory, and no two features may share a feature id. Both
 * validation modes check the profile first and then scan the features in
 * insertion order; each feature whose id already occurred earlier in the list
 * violates the uniqueness rule once.
 */
module GetFeaturesResults {
  import opened Wrappers
  import opened Lists
  import opened Validation
  import Profiles

  datatype FeatureId = FeatureId(value: string)

  /** A feature of a profile; only its id takes part in validation. */
  datatype Feature = Feature(id: FeatureId)

  const ProfileMissing := "The get-features result profile has not been set"
  const ProfileMissingTolerant := "Invalid get-features result stanza; missing profile"

  function DuplicateMessage(id: FeatureId): string
  {
    "Each feature id must be unique - " + id.value + " appears more than once"
  }

  function DuplicateMessageTolerant(id: FeatureId): string
  {
    "Invalid get-features result stanza; each feature id must be unique - " + id.value + " appears more than once"
  }

  /** The ids of the features, in insertion order. */
  function Ids(features: seq<Feature>): (ids: seq<FeatureId>)
    ensures |ids| == |features|
    ensures forall i :: 0 <= i < |features| ==> ids[i] == features[i].id
  {
    seq(|features|, i requires 0 <= i < |features| => features[i].id)
  }

  /** No two features share an id. */
  predicate DistinctIds(features: seq<Feature>)
  {
    forall i, j :: 0 <= i < j < |features| ==> features[i].id != features[j].id
  }

  /** The ids of the first n features. */
  function IdsBefore(features: seq<Feature>, n: nat): set<FeatureId>
    requires n <= |features|
  {
    set j | 0 <= j < n :: features[j].id
  }

  /** The feature at position i repeats an id seen earlier in the list. */
  predicate RepeatsEarlier(features: seq<Feature>, i: nat)
    requires i < |features|
  {
    features[i].id in IdsBefore(features, i)
  }

  lemma IdsBeforeStep(features: seq<Feature>, n: nat)
    requires n < |features|
    ensures IdsBefore(features, n + 1) == IdsBefore(features, n) + {features[n].id}
  {
  }

  /** The checks of `validate()`, in order: the profile, then one uniqueness
      check per feature. */
  function FailFastRules(profileId: Option<Profiles.ProfileId>, features: seq<Feature>): seq<Rule>
  {
    [Rule(profileId.None?, ProfileMissing)] +
    seq(|features|, i requires 0 <= i < |features| =>
          Rule(RepeatsEarlier(features, i), DuplicateMessage(features[i].id)))
  }

  /** The checks of `validate(errors)`, in the same order. */
  function TolerantRules(profileId: Option<Profiles.ProfileId>, features: seq<Feature>): seq<Rule>
  {
    [Rule(profileId.None?, ProfileMissingTolerant)] +
    seq(|features|, i requires 0 <= i < |features| =>
          Rule(RepeatsEarlier(features, i), DuplicateMessageTolerant(features[i].id)))
  }

  class Builder {
    var profileId: Option<Profiles.ProfileId>
    var features: seq<Feature>

    constructor Start()
      ensures profileId == None && features == []
    {
      profileId, features := None, [];
    }

    /** `setProfileId`: the last write wins. */
    method SetProfileId(id: Profiles.ProfileId)
      modifies this
      ensures profileId == Some(id) && features == old(features)
    {
      profileId := Some(id);
    }

    /** `addFeature`: appends, keeping insertion order. */
    method AddFeature(f: Feature)
      modifies this
      ensures features == old(features) + [f] && profileId == old(profileId)
    {
      features := features + [f];
    }

    /** `validate()`: raises on the missing profile, else on the first feature
        that repeats an earlier id. Changes nothing. */
    method Validate() returns (r: Outcome<string>)
      ensures r == FirstBroken(FailFastRules(profileId, features))
    {
      ghost var rules := FailFastRules(profileId, features);
      if profileId.None? {
        FirstBrokenAt(rules, 0);
        return Fail(ProfileMissing);
      }
      var seen: set<FeatureId> := {};
      var i := 0;
      while i < |features|
        invariant 0 <= i <= |features|
        invariant seen == IdsBefore(features, i)
        invariant forall j :: 0 <= j < i + 1 ==> !rules[j].broken
      {
        var id := features[i].id;
        assert rules[i + 1].broken <==> id in seen;
        if id in seen {
          FirstBrokenAt(rules, i + 1);
          return Fail(DuplicateMessage(id));
        }
        IdsBeforeStep(features, i);
        seen := seen + {id};
        i := i + 1;
      }
      return Pass;
    }

    /** `validate(errors)`: never raises; appends the profile message if the
        profile is missing, then one message per feature that repeats an
        earlier id, in list order. Changes nothing but the caller's list. */
    method ValidateTolerant(errors: MutableList<string>)
      modifies errors
      ensures errors.elems == old(errors.elems) + AllBroken(TolerantRules(profileId, features))
    {
      var pid, fs := profileId, features;
      ghost var rules := TolerantRules(pid, fs);
      TolerantStart(pid, fs);
      if pid.None? {
        errors.Add(ProfileMissingTolerant);
      }
      var seen: set<FeatureId> := {};
      var i := 0;
      while i < |fs|
        invariant 0 <= i <= |fs| && |rules| == |fs| + 1
        invariant seen == IdsBefore(fs, i)
        invariant errors.elems == old(errors.elems) + AllBroken(rules[..i + 1])
      {
        var id := fs[i].id;
        TolerantStep(pid, fs, i);
        assert RepeatsEarlier(fs, i) == (id in seen);
        if id in seen {
          errors.Add(DuplicateMessageTolerant(id));
        }
        IdsBeforeStep(fs, i);
        seen := seen + {id};
        i := i + 1;
      }
      assert rules[..i + 1] == rules;
    }
  }

  /** `validate(errors)` starts with the profile check. */
  lemma TolerantStart(profileId: Option<Profiles.ProfileId>, features: seq<Feature>)
    ensures AllBroken(TolerantRules(profileId, features)[..1]) ==
              if profileId.None? then [ProfileMissingTolerant] else []
  {
    var rules := TolerantRules(profileId, features);
    assert rules[..0] == [];
    AllBrokenStep(rules, 0);
  }

  /** One more feature scanned by `validate(errors)`: at most its uniqueness
      message is added. */
  lemma TolerantStep(profileId: Option<Profiles.ProfileId>, features: seq<Feature>, i: nat)
    requires i < |features|
    ensures AllBroken(TolerantRules(profileId, features)[..i + 2]) ==
              AllBroken(TolerantRules(profileId, features)[..i + 1]) +
              (if RepeatsEarlier(features, i) then [DuplicateMessageTolerant(features[i].id)] else [])
  {
    var rules := TolerantRules(profileId, features);
    AllBrokenStep(rules, i + 1);
  }

  /** No feature repeats an earlier id exactly when the ids are distinct. */
  lemma NoRepeatIffDistinct(features: seq<Feature>)
    ensures (forall i :: 0 <= i < |features| ==> !RepeatsEarlier(features, i)) <==> DistinctIds(features)
  {
    if !DistinctIds(features) {
      var i, j :| 0 <= i < j < |features| && features[i].id == features[j].id;
      assert features[i].id in IdsBefore(features, j);
      assert RepeatsEarlier(features, j);
    }
  }

  /** Both modes check the same conditions in the same order. */
  lemma SameOrder(profileId: Option<Profiles.ProfileId>, features: seq<Feature>)
    ensures SameConditions(FailFastRules(profileId, features), TolerantRules(profileId, features))
  {
  }

  /** `validate()` passes exactly when the profile is set and the feature ids
      are distinct, and exactly then `validate(errors)` appends nothing. */
  lemma ValidIffProfileAndDistinct(profileId: Option<Profiles.ProfileId>, features: seq<Feature>)
    ensures FirstBroken(FailFastRules(profileId, features)).Pass? <==> profileId.Some? && DistinctIds(features)
    ensures FirstBroken(FailFastRules(profileId, features)).Pass? <==> AllBroken(TolerantRules(profileId, features)) == []
  {
    var rules := FailFastRules(profileId, features);
    TwoDisciplines(rules, TolerantRules(profileId, features));
    NoRepeatIffDistinct(features);
    if profileId.Some? && DistinctIds(features) {
      forall j | 0 <= j < |rules| ensures !rules[j].broken {
        if j > 0 {
          assert rules[j].broken == RepeatsEarlier(features, j - 1);
        }
      }
    }
    if FirstBroken(rules).Pass? {
      assert !rules[0].broken;
      forall i | 0 <= i < |features| ensures !RepeatsEarlier(features, i) {
        assert !rules[i + 1].broken;
      }
    }
  }

  /** A missing profile is reported before anything about the features. */
  lemma MissingProfileFirst(features: seq<Feature>)
    ensures FirstBroken(FailFastRules(None, features)) == Fail(ProfileMissing)
    ensures |AllBroken(TolerantRules(None, features))| > 0
    ensures AllBroken(TolerantRules(None, features))[0] == ProfileMissingTolerant
  {
    FirstBrokenAt(FailFastRules(None, features), 0);
    var t := TolerantRules(None, features);
    AllBrokenAppend([t[0]], t[1..]);
    assert [t[0]] + t[1..] == t;
  }

  /** A profile with one feature validates in both modes. */
  lemma PopulatedBuilderIsValid(p: Profiles.ProfileId, f: Feature)
    ensures FirstBroken(FailFastRules(Some(p), [f])) == Pass
    ensures AllBroken(TolerantRules(Some(p), [f])) == []
  {
    ValidIffProfileAndDistinct(Some(p), [f]);
  }

  /** The same feature added twice with the profile set: `validate()` raises
      the uniqueness message naming the id. */
  lemma DuplicateFeatureRaises(p: Profiles.ProfileId, f: Feature)
    ensures FirstBroken(FailFastRules(Some(p), [f, f])) == Fail(DuplicateMessage(f.id))
  {
    var rules := FailFastRules(Some(p), [f, f]);
    assert [f, f][..0] == [];
    assert !rules[1].broken;
    assert [f, f][..1] == [f];
    assert rules[2].broken;
    FirstBrokenAt(rules, 2);
  }

  /** The same feature added twice without a profile: `validate(errors)`
      appends exactly the profile message, then the uniqueness message. */
  lemma MissingProfileAndDuplicate(f: Feature)
    ensures AllBroken(TolerantRules(None, [f, f])) ==
              [ProfileMissingTolerant, DuplicateMessageTolerant(f.id)]
  {
    var rules := TolerantRules(None, [f, f]);
    assert [f, f][..0] == [];
    assert [f, f][..1] == [f];
    assert rules[..0] == [];
    AllBrokenStep(rules, 0);
    AllBrokenStep(rules, 1);
    AllBrokenStep(rules, 2);
    assert rules[..3] == rules;
  }
}
