/**
 * The two failure disciplines every builder of the library follows.
 *
 * A builder's checks are listed, in the order the builder performs them, as
 * rules: whether the rule is violated by the builder's current fields, and the
 * message reported for it. The fail-fast `build()`/`validate()` raises the
 * message of the first violated rule; the tolerant `build(errors)` /
 * `validate(errors)` appends the message of every violated rule, in order.
 */
module Validation {
  import opened Wrappers

  /** One check: whether it is violated, and the message reported for it. */
  datatype Rule = Rule(broken: bool, message: string)

  /** The position of the first violated rule, or |rules| when none is. */
  function FirstBrokenIndex(rules: seq<Rule>): (i: nat)
    ensures i <= |rules|
    ensures forall j :: 0 <= j < i ==> !rules[j].broken
    ensures i < |rules| ==> rules[i].broken
  {
    if rules == [] || rules[0].broken then 0 else 1 + FirstBrokenIndex(rules[1..])
  }

  /** Fail-fast discipline: the message of the first violated rule, if any. */
  function FirstBroken(rules: seq<Rule>): (r: Outcome<string>)
    ensures r.Pass? <==> forall j :: 0 <= j < |rules| ==> !rules[j].broken
    ensures r.Fail? ==> exists i :: 0 <= i < |rules| && rules[i].broken && rules[i].message == r.error
  {
    var i := FirstBrokenIndex(rules);
    if i == |rules| then Pass else Fail(rules[i].message)
  }

  /** What the tolerant discipline reports for one rule. */
  function Reported(rule: Rule): seq<string>
  {
    if rule.broken then [rule.message] else []
  }

  /** Tolerant discipline: the messages of all violated rules, in rule order. */
  function AllBroken(rules: seq<Rule>): (r: seq<string>)
    ensures |r| <= |rules|
  {
    if rules == [] then [] else Reported(rules[0]) + AllBroken(rules[1..])
  }

  /** The rule at position k is the one fail-fast reports. */
  lemma FirstBrokenAt(rules: seq<Rule>, k: nat)
    requires k < |rules| && rules[k].broken
    requires forall j :: 0 <= j < k ==> !rules[j].broken
    ensures FirstBrokenIndex(rules) == k
    ensures FirstBroken(rules) == Fail(rules[k].message)
  {
  }

  /** Checking a concatenation: the first part's failure wins. */
  lemma {:induction false} FirstBrokenAppend(a: seq<Rule>, b: seq<Rule>)
    ensures FirstBroken(a + b) == if FirstBroken(a).Fail? then FirstBroken(a) else FirstBroken(b)
  {
    if FirstBroken(a).Fail? {
      FirstBrokenAt(a + b, FirstBrokenIndex(a));
    } else if FirstBroken(b).Fail? {
      var k := FirstBrokenIndex(b);
      FirstBrokenAt(a + b, |a| + k);
    }
  }

  /** Tolerant messages of a concatenation: the first part's messages come first. */
  lemma {:induction false} AllBrokenAppend(a: seq<Rule>, b: seq<Rule>)
    ensures AllBroken(a + b) == AllBroken(a) + AllBroken(b)
  {
    if a == [] {
      assert a + b == b;
    } else {
      calc {
        AllBroken(a + b);
      == { assert (a + b)[0] == a[0]; assert (a + b)[1..] == a[1..] + b; }
        Reported(a[0]) + AllBroken(a[1..] + b);
      == { AllBrokenAppend(a[1..], b); }
        Reported(a[0]) + (AllBroken(a[1..]) + AllBroken(b));
      }
    }
  }

  /** Tolerant messages grow by at most one message per further rule. */
  lemma AllBrokenStep(rules: seq<Rule>, k: nat)
    requires k < |rules|
    ensures AllBroken(rules[..k + 1]) == AllBroken(rules[..k]) + Reported(rules[k])
  {
    assert rules[..k + 1] == rules[..k] + [rules[k]];
    AllBrokenAppend(rules[..k], [rules[k]]);
    assert AllBroken([rules[k]]) == Reported(rules[k]) + AllBroken([]);
  }

  /** The two disciplines agree: fail-fast passes exactly when tolerant reports
      nothing, and otherwise fail-fast raises the first tolerant message. */
  lemma {:induction false} FailFastAgreesWithTolerant(rules: seq<Rule>)
    ensures FirstBroken(rules).Pass? <==> AllBroken(rules) == []
    ensures FirstBroken(rules).Fail? ==> AllBroken(rules)[0] == FirstBroken(rules).error
  {
    if rules != [] && !rules[0].broken {
      FailFastAgreesWithTolerant(rules[1..]);
      FirstBrokenAppend([rules[0]], rules[1..]);
      assert [rules[0]] + rules[1..] == rules;
    }
  }

  /** The number of violated rules. */
  function BrokenCount(rules: seq<Rule>): nat
  {
    if rules == [] then 0 else (if rules[0].broken then 1 else 0) + BrokenCount(rules[1..])
  }

  /** Tolerant mode reports one message per violated rule. */
  lemma {:induction false} AllBrokenCount(rules: seq<Rule>)
    ensures |AllBroken(rules)| == BrokenCount(rules)
  {
    if rules != [] {
      AllBrokenCount(rules[1..]);
    }
  }

  /** Two rule lists that check the same conditions in the same order,
      possibly with different messages. */
  predicate SameConditions(a: seq<Rule>, b: seq<Rule>)
  {
    |a| == |b| && forall i :: 0 <= i < |a| ==> a[i].broken == b[i].broken
  }

  /** A builder whose two modes check the same conditions in the same order:
      fail-fast raises exactly when tolerant mode reports something, at the
      rule whose tolerant message comes first, and both modes see the same
      number of violations. */
  lemma {:induction false} TwoDisciplines(failFast: seq<Rule>, tolerant: seq<Rule>)
    requires SameConditions(failFast, tolerant)
    ensures FirstBrokenIndex(failFast) == FirstBrokenIndex(tolerant)
    ensures FirstBroken(failFast).Pass? <==> AllBroken(tolerant) == []
    ensures FirstBroken(failFast).Fail? ==>
              AllBroken(tolerant)[0] == tolerant[FirstBrokenIndex(failFast)].message
    ensures BrokenCount(failFast) == BrokenCount(tolerant) == |AllBroken(tolerant)|
  {
    if failFast != [] {
      TwoDisciplines(failFast[1..], tolerant[1..]);
    }
    FailFastAgreesWithTolerant(tolerant);
    AllBrokenCount(tolerant);
  }
}
