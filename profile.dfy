/**
 * Profile: one user profile (its id, site, default and online indicators,
 * label, optional device, and the actions it allows), and its builder.
 *
 * The fail-fast `build()` requires profileId, site, default indicator, label
 * and online indicator, in that order; device is optional. The tolerant
 * `build(parseErrors)` checks nothing and attaches the caller's list.
 *
 * Two references survive the build, as in the Java: the built profile holds
 * the builder's own action list, and the caller's parse-error list.
 */
module Profiles {
  import opened Wrappers
  import opened Lists
  import opened Validation

  /** Value types of the library; only what they store is part of this model. */
  datatype ProfileId = ProfileId(value: string)
  datatype Site = Site(value: string)
  datatype RequestAction = RequestAction(value: string)

  /** The list behind a profile's parse errors: the shared immutable empty list
      (`Collections.emptyList()`), or the caller's own list, kept by reference. */
  datatype ParseErrorList = NoParseErrors | CallerList(list: MutableList<string>)

  /** The built entity. Each `Optional` getter is the field of the same name. */
  datatype Profile = Profile(
    id: Option<ProfileId>,
    isDefault: Option<bool>,
    device: Option<string>,
    labelText: Option<string>,
    online: Option<bool>,
    site: Option<Site>,
    actions: MutableList<RequestAction>,
    parseErrors: ParseErrorList)

  /** The objects a profile's parse errors are read from. */
  function ErrorSource(p: Profile): set<object>
  {
    if p.parseErrors.CallerList? then {p.parseErrors.list} else {}
  }

  /** The parse errors a profile currently reports. */
  function ParseErrors(p: Profile): seq<string>
    reads ErrorSource(p)
  {
    if p.parseErrors.CallerList? then p.parseErrors.list.elems else []
  }

  /** `getParseErrors()`: a fresh copy, so changing it leaves the profile alone. */
  method GetParseErrors(p: Profile) returns (copy: MutableList<string>)
    ensures fresh(copy)
    ensures copy.elems == ParseErrors(p)
  {
    if p.parseErrors.CallerList? {
      copy := new MutableList<string>.CopyOf(p.parseErrors.list.elems);
    } else {
      copy := new MutableList<string>.Empty();
    }
  }

  /** The five fields `build()` requires are present. */
  predicate MandatoryPresent(p: Profile)
  {
    p.id.Some? && p.site.Some? && p.isDefault.Some? && p.labelText.Some? && p.online.Some?
  }

  /** The checks of `build()`, in order. */
  function BuildRules(p: Profile): seq<Rule>
  {
    [ Rule(p.id.None?, "The profileId has not been set"),
      Rule(p.site.None?, "The site has not been set"),
      Rule(p.isDefault.None?, "The default indicator has not been set"),
      Rule(p.labelText.None?, "The label has not been set"),
      Rule(p.online.None?, "The online indicator has not been set") ]
  }

  /** `equals`: the identity fields agree; actions and parse errors are ignored. */
  function Equals(p: Profile, q: Profile): (r: bool)
    ensures r <==> p.(actions := q.actions, parseErrors := q.parseErrors) == q
  {
    p.id == q.id && p.isDefault == q.isDefault && p.device == q.device &&
    p.labelText == q.labelText && p.online == q.online && p.site == q.site
  }

  /** Java's 32-bit two's-complement wrap-around of an integer. */
  function Int32(x: int): (r: int)
    ensures -0x8000_0000 <= r < 0x8000_0000
  {
    var m := x % 0x1_0000_0000;
    if m < 0x8000_0000 then m else m - 0x1_0000_0000
  }

  /** A value already in the int range is left alone. */
  lemma Int32InRange(x: int)
    requires -0x8000_0000 <= x < 0x8000_0000
    ensures Int32(x) == x
  {
  }

  /** The wrapped value differs from the integer by a multiple of 2^32. */
  lemma Int32Wraps(x: int)
    ensures (Int32(x) - x) % 0x1_0000_0000 == 0
  {
  }

  /** Integers that agree modulo 2^32 wrap to the same int. */
  lemma Int32Congruent(x: int, y: int)
    requires (x - y) % 0x1_0000_0000 == 0
    ensures Int32(x) == Int32(y)
  {
    var k := (x - y) / 0x1_0000_0000;
    DivExact(x - y);
    ModShift(y, k);
    assert x == y + k * 0x1_0000_0000;
  }

  lemma DivExact(d: int)
    requires d % 0x1_0000_0000 == 0
    ensures d == (d / 0x1_0000_0000) * 0x1_0000_0000
  {
  }

  lemma ModShift(y: int, k: int)
    ensures (y + k * 0x1_0000_0000) % 0x1_0000_0000 == y % 0x1_0000_0000
  {
  }

  /** Wrapping the running hash before the next step changes nothing. */
  lemma Int32Step(a: int, b: int)
    ensures Int32(31 * Int32(a) + b) == Int32(31 * a + b)
  {
    var w := Int32(a);
    Int32Wraps(a);
    var k := (w - a) / 0x1_0000_0000;
    DivExact(w - a);
    var x, y := 31 * w + b, 31 * a + b;
    assert x - y == 31 * (w - a);
    assert x - y == (31 * k) * 0x1_0000_0000;
    ModShift(0, 31 * k);
    Int32Congruent(x, y);
  }

  /** 31^n. */
  function Pow31(n: nat): int
  {
    if n == 0 then 1 else 31 * Pow31(n - 1)
  }

  /** The documented value of a 31-based hash before wrap-around:
      h[0]*31^(n-1) + h[1]*31^(n-2) + ... + h[n-1]. */
  function Weighted(h: seq<int>): int
  {
    if h == [] then 0 else h[0] * Pow31(|h| - 1) + Weighted(h[1..])
  }

  lemma {:induction false} WeightedSnoc(h: seq<int>, x: int)
    ensures Weighted(h + [x]) == 31 * Weighted(h) + x
  {
    if h != [] {
      assert (h + [x])[1..] == h[1..] + [x];
      WeightedSnoc(h[1..], x);
      assert Pow31(|h|) == 31 * Pow31(|h| - 1);
      assert h[0] * Pow31(|h|) == 31 * (h[0] * Pow31(|h| - 1));
    }
  }

  /** The loop `h = 31 * h + x` over `xs`, in Java int arithmetic, from `seed`. */
  function HashFold(seed: int, xs: seq<int>): (r: int)
    requires -0x8000_0000 <= seed < 0x8000_0000
    ensures -0x8000_0000 <= r < 0x8000_0000
  {
    if xs == [] then seed else Int32(31 * HashFold(seed, xs[..|xs| - 1]) + xs[|xs| - 1])
  }

  /** Wrapping at every step is wrapping once at the end of the documented sum. */
  lemma {:induction false} HashFoldClosedForm(seed: int, xs: seq<int>)
    requires -0x8000_0000 <= seed < 0x8000_0000
    ensures HashFold(seed, xs) == Int32(seed * Pow31(|xs|) + Weighted(xs))
  {
    if xs == [] {
      Int32InRange(seed);
    } else {
      var init, x := xs[..|xs| - 1], xs[|xs| - 1];
      var p, w := Pow31(|init|), Weighted(init);
      HashFoldClosedForm(seed, init);
      ClosedFormStep(seed, xs);
      WrapChain(HashFold(seed, init), seed * p + w, seed * Pow31(|xs|) + Weighted(xs), x);
    }
  }

  /** A running hash that is the wrap of `a` steps to the wrap of `31 * a + x`. */
  lemma WrapChain(before: int, a: int, b: int, x: int)
    requires before == Int32(a) && b == 31 * a + x
    ensures Int32(31 * before + x) == Int32(b)
  {
    Int32Step(a, x);
  }

  /** One more element multiplies the documented sum by 31 and adds it. */
  lemma ClosedFormStep(seed: int, xs: seq<int>)
    requires xs != []
    ensures seed * Pow31(|xs|) + Weighted(xs) ==
              31 * (seed * Pow31(|xs| - 1) + Weighted(xs[..|xs| - 1])) + xs[|xs| - 1]
  {
    var init, x := xs[..|xs| - 1], xs[|xs| - 1];
    assert init + [x] == xs;
    WeightedSnoc(init, x);
    SumStep(seed, Pow31(|init|), Weighted(init), x);
  }

  lemma SumStep(seed: int, p: int, w: int, x: int)
    ensures 31 * (seed * p + w) + x == seed * (31 * p) + (31 * w + x)
  {
  }

  /** `Objects.hash(...)`, i.e. `Arrays.hashCode`, over the element hash codes
      (0 for null): 31^n + h[0]*31^(n-1) + ... + h[n-1], as a Java int. */
  function ObjectsHash(hashes: seq<int>): (r: int)
    ensures r == Int32(Pow31(|hashes|) + Weighted(hashes))
  {
    HashFoldClosedForm(1, hashes);
    HashFold(1, hashes)
  }

  /** `Boolean.hashCode`. */
  function BooleanHash(b: bool): int
  {
    if b then 1231 else 1237
  }

  /** The UTF-16 code units of a string, as Java stores it: a character above
      U+FFFF becomes its surrogate pair. */
  function Utf16(s: string): (units: seq<int>)
    ensures |units| >= |s|
    ensures forall i :: 0 <= i < |units| ==> 0 <= units[i] < 0x1_0000
    ensures (forall i :: 0 <= i < |s| ==> s[i] as int < 0x1_0000) ==>
              units == seq(|s|, i requires 0 <= i < |s| => s[i] as int)
  {
    if s == [] then []
    else
      var c := s[0] as int;
      (if c < 0x1_0000 then [c]
       else [0xD800 + (c - 0x1_0000) / 0x400, 0xDC00 + (c - 0x1_0000) % 0x400]) + Utf16(s[1..])
  }

  /** `String.hashCode`: u[0]*31^(n-1) + ... + u[n-1] over the UTF-16 code
      units u, as a Java int. */
  function StringHash(s: string): (r: int)
    ensures r == Int32(Weighted(Utf16(s)))
  {
    HashFoldClosedForm(0, Utf16(s));
    HashFold(0, Utf16(s))
  }

  /** A character outside the Basic Multilingual Plane is hashed as its two
      surrogates: U+1F600 is "\uD83D\uDE00", whose hash is 31*0xD83D + 0xDE00. */
  lemma AstralCharHashesAsSurrogatePair()
    ensures Utf16("\U{1F600}") == [0xD83D, 0xDE00]
    ensures StringHash("\U{1F600}") == 1772899
  {
    assert Utf16("\U{1F600}") == [0xD83D, 0xDE00] + Utf16([]);
    assert Weighted([0xD83D, 0xDE00]) == 0xD83D * 31 + Weighted([0xDE00]);
  }

  function OptionHash<T>(o: Option<T>, h: T -> int): int
  {
    if o.Some? then h(o.value) else 0
  }

  /** `hashCode()`: `Objects.hash(profileId, isDefault, device, labelText, online, site)`.
      The hash codes of ProfileId and Site are not part of this model; they are
      passed in. */
  function HashCode(p: Profile, idHash: ProfileId -> int, siteHash: Site -> int): (r: int)
    ensures -0x8000_0000 <= r < 0x8000_0000
    ensures r == Int32(887503681 + 28629151 * OptionHash(p.id, idHash) + 923521 * OptionHash(p.isDefault, BooleanHash) +
                       29791 * OptionHash(p.device, StringHash) + 961 * OptionHash(p.labelText, StringHash) +
                       31 * OptionHash(p.online, BooleanHash) + OptionHash(p.site, siteHash))
  {
    var hashes := [OptionHash(p.id, idHash), OptionHash(p.isDefault, BooleanHash),
                   OptionHash(p.device, StringHash), OptionHash(p.labelText, StringHash),
                   OptionHash(p.online, BooleanHash), OptionHash(p.site, siteHash)];
    SixTermHash(hashes);
    ObjectsHash(hashes)
  }

  /** The documented sum for six elements, with the powers of 31 written out. */
  lemma SixTermHash(h: seq<int>)
    requires |h| == 6
    ensures Pow31(6) + Weighted(h) ==
              887503681 + 28629151 * h[0] + 923521 * h[1] + 29791 * h[2] + 961 * h[3] + 31 * h[4] + h[5]
  {
    assert Pow31(6) == 887503681;
    assert Weighted(h[5..]) == h[5];
    assert Weighted(h[4..]) == 31 * h[4] + h[5] by { assert h[4..][1..] == h[5..]; }
    assert Weighted(h[3..]) == 961 * h[3] + Weighted(h[4..]) by { assert h[3..][1..] == h[4..]; }
    assert Weighted(h[2..]) == 29791 * h[2] + Weighted(h[3..]) by { assert h[2..][1..] == h[3..]; }
    assert Weighted(h[1..]) == 923521 * h[1] + Weighted(h[2..]) by { assert h[1..][1..] == h[2..]; }
    assert Weighted(h) == 28629151 * h[0] + Weighted(h[1..]);
  }

  class Builder {
    var profileId: Option<ProfileId>
    var site: Option<Site>
    var isDefault: Option<bool>
    var device: Option<string>
    var labelText: Option<string>
    var online: Option<bool>
    /** The builder's action list; every profile it builds shares it. */
    const actions: MutableList<RequestAction>

    /** `Builder.start()`: nothing set, no actions. */
    constructor Start()
      ensures profileId == None && site == None && isDefault == None
      ensures device == None && labelText == None && online == None
      ensures fresh(actions) && actions.elems == []
    {
      profileId, site, isDefault, device, labelText, online := None, None, None, None, None, None;
      actions := new MutableList<RequestAction>.Empty();
    }

    /** The profile the builder's fields describe, with the given error list. */
    function Current(errors: ParseErrorList): Profile
      reads this
    {
      Profile(profileId, isDefault, device, labelText, online, site, actions, errors)
    }

    /** `build()`: the profile, with no parse errors, or the message of the
        first unset mandatory field. */
    method Build() returns (r: Result<Profile, string>)
      ensures r.Success? <==> MandatoryPresent(Current(NoParseErrors))
      ensures r.Success? ==> r.value == Current(NoParseErrors) && ParseErrors(r.value) == []
      ensures r.Failure? ==> FirstBroken(BuildRules(Current(NoParseErrors))) == Fail(r.error)
    {
      FirstMissingReported(Current(NoParseErrors));
      if profileId.None? {
        return Failure("The profileId has not been set");
      }
      if site.None? {
        return Failure("The site has not been set");
      }
      if isDefault.None? {
        return Failure("The default indicator has not been set");
      }
      if labelText.None? {
        return Failure("The label has not been set");
      }
      if online.None? {
        return Failure("The online indicator has not been set");
      }
      return Success(Current(NoParseErrors));
    }

    /** `build(parseErrors)`: never fails and checks nothing; the profile keeps
        the caller's list itself, or the empty list when given null. */
    method BuildTolerant(parseErrors: MutableList?<string>) returns (r: Profile)
      ensures r == Current(if parseErrors == null then NoParseErrors else CallerList(parseErrors))
      ensures ParseErrors(r) == if parseErrors == null then [] else parseErrors.elems
    {
      if parseErrors == null {
        r := Current(NoParseErrors);
      } else {
        r := Current(CallerList(parseErrors));
      }
    }

    method SetId(id: ProfileId)
      modifies this
      ensures Current(NoParseErrors) == old(Current(NoParseErrors)).(id := Some(id))
    {
      profileId := Some(id);
    }

    method SetDefault(b: bool)
      modifies this
      ensures Current(NoParseErrors) == old(Current(NoParseErrors)).(isDefault := Some(b))
    {
      isDefault := Some(b);
    }

    method SetDevice(d: string)
      modifies this
      ensures Current(NoParseErrors) == old(Current(NoParseErrors)).(device := Some(d))
    {
      device := Some(d);
    }

    method SetLabel(l: string)
      modifies this
      ensures Current(NoParseErrors) == old(Current(NoParseErrors)).(labelText := Some(l))
    {
      labelText := Some(l);
    }

    method SetOnline(b: bool)
      modifies this
      ensures Current(NoParseErrors) == old(Current(NoParseErrors)).(online := Some(b))
    {
      online := Some(b);
    }

    method SetSite(s: Site)
      modifies this
      ensures Current(NoParseErrors) == old(Current(NoParseErrors)).(site := Some(s))
    {
      site := Some(s);
    }

    /** `addAction`: appends to the shared list, so profiles already built
        from this builder see the new action too. */
    method AddAction(action: RequestAction)
      modifies actions
      ensures actions.elems == old(actions.elems) + [action]
    {
      actions.Add(action);
    }
  }

  /** `build()` succeeds exactly when the five mandatory fields are set;
      device plays no part. */
  lemma BuildSucceedsIffMandatorySet(p: Profile, d: Option<string>)
    ensures FirstBroken(BuildRules(p)).Pass? <==> MandatoryPresent(p)
    ensures FirstBroken(BuildRules(p.(device := d))) == FirstBroken(BuildRules(p))
  {
    FirstMissingReported(p);
    if MandatoryPresent(p) {
      assert forall j :: 0 <= j < 5 ==> !BuildRules(p)[j].broken;
    }
    assert BuildRules(p.(device := d)) == BuildRules(p);
  }

  /** `build()` reports the first unset field in the order profileId, site,
      default indicator, label, online indicator. */
  lemma FirstMissingReported(p: Profile)
    ensures p.id.None? ==>
      FirstBroken(BuildRules(p)) == Fail("The profileId has not been set")
    ensures p.id.Some? && p.site.None? ==>
      FirstBroken(BuildRules(p)) == Fail("The site has not been set")
    ensures p.id.Some? && p.site.Some? && p.isDefault.None? ==>
      FirstBroken(BuildRules(p)) == Fail("The default indicator has not been set")
    ensures p.id.Some? && p.site.Some? && p.isDefault.Some? && p.labelText.None? ==>
      FirstBroken(BuildRules(p)) == Fail("The label has not been set")
    ensures p.id.Some? && p.site.Some? && p.isDefault.Some? && p.labelText.Some? && p.online.None? ==>
      FirstBroken(BuildRules(p)) == Fail("The online indicator has not been set")
  {
    var rules := BuildRules(p);
    if p.id.None? {
      FirstBrokenAt(rules, 0);
    } else if p.site.None? {
      FirstBrokenAt(rules, 1);
    } else if p.isDefault.None? {
      FirstBrokenAt(rules, 2);
    } else if p.labelText.None? {
      FirstBrokenAt(rules, 3);
    } else if p.online.None? {
      FirstBrokenAt(rules, 4);
    }
  }

  /** `equals` is an equivalence that ignores actions and parse errors. */
  lemma EqualsIgnoresActionsAndErrors(p: Profile, q: Profile, r: Profile,
                                      a: MutableList<RequestAction>, e: ParseErrorList)
    ensures Equals(p, p)
    ensures Equals(p, q) ==> Equals(q, p)
    ensures Equals(p, q) && Equals(q, r) ==> Equals(p, r)
    ensures Equals(p, p.(actions := a, parseErrors := e))
  {
  }

  /** Equal profiles have equal hash codes. */
  lemma EqualsImpliesSameHash(p: Profile, q: Profile, idHash: ProfileId -> int, siteHash: Site -> int)
    requires Equals(p, q)
    ensures HashCode(p, idHash, siteHash) == HashCode(q, idHash, siteHash)
  {
  }
}
