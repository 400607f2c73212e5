/**
 * RequestActionValue: the self-validating wrapper for the value argument of a
 * request-action command. Its factory never throws: a missing (Java `null`)
 * or empty string gives an absent value, anything else is wrapped verbatim.
 */
module RequestActionValues {
  import opened Wrappers

  datatype RequestActionValue = RequestActionValue(value: string)

  /** Any other string-valued wrapper type of the library; only the string it
      stores is part of this model. */
  datatype StringType = StringType(value: string)

  /** `RequestActionValue.from(String)`: `None` stands for a Java `null`. */
  function From(s: Option<string>): (r: Option<RequestActionValue>)
    ensures r.Some? <==> s.Some? && |s.value| > 0
    ensures r.Some? ==> r.value.value == s.value
  {
    if s.None? || s.value == "" then None else Some(RequestActionValue(s.value))
  }

  /** `RequestActionValue.from(AbstractType<String>)`: re-wraps the other
      type's string without checking it again. */
  function FromType(t: StringType): (r: RequestActionValue)
    ensures r.value == t.value
  {
    RequestActionValue(t.value)
  }

  /** Every value with a non-empty string is what `From` gives for that string:
      the factory neither trims nor normalises. */
  lemma FromRoundTrip(v: RequestActionValue)
    requires v.value != ""
    ensures From(Some(v.value)) == Some(v)
  {
  }

  /** Null and the empty string are both rejected. */
  lemma FromRejectsNullAndEmpty()
    ensures From(None) == None
    ensures From(Some("")) == None
  {
  }

  /** Re-wrapping agrees with the validating factory whenever the factory
      accepts, and also produces the empty value the factory refuses. */
  lemma FromTypeSkipsCheck(t: StringType)
    ensures t.value != "" ==> From(Some(t.value)) == Some(FromType(t))
    ensures t.value == "" ==> From(Some(t.value)) == None && FromType(t).value == ""
  {
  }
}
