/**
 * src/utils/firstLetter.ts: change the case of the first character of a
 * text and keep the rest as it is.
 */
module FirstLetter {
  import opened Records
  import opened Ascii

  /** `upperCase`: undefined for a missing or empty text. */
  function UpperCase(text: Option<string>): (r: Option<string>)
    ensures r.None? <==> !Truthy(text)
    ensures r.Some? ==>
      |r.value| == |text.value| && r.value[0] == ToUpperChar(text.value[0]) &&
      r.value[1..] == text.value[1..]
  {
    if !Truthy(text) then None
    else Some([ToUpperChar(text.value[0])] + text.value[1..])
  }

  /** `lowerCase`: undefined for a missing or empty text. */
  function LowerCase(text: Option<string>): (r: Option<string>)
    ensures r.None? <==> !Truthy(text)
    ensures r.Some? ==>
      |r.value| == |text.value| && r.value[0] == ToLowerChar(text.value[0]) &&
      r.value[1..] == text.value[1..]
  {
    if !Truthy(text) then None
    else Some([ToLowerChar(text.value[0])] + text.value[1..])
  }

  lemma UpperCaseIdempotent(text: Option<string>)
    ensures UpperCase(UpperCase(text)) == UpperCase(text)
  {
    if UpperCase(text).Some? {
      var s := UpperCase(text).value;
      assert [ToUpperChar(s[0])] + s[1..] == s;
    }
  }

  lemma LowerCaseIdempotent(text: Option<string>)
    ensures LowerCase(LowerCase(text)) == LowerCase(text)
  {
    if LowerCase(text).Some? {
      var s := LowerCase(text).value;
      assert [ToLowerChar(s[0])] + s[1..] == s;
    }
  }
}
