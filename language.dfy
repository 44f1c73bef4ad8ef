/**
 * Language detection: Thai when the text has a character of the Thai block
 * U+0E00..U+0E7F, else English when it has an ASCII letter, else unknown.
 */
module Language {

  const THAI_LANG: string := "TH"
  const EN_LANG: string := "ENG"
  const UNKNOWN_LANG: string := "UNKNOWN"

  /** The character class `[\u0E00-\u0E7F]`: the Thai block. */
  predicate IsThai(c: char) {
    '\U{0E00}' <= c <= '\U{0E7F}'
  }

  /** The character class `[a-zA-Z]`. */
  predicate IsLatin(c: char) {
    'a' <= c <= 'z' || 'A' <= c <= 'Z'
  }

  /** Whether searching for the Thai class finds a match anywhere in `s`. */
  function ContainsThai(s: string): (b: bool)
    ensures b <==> exists i :: 0 <= i < |s| && IsThai(s[i])
  {
    if s == [] then false
    else if IsThai(s[0]) then true
    else
      var b := ContainsThai(s[1..]);
      assert forall i :: 1 <= i < |s| ==> s[i] == s[1..][i - 1];
      b
  }

  /** Whether searching for the Latin class finds a match anywhere in `s`. */
  function ContainsLatin(s: string): (b: bool)
    ensures b <==> exists i :: 0 <= i < |s| && IsLatin(s[i])
  {
    if s == [] then false
    else if IsLatin(s[0]) then true
    else
      var b := ContainsLatin(s[1..]);
      assert forall i :: 1 <= i < |s| ==> s[i] == s[1..][i - 1];
      b
  }

  /** The language of `s`; Thai wins over English when both scripts occur. */
  function DetectLanguage(s: string): (lang: string)
    ensures lang == THAI_LANG <==> exists i :: 0 <= i < |s| && IsThai(s[i])
    ensures lang == EN_LANG <==>
              (forall i :: 0 <= i < |s| ==> !IsThai(s[i])) && (exists i :: 0 <= i < |s| && IsLatin(s[i]))
    ensures lang == UNKNOWN_LANG <==>
              forall i :: 0 <= i < |s| ==> !IsThai(s[i]) && !IsLatin(s[i])
    ensures s == [] ==> lang == UNKNOWN_LANG
  {
    if ContainsThai(s) then THAI_LANG
    else if ContainsLatin(s) then EN_LANG
    else UNKNOWN_LANG
  }
}
