/** Values as they arrive from JavaScript callers, and the string helpers the host uses. */
module Js {

  /** `null` or a value. */
  datatype Option<T> = None | Some(value: T)

  /** An untyped value received from the process arguments or across the
      bridge: either a string or something else (undefined, null, a number,
      an object). The host only ever asks of such a value whether it is a string. */
  datatype JsValue = Str(s: string) | NonString

  /** The negation of the guard `!v || typeof v !== 'string'`: a non-empty string. */
  predicate IsNonEmptyString(v: JsValue)
  {
    v.Str? && v.s != ""
  }

  /** `String.prototype.toLowerCase`, restricted to ASCII letters. */
  function LowerChar(c: char): char
  {
    if 'A' <= c <= 'Z' then (c as int + 32) as char else c
  }

  /** Each ASCII capital becomes its lower-case letter (32 code points on);
      every other character is kept. */
  function LowerCase(s: string): (r: string)
    ensures |r| == |s|
    ensures forall i :: 0 <= i < |s| ==>
              if 'A' <= s[i] <= 'Z' then r[i] as int == s[i] as int + 32 else r[i] == s[i]
  {
    if s == [] then [] else [LowerChar(s[0])] + LowerCase(s[1..])
  }

  /** Lower-casing twice is lower-casing once. */
  lemma LowerCaseIdempotent(s: string)
    ensures LowerCase(LowerCase(s)) == LowerCase(s)
  {
  }

  /** No ASCII capital is left after lower-casing. */
  lemma LowerCaseHasNoCapital(s: string)
    ensures forall i :: 0 <= i < |s| ==> !('A' <= LowerCase(s)[i] <= 'Z')
  {
  }

  /** A string without upper-case letters is its own lower-cased form. */
  lemma LowerCaseWithoutUpper(s: string)
    requires forall i :: 0 <= i < |s| ==> !('A' <= s[i] <= 'Z')
    ensures LowerCase(s) == s
  {
  }
}
