/** The crate's error type, its `Display` text and its `source()`. */
module Errors {

  import opened Wrappers

  /** Errors a resolve can report. `Inner` wraps a provider's own failure; the model keeps
      only the wrapped error's description text. */
  datatype Error =
    | KeyNotFound(key: string)
    | TypeMismatch(key: string)
    | Inner(description: string)

  /** The crate's `Result<T>`: `Ok(value)` or `Err(error)`. */
  datatype Result<T> = Ok(value: T) | Err(error: Error)

  const KeyNotFoundText := "Key not found: "
  const TypeMismatchText := "Type mismatch for key: "
  const InnerText := "Inner error: "

  /** The text `Display` writes for an error: the prefix of its kind, which no other kind's
      text starts with, followed by the key or the description. */
  function Display(e: Error): (s: string)
    ensures e.KeyNotFound? <==> HasPrefix(s, KeyNotFoundText)
    ensures e.TypeMismatch? <==> HasPrefix(s, TypeMismatchText)
    ensures e.Inner? <==> HasPrefix(s, InnerText)
  {
    match e
    case KeyNotFound(k) => FirstOfPrefix(KeyNotFoundText, k); KeyNotFoundText + k
    case TypeMismatch(k) => FirstOfPrefix(TypeMismatchText, k); TypeMismatchText + k
    case Inner(d) => FirstOfPrefix(InnerText, d); InnerText + d
  }

  /** A text made of `p` and then `rest` starts with `p`, and with nothing whose first
      character differs from `p`'s. */
  lemma FirstOfPrefix(p: string, rest: string)
    requires |p| > 0
    ensures HasPrefix(p + rest, p)
    ensures forall q: string | |q| > 0 && q[0] != p[0] :: !HasPrefix(p + rest, q)
  {
  }

  /** `std::error::Error::source`: only a wrapped provider error has an underlying cause. */
  function Source(e: Error): (cause: Option<string>)
    ensures cause.Some? <==> e.Inner?
    ensures cause.Some? ==> Display(e) == InnerText + cause.value
  {
    match e
    case Inner(d) => Some(d)
    case _ => None
  }

  /** Reads an error back from its displayed text: the inverse of `Display`. */
  function Parse(s: string): (e: Option<Error>)
    ensures e.Some? ==> Display(e.value) == s
  {
    if HasPrefix(s, KeyNotFoundText) then Some(KeyNotFound(s[|KeyNotFoundText|..]))
    else if HasPrefix(s, TypeMismatchText) then Some(TypeMismatch(s[|TypeMismatchText|..]))
    else if HasPrefix(s, InnerText) then Some(Inner(s[|InnerText|..]))
    else None
  }

  predicate HasPrefix(s: string, p: string)
  {
    |p| <= |s| && s[..|p|] == p
  }

  /** Every error can be read back from its text, so no two errors display alike. */
  lemma ParseDisplay(e: Error)
    ensures Parse(Display(e)) == Some(e)
  {
    var s := Display(e);
    match e
    case KeyNotFound(k) =>
      assert s[..|KeyNotFoundText|] == KeyNotFoundText;
      assert s[|KeyNotFoundText|..] == k;
    case TypeMismatch(k) =>
      assert s[..|TypeMismatchText|] == TypeMismatchText;
      assert s[|TypeMismatchText|..] == k;
      assert s[0] == 'T';
    case Inner(d) =>
      assert s[..|InnerText|] == InnerText;
      assert s[|InnerText|..] == d;
      assert s[0] == 'I';
      assert !HasPrefix(s, TypeMismatchText) by { assert TypeMismatchText[0] == 'T'; }
  }

  lemma DisplayInjective(e1: Error, e2: Error)
    ensures Display(e1) == Display(e2) ==> e1 == e2
  {
    ParseDisplay(e1);
    ParseDisplay(e2);
  }
}
