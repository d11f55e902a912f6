/** The parts of the Python runtime that the S3 helpers rely on: the values a call
    can end with (a value, `None`, or an exception), the optional arguments that may
    be `None`, list indexing with negative indices, and the `re` engine, which this
    model does not interpret. */
module Python {

  datatype Option<+T> = None | Some(value: T)

  /** The exception classes that can escape the modelled functions. Every failure
      raised by the object-store client (botocore's credential errors included) is
      collapsed into ClientError. */
  datatype Exc =
    | ValueError   // explicit `raise ValueError(...)`, or an unparseable date
    | KeyError     // a dict indexed with a missing key
    | IndexError   // `s[i]` out of range
    | TypeError    // `len(None)`, `None[i]`
    | RegexError   // `re.compile` / `re.findall` rejected the pattern
    | ClientError  // any exception from the object-store client

  /** How a Python call ends: it returns a value, it returns `None` (explicitly or
      by falling off the end of the function), or it raises. */
  datatype Py<+T> = Val(v: T) | PyNone | Raise(e: Exc)

  /** A compiled regular expression. `compiles` says whether `re` accepts the
      pattern text; `search(s)` says whether the pattern matches somewhere in `s`
      (`pattern.search(s)` is not None, equivalently `re.findall(regex, s)` is a
      non-empty list). */
  datatype Pattern = Pattern(compiles: bool, search: string -> bool)

  /** Python truthiness of an optional string argument: `None` and `''` are false. */
  predicate Truthy(s: Option<string>) {
    s.Some? && s.value != ""
  }

  /** `s[i]` on a Python list: negative indices count from the end. */
  function PyIndex<T>(s: seq<T>, i: int): (r: Py<T>)
    ensures r.Raise? <==> !(-|s| <= i < |s|)
    ensures r.Raise? ==> r.e == IndexError
    ensures 0 <= i < |s| ==> r == Val(s[i])
    ensures -|s| <= i < 0 ==> r == Val(s[|s| + i])
    ensures !r.PyNone?
  {
    if 0 <= i < |s| then Val(s[i])
    else if -|s| <= i < 0 then Val(s[|s| + i])
    else Raise(IndexError)
  }

  /** `s[-1]`: the last element, and an IndexError exactly when the list is empty. */
  lemma LastIndex<T>(s: seq<T>)
    ensures s == [] ==> PyIndex(s, -1) == Raise(IndexError)
    ensures s != [] ==> PyIndex(s, -1) == Val(s[|s| - 1])
  {
  }
}
