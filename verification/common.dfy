/** Shared vocabulary of the model: identifiers, timestamps, the service
    layer's error values, and small sequence helpers used by several
    components. */
module Common {

  /** Document ids (Mongo object ids as strings) and order references. */
  type Id = string

  /** A timestamp in milliseconds since the epoch. */
  type Time = int

  datatype Option<+T> = None | Some(value: T) {
    function GetOr(default: T): T {
      match this
      case Some(v) => v
      case None => default
    }
  }

  /** A decimal digit, `0` to `9`. */
  predicate IsDigit(c: char) { '0' <= c <= '9' }

  /** The HTTP statuses the services raise through their API error type. */
  datatype Status =
    | BadRequest | Unauthorized | Forbidden | NotFound
    | InternalError  // an uncaught exception, answered with status 500
    | Invalid        // a schema validator rejected a document on save

  /** An error a service raises: a status and the message sent to the client. */
  datatype ApiError = ApiError(status: Status, message: string)

  /** A schema validator rejected the document on save. */
  const SchemaViolation := ApiError(Invalid, "Validation failed")

  datatype Result<+T> = Ok(value: T) | Err(error: ApiError)

  /** Calendar arithmetic and formatting that the source delegates to a date
      library. The model never looks inside these functions. */
  datatype Calendar = Calendar(
    yearLater: Time -> Time,      // addYears(t, 1)
    twoWeeksLater: Time -> Time,  // addWeeks(t, 2)
    nextDay: Time -> Time,        // addDays(t, 1)
    dayOf: Time -> int,           // the local calendar day t falls on
    format: Time -> string        // "dd/MM/yyyy 'om' HH:mm 'uur'"
  )

  /** Number of elements of `s` that satisfy `p`. */
  function CountWhere<T>(s: seq<T>, p: T -> bool): (n: nat)
    ensures n <= |s|
  {
    if |s| == 0 then 0 else CountWhere(s[..|s|-1], p) + (if p(s[|s|-1]) then 1 else 0)
  }

  lemma CountWhereAppend<T>(s: seq<T>, t: seq<T>, p: T -> bool)
    ensures CountWhere(s + t, p) == CountWhere(s, p) + CountWhere(t, p)
  {
    if |t| == 0 {
      assert s + t == s;
    } else {
      assert (s + t)[..|s + t| - 1] == s + t[..|t| - 1];
      CountWhereAppend(s, t[..|t| - 1], p);
    }
  }

  /** Elements of `s` that satisfy `p`, in their original order. */
  function Filter<T>(s: seq<T>, p: T -> bool): (r: seq<T>)
    ensures |r| <= |s|
    ensures forall x :: x in r ==> x in s && p(x)
    ensures forall x :: x in s && p(x) ==> x in r
  {
    if |s| == 0 then []
    else Filter(s[..|s|-1], p) + (if p(s[|s|-1]) then [s[|s|-1]] else [])
  }

  lemma {:induction false} FilterAppend<T>(s: seq<T>, t: seq<T>, p: T -> bool)
    ensures Filter(s + t, p) == Filter(s, p) + Filter(t, p)
  {
    if |t| == 0 {
      assert s + t == s;
    } else {
      var u, t' := s + t, t[..|t| - 1];
      var last := if p(t[|t| - 1]) then [t[|t| - 1]] else [];
      assert u[..|u| - 1] == s + t' && u[|u| - 1] == t[|t| - 1];
      assert Filter(u, p) == Filter(s + t', p) + last;
      FilterAppend(s, t', p);
      assert Filter(t, p) == Filter(t', p) + last;
    }
  }

  /** Strict lexicographic order on strings, as JavaScript's `<` compares
      two strings code unit by code unit. */
  predicate StrLt(a: string, b: string) {
    if |a| == 0 then |b| > 0
    else if |b| == 0 then false
    else if a[0] != b[0] then a[0] < b[0]
    else StrLt(a[1..], b[1..])
  }

  /** JavaScript's `<=` on strings. */
  predicate StrLe(a: string, b: string) {
    a == b || StrLt(a, b)
  }

  lemma {:induction false} StrLtIrreflexive(a: string)
    ensures !StrLt(a, a)
  {
    if |a| > 0 {
      StrLtIrreflexive(a[1..]);
    }
  }
}
