/**
 * What the service can throw, and the one piece of imperative code the
 * error paths share: folding Joi validation details into an
 * `errors[key] = message` dictionary, where a later detail with the same
 * key overwrites an earlier one (src/middleware/error.middleware.ts:42-46,
 * src/utils/error-utils.ts:7-11, src/middleware/validate.middleware.ts:26-31,
 * src/utils/validation.utils.ts:70-73).
 */
module Failures {
  import opened Wrappers
  import opened Text
  import opened Errors

  /** One entry of a Joi `ValidationError.details`: where the problem is and what it is. */
  datatype Detail = Detail(path: seq<string>, message: string)

  /**
   * An error object reaching a handler, by the test the handlers apply to it:
   * `instanceof ApiError`, `instanceof ApplicationError` (any subclass),
   * Joi's `ValidationError`, pg's `DatabaseError` (with its SQLSTATE `code`),
   * or any other `Error`, known only by its `name` and `message`.
   */
  datatype Thrown =
    | ApiErr(api: ApiError)
    | AppErr(app: ApplicationError)
    | JoiValidation(joiMessage: string, details: seq<Detail>)
    | Database(code: string, dbMessage: string)
    | Other(otherName: string, otherMessage: string)

  /** `err.name` of each kind of error (pg's DatabaseError is named "error"). */
  function Name(err: Thrown): string {
    match err
    case ApiErr(_) => "ApiError"
    case AppErr(a) => a.name
    case JoiValidation(_, _) => "ValidationError"
    case Database(_, _) => "error"
    case Other(n, _) => n
  }

  function Message(err: Thrown): string {
    match err
    case ApiErr(a) => a.message
    case AppErr(a) => a.message
    case JoiValidation(m, _) => m
    case Database(_, m) => m
    case Other(_, m) => m
  }

  /** `detail.path.join('.')`. */
  function DottedKey(d: Detail): string {
    Join(d.path, ".")
  }

  predicate IsWrapper(x: string) {
    x == "body" || x == "query" || x == "params"
  }

  /**
   * The path elements other than the request wrappers "body", "query" and
   * "params": every other element is kept as often as it occurs, and a
   * path without wrappers comes back unchanged.
   */
  function StripWrappers(path: seq<string>): (r: seq<string>)
    ensures forall i :: 0 <= i < |r| ==> !IsWrapper(r[i])
    ensures (forall i :: 0 <= i < |path| ==> !IsWrapper(path[i])) ==> r == path
  {
    if |path| == 0 then []
    else
      assert path == [path[0]] + path[1..];
      if IsWrapper(path[0]) then StripWrappers(path[1..])
      else [path[0]] + StripWrappers(path[1..])
  }

  /** Every element other than a wrapper is kept as often as it occurs in the path. */
  lemma {:induction false} StripKeepsOthers(path: seq<string>, x: string)
    requires !IsWrapper(x)
    ensures multiset(StripWrappers(path))[x] == multiset(path)[x]
  {
    if |path| > 0 {
      assert path == [path[0]] + path[1..];
      StripKeepsOthers(path[1..], x);
    }
  }

  /** Stripping works element by element, so it keeps the order of what it keeps. */
  lemma {:induction false} StripConcat(a: seq<string>, b: seq<string>)
    ensures StripWrappers(a + b) == StripWrappers(a) + StripWrappers(b)
  {
    if |a| == 0 {
      assert a + b == b;
    } else {
      var ab := a + b;
      assert ab[0] == a[0] && ab[1..] == a[1..] + b;
      StripConcat(a[1..], b);
      calc {
        StripWrappers(ab);
        (if IsWrapper(a[0]) then [] else [a[0]]) + StripWrappers(a[1..] + b);
        (if IsWrapper(a[0]) then [] else [a[0]]) + StripWrappers(a[1..]) + StripWrappers(b);
        StripWrappers(a) + StripWrappers(b);
      }
    }
  }

  /** The key validate.middleware.ts uses: the path without its wrapper elements, dotted. */
  function StrippedKey(d: Detail): string {
    Join(StripWrappers(d.path), ".")
  }

  /** The dictionary the `forEach` over `details` builds, written as a fold from the left. */
  function ErrorsByKey(details: seq<Detail>, keyOf: Detail -> string): ErrorMap
    decreases |details|
  {
    if |details| == 0 then map[]
    else ErrorsByKey(details[..|details| - 1], keyOf)[keyOf(details[|details| - 1]) := details[|details| - 1].message]
  }

  /**
   * The keys of the dictionary are exactly the keys of the details, and the
   * message stored under a key is that of the LAST detail with that key.
   */
  lemma {:induction false} ErrorsByKeyLastWins(details: seq<Detail>, keyOf: Detail -> string)
    ensures forall k :: k in ErrorsByKey(details, keyOf) <==>
              exists i :: 0 <= i < |details| && keyOf(details[i]) == k
    ensures forall i :: 0 <= i < |details| && (forall j :: i < j < |details| ==> keyOf(details[j]) != keyOf(details[i])) ==>
              ErrorsByKey(details, keyOf)[keyOf(details[i])] == details[i].message
    decreases |details|
  {
    if |details| > 0 {
      var n := |details| - 1;
      var init := details[..n];
      ErrorsByKeyLastWins(init, keyOf);
      forall k
        ensures k in ErrorsByKey(details, keyOf) <==> exists i :: 0 <= i < |details| && keyOf(details[i]) == k
      {
        if k in ErrorsByKey(init, keyOf) {
          var i :| 0 <= i < |init| && keyOf(init[i]) == k;
          assert details[i] == init[i];
        }
        if exists i :: 0 <= i < |details| && keyOf(details[i]) == k {
          var i :| 0 <= i < |details| && keyOf(details[i]) == k;
          if i < n {
            assert init[i] == details[i];
          }
        }
      }
      forall i | 0 <= i < |details| && (forall j :: i < j < |details| ==> keyOf(details[j]) != keyOf(details[i]))
        ensures ErrorsByKey(details, keyOf)[keyOf(details[i])] == details[i].message
      {
        if i < n {
          assert init[i] == details[i];
          assert forall j :: i < j < |init| ==> init[j] == details[j];
        }
      }
    }
  }

  /** The `forEach` itself: visits the details in order and assigns `errors[key] = message`. */
  method CollectErrors(details: seq<Detail>, keyOf: Detail -> string) returns (errors: ErrorMap)
    ensures errors == ErrorsByKey(details, keyOf)
  {
    errors := map[];
    var i := 0;
    while i < |details|
      invariant 0 <= i <= |details|
      invariant errors == ErrorsByKey(details[..i], keyOf)
    {
      assert details[..i + 1][..i] == details[..i];
      errors := errors[keyOf(details[i]) := details[i].message];
      i := i + 1;
    }
    assert details[..i] == details;
  }
}
