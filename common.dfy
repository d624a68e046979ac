/** Shared vocabulary: optional values, the exceptions of the service as
    values, and small sequence helpers. */
module Common {

  /** A Java reference that may be null. */
  datatype Option<T> = None | Some(value: T)

  /** The exceptions the validators and the service throw. */
  datatype Error =
    | Validation(message: string)             // jakarta ValidationException
    | InvalidQuantities(quantities: seq<int>) // ValidationException listing the quantities below 1
    | MissingItems(ids: seq<int>)             // ItemNotFoundException "Missing items: [...]"
    | ItemMissing(id: int)                    // ItemNotFoundException for one id
    | OrderNotFound(id: int)                  // OrderNotFoundException
    | IllegalArgument(message: string)        // IllegalArgumentException
    | UserNotFound(id: int)                   // UserNotFoundException raised by the user service
    | EntityNotFound(id: int)                 // EntityNotFoundException from a reference to a missing row

  /** A call that returns a value or throws. */
  datatype Result<T> = Ok(value: T) | Err(error: Error)

  /** A call that returns nothing or throws. */
  datatype Outcome = Pass | Fail(error: Error)

  /** A list that may be null, read the way the service reads it: null is empty. */
  function OrEmpty<T>(s: Option<seq<T>>): (r: seq<T>)
    ensures s.None? ==> r == []
    ensures s.Some? ==> r == s.value
  {
    if s.Some? then s.value else []
  }

  /** No element occurs twice. */
  predicate Distinct<T(==)>(s: seq<T>)
  {
    forall i, j :: 0 <= i < j < |s| ==> s[i] != s[j]
  }

  lemma DistinctSnoc<T>(s: seq<T>, x: T)
    ensures Distinct(s + [x]) <==> Distinct(s) && x !in s
  {
    var t := s + [x];
    if Distinct(s) && x !in s {
      forall i, j | 0 <= i < j < |t| ensures t[i] != t[j] {
        if j == |s| { assert t[i] == s[i]; }
      }
    }
    if Distinct(t) {
      if x in s {
        var i :| 0 <= i < |s| && s[i] == x;
        assert t[i] == t[|s|];
      }
      forall i, j | 0 <= i < j < |s| ensures s[i] != s[j] {
        assert t[i] == s[i] && t[j] == s[j];
      }
    }
  }

  /** A set of ids that is not empty has a member to pick. */
  lemma NonEmptyHasMember(s: set<int>)
    requires s != {}
    ensures exists x :: x in s
  {
    if forall x :: x !in s {
      assert false;
    }
  }
}
