/** Small helpers shared by the service models. */
module Common {

  datatype Option<T> = None | Some(value: T)

  /** A set is empty or has a member. */
  lemma EmptyOrMember<T>(s: set<T>)
    ensures s == {} || exists x :: x in s
  {
    if forall x :: x !in s {
      assert s == {};
    }
  }

  /** A member of a non-empty set, as a witness for picking one. */
  lemma PickMember<T>(s: set<T>) returns (x: T)
    requires s != {}
    ensures x in s
  {
    EmptyOrMember(s);
    x :| x in s;
  }

  /** A set of one element is the singleton of any of its members. */
  lemma Singleton<T>(s: set<T>, x: T)
    requires |s| == 1 && x in s
    ensures s == {x}
  {
    var rest := s - {x};
    assert |rest| == 0;
    assert s == rest + {x};
  }
}
