/** Small collection helpers shared by both applications: optional values,
    results with an error side, the set of a sequence's elements and the
    cardinality facts the ORM's `count()` comparisons rely on. */
module Collections {

  /** A value that may be absent. What `None` stands for is said per field
      where it is used: for the required request fields of the chat actions,
      a value Python treats as falsy (missing, `None` or empty); for
      `message_type`, only a missing key. */
  datatype Option<+T> = None | Some(value: T) {
    function GetOr(default: T): T {
      match this
      case Some(v) => v
      case None => default
    }
  }

  datatype Result<+T, +E> = Ok(value: T) | Err(error: E)

  /** The set of elements of a sequence (Python's `set(value)`). */
  function Elems<T>(s: seq<T>): set<T> {
    set x | x in s
  }

  /** No element occurs twice. */
  predicate NoDup<T(==)>(s: seq<T>) {
    forall i, j :: 0 <= i < j < |s| ==> s[i] != s[j]
  }

  /** A sequence has at most as many distinct elements as it has entries,
      and exactly as many when no entry repeats. */
  lemma {:induction false} ElemsCard<T>(s: seq<T>)
    ensures |Elems(s)| <= |s|
    ensures |Elems(s)| == |s| <==> NoDup(s)
  {
    if s != [] {
      var tail := s[1..];
      ElemsCard(tail);
      assert Elems(s) == {s[0]} + Elems(tail) by {
        forall x | x in Elems(s) ensures x in {s[0]} + Elems(tail) {
          var i :| 0 <= i < |s| && s[i] == x;
          if i > 0 { assert tail[i - 1] == x; }
        }
      }
      if s[0] in tail {
        var k :| 0 <= k < |tail| && tail[k] == s[0];
        assert s[k + 1] == s[0];
        assert !NoDup(s);
        assert Elems(s) == Elems(tail);
      } else {
        assert |Elems(s)| == 1 + |Elems(tail)|;
        if NoDup(tail) {
          forall i, j | 0 <= i < j < |s| ensures s[i] != s[j] {
            if i == 0 {
              assert s[j] == tail[j - 1];
            } else {
              assert s[i] == tail[i - 1] && s[j] == tail[j - 1];
            }
          }
        } else {
          var i, j :| 0 <= i < j < |tail| && tail[i] == tail[j];
          assert s[i + 1] == s[j + 1];
        }
      }
    }
  }

  /** Restricting a finite set to the keys that exist keeps its size exactly
      when every element already exists. */
  lemma SubsetCard<T>(a: set<T>, known: set<T>)
    ensures |a * known| <= |a|
    ensures |a * known| == |a| <==> a <= known
    ensures !(a <= known) ==> a - known != {}
  {
    var missing := a - known;
    assert a == (a * known) + missing;
    assert (a * known) !! missing;
    assert |a| == |a * known| + |missing|;
    if !(a <= known) {
      var x :| x in a && x !in known;
      assert x in missing;
    }
  }

  /** A set of size one holds only its one known element. */
  lemma SingletonOf<T>(s: set<T>, x: T)
    requires |s| == 1 && x in s
    ensures s == {x}
  {
    assert |s - {x}| == 0;
  }

  /** The view's check `count() == len(ids)`: the number of distinct ids that
      exist equals the length of the list exactly when the list has no repeats
      and every id exists. */
  lemma {:induction false} ExistingCountMatches<T>(s: seq<T>, known: set<T>)
    ensures |Elems(s) * known| == |s| <==> NoDup(s) && Elems(s) <= known
  {
    ElemsCard(s);
    SubsetCard(Elems(s), known);
  }
}
