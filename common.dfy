/** Small value types shared by every module of the model. */
module Common {

  /** A value that JavaScript may leave `null` or `undefined`. */
  datatype Option<+T> = None | Some(value: T) {
    /** `x ?? d`, and `x || d` when every present value is truthy. */
    function GetOr(default: T): T {
      match this
      case Some(v) => v
      case None => default
    }
  }

  /** The present elements of a sequence of optional values, in order. */
  function Somes<T>(s: seq<Option<T>>): (r: seq<T>)
    ensures |r| <= |s|
  {
    if s == [] then []
    else Somes(s[..|s| - 1]) + (if s[|s| - 1].Some? then [s[|s| - 1].value] else [])
  }

  /** `counts[k] || 0` on a tally kept in an object. */
  function CountOf<K>(counts: map<K, nat>, k: K): nat {
    if k in counts then counts[k] else 0
  }

  /** The present elements of two sequences, one after the other. */
  lemma {:induction false} SomesConcat<T>(a: seq<Option<T>>, b: seq<Option<T>>)
    ensures Somes(a + b) == Somes(a) + Somes(b)
  {
    if b != [] {
      var n := |b| - 1;
      assert (a + b)[..|a| + n] == a + b[..n];
      SomesConcat(a, b[..n]);
    } else {
      assert a + b == a;
    }
  }

  /** No element occurs twice: the rows of a table keyed by these values. */
  predicate NoDup<T(==)>(s: seq<T>) {
    s == [] || (s[|s| - 1] !in s[..|s| - 1] && NoDup(s[..|s| - 1]))
  }

  /** NoDup says that any two positions hold different elements... */
  lemma {:induction false} NoDupIndices<T>(s: seq<T>)
    requires NoDup(s)
    ensures forall i, j :: 0 <= i < j < |s| ==> s[i] != s[j]
  {
    if s != [] {
      var n := |s| - 1;
      NoDupIndices(s[..n]);
      forall i, j | 0 <= i < j < |s|
        ensures s[i] != s[j]
      {
        if j < n {
          assert s[..n][i] != s[..n][j];
        } else {
          assert s[..n][i] in s[..n];
        }
      }
    }
  }
}
