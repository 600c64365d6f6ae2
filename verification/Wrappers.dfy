/** Small failure-compatible types and sequence vocabulary shared by every module. */
module Wrappers {

  datatype Option<+T> = None | Some(value: T)

  datatype Result<+T, +E> = Ok(value: T) | Err(error: E)

  predicate NoDuplicates<T(==)>(s: seq<T>) {
    forall i, j :: 0 <= i < j < |s| ==> s[i] != s[j]
  }

  function Elements<T>(s: seq<T>): set<T> {
    set x | x in s
  }

  /** `s` lists every member of `all` exactly once, in some order: what a query without
      ORDER BY promises about its rows. */
  ghost predicate Enumerates<T>(s: seq<T>, all: set<T>) {
    NoDuplicates(s) && Elements(s) == all
  }

  /** One more row taken from those that remain. */
  lemma TakeOne<T>(s: seq<T>, rest: set<T>, x: T)
    requires NoDuplicates(s) && Elements(s) !! rest && x in rest
    ensures NoDuplicates(s + [x]) && Elements(s + [x]) == Elements(s) + {x}
    ensures Elements(s + [x]) !! rest - {x} && Elements(s + [x]) + (rest - {x}) == Elements(s) + rest
  {
    assert forall y | y in s :: y in Elements(s);
    assert Elements(s + [x]) == Elements(s) + {x};
  }

  function Max(a: int, b: int): int {
    if a < b then b else a
  }

  function Min(a: int, b: int): int {
    if a < b then a else b
  }

  /** A subset is no larger, and as large only if it is the whole. */
  lemma {:induction false} SubsetSize<T>(a: set<T>, b: set<T>)
    requires a <= b
    ensures |a| <= |b| && (|a| == |b| ==> a == b)
  {
    if x :| x in a {
      SubsetSize(a - {x}, b - {x});
      assert a == (a - {x}) + {x} && b == (b - {x}) + {x};
    }
  }

  /** A duplicate-free sequence is as long as its set of elements, and only such a sequence is. */
  lemma {:induction false} LengthOfElements<T>(s: seq<T>)
    ensures |Elements(s)| <= |s|
    ensures |Elements(s)| == |s| <==> NoDuplicates(s)
  {
    if s == [] {
    } else {
      var init, last := s[..|s| - 1], s[|s| - 1];
      LengthOfElements(init);
      assert s == init + [last];
      assert Elements(s) == Elements(init) + {last};
      if last in init {
        assert Elements(s) == Elements(init);
        var k :| 0 <= k < |init| && init[k] == last;
        assert s[k] == s[|s| - 1];
      } else {
        assert last !in Elements(init);
        assert NoDuplicates(s) <==> NoDuplicates(init) by {
          if NoDuplicates(init) {
            forall i, j | 0 <= i < j < |s| ensures s[i] != s[j] {
              assert s[i] == init[i] && init[i] in init;
            }
          }
          if NoDuplicates(s) {
            forall i, j | 0 <= i < j < |init| ensures init[i] != init[j] {
              assert s[i] == init[i] && s[j] == init[j];
            }
          }
        }
      }
    }
  }
}
