/** Shared vocabulary: optional values, the exceptions the pruner can raise, and
    the "order-preserving subsequence" relation every filter stage satisfies. */
module Base {

  datatype Option<+T> = None | Some(value: T)

  /** The Python exceptions a stage can raise on malformed input or a missing file;
      `record` is the 0-based position of the offending record in the log named by
      `log`. NoDirectory is the IndexError of listing a directory that is absent. */
  datatype Error =
    | IndexError(log: string, record: nat)
    | ValueError(log: string, record: nat)
    | FileNotFound(path: string)
    | NoDirectory(path: string)  // `list(os.walk(path))[0]` on a missing directory

  datatype Result<+T> = Ok(value: T) | Err(error: Error)

  /** `a` is obtained from `b` by deleting elements, keeping the order of the rest. */
  ghost predicate IsSubsequence<T>(a: seq<T>, b: seq<T>)
    decreases |b|
  {
    a == [] ||
    (b != [] &&
     ((a[|a| - 1] == b[|b| - 1] && IsSubsequence(a[..|a| - 1], b[..|b| - 1])) ||
      IsSubsequence(a, b[..|b| - 1])))
  }

  /** Dropping the last element of `b` keeps a subsequence of its front a subsequence. */
  lemma SubsequenceSkip<T>(a: seq<T>, b: seq<T>)
    requires b != [] && IsSubsequence(a, b[..|b| - 1])
    ensures IsSubsequence(a, b)
  {
  }

  /** Keeping the last element of `b` extends a subsequence of its front. */
  lemma SubsequenceKeep<T>(a: seq<T>, b: seq<T>)
    requires b != [] && IsSubsequence(a, b[..|b| - 1])
    ensures IsSubsequence(a + [b[|b| - 1]], b)
  {
    assert (a + [b[|b| - 1]])[..|a|] == a;
  }

  /** The elements of a non-empty sequence are those of its front and its last one. */
  lemma MultisetSnoc<T>(s: seq<T>)
    requires s != []
    ensures multiset(s) == multiset(s[..|s| - 1]) + multiset{s[|s| - 1]}
  {
    assert s == s[..|s| - 1] + [s[|s| - 1]];
  }

  /** The elements of `s` that `keep` picks, in order and with their repetitions. */
  function Filter<T(!new)>(keep: T -> bool, s: seq<T>): (r: seq<T>)
    decreases |s|
    ensures forall x :: x in r <==> x in s && keep(x)
    ensures IsSubsequence(r, s)
    ensures forall x :: multiset(r)[x] == if keep(x) then multiset(s)[x] else 0
  {
    if s == [] then []
    else
      var init, last := s[..|s| - 1], s[|s| - 1];
      assert forall x :: x in s <==> x in init || x == last;
      MultisetSnoc(s);
      var r := Filter(keep, init);
      if keep(last) then
        SubsequenceKeep(r, s);
        r + [last]
      else
        SubsequenceSkip(r, s);
        r
  }

  /** Regrouping a six-part concatenation around its first part. */
  lemma Regroup<T>(a: seq<T>, b: seq<T>, c: seq<T>, d: seq<T>, e: seq<T>, f: seq<T>)
    ensures a + b + c + d + e + f == [] + a + (b + c + (d + e + f))
  {
  }

  /** Regrouping a four-part concatenation around its first part. */
  lemma Regroup4<T>(a: seq<T>, b: seq<T>, c: seq<T>, d: seq<T>)
    ensures a + b + c + d == [] + a + (b + c + d)
  {
  }

  /** Three single elements in a row. */
  lemma Triple<T>(x: T, y: T, z: T)
    ensures [x] + ([y] + [z]) == [x, y, z]
  {
  }

  /** Three single elements put in front of a sequence. */
  lemma Cons3<T>(x: T, y: T, z: T, s: seq<T>)
    ensures [x] + ([y] + ([z] + s)) == [x, y, z] + s
  {
  }
}
