/** The three state-update conventions every dashboard applies to its
    id-keyed lists: replace the matching entries (a `map` whose callback
    returns either a merged copy or the entry itself), drop the matching
    entries (a `filter`), and append a new entry whose id is the list's
    length plus one. The predicate `hit` is the callback's id comparison. */
module IdLists {
  import opened Wrappers

  /** The id a create handler gives a new entry: `list.length + 1`. */
  function NextId<T>(xs: seq<T>): int
  {
    |xs| + 1
  }

  /** `xs.map(x => hit(x) ? f(x) : x)`. */
  function UpdateWhere<T>(xs: seq<T>, hit: T -> bool, f: T -> T): (r: seq<T>)
    ensures |r| == |xs|
    ensures forall i :: 0 <= i < |xs| && !hit(xs[i]) ==> r[i] == xs[i]
    ensures forall i :: 0 <= i < |xs| && hit(xs[i]) ==> r[i] == f(xs[i])
    decreases |xs|
  {
    if xs == [] then []
    else [if hit(xs[0]) then f(xs[0]) else xs[0]] + UpdateWhere(xs[1..], hit, f)
  }

  /** Number of entries `hit` selects. */
  function CountWhere<T>(xs: seq<T>, hit: T -> bool): nat
    decreases |xs|
  {
    if xs == [] then 0 else (if hit(xs[0]) then 1 else 0) + CountWhere(xs[1..], hit)
  }

  /** `a` is `b` with some entries left out, the rest in their order. */
  ghost predicate IsSubsequence<T>(a: seq<T>, b: seq<T>)
    decreases |b|
  {
    if a == [] then true
    else if b == [] then false
    else if a[0] == b[0] then IsSubsequence(a[1..], b[1..])
    else IsSubsequence(a, b[1..])
  }

  /** `xs.filter(x => !hit(x))`. */
  function RemoveWhere<T>(xs: seq<T>, hit: T -> bool): (r: seq<T>)
    ensures forall i :: 0 <= i < |r| ==> !hit(r[i])
    ensures forall i :: 0 <= i < |xs| && !hit(xs[i]) ==> xs[i] in r
    ensures IsSubsequence(r, xs)
    ensures |r| == |xs| - CountWhere(xs, hit)
    decreases |xs|
  {
    if xs == [] then []
    else
      var rest := RemoveWhere(xs[1..], hit);
      assert forall i :: 1 <= i < |xs| ==> xs[i] == xs[1..][i - 1];
      if hit(xs[0]) then
        SubsequenceDropHead(rest, xs);
        rest
      else
        var r := [xs[0]] + rest;
        assert r[1..] == rest;
        r
  }

  lemma {:induction false} SubsequenceDropHead<T>(a: seq<T>, b: seq<T>)
    requires b != []
    requires IsSubsequence(a, b[1..])
    ensures IsSubsequence(a, b)
    decreases |b|, 0
  {
    if a != [] && a[0] == b[0] {
      // a[0] is taken from b[1..], so a[1..] is a subsequence of what
      // follows that position in b[1..], hence of b[1..] itself.
      SubsequenceTail(a, b[1..]);
    }
  }

  lemma {:induction false} SubsequenceTail<T>(a: seq<T>, b: seq<T>)
    requires a != []
    requires IsSubsequence(a, b)
    ensures IsSubsequence(a[1..], b)
    decreases |b|, 1
  {
    if a[0] == b[0] {
      if a[1..] != [] {
        SubsequenceDropHead(a[1..], b);
      }
    } else {
      SubsequenceTail(a, b[1..]);
      if a[1..] != [] {
        SubsequenceDropHead(a[1..], b);
      }
    }
  }

  /** `xs.map(...)` whose callback may throw for the selected entries: the
      first entry whose callback throws aborts the whole map with that
      error. */
  function TryUpdateWhere<T, E>(xs: seq<T>, hit: T -> bool, f: T -> Result<T, E>): (r: Result<seq<T>, E>)
    ensures r.Ok? <==> forall i :: 0 <= i < |xs| && hit(xs[i]) ==> f(xs[i]).Ok?
    ensures r.Ok? ==> |r.value| == |xs|
    ensures r.Ok? ==> forall i :: 0 <= i < |xs| && !hit(xs[i]) ==> r.value[i] == xs[i]
    ensures r.Ok? ==> forall i :: 0 <= i < |xs| && hit(xs[i]) ==> r.value[i] == f(xs[i]).value
    ensures r.Err? ==> exists i :: FirstFailure(xs, hit, f, i) && f(xs[i]).error == r.error
    decreases |xs|
  {
    if xs == [] then Ok([])
    else
      var head := if hit(xs[0]) then f(xs[0]) else Ok(xs[0]);
      if head.Err? then
        assert FirstFailure(xs, hit, f, 0);
        Err(head.error)
      else
        var rest := TryUpdateWhere(xs[1..], hit, f);
        if rest.Err? then
          FirstFailureShift(xs, hit, f, rest.error);
          Err(rest.error)
        else
          assert forall i :: 1 <= i < |xs| ==> xs[i] == xs[1..][i - 1];
          Ok([head.value] + rest.value)
  }

  /** Entry `i` is the first selected entry whose callback throws. */
  ghost predicate FirstFailure<T, E>(xs: seq<T>, hit: T -> bool, f: T -> Result<T, E>, i: int)
  {
    && 0 <= i < |xs|
    && hit(xs[i])
    && f(xs[i]).Err?
    && forall j :: 0 <= j < i && hit(xs[j]) ==> f(xs[j]).Ok?
  }

  lemma FirstFailureShift<T, E>(xs: seq<T>, hit: T -> bool, f: T -> Result<T, E>, e: E)
    requires xs != []
    requires !hit(xs[0]) || f(xs[0]).Ok?
    requires exists i :: FirstFailure(xs[1..], hit, f, i) && f(xs[1..][i]).error == e
    ensures exists i :: FirstFailure(xs, hit, f, i) && f(xs[i]).error == e
  {
    var i :| FirstFailure(xs[1..], hit, f, i) && f(xs[1..][i]).error == e;
    assert FirstFailure(xs, hit, f, i + 1);
  }

  /** Updating entries that are then dropped leaves no trace: deleting by a
      predicate that is stable under the update erases it. */
  lemma {:induction false} RemoveAfterUpdate<T>(xs: seq<T>, hit: T -> bool, f: T -> T)
    requires forall x :: hit(x) ==> hit(f(x))
    ensures RemoveWhere(UpdateWhere(xs, hit, f), hit) == RemoveWhere(xs, hit)
    decreases |xs|
  {
    if xs != [] {
      var u := UpdateWhere(xs, hit, f);
      assert u[1..] == UpdateWhere(xs[1..], hit, f);
      RemoveAfterUpdate(xs[1..], hit, f);
    }
  }

  /** When ids are distinct, a delete removes exactly one entry per
      present id. */
  lemma {:induction false} CountDistinct<T>(xs: seq<T>, idOf: T -> int, k: int)
    requires forall a, b :: 0 <= a < b < |xs| ==> idOf(xs[a]) != idOf(xs[b])
    ensures CountWhere(xs, x => idOf(x) == k) == (if exists j :: 0 <= j < |xs| && idOf(xs[j]) == k then 1 else 0)
    decreases |xs|
  {
    if xs != [] {
      CountDistinct(xs[1..], idOf, k);
      if idOf(xs[0]) == k {
        assert forall j :: 0 <= j < |xs[1..]| ==> idOf(xs[1..][j]) != k by {
          forall j | 0 <= j < |xs[1..]|
            ensures idOf(xs[1..][j]) != k
          {
            assert xs[1..][j] == xs[j + 1];
          }
        }
      } else {
        if exists j :: 0 <= j < |xs| && idOf(xs[j]) == k {
          var j :| 0 <= j < |xs| && idOf(xs[j]) == k;
          assert xs[1..][j - 1] == xs[j];
        }
        assert forall j :: 0 <= j < |xs[1..]| ==> xs[1..][j] == xs[j + 1];
      }
    }
  }

  /** The `length + 1` id is not collision-safe: with distinct ids whose
      last entry has id `|xs|`, deleting any other entry and then appending
      gives the new entry the id the last entry already carries. */
  lemma AppendAfterDeleteCollides<T>(xs: seq<T>, idOf: T -> int, j: int)
    requires forall a, b :: 0 <= a < b < |xs| ==> idOf(xs[a]) != idOf(xs[b])
    requires 0 <= j < |xs| - 1
    requires idOf(xs[|xs| - 1]) == |xs|
    ensures var kept := RemoveWhere(xs, x => idOf(x) == idOf(xs[j]));
            xs[|xs| - 1] in kept && NextId(kept) == idOf(xs[|xs| - 1])
  {
    var k := idOf(xs[j]);
    CountDistinct(xs, idOf, k);
  }
}
