/** The JavaScript array operations the stores and the batch fetch rely on:
    `findIndex`, `find`, `some`, `splice(i, 1)`, and collecting the values of
    the calls that did not throw. */
module Lists {
  import opened Wrappers

  /** `xs.findIndex(p)`, with `None` standing for -1: the first index whose
      element satisfies `p`. */
  function FindIndex<T>(xs: seq<T>, p: T -> bool): (r: Option<nat>)
    ensures r.Some? ==> r.value < |xs| && p(xs[r.value])
    ensures r.Some? ==> forall j :: 0 <= j < r.value ==> !p(xs[j])
    ensures r.None? ==> forall j :: 0 <= j < |xs| ==> !p(xs[j])
  {
    if xs == [] then None
    else if p(xs[0]) then Some(0)
    else
      match FindIndex(xs[1..], p)
      case None => None
      case Some(i) => Some(i + 1)
  }

  /** `xs.find(p) || null`: the first element that satisfies `p`. */
  function Find<T>(xs: seq<T>, p: T -> bool): (r: Option<T>)
    ensures r.None? <==> forall j :: 0 <= j < |xs| ==> !p(xs[j])
    ensures r.Some? ==> exists i :: 0 <= i < |xs| && xs[i] == r.value && p(xs[i]) &&
                                    forall j :: 0 <= j < i ==> !p(xs[j])
  {
    match FindIndex(xs, p)
    case None => None
    case Some(i) => Some(xs[i])
  }

  /** `xs.some(p)`. */
  predicate Any<T>(xs: seq<T>, p: T -> bool) {
    exists j :: 0 <= j < |xs| && p(xs[j])
  }

  /** `xs.splice(i, 1)`: drop the element at `i`, keep the rest in order. */
  function RemoveAt<T>(xs: seq<T>, i: nat): (r: seq<T>)
    requires i < |xs|
    ensures |r| == |xs| - 1
    ensures forall j :: 0 <= j < i ==> r[j] == xs[j]
    ensures forall j :: i <= j < |r| ==> r[j] == xs[j + 1]
  {
    xs[..i] + xs[i + 1..]
  }

  /** A first match is unique: any index that matches and has no match before
      it is the one `FindIndex` returns. */
  lemma FindIndexIsFirst<T>(xs: seq<T>, p: T -> bool, i: nat)
    requires i < |xs| && p(xs[i])
    requires forall j :: 0 <= j < i ==> !p(xs[j])
    ensures FindIndex(xs, p) == Some(i)
  {
  }

  /** Searching a concatenation: the first part's first match wins; otherwise
      the second part's, shifted by the first part's length. */
  lemma FindIndexAppend<T>(xs: seq<T>, ys: seq<T>, p: T -> bool)
    ensures FindIndex(xs + ys, p) ==
      match FindIndex(xs, p)
      case Some(i) => Some(i)
      case None =>
        match FindIndex(ys, p)
        case Some(k) => Some(|xs| + k)
        case None => None
  {
    var zs := xs + ys;
    match FindIndex(xs, p)
    case Some(i) =>
      FindIndexIsFirst(zs, p, i);
    case None =>
      match FindIndex(ys, p)
      case Some(k) =>
        assert zs[|xs| + k] == ys[k];
        forall j | 0 <= j < |xs| + k ensures !p(zs[j]) {
          if j < |xs| { assert zs[j] == xs[j]; } else { assert zs[j] == ys[j - |xs|]; }
        }
        FindIndexIsFirst(zs, p, |xs| + k);
      case None =>
        forall j | 0 <= j < |zs| ensures !p(zs[j]) {
          if j < |xs| { assert zs[j] == xs[j]; } else { assert zs[j] == ys[j - |xs|]; }
        }
  }

  /** `some` and `findIndex` agree on whether there is a match. */
  lemma AnyIffFound<T>(xs: seq<T>, p: T -> bool)
    ensures Any(xs, p) <==> FindIndex(xs, p).Some?
  {
    if Any(xs, p) {
      var j :| 0 <= j < |xs| && p(xs[j]);
    }
  }

  /** Appending never hides an earlier match: the first match of the longer
      list is the old first match if there is one, else the new element if it
      matches. */
  lemma FindSnoc<T>(xs: seq<T>, x: T, p: T -> bool)
    ensures Find(xs + [x], p) ==
      if Find(xs, p).Some? then Find(xs, p) else if p(x) then Some(x) else None
  {
    FindIndexAppend(xs, [x], p);
    var zs := xs + [x];
    match FindIndex(xs, p)
    case Some(i) =>
      assert zs[i] == xs[i];
    case None =>
      assert zs[|xs|] == x;
  }

  /** Overwriting the first match with another matching element makes that
      element the first match. */
  lemma FindAfterUpdate<T>(xs: seq<T>, i: nat, y: T, p: T -> bool)
    requires FindIndex(xs, p) == Some(i) && p(y)
    ensures Find(xs[i := y], p) == Some(y)
  {
    FindIndexIsFirst(xs[i := y], p, i);
  }

  /** Removing the first match exposes the first match after it, if any. */
  lemma FindAfterRemove<T>(xs: seq<T>, i: nat, p: T -> bool)
    requires FindIndex(xs, p) == Some(i)
    ensures Find(RemoveAt(xs, i), p) == Find(xs[i + 1..], p)
  {
    var head, tail := xs[..i], xs[i + 1..];
    var zs := head + tail;
    assert RemoveAt(xs, i) == zs;
    forall j | 0 <= j < |head| ensures !p(head[j]) {
      assert head[j] == xs[j];
    }
    assert FindIndex(head, p) == None;
    FindIndexAppend(head, tail, p);
    if FindIndex(tail, p).Some? {
      var k := FindIndex(tail, p).value;
      assert zs[|head| + k] == tail[k];
    }
  }

  /** The values of the outcomes that succeeded, in their original order: what
      a loop that pushes each successful result and skips each failure builds. */
  function Successes<T, E>(outcomes: seq<Result<T, E>>): (values: seq<T>)
    ensures |values| <= |outcomes|
  {
    if outcomes == [] then []
    else
      var last := outcomes[|outcomes| - 1];
      Successes(outcomes[..|outcomes| - 1]) + (if last.Success? then [last.value] else [])
  }

  /** Collecting distributes over concatenation: what one part of the batch
      yields does not depend on the other part. */
  lemma {:induction false} SuccessesAppend<T, E>(xs: seq<Result<T, E>>, ys: seq<Result<T, E>>)
    ensures Successes(xs + ys) == Successes(xs) + Successes(ys)
  {
    if ys == [] {
      assert xs + ys == xs;
    } else {
      var n := |ys| - 1;
      assert (xs + ys)[..|xs + ys| - 1] == xs + ys[..n];
      assert (xs + ys)[|xs + ys| - 1] == ys[n];
      SuccessesAppend(xs, ys[..n]);
    }
  }

  /** A failure in the middle of a batch drops only that item. */
  lemma FailureSkipped<T, E>(xs: seq<Result<T, E>>, e: E, ys: seq<Result<T, E>>)
    ensures Successes(xs + [Failure(e)] + ys) == Successes(xs) + Successes(ys)
  {
    var one: seq<Result<T, E>> := [Failure(e)];
    assert Successes(one) == [] by {
      assert one[..0] == [];
    }
    SuccessesAppend(xs, one);
    SuccessesAppend(xs + one, ys);
  }

  /** Each success lands in the result at the position given by the number of
      successes before it: the result keeps input order. */
  lemma SuccessPosition<T, E>(xs: seq<Result<T, E>>, i: nat)
    requires i < |xs| && xs[i].Success?
    ensures |Successes(xs[..i])| < |Successes(xs)|
    ensures Successes(xs)[|Successes(xs[..i])|] == xs[i].value
  {
    assert xs == xs[..i] + [xs[i]] + xs[i + 1..];
    SuccessesAppend(xs[..i] + [xs[i]], xs[i + 1..]);
    SuccessesAppend(xs[..i], [xs[i]]);
    assert Successes([xs[i]]) == [xs[i].value];
  }

  /** Every collected value is the value of some successful outcome. */
  lemma {:induction false} SuccessOrigin<T, E>(xs: seq<Result<T, E>>, k: nat)
    requires k < |Successes(xs)|
    ensures exists i :: 0 <= i < |xs| && xs[i] == Success(Successes(xs)[k])
  {
    var n := |xs| - 1;
    var init := Successes(xs[..n]);
    if k < |init| {
      SuccessOrigin(xs[..n], k);
      var i :| 0 <= i < |xs[..n]| && xs[..n][i] == Success(init[k]);
      assert xs[i] == Success(Successes(xs)[k]);
    } else {
      assert xs[n] == Success(Successes(xs)[k]);
    }
  }
}
