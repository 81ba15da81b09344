/**
 Processing a sequence in order and stopping at the first item that fails:
 when every item succeeds, and which errors the first failing item can
 raise. The loader handles the groups of a suite and the suites of a
 configuration this way.
 */
module FirstFailures {
  import opened Outcomes

  /** Every item of xs succeeds, checked from the front. */
  predicate AllOk<T>(ok: T -> bool, xs: seq<T>)
    decreases |xs|
  {
    || xs == []
    || (AllOk(ok, xs[..|xs| - 1]) && ok(xs[|xs| - 1]))
  }

  /** e is an error of the first failing item of xs. */
  ghost predicate FirstError<T>(ok: T -> bool, err: (T, LoadError) -> bool, xs: seq<T>, e: LoadError)
    decreases |xs|
  {
    && xs != []
    && if AllOk(ok, xs[..|xs| - 1])
       then !ok(xs[|xs| - 1]) && err(xs[|xs| - 1], e)
       else FirstError(ok, err, xs[..|xs| - 1], e)
  }

  /** Item i is the first failing item and e an error it can raise. */
  ghost predicate FailsFirstAt<T>(ok: T -> bool, err: (T, LoadError) -> bool, xs: seq<T>, i: int, e: LoadError) {
    && 0 <= i < |xs|
    && AllOk(ok, xs[..i])
    && !ok(xs[i])
    && err(xs[i], e)
  }

  /** AllOk holds exactly when every item succeeds. */
  lemma {:induction false} AllOkEvery<T>(ok: T -> bool, xs: seq<T>)
    ensures AllOk(ok, xs) <==> forall j :: 0 <= j < |xs| ==> ok(xs[j])
    decreases |xs|
  {
    if xs != [] {
      var init := xs[..|xs| - 1];
      AllOkEvery(ok, init);
      assert forall j :: 0 <= j < |init| ==> init[j] == xs[j];
    }
  }

  lemma AllOkStep<T>(ok: T -> bool, xs: seq<T>, i: int)
    requires 0 <= i < |xs|
    requires AllOk(ok, xs[..i]) && ok(xs[i])
    ensures AllOk(ok, xs[..i + 1])
  {
    assert xs[..i + 1][..i] == xs[..i];
  }

  /** One failing item makes the whole sequence fail. */
  lemma OneFailureFailsAll<T>(ok: T -> bool, xs: seq<T>, i: int)
    requires 0 <= i < |xs| && !ok(xs[i])
    ensures !AllOk(ok, xs)
  {
    AllOkEvery(ok, xs);
  }

  /** A failure at i after successes up to i is the first failure: the
      sequence fails, with an error of item i. */
  lemma FailureAfterSuccesses<T>(ok: T -> bool, err: (T, LoadError) -> bool, xs: seq<T>, i: int, e: LoadError)
    requires 0 <= i < |xs|
    requires AllOk(ok, xs[..i]) && !ok(xs[i]) && err(xs[i], e)
    ensures !AllOk(ok, xs) && FirstError(ok, err, xs, e)
  {
    assert FailsFirstAt(ok, err, xs, i, e);
    FailsFirstAtIsFirstError(ok, err, xs, i, e);
    OneFailureFailsAll(ok, xs, i);
  }

  /** FirstError names exactly the errors of the first failing item. */
  lemma FirstErrorIsFirst<T>(ok: T -> bool, err: (T, LoadError) -> bool, xs: seq<T>, e: LoadError)
    ensures FirstError(ok, err, xs, e) <==> exists i :: FailsFirstAt(ok, err, xs, i, e)
  {
    if FirstError(ok, err, xs, e) {
      FirstErrorHasPosition(ok, err, xs, e);
    }
    if exists i :: FailsFirstAt(ok, err, xs, i, e) {
      var i :| FailsFirstAt(ok, err, xs, i, e);
      FailsFirstAtIsFirstError(ok, err, xs, i, e);
    }
  }

  lemma {:induction false} FirstErrorHasPosition<T>(ok: T -> bool, err: (T, LoadError) -> bool, xs: seq<T>, e: LoadError)
    requires FirstError(ok, err, xs, e)
    ensures exists i :: FailsFirstAt(ok, err, xs, i, e)
    decreases |xs|
  {
    var last := |xs| - 1;
    var init := xs[..last];
    if AllOk(ok, init) {
      assert FailsFirstAt(ok, err, xs, last, e);
    } else {
      FirstErrorHasPosition(ok, err, init, e);
      var i :| FailsFirstAt(ok, err, init, i, e);
      assert init[..i] == xs[..i];
      assert FailsFirstAt(ok, err, xs, i, e);
    }
  }

  lemma {:induction false} FailsFirstAtIsFirstError<T>(ok: T -> bool, err: (T, LoadError) -> bool, xs: seq<T>, i: int, e: LoadError)
    requires FailsFirstAt(ok, err, xs, i, e)
    ensures FirstError(ok, err, xs, e)
    decreases |xs|
  {
    var last := |xs| - 1;
    var init := xs[..last];
    if i < last {
      assert init[..i] == xs[..i];
      assert FailsFirstAt(ok, err, init, i, e);
      FailsFirstAtIsFirstError(ok, err, init, i, e);
      OneFailureFailsAll(ok, init, i);
    } else {
      assert xs[..i] == init;
    }
  }
}
