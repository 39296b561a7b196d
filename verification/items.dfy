/**
 * The transient item record both extractors produce (src/lib/ingest/rss.ts,
 * src/lib/ingest/html.ts) and the shape of their per-entry loops: each entry
 * is skipped, yields one item, or throws, and a throw abandons the whole
 * extraction.
 */
module Items {
  import opened Wrappers

  /** A JavaScript Date; `time` is None for an Invalid Date. */
  datatype JsDate = JsDate(time: Option<int>)

  datatype Item = Item(title: string, url: string, publishedAt: Option<JsDate>)

  /** What one iteration of an extractor loop does with its entry. */
  datatype Step<+T, +E> = Skip | Emit(value: T) | Throw(error: E)

  /** The loop run to completion: the emitted values in entry order, or the first throw. */
  function Collect<A, T, E>(xs: seq<A>, f: A -> Step<T, E>): Result<seq<T>, E> {
    if |xs| == 0 then Success([])
    else
      match Collect(xs[..|xs| - 1], f)
      case Failure(e) => Failure(e)
      case Success(out) =>
        match f(xs[|xs| - 1])
        case Skip => Success(out)
        case Emit(t) => Success(out + [t])
        case Throw(e) => Failure(e)
  }

  /** The values the entries emit, in entry order. */
  function Emitted<A, T, E>(xs: seq<A>, f: A -> Step<T, E>): (r: seq<T>)
    ensures |r| <= |xs|
  {
    if |xs| == 0 then []
    else if f(xs[|xs| - 1]).Emit? then Emitted(xs[..|xs| - 1], f) + [f(xs[|xs| - 1]).value]
    else Emitted(xs[..|xs| - 1], f)
  }

  /** The extraction succeeds iff no entry throws, and then yields exactly the emitted values. */
  lemma {:induction false} CollectMeaning<A, T, E>(xs: seq<A>, f: A -> Step<T, E>)
    ensures Collect(xs, f).Success? <==> forall i :: 0 <= i < |xs| ==> !f(xs[i]).Throw?
    ensures Collect(xs, f).Success? ==> Collect(xs, f).value == Emitted(xs, f)
  {
    if |xs| > 0 {
      var xs' := xs[..|xs| - 1];
      CollectMeaning(xs', f);
      assert forall i :: 0 <= i < |xs'| ==> xs'[i] == xs[i];
    }
  }

  /** When an extraction fails, its error is the one of the first entry that throws. */
  lemma {:induction false} CollectFirstThrow<A, T, E>(xs: seq<A>, f: A -> Step<T, E>, k: nat)
    requires k < |xs| && f(xs[k]).Throw?
    requires forall i :: 0 <= i < k ==> !f(xs[i]).Throw?
    ensures Collect(xs, f) == Failure(f(xs[k]).error)
  {
    var xs' := xs[..|xs| - 1];
    assert forall i :: 0 <= i < |xs'| ==> xs'[i] == xs[i];
    if k < |xs| - 1 {
      CollectFirstThrow(xs', f, k);
    } else {
      CollectMeaning(xs', f);
    }
  }

  /** A loop that has run without a throw up to entry `k`, which throws, fails with that error. */
  lemma CollectStopsAt<A, T, E>(xs: seq<A>, f: A -> Step<T, E>, k: nat)
    requires k < |xs| && f(xs[k]).Throw?
    requires Collect(xs[..k], f).Success?
    ensures Collect(xs, f) == Failure(f(xs[k]).error)
  {
    CollectMeaning(xs[..k], f);
    assert forall i :: 0 <= i < k ==> xs[..k][i] == xs[i];
    CollectFirstThrow(xs, f, k);
  }

  /** Emitting distributes over concatenation: the output keeps the order of the entries. */
  lemma {:induction false} EmittedAppend<A, T, E>(a: seq<A>, b: seq<A>, f: A -> Step<T, E>)
    ensures Emitted(a + b, f) == Emitted(a, f) + Emitted(b, f)
    decreases |b|
  {
    if |b| == 0 {
      assert a + b == a;
    } else {
      var b' := b[..|b| - 1];
      assert (a + b)[..|a + b| - 1] == a + b';
      assert (a + b)[|a + b| - 1] == b[|b| - 1];
      EmittedAppend(a, b', f);
    }
  }

  /** Every emitted value is the value of some entry that emits. */
  lemma {:induction false} EmittedFrom<A, T, E>(xs: seq<A>, f: A -> Step<T, E>, t: T)
    requires t in Emitted(xs, f)
    ensures exists i :: 0 <= i < |xs| && f(xs[i]) == Emit(t)
  {
    var xs' := xs[..|xs| - 1];
    if t in Emitted(xs', f) {
      EmittedFrom(xs', f, t);
      var i :| 0 <= i < |xs'| && f(xs'[i]) == Emit(t);
      assert xs[i] == xs'[i];
    }
  }
}
