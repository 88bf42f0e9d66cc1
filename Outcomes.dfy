/** Failure-carrying values shared by the report builder.
    The Python program signals every failure by raising; here each raise
    becomes an `Error` value. */
module Outcomes {

  /** The conditions under which `ResourceAvailability` raises. */
  datatype Error =
    /** a service timestamp with no space between date and time
        (unpacking `split(' ', 1)` into two names fails) */
    | NoTimeSeparator
    /** a service date whose `/`-separated fields are not exactly three */
    | DateFieldCount(count: nat)
    /** a `family:model` filter with no `:` (unpacking `split(':', 1)` fails) */
    | NoFamilySeparator
    /** the computed start of the query window is after its end */
    | InvalidWindow

  datatype Option<+T> = None | Some(value: T)

  datatype Result<+T> = Ok(value: T) | Err(error: Error)

  /** What a loop that appends to a list has produced when it stops:
      everything appended so far, and the error that stopped it early, if any.
      A Python exception raised mid-loop leaves earlier appends in place. */
  datatype Partial<+T> = Partial(value: T, failure: Option<Error>)

  /** A Python loop `for x in xs: out.append(f(x))` where `f` may raise:
      the results appended before the first raise, and the error raised. */
  function MapUntilError<A, B>(xs: seq<A>, f: A -> Result<B>): Partial<seq<B>>
  {
    if xs == [] then Partial([], None)
    else
      var done := MapUntilError(xs[..|xs| - 1], f);
      if done.failure.Some? then done
      else
        match f(xs[|xs| - 1])
        case Err(e) => Partial(done.value, Some(e))
        case Ok(y) => Partial(done.value + [y], None)
  }

  /** The loop appends `f` of each element in order, up to the first
      element on which `f` fails; that element's error is the one raised. */
  lemma {:induction false} MapUntilErrorSpec<A, B>(xs: seq<A>, f: A -> Result<B>)
    ensures var done := MapUntilError(xs, f);
      && |done.value| <= |xs|
      && (forall i :: 0 <= i < |done.value| ==> f(xs[i]) == Ok(done.value[i]))
      && (done.failure.None? ==> |done.value| == |xs|)
      && (done.failure.Some? ==> |done.value| < |xs| && f(xs[|done.value|]) == Err(done.failure.value))
  {
    if xs != [] {
      var front := xs[..|xs| - 1];
      MapUntilErrorSpec(front, f);
      assert forall i :: 0 <= i < |front| ==> front[i] == xs[i];
    }
  }

  /** One more turn of the loop, while nothing has been raised yet. */
  lemma MapUntilErrorStep<A, B>(xs: seq<A>, f: A -> Result<B>, j: nat)
    requires j < |xs| && MapUntilError(xs[..j], f).failure.None?
    ensures MapUntilError(xs[..j + 1], f) ==
      match f(xs[j])
      case Err(e) => Partial(MapUntilError(xs[..j], f).value, Some(e))
      case Ok(y) => Partial(MapUntilError(xs[..j], f).value + [y], None)
  {
    assert xs[..j + 1][..j] == xs[..j];
  }

  /** The loop over a single element on which `f` succeeds appends its
      image and raises nothing. */
  lemma MapUntilErrorOne<A, B>(x: A, f: A -> Result<B>, y: B)
    requires f(x) == Ok(y)
    ensures MapUntilError([x], f) == Partial([y], None)
  {
    assert [x][..0] == [];
    MapUntilErrorStep([x], f, 0);
    assert [x][..1] == [x];
    assert [] + [y] == [y];
  }

  /** Once the loop has raised, the elements after that do not matter. */
  lemma {:induction false} MapUntilErrorStops<A, B>(xs: seq<A>, f: A -> Result<B>, j: nat)
    requires j <= |xs| && MapUntilError(xs[..j], f).failure.Some?
    ensures MapUntilError(xs, f) == MapUntilError(xs[..j], f)
    decreases |xs| - j
  {
    if j < |xs| {
      assert xs[..j + 1][..j] == xs[..j];
      MapUntilErrorStops(xs, f, j + 1);
    } else {
      assert xs[..j] == xs;
    }
  }

  /** A Python loop `for x in xs: out += f(x)` where `f` may raise: the
      lists added before the first raise, one after the other, and the
      error raised. */
  function ConcatUntilError<A, B>(xs: seq<A>, f: A -> Result<seq<B>>): Partial<seq<B>>
  {
    if xs == [] then Partial([], None)
    else
      var done := ConcatUntilError(xs[..|xs| - 1], f);
      if done.failure.Some? then done
      else
        match f(xs[|xs| - 1])
        case Err(e) => Partial(done.value, Some(e))
        case Ok(ys) => Partial(done.value + ys, None)
  }

  /** One more turn of the loop, while nothing has been raised yet. */
  lemma ConcatUntilErrorStep<A, B>(xs: seq<A>, f: A -> Result<seq<B>>, j: nat)
    requires j < |xs| && ConcatUntilError(xs[..j], f).failure.None?
    ensures ConcatUntilError(xs[..j + 1], f) ==
      match f(xs[j])
      case Err(e) => Partial(ConcatUntilError(xs[..j], f).value, Some(e))
      case Ok(ys) => Partial(ConcatUntilError(xs[..j], f).value + ys, None)
  {
    assert xs[..j + 1][..j] == xs[..j];
  }

  /** Once the loop has raised, the elements after that do not matter. */
  lemma {:induction false} ConcatUntilErrorStops<A, B>(xs: seq<A>, f: A -> Result<seq<B>>, j: nat)
    requires j <= |xs| && ConcatUntilError(xs[..j], f).failure.Some?
    ensures ConcatUntilError(xs, f) == ConcatUntilError(xs[..j], f)
    decreases |xs| - j
  {
    if j < |xs| {
      assert xs[..j + 1][..j] == xs[..j];
      ConcatUntilErrorStops(xs, f, j + 1);
    } else {
      assert xs[..j] == xs;
    }
  }

  /** The loop over two lists one after the other: what the first adds,
      then what the second adds, provided the first raises nothing. */
  lemma {:induction false} ConcatUntilErrorAppend<A, B>(a: seq<A>, b: seq<A>, f: A -> Result<seq<B>>)
    requires ConcatUntilError(a, f).failure.None?
    ensures ConcatUntilError(a + b, f) ==
      Partial(ConcatUntilError(a, f).value + ConcatUntilError(b, f).value, ConcatUntilError(b, f).failure)
    decreases |b|
  {
    var x := ConcatUntilError(a, f).value;
    if b == [] {
      assert a + b == a;
      assert x + [] == x;
    } else {
      var front := b[..|b| - 1];
      assert (a + b)[..|a + b| - 1] == a + front;
      assert (a + b)[|a + b| - 1] == b[|b| - 1];
      ConcatUntilErrorAppend(a, front, f);
      var done := ConcatUntilError(front, f);
      if done.failure.None? {
        match f(b[|b| - 1])
        case Err(_) =>
        case Ok(ys) =>
          assert x + done.value + ys == x + (done.value + ys);
      }
    }
  }

  /** The loop raises exactly when `f` fails on some element; it then
      raises the error of the first such element, keeping what the elements
      before it added. */
  lemma {:induction false} ConcatUntilErrorFails<A, B>(xs: seq<A>, f: A -> Result<seq<B>>)
    ensures ConcatUntilError(xs, f).failure.None? <==> forall k :: 0 <= k < |xs| ==> f(xs[k]).Ok?
    ensures ConcatUntilError(xs, f).failure.Some? ==>
      exists k :: 0 <= k < |xs| && f(xs[k]).Err? && (forall i :: 0 <= i < k ==> f(xs[i]).Ok?) &&
        ConcatUntilError(xs, f) == Partial(ConcatUntilError(xs[..k], f).value, Some(f(xs[k]).error))
  {
    if xs != [] {
      var n := |xs| - 1;
      var front := xs[..n];
      ConcatUntilErrorFails(front, f);
      assert forall k :: 0 <= k < n ==> front[k] == xs[k];
      if ConcatUntilError(front, f).failure.Some? {
        var k :| 0 <= k < n && f(front[k]).Err? && (forall i :: 0 <= i < k ==> f(front[i]).Ok?) &&
          ConcatUntilError(front, f) == Partial(ConcatUntilError(front[..k], f).value, Some(f(front[k]).error));
        assert front[..k] == xs[..k];
      }
    }
  }
}
