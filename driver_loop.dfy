/**
 * The loop shape shared by the setup drivers: the declared items in order,
 * where an exception the driver catches is logged and the loop goes on, and
 * any other one leaves the driver.
 */
module DriverLoop {
  import opened Model

  /** What running `step` over `items` returns and leaves behind. */
  function RunEach<T>(db: Db, step: (Db, T) -> After, caught: Exc -> bool, items: seq<T>): (r: After)
    ensures r.outcome.Thrown? ==> !caught(r.outcome.exc)
    ensures items == [] ==> r == After(Normal, db)
    decreases |items|
  {
    if items == [] then After(Normal, db)
    else
      var r := step(db, items[0]);
      if r.outcome.Thrown? && !caught(r.outcome.exc) then r
      else RunEach(r.db, step, caught, items[1..])
  }

  /** A driver that catches nothing. */
  predicate NoneCaught(e: Exc) {
    false
  }

  /**
   * An exception leaves the loop only when some step can raise it and the
   * driver does not catch it.
   */
  lemma {:induction false} RunEachThrowsOnly<T>(db: Db, step: (Db, T) -> After, caught: Exc -> bool, items: seq<T>,
                                                raised: Exc -> bool)
    requires forall d: Db, x: T :: x in items && step(d, x).outcome.Thrown? ==> raised(step(d, x).outcome.exc)
    ensures var r := RunEach(db, step, caught, items);
            r.outcome.Thrown? ==> raised(r.outcome.exc) && !caught(r.outcome.exc)
    decreases |items|
  {
    if items != [] {
      var r := step(db, items[0]);
      if !(r.outcome.Thrown? && !caught(r.outcome.exc)) {
        RunEachThrowsOnly(r.db, step, caught, items[1..], raised);
      }
    }
  }

  /** What no step changes, the loop does not change. */
  lemma {:induction false} RunEachKeeps<T, U>(db: Db, step: (Db, T) -> After, caught: Exc -> bool, items: seq<T>,
                                              view: Db -> U)
    requires forall d: Db, x: T :: x in items ==> view(step(d, x).db) == view(d)
    ensures view(RunEach(db, step, caught, items).db) == view(db)
    decreases |items|
  {
    if items != [] {
      var r := step(db, items[0]);
      RunEachKeeps(r.db, step, caught, items[1..], view);
    }
  }

  /**
   * Running two lists back to back is running their concatenation: the
   * second list starts from where the first one left the store, unless the
   * first one ended with an exception.
   */
  lemma {:induction false} RunEachAppend<T>(db: Db, step: (Db, T) -> After, caught: Exc -> bool, xs: seq<T>, ys: seq<T>)
    ensures var r := RunEach(db, step, caught, xs);
            RunEach(db, step, caught, xs + ys) == if r.outcome.Thrown? then r else RunEach(r.db, step, caught, ys)
    decreases |xs|
  {
    if xs == [] {
      assert xs + ys == ys;
    } else {
      assert (xs + ys)[0] == xs[0];
      assert (xs + ys)[1..] == xs[1..] + ys;
      var r := step(db, xs[0]);
      if !(r.outcome.Thrown? && !caught(r.outcome.exc)) {
        RunEachAppend(r.db, step, caught, xs[1..], ys);
      }
    }
  }
}
