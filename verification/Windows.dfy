/** What counting in windows guarantees about intervals of time: if each window admits at
    most `cap`, and a third window never opens within one window length of an entry in the
    first, then no interval of that length sees more than twice `cap`. */
module Windows {

  /** An admitted amount, when it was admitted, and the window it was counted in. */
  datatype Entry = Entry(at: int, amount: nat, window: int)

  function Sum(log: seq<Entry>, p: Entry -> bool): nat {
    if log == [] then 0
    else
      var e := log[|log| - 1];
      Sum(log[..|log| - 1], p) + (if p(e) then e.amount else 0)
  }

  function InWindow(w: int): Entry -> bool { (e: Entry) => e.window == w }

  function During(from: int, to: int): Entry -> bool { (e: Entry) => from <= e.at <= to }

  ghost predicate WellSpaced(log: seq<Entry>, len: int) {
    forall x, y, z | x in log && y in log && z in log && x.window < y.window < z.window ::
      z.at > x.at + len
  }

  ghost predicate CappedPerWindow(log: seq<Entry>, cap: nat) {
    forall w :: Sum(log, InWindow(w)) <= cap
  }

  lemma {:induction false} SumOfParts(log: seq<Entry>, p: Entry -> bool, q: Entry -> bool, r: Entry -> bool)
    requires forall e | e in log && p(e) :: q(e) || r(e)
    ensures Sum(log, p) <= Sum(log, q) + Sum(log, r)
  {
    if log != [] {
      SumOfParts(log[..|log| - 1], p, q, r);
    }
  }

  lemma {:induction false} SumOfNone(log: seq<Entry>, p: Entry -> bool)
    requires forall e | e in log :: !p(e)
    ensures Sum(log, p) == 0
  {
    if log != [] {
      SumOfNone(log[..|log| - 1], p);
    }
  }

  /** At most two windows meet an interval of one window length. */
  lemma TwoWindowsMeet(log: seq<Entry>, len: int, from: int, x: Entry, y: Entry, z: Entry)
    requires WellSpaced(log, len) && x in log && y in log && z in log
    requires from <= x.at <= from + len && from <= y.at <= from + len && from <= z.at <= from + len
    ensures x.window == y.window || y.window == z.window || x.window == z.window
  {
  }

  lemma TwoWindowBound(log: seq<Entry>, len: int, cap: nat, from: int)
    requires WellSpaced(log, len) && CappedPerWindow(log, cap)
    ensures Sum(log, During(from, from + len)) <= 2 * cap
  {
    var p := During(from, from + len);
    if x :| x in log && p(x) {
      var u := InWindow(x.window);
      if y :| y in log && p(y) && y.window != x.window {
        var v := InWindow(y.window);
        forall e | e in log && p(e) ensures u(e) || v(e) {
          TwoWindowsMeet(log, len, from, x, y, e);
        }
        SumOfParts(log, p, u, v);
      } else {
        SumOfParts(log, p, u, u);
      }
    } else {
      SumOfNone(log, p);
    }
  }

  lemma SumAppend(log: seq<Entry>, e: Entry, p: Entry -> bool)
    ensures Sum(log + [e], p) == Sum(log, p) + (if p(e) then e.amount else 0)
  {
    assert (log + [e])[..|log|] == log;
  }
}
