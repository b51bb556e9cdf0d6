/**
 * Bounded sample histories. The main page keeps three Python lists it trims
 * with `pop(0)` once they exceed 60 entries; the test page keeps three
 * `deque(maxlen=120)`s. Both keep the most recent samples in arrival order.
 */
module Rolling {

  /** The last `n` elements of `s`, or all of `s` when it is shorter. */
  function LastN<T>(s: seq<T>, n: nat): (r: seq<T>)
    ensures |r| == if |s| <= n then |s| else n
    ensures forall i :: 0 <= i < |r| ==> r[i] == s[|s| - |r| + i]
  {
    if |s| <= n then s else s[|s| - n..]
  }

  /**
   * One push onto a history of capacity `cap`: append, then drop the oldest
   * entry when the length exceeds `cap` (`list.append` followed by `pop(0)`,
   * which is also what `deque.append` does at `maxlen`).
   */
  function Push<T>(s: seq<T>, x: T, cap: nat): seq<T> {
    var t := s + [x];
    if |t| > cap then t[1..] else t
  }

  /** The history after pushing every element of `xs`, in order, onto an empty one. */
  function History<T>(xs: seq<T>, cap: nat): seq<T> {
    if xs == [] then [] else Push(History(xs[..|xs| - 1], cap), xs[|xs| - 1], cap)
  }

  /** Pushing onto the window of the earlier samples gives the window of all of them. */
  lemma PushWindow<T>(xs: seq<T>, x: T, cap: nat)
    ensures Push(LastN(xs, cap), x, cap) == LastN(xs + [x], cap)
  {
    var w := LastN(xs, cap);
    var t := w + [x];
    var all := xs + [x];
    if |t| > cap {
      assert t[1..] == all[|all| - cap..];
    }
  }

  /**
   * A history never exceeds its capacity and holds exactly the last
   * `min(n, cap)` of the `n` samples pushed, oldest first.
   */
  lemma {:induction false} HistoryIsLastN<T>(xs: seq<T>, cap: nat)
    ensures History(xs, cap) == LastN(xs, cap)
    ensures |History(xs, cap)| <= cap
  {
    if xs != [] {
      var front := xs[..|xs| - 1];
      HistoryIsLastN(front, cap);
      assert xs == front + [xs[|xs| - 1]];
      PushWindow(front, xs[|xs| - 1], cap);
    }
  }
}
