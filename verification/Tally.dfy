/** Sums over finite sets and defaulting look-ups, as the per-root totals of the
    component index need them. */
module Tally {
  import opened Domain

  /** Reads a counter the way a `defaultdict(int)` does. */
  function Get(m: map<Node, nat>, k: Node): nat {
    if k in m then m[k] else 0
  }

  function Bump(m: map<Node, nat>, k: Node): map<Node, nat> {
    m[k := Get(m, k) + 1]
  }

  /** The sum of the counters of the members of `s`. */
  ghost function Total(s: set<Node>, m: map<Node, nat>): nat {
    if s == {} then 0 else
      var x :| x in s;
      Get(m, x) + Total(s - {x}, m)
  }

  lemma {:induction false} TotalRemove(s: set<Node>, x: Node, m: map<Node, nat>)
    requires x in s
    ensures Total(s, m) == Get(m, x) + Total(s - {x}, m)
    decreases s
  {
    var y :| y in s && Total(s, m) == Get(m, y) + Total(s - {y}, m);
    if y != x {
      TotalRemove(s - {y}, x, m);
      TotalRemove(s - {x}, y, m);
      assert s - {y} - {x} == s - {x} - {y};
    }
  }

  lemma {:induction false} TotalUnion(s: set<Node>, t: set<Node>, m: map<Node, nat>)
    requires s !! t
    ensures Total(s + t, m) == Total(s, m) + Total(t, m)
    decreases s
  {
    if s == {} {
      assert s + t == t;
    } else {
      var x :| x in s;
      TotalRemove(s, x, m);
      TotalRemove(s + t, x, m);
      TotalUnion(s - {x}, t, m);
      assert s + t - {x} == (s - {x}) + t;
    }
  }

  lemma {:induction false} TotalSame(s: set<Node>, m: map<Node, nat>, m': map<Node, nat>)
    requires forall x | x in s :: Get(m, x) == Get(m', x)
    ensures Total(s, m) == Total(s, m')
    decreases s
  {
    if s != {} {
      var x :| x in s;
      TotalRemove(s, x, m);
      TotalRemove(s, x, m');
      TotalSame(s - {x}, m, m');
    }
  }

  lemma {:induction false} TotalAtMost(s: set<Node>, m: map<Node, nat>, m': map<Node, nat>)
    requires forall x | x in s :: Get(m, x) <= Get(m', x)
    ensures Total(s, m) <= Total(s, m')
    decreases s
  {
    if s != {} {
      var x :| x in s;
      TotalRemove(s, x, m);
      TotalRemove(s, x, m');
      TotalAtMost(s - {x}, m, m');
    }
  }

  lemma {:induction false} TotalZero(s: set<Node>, m: map<Node, nat>)
    requires forall x | x in s :: Get(m, x) == 0
    ensures Total(s, m) == 0
    decreases s
  {
    if s != {} {
      var x :| x in s;
      TotalRemove(s, x, m);
      TotalZero(s - {x}, m);
    }
  }

  /** Counting one more observation of every member of `up` raises the total of a
      set that contains them all by their number. */
  lemma {:induction false} TotalRaised(s: set<Node>, up: set<Node>, m: map<Node, nat>, m': map<Node, nat>)
    requires up <= s
    requires forall x | x in s :: Get(m', x) == Get(m, x) + if x in up then 1 else 0
    ensures Total(s, m') == Total(s, m) + |up|
    decreases s
  {
    if s != {} {
      var x :| x in s;
      TotalRemove(s, x, m);
      TotalRemove(s, x, m');
      TotalRaised(s - {x}, up - {x}, m, m');
      if x !in up {
        assert up - {x} == up;
      }
    }
  }
}
