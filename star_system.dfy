/**
 * A star system's state and its presence registry: the set of
 * connections currently at the system, created lazily on first arrival.
 */
module StarSystem {
  import opened Wrappers

  /** An opaque handle standing for a `*Connection` (a player session). */
  type Conn = int

  /** Static coordinates; only the (abstract) delay function uses them. */
  datatype Point = Point(x: real, y: real, z: real)

  /**
   * One `System` record. `players` is `None` while the Go map is still nil
   * and `Some(set)` once it has been made; `colonizedBy` is the weak
   * reference to the owning connection, `None` for nil.
   */
  datatype SystemState = SystemState(
    id: int,
    name: string,
    pos: Point,
    planets: int,
    players: Option<set<Conn>>,
    colonizedBy: Option<Conn>)

  /** The connections present at `s`; a nil registry counts as empty. */
  function Present(s: SystemState): set<Conn>
  {
    match s.players
    case None => {}
    case Some(ps) => ps
  }

  /** `NumInhabitants()`: 0 for a nil registry, otherwise the registry's size. */
  function NumInhabitants(s: SystemState): (n: nat)
    ensures n == |Present(s)|
    ensures s.players.None? ==> n == 0
    ensures n == 0 <==> Present(s) == {}
  {
    match s.players
    case None => 0
    case Some(ps) => |ps|
  }

  /** The system after `Arrive(p)`: the registry exists and holds `p`. */
  function WithArrival(s: SystemState, p: Conn): (r: SystemState)
    ensures r.players.Some? && Present(r) == Present(s) + {p}
    ensures r.(players := s.players) == s
  {
    s.(players := Some(Present(s) + {p}))
  }

  /** The system after `Leave(p)`: deleting from a nil map changes nothing. */
  function WithDeparture(s: SystemState, p: Conn): (r: SystemState)
    ensures Present(r) == Present(s) - {p}
    ensures s.players.None? ==> r == s
    ensures s.players.Some? ==> r.players.Some?
    ensures p !in Present(s) ==> Present(r) == Present(s)
    ensures r.(players := s.players) == s
  {
    match s.players
    case None => s
    case Some(ps) => s.(players := Some(ps - {p}))
  }

  /** Arriving a second time changes nothing. */
  lemma ArriveIdempotent(s: SystemState, p: Conn)
    ensures WithArrival(WithArrival(s, p), p) == WithArrival(s, p)
  {
    assert Present(s) + {p} + {p} == Present(s) + {p};
  }

  /** Arrive then Leave of an absent connection restores the registry and its count. */
  lemma ArriveThenLeave(s: SystemState, p: Conn)
    requires p !in Present(s)
    ensures Present(WithDeparture(WithArrival(s, p), p)) == Present(s)
    ensures NumInhabitants(WithDeparture(WithArrival(s, p), p)) == NumInhabitants(s)
  {
    assert Present(s) + {p} - {p} == Present(s);
  }

  /** Successive arrivals of the connections of `ps`, in order. */
  function ArriveAll(s: SystemState, ps: seq<Conn>): SystemState
    decreases |ps|
  {
    if ps == [] then s else ArriveAll(WithArrival(s, ps[0]), ps[1..])
  }

  /** Some element of a non-empty set, as Go's map iteration yields one. */
  method Pick<T>(s: set<T>) returns (x: T)
    requires s != {}
    ensures x in s
  {
    x :| x in s;
  }

  /** Concatenation regroups; stated once so that loop proofs need not rediscover it. */
  lemma Associative<T>(a: seq<T>, b: seq<T>, c: seq<T>)
    ensures (a + b) + c == a + (b + c)
  {
  }

  /** No element occurs twice. */
  predicate Distinct<T(==)>(xs: seq<T>)
  {
    forall i, j :: 0 <= i < j < |xs| ==> xs[i] != xs[j]
  }

  /** In a sequence without repetitions every element occurs exactly once. */
  lemma {:induction false} DistinctOnce<T>(xs: seq<T>, x: T)
    requires Distinct(xs)
    ensures multiset(xs)[x] == if x in xs then 1 else 0
  {
    if xs != [] {
      var rest := xs[1..];
      assert xs == [xs[0]] + rest;
      assert Distinct(rest) by {
        forall i, j | 0 <= i < j < |rest| ensures rest[i] != rest[j] {
          assert xs[i + 1] != xs[j + 1];
        }
      }
      DistinctOnce(rest, x);
    }
  }

  /** `xs` lists every element of `s` exactly once (a visiting order of `s`). */
  predicate Enumerates<T(==)>(xs: seq<T>, s: set<T>)
  {
    Distinct(xs) && (forall x :: x in xs ==> x in s) && (forall x :: x in s ==> x in xs)
  }

  /** Visiting one more, new element extends the visiting order. */
  lemma EnumeratesSnoc<T>(xs: seq<T>, s: set<T>, x: T)
    requires Enumerates(xs, s) && x !in s
    ensures Enumerates(xs + [x], s + {x})
  {
    var ys := xs + [x];
    forall i, j | 0 <= i < j < |ys| ensures ys[i] != ys[j] {
      if j == |xs| {
        assert ys[i] == xs[i] && xs[i] in s;
      } else {
        assert ys[i] == xs[i] && ys[j] == xs[j];
      }
    }
    forall y | y in ys ensures y in s + {y} {
    }
  }

  /**
   * A loop over a set that skips one element: visiting a new element
   * extends the order of what was visited, except for the skipped one.
   */
  lemma VisitSkipping<T>(xs: seq<T>, done: set<T>, skip: T, x: T)
    requires Enumerates(xs, done - {skip}) && x !in done
    ensures x != skip ==> Enumerates(xs + [x], (done + {x}) - {skip})
    ensures x == skip ==> Enumerates(xs, (done + {x}) - {skip})
  {
    if x != skip {
      EnumeratesSnoc(xs, done - {skip}, x);
      assert (done + {x}) - {skip} == (done - {skip}) + {x};
    } else {
      assert (done + {x}) - {skip} == done - {skip};
    }
  }

  /** A visiting order is exactly as long as the set it visits. */
  lemma {:induction false} EnumerationSize<T>(xs: seq<T>, s: set<T>)
    requires Enumerates(xs, s)
    ensures |xs| == |s|
  {
    if xs != [] {
      var rest := xs[1..];
      forall x ensures x in rest <==> x in s - {xs[0]} {
        if x in rest {
          var j :| 0 <= j < |rest| && rest[j] == x;
          assert xs[j + 1] == x;
        }
        if x in s - {xs[0]} {
          assert x in xs;
          var j :| 0 <= j < |xs| && xs[j] == x;
          assert j != 0;
          assert rest[j - 1] == x;
        }
      }
      assert Distinct(rest) by {
        forall i, j | 0 <= i < j < |rest| ensures rest[i] != rest[j] {
          assert xs[i + 1] != xs[j + 1];
        }
      }
      EnumerationSize(rest, s - {xs[0]});
    }
  }

  /**
   * N distinct connections that were not present arrive one after the
   * other: all are present and the count grows by exactly N.
   */
  lemma {:induction false} ArriveAllCount(s: SystemState, ps: seq<Conn>)
    requires Distinct(ps)
    requires forall p :: p in ps ==> p !in Present(s)
    ensures forall p :: p in Present(ArriveAll(s, ps)) <==> p in Present(s) || p in ps
    ensures NumInhabitants(ArriveAll(s, ps)) == NumInhabitants(s) + |ps|
    decreases |ps|
  {
    if ps != [] {
      var s' := WithArrival(s, ps[0]);
      var rest := ps[1..];
      assert Distinct(rest) by {
        forall i, j | 0 <= i < j < |rest| ensures rest[i] != rest[j] {
          assert ps[i + 1] != ps[j + 1];
        }
      }
      forall p | p in rest ensures p !in Present(s') {
        var j :| 0 <= j < |rest| && rest[j] == p;
        assert ps[j + 1] == p && ps[0] != ps[j + 1];
      }
      ArriveAllCount(s', rest);
      assert forall p :: p in ps <==> p == ps[0] || p in rest;
    }
  }
}
