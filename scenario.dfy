/**
 * A worked trace through the galaxy: two systems on one axis ten units
 * apart, a scan that finds nothing, a bombing and the notice it sends.
 */
module Scenario {
  import opened Wrappers
  import opened StarSystem
  import opened Output
  import opened Scanning
  import opened Broadcast
  import opened Loading
  import opened GalaxyState

  /**
   * `LightTimeTo` and `BombTimeTo` (10^8 and 1.1 * 10^8 per unit of
   * distance, truncated) for points that differ only in z.
   */
  function AxisTiming(k: Phenomenon, a: Point, b: Point): int
  {
    var dz := if a.z >= b.z then a.z - b.z else b.z - a.z;
    (dz * (if k == Light then 100000000.0 else 110000000.0)).Floor
  }

  const RowA := Parsed(1, "A", Point(0.0, 0.0, 0.0), 3)
  const RowB := Parsed(2, "B", Point(0.0, 0.0, 10.0), 5)

  /** The only visiting order of a registry with at most one connection. */
  lemma Single(xs: seq<Conn>, s: set<Conn>, c: Conn)
    requires Enumerates(xs, s) && s <= {c}
    ensures xs == if c in s then [c] else []
  {
    EnumerationSize(xs, s);
    if c in s {
      assert s == {c};
      assert xs[0] in s;
    } else {
      assert s == {};
    }
  }

  /** Loading the rows of A and B into a fresh galaxy. */
  method Load() returns (g: Galaxy)
    ensures fresh(g) && g.Valid() && g.timing == AxisTiming
    ensures g.systems == [Fresh(RowA), Fresh(RowB)] && g.index == map[1 := 0, 2 := 1]
    ensures g.out == [] && g.pending == []
  {
    g := new Galaxy(AxisTiming);
    var loaded := g.IndexSystems(Some([RowA, RowB]));
    assert [RowA, RowB][..1] == [RowA] && [RowA][..0] == [];
    assert Loaded([RowA]) == [Fresh(RowA)] && IdIndex([RowA], 0) == map[1 := 0];
  }

  /** `d` waits at B while B scans A, which is empty: nobody reads anything, one echo is due. */
  method ScanEmpty(g: Galaxy, d: Conn)
    requires g.Valid() && g.timing == AxisTiming
    requires g.systems == [Fresh(RowA), Fresh(RowB)] && g.index == map[1 := 0, 2 := 1]
    requires g.out == [] && g.pending == []
    modifies g
    ensures g.Valid() && g.index == old(g.index) && g.timing == AxisTiming
    ensures g.systems == [Fresh(RowA), WithArrival(Fresh(RowB), d)]
    ensures g.out == [] && g.pending == [Timer(1000000000, Echo(2, 1, ScanResult(false, None)))]
  {
    g.Arrive(1, d);
    var ok, seen := g.ScanSystem(1, 2);
    Single(seen, {}, d);
  }

  /** `c` arrives at A and `bomber` bombs A: `c` dies, one notice is due at B. */
  method BombA(g: Galaxy, c: Conn, d: Conn, bomber: Conn)
    requires g.Valid() && g.index == map[1 := 0, 2 := 1] && g.timing == AxisTiming
    requires g.systems == [Fresh(RowA), WithArrival(Fresh(RowB), d)]
    requires g.out == []
    modifies g
    ensures g.Valid() && g.index == old(g.index) && g.timing == AxisTiming
    ensures g.systems == [WithArrival(Fresh(RowA), c), WithArrival(Fresh(RowB), d)]
    ensures g.out == [Die(c), MadeKill(bomber, c)]
    ensures g.pending == old(g.pending) + [Timer(1100000000, Notice(2, 1))]
  {
    g.Arrive(0, c);
    ghost var a := g.systems[0];
    assert Present(a) == {c} && a.colonizedBy.None? && a.id == 1;
    assert g.index.Keys - {1} == {2};
    var victims, targets := g.Bombed(0, bomber);
    Single(victims, {c}, c);
    Single(targets, {2}, 2);
    assert EachEffects([c], KillBy(bomber)) == [Die(c), MadeKill(bomber, c)] by {
      assert [c][..0] == [];
    }
    assert g.Delay(Bomb, g.systems[0], g.Sys(2)) == 1100000000 by {
      assert g.systems[0].pos == RowA.pos && g.Sys(2).pos == RowB.pos;
    }
  }

  /**
   * The echo reaches B after one light time and, being negative, says
   * nothing to `d`; the notice reaches B after one bomb time and does.
   */
  method Deliver(g: Galaxy, c: Conn, d: Conn, bomber: Conn)
    requires g.Valid() && g.index == map[1 := 0, 2 := 1]
    requires g.systems == [WithArrival(Fresh(RowA), c), WithArrival(Fresh(RowB), d)]
    requires g.out == [Die(c), MadeKill(bomber, c)]
    requires g.pending == [Timer(1000000000, Echo(2, 1, ScanResult(false, None))), Timer(1100000000, Notice(2, 1))]
    modifies g
    ensures g.out == [Die(c), MadeKill(bomber, c), Line(d, BombingObserved("A"))]
    ensures g.pending == []
  {
    var ok, seen := g.Fire(0);
    Single(seen, {d}, d);
    assert EachEffects([d], Reply(ScanResult(false, None), g.ReplyHeader(2, 1))) == [] by {
      assert [d][..0] == [];
    }
    ok, seen := g.Fire(0);
    Single(seen, {d}, d);
    assert EachEffects([d], Notify(BombingObserved("A"))) == [Line(d, BombingObserved("A"))] by {
      assert [d][..0] == [];
    }
  }

  /** The whole trace. */
  method Trace(c: Conn, d: Conn, bomber: Conn)
  {
    var g := Load();
    ScanEmpty(g, d);
    BombA(g, c, d, bomber);
    Deliver(g, c, d, bomber);
    assert g.out == [Die(c), MadeKill(bomber, c), Line(d, BombingObserved("A"))];
  }
}
