/**
 * What the core hands to the connection collaborator: text lines written
 * to a connection's sink, and the `Die`/`MadeKill` effects. The exact
 * `fmt` wording is not modelled; a line is its kind and its parameters.
 */
module Output {
  import opened StarSystem

  /** The kinds of line the core writes to a connection. */
  datatype Msg =
    | ColonyDestroyed(system: string)      // "your mining colony on %s has been destroyed!"
    | BombingObserved(system: string)      // "a bombing has been observed on %s"
    | ScanDetected(source: string)         // "scan detected from %s"
    | ScanHeader(source: string, delay: int)  // "scan results from %s (%v away):"
    | LifeDetected                         // "\tlife detected"
    | ColonyOwnedBy(owner: Conn)           // "\tmining colony owned by %s" (the owner's PlayerName)
    | MessageFrom(source: string, text: string)  // "Message from %s: %s"

  /** One recorded effect on a connection, in the order the core produces them. */
  datatype Effect =
    | Line(to: Conn, msg: Msg)
    | Die(victim: Conn)
    | MadeKill(killer: Conn, victim: Conn)

  /** The lines `ms`, in order, written to connection `c`. */
  function Write(c: Conn, ms: seq<Msg>): (es: seq<Effect>)
    ensures |es| == |ms|
    ensures forall i :: 0 <= i < |ms| ==> es[i] == Line(c, ms[i])
  {
    if ms == [] then [] else [Line(c, ms[0])] + Write(c, ms[1..])
  }

  /** The lines connection `c` receives, in order. */
  function LinesTo(es: seq<Effect>, c: Conn): seq<Msg>
  {
    if es == [] then []
    else (if es[0].Line? && es[0].to == c then [es[0].msg] else []) + LinesTo(es[1..], c)
  }

  /** The connections killed, in order. */
  function Deaths(es: seq<Effect>): seq<Conn>
  {
    if es == [] then []
    else (if es[0].Die? then [es[0].victim] else []) + Deaths(es[1..])
  }

  /** The victims credited to `killer`, in order. */
  function Credits(es: seq<Effect>, killer: Conn): seq<Conn>
  {
    if es == [] then []
    else (if es[0].MadeKill? && es[0].killer == killer then [es[0].victim] else []) + Credits(es[1..], killer)
  }

  /** Each of the three views distributes over concatenation of effect logs. */
  lemma {:induction false} LinesToAppend(a: seq<Effect>, b: seq<Effect>, c: Conn)
    ensures LinesTo(a + b, c) == LinesTo(a, c) + LinesTo(b, c)
  {
    if a == [] {
      assert a + b == b;
    } else {
      assert (a + b)[0] == a[0] && (a + b)[1..] == a[1..] + b;
      LinesToAppend(a[1..], b, c);
    }
  }

  lemma {:induction false} DeathsAppend(a: seq<Effect>, b: seq<Effect>)
    ensures Deaths(a + b) == Deaths(a) + Deaths(b)
  {
    if a == [] {
      assert a + b == b;
    } else {
      assert (a + b)[0] == a[0] && (a + b)[1..] == a[1..] + b;
      DeathsAppend(a[1..], b);
    }
  }

  lemma {:induction false} CreditsAppend(a: seq<Effect>, b: seq<Effect>, killer: Conn)
    ensures Credits(a + b, killer) == Credits(a, killer) + Credits(b, killer)
  {
    if a == [] {
      assert a + b == b;
    } else {
      assert (a + b)[0] == a[0] && (a + b)[1..] == a[1..] + b;
      CreditsAppend(a[1..], b, killer);
    }
  }

  lemma ViewsAppend(a: seq<Effect>, b: seq<Effect>, c: Conn, killer: Conn)
    ensures LinesTo(a + b, c) == LinesTo(a, c) + LinesTo(b, c)
    ensures Deaths(a + b) == Deaths(a) + Deaths(b)
    ensures Credits(a + b, killer) == Credits(a, killer) + Credits(b, killer)
  {
    LinesToAppend(a, b, c);
    DeathsAppend(a, b);
    CreditsAppend(a, b, killer);
  }

  /** Writing `ms` to `c` gives `c` exactly `ms`, nobody else anything, and kills nobody. */
  lemma {:induction false} WriteViews(c: Conn, ms: seq<Msg>, d: Conn, killer: Conn)
    ensures LinesTo(Write(c, ms), d) == (if d == c then ms else [])
    ensures Deaths(Write(c, ms)) == []
    ensures Credits(Write(c, ms), killer) == []
  {
    if ms != [] {
      WriteViews(c, ms[1..], d, killer);
      ViewsAppend([Line(c, ms[0])], Write(c, ms[1..]), d, killer);
      assert LinesTo([Line(c, ms[0])], d) == (if d == c then [ms[0]] else []);
      if d == c {
        assert ms == [ms[0]] + ms[1..];
      }
    }
  }
}
