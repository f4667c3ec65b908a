/**
 * The callbacks the core passes to `EachConn`, as data: the closure
 * bodies of `Bombed`, `bombNotice`, `scanSystem`, `deliverReply` and
 * `deliverMessage`. `EachEffects(order, v)` is the effect log produced by
 * running callback `v` on each connection of `order` in turn.
 */
module Broadcast {
  import opened StarSystem
  import opened Output
  import opened Scanning

  datatype Visit =
    | KillBy(bomber: Conn)                  // conn.Die(); bomber.MadeKill(conn)
    | Notify(msg: Msg)                      // one line to conn
    | Reply(results: ScanResult, header: Msg)  // silent when negative, else header then body

  /** The effects of one call of the callback on connection `c`. */
  function EffectsAt(v: Visit, c: Conn): seq<Effect>
  {
    match v
    case KillBy(b) => [Die(c), MadeKill(b, c)]
    case Notify(m) => Write(c, [m])
    case Reply(r, h) => if Negative(r) then [] else Write(c, [h] + ReplyBody(r))
  }

  /** What each visited connection reads from the callback. */
  function Said(v: Visit): seq<Msg>
  {
    match v
    case KillBy(_) => []
    case Notify(m) => [m]
    case Reply(r, h) => if Negative(r) then [] else [h] + ReplyBody(r)
  }

  /** The callback run on every connection of `order`, in that order. */
  function EachEffects(order: seq<Conn>, v: Visit): seq<Effect>
  {
    if order == [] then []
    else EachEffects(order[..|order| - 1], v) + EffectsAt(v, order[|order| - 1])
  }

  /** Running the callback on one more connection appends that call's effects. */
  lemma EachEffectsSnoc(order: seq<Conn>, c: Conn, v: Visit)
    ensures EachEffects(order + [c], v) == EachEffects(order, v) + EffectsAt(v, c)
  {
    assert (order + [c])[..|order|] == order;
  }

  /** The log after one more call, for a loop that keeps `log == start + EachEffects(order, v)`. */
  lemma EachEffectsStep(start: seq<Effect>, log: seq<Effect>, order: seq<Conn>, c: Conn, v: Visit)
    requires log == start + EachEffects(order, v)
    ensures log + EffectsAt(v, c) == start + EachEffects(order + [c], v)
  {
    EachEffectsSnoc(order, c, v);
    Associative(start, EachEffects(order, v), EffectsAt(v, c));
  }

  /** One call gives `c` exactly what the callback says and everybody else nothing. */
  lemma EffectsAtLines(v: Visit, c: Conn, d: Conn)
    ensures LinesTo(EffectsAt(v, c), d) == (if d == c then Said(v) else [])
  {
    match v
    case KillBy(b) =>
      assert LinesTo(EffectsAt(v, c), d) == LinesTo([MadeKill(b, c)], d);
    case Notify(m) =>
      WriteViews(c, [m], d, 0);
    case Reply(r, h) =>
      if !Negative(r) {
        WriteViews(c, [h] + ReplyBody(r), d, 0);
      }
  }

  /**
   * Broadcasting over a visiting order: every visited connection receives
   * the callback's lines exactly once, in order, and no other connection
   * receives anything.
   */
  lemma {:induction false} EachLinesTo(order: seq<Conn>, v: Visit, c: Conn)
    requires Distinct(order)
    ensures LinesTo(EachEffects(order, v), c) == (if c in order then Said(v) else [])
  {
    if order != [] {
      var init, last := order[..|order| - 1], order[|order| - 1];
      assert Distinct(init);
      assert order == init + [last];
      EachLinesTo(init, v, c);
      LinesToAppend(EachEffects(init, v), EffectsAt(v, last), c);
      EffectsAtLines(v, last, c);
      if c == last {
        assert c !in init;
      }
    }
  }

  /** One call of the killing callback kills `c` and credits it to the bomber; other callbacks kill nobody. */
  lemma EffectsAtDeaths(v: Visit, c: Conn, killer: Conn)
    ensures Deaths(EffectsAt(v, c)) == (if v.KillBy? then [c] else [])
    ensures Credits(EffectsAt(v, c), killer) == (if v.KillBy? && v.bomber == killer then [c] else [])
  {
    match v
    case KillBy(b) =>
      var e := [Die(c), MadeKill(b, c)];
      assert e[1..] == [MadeKill(b, c)] && e[1..][1..] == [];
      assert Deaths(e[1..]) == [] + Deaths(e[1..][1..]);
      assert Credits(e[1..], killer) == (if b == killer then [c] else []) + Credits(e[1..][1..], killer);
    case Notify(m) =>
      WriteViews(c, [m], c, killer);
    case Reply(r, h) =>
      if !Negative(r) {
        WriteViews(c, [h] + ReplyBody(r), c, killer);
      }
  }

  /**
   * A killing broadcast kills each visited connection and credits each to
   * the bomber, once and in visiting order; no other callback kills anyone.
   */
  lemma {:induction false} EachDeaths(order: seq<Conn>, v: Visit, killer: Conn)
    ensures Deaths(EachEffects(order, v)) == (if v.KillBy? then order else [])
    ensures Credits(EachEffects(order, v), killer) == (if v.KillBy? && v.bomber == killer then order else [])
  {
    if order != [] {
      var init, last := order[..|order| - 1], order[|order| - 1];
      assert order == init + [last];
      EachDeaths(init, v, killer);
      DeathsAppend(EachEffects(init, v), EffectsAt(v, last));
      CreditsAppend(EachEffects(init, v), EffectsAt(v, last), killer);
      EffectsAtDeaths(v, last, killer);
    }
  }

  /** A scan reply produces no output at all exactly when nobody is there or the result is negative. */
  lemma {:induction false} ReplySilence(order: seq<Conn>, r: ScanResult, h: Msg)
    ensures EachEffects(order, Reply(r, h)) == [] <==> order == [] || Negative(r)
  {
    if order != [] {
      var init, last := order[..|order| - 1], order[|order| - 1];
      ReplySilence(init, r, h);
      if !Negative(r) {
        assert |EffectsAt(Reply(r, h), last)| > 0;
      }
    }
  }
}
