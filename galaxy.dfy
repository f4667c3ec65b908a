/**
 * The galaxy: the process-wide `index` and `nameIndex` tables, the System
 * objects they point to, and the delayed-event protocols (bombing fan-out,
 * round-trip scanning, messaging) built on the `After` timer.
 *
 * System objects live in an arena `systems`; a `*System` is a slot of it.
 * Both tables map to slots, so two tables pointing at "the same object"
 * hold the same slot, and an object dropped from the tables by a reload
 * still exists for whoever holds its slot. The connection collaborator is
 * reduced to handles: the lines written to a connection and the
 * `Die`/`MadeKill` calls are appended, in order, to the effect log `out`.
 * `After(delay, callback)` appends a `Timer` to `pending`; `Fire` plays one.
 * A distance-derived delay is the opaque `timing` function of the two
 * systems' coordinates.
 *
 * Go dereferences a nil `*System` when an id is missing from `index`; the
 * model reports that as `ok == false` with no effect at all, which is what
 * precedes the panic in each case.
 */
module GalaxyState {
  import opened Wrappers
  import opened StarSystem
  import opened Output
  import opened Scanning
  import opened Broadcast
  import opened Loading

  /** The two phenomena whose delays the core uses: `LightTimeTo` and `BombTimeTo`. */
  datatype Phenomenon = Light | Bomb

  /**
   * The body of a scheduled callback. It closes over ids only (and the scan
   * snapshot, a value), and re-resolves the ids when it fires.
   */
  datatype Task =
    | Notice(toId: int, fromId: int)                    // bombNotice(to_id, from_id)
    | Echo(id: int, echo: int, results: ScanResult)     // deliverReply(id, echo, results)

  /** A pending `After(delay, callback)`. */
  datatype Timer = Timer(delay: int, task: Task)

  /** The line a colony owner receives when the colony is bombed, if there is one. */
  function ColonyLoss(s: SystemState): (es: seq<Effect>)
    ensures |es| == (if s.colonizedBy.Some? then 1 else 0)
    ensures forall i :: 0 <= i < |es| ==> es[i] == Line(s.colonizedBy.value, ColonyDestroyed(s.name))
  {
    match s.colonizedBy
    case None => []
    case Some(owner) => [Line(owner, ColonyDestroyed(s.name))]
  }

  /**
   * The immediate effects of a bombing, over any repetition-free visiting
   * order: one death per visited connection, in order, each kill credited
   * to the bomber; the colony line kills nobody.
   */
  lemma BombingKills(s: SystemState, order: seq<Conn>, bomber: Conn)
    requires Distinct(order)
    ensures Deaths(EachEffects(order, KillBy(bomber)) + ColonyLoss(s)) == order
    ensures Credits(EachEffects(order, KillBy(bomber)) + ColonyLoss(s), bomber) == order
  {
    var kills := EachEffects(order, KillBy(bomber));
    EachDeaths(order, KillBy(bomber), bomber);
    DeathsAppend(kills, ColonyLoss(s));
    CreditsAppend(kills, ColonyLoss(s), bomber);
  }

  /**
   * Over a visiting order of the connections present, the victims number
   * exactly NumInhabitants and each present connection dies once.
   */
  lemma VictimsOnce(s: SystemState, order: seq<Conn>, c: Conn)
    requires Enumerates(order, Present(s))
    ensures |order| == NumInhabitants(s)
    ensures multiset(order)[c] == if c in Present(s) then 1 else 0
  {
    EnumerationSize(order, Present(s));
    DistinctOnce(order, c);
  }

  /**
   * The only line a bombing writes is the colony owner's single
   * "destroyed" line; without a colony nobody reads anything.
   */
  lemma BombingLines(s: SystemState, order: seq<Conn>, bomber: Conn, c: Conn)
    requires Distinct(order)
    ensures LinesTo(EachEffects(order, KillBy(bomber)) + ColonyLoss(s), c)
         == if s.colonizedBy == Some(c) then [ColonyDestroyed(s.name)] else []
  {
    var kills := EachEffects(order, KillBy(bomber));
    EachLinesTo(order, KillBy(bomber), c);
    LinesToAppend(kills, ColonyLoss(s), c);
    assert LinesTo(ColonyLoss(s), c) == if s.colonizedBy == Some(c) then [ColonyDestroyed(s.name)] else [];
  }

  /** The destinations of the bombing notices among `ts`, in order. */
  function NoticeTargets(ts: seq<Timer>): seq<int>
  {
    if ts == [] then []
    else
      var init, last := ts[..|ts| - 1], ts[|ts| - 1];
      NoticeTargets(init) + (if last.task.Notice? then [last.task.toId] else [])
  }

  class Galaxy {
    const timing: (Phenomenon, Point, Point) -> int
    var systems: seq<SystemState>
    var index: map<int, nat>
    var nameIndex: map<string, nat>
    var location: map<Conn, nat>
    var out: seq<Effect>
    var pending: seq<Timer>

    /**
     * Every table entry is a live object carrying the key it is filed
     * under, and every connection's location is a live object.
     */
    ghost predicate Valid()
      reads this`systems, this`index, this`nameIndex, this`location
    {
      && (forall id :: id in index ==> index[id] < |systems| && systems[index[id]].id == id)
      && (forall n :: n in nameIndex ==> nameIndex[n] < |systems| && systems[nameIndex[n]].name == n)
      && (forall c :: c in location ==> location[c] < |systems|)
    }

    /** The galaxy before the first load: Go's nil tables, nothing scheduled. */
    constructor (timing: (Phenomenon, Point, Point) -> int)
      ensures Valid() && this.timing == timing
      ensures systems == [] && index == map[] && nameIndex == map[] && location == map[]
      ensures out == [] && pending == []
    {
      this.timing := timing;
      systems, index, nameIndex, location := [], map[], map[], map[];
      out, pending := [], [];
    }

    /** A live table entry: what `index[id]` is when it is not nil. */
    predicate Resolves(id: int)
      reads this`systems, this`index
    {
      id in index && index[id] < |systems|
    }

    function Sys(id: int): SystemState
      reads this`systems, this`index
      requires Resolves(id)
    {
      systems[index[id]]
    }

    /** The name of `index[id]`; not consulted when the id is missing. */
    function NameOf(id: int): string
      reads this`systems, this`index
    {
      if Resolves(id) then Sys(id).name else ""
    }

    /** The delay of `kind` from `a` to `b` (`LightTimeTo`, `BombTimeTo`). */
    function Delay(kind: Phenomenon, a: SystemState, b: SystemState): int
    {
      timing(kind, a.pos, b.pos)
    }

    /**
     * Callback `v` was run, through `EachConn`, on the connections present at
     * `index[toId]`, taking the log from `before` to `after`.
     */
    ghost predicate Heard(toId: int, v: Visit, visited: seq<Conn>, before: seq<Effect>, after: seq<Effect>)
      reads this`systems, this`index
    {
      Resolves(toId) && Enumerates(visited, Present(Sys(toId))) && after == before + EachEffects(visited, v)
    }

    /** `bombNotice` reaches its end without a nil dereference. */
    predicate NoticeOk(toId: int, fromId: int)
      reads this`systems, this`index
    {
      Resolves(toId) && (Resolves(fromId) || Present(Sys(toId)) == {})
    }

    /** The header `deliverReply` writes: the target's name and the light time from origin to target. */
    function ReplyHeader(id: int, echo: int): Msg
      reads this`systems, this`index
      requires Resolves(id) && Resolves(echo)
    {
      ScanHeader(Sys(echo).name, Delay(Light, Sys(id), Sys(echo)))
    }

    /** The bombing notices `Bombed` schedules, one per id of `ids`, in order. */
    function FanOut(from: SystemState, ids: seq<int>): (ts: seq<Timer>)
      reads this`systems, this`index
      requires forall id :: id in ids ==> Resolves(id)
      ensures |ts| == |ids|
      ensures forall j :: 0 <= j < |ids| ==>
        ts[j] == Timer(Delay(Bomb, from, Sys(ids[j])), Notice(ids[j], from.id))
    {
      if ids == [] then []
      else
        var init, last := ids[..|ids| - 1], ids[|ids| - 1];
        FanOut(from, init) + [Timer(Delay(Bomb, from, Sys(last)), Notice(last, from.id))]
    }

    /** The schedule after one more notice, for a loop that keeps `log == start + FanOut(from, ids)`. */
    lemma FanOutStep(start: seq<Timer>, log: seq<Timer>, from: SystemState, ids: seq<int>, id: int)
      requires forall i :: i in ids ==> Resolves(i)
      requires Resolves(id) && log == start + FanOut(from, ids)
      ensures log + [Timer(Delay(Bomb, from, Sys(id)), Notice(id, from.id))] == start + FanOut(from, ids + [id])
    {
      assert (ids + [id])[..|ids|] == ids;
      Associative(start, FanOut(from, ids), [Timer(Delay(Bomb, from, Sys(id)), Notice(id, from.id))]);
    }

    /** The notices scheduled for a list of ids go to exactly those ids, in order. */
    lemma {:induction false} FanOutTargets(from: SystemState, ids: seq<int>)
      requires forall id :: id in ids ==> Resolves(id)
      ensures NoticeTargets(FanOut(from, ids)) == ids
    {
      if ids != [] {
        var init := ids[..|ids| - 1];
        FanOutTargets(from, init);
        assert FanOut(from, ids)[..|ids| - 1] == FanOut(from, init);
      }
    }

    /**
     * A bombing fan-out over the other systems sends exactly one notice to
     * each id of the index other than the bombed system's, and none to the
     * bombed system or to an id outside the index.
     */
    lemma BombingFanOutOnce(from: SystemState, ids: seq<int>, id: int)
      requires Valid()
      requires Enumerates(ids, index.Keys - {from.id})
      ensures forall i :: i in ids ==> Resolves(i)
      ensures multiset(NoticeTargets(FanOut(from, ids)))[id] == if id in index && id != from.id then 1 else 0
    {
      FanOutTargets(from, ids);
      DistinctOnce(ids, id);
    }

    /** `randomSystem()` with the result of `rand.Intn(len(index))` passed in as `pick`. */
    function RandomSystem(pick: int): (r: Result<Option<nat>>)
      reads this`systems, this`index, this`nameIndex, this`location
      requires Valid()
      requires |index| > 0 ==> 0 <= pick < |index|
      ensures r.Err? <==> |index| == 0
      ensures r.Ok? ==> (r.value.Some? <==> pick in index)
      ensures r.Ok? && r.value.Some? ==> r.value.value == index[pick]
      ensures r.Ok? && r.value.Some? ==> r.value.value < |systems| && systems[r.value.value].id == pick
    {
      if |index| == 0 then Err("no planets are known to exist")
      else if pick in index then Ok(Some(index[pick]))
      else Ok(None)
    }

    /** `After(delay, callback)`: the callback now waits in `pending`. */
    method After(delay: int, task: Task)
      modifies this`pending
      ensures pending == old(pending) + [Timer(delay, task)]
    {
      pending := pending + [Timer(delay, task)];
    }

    /** `s.Arrive(p)`: `p` is located at `s` and present there; the registry is made if nil. */
    method Arrive(slot: nat, p: Conn)
      requires Valid() && slot < |systems|
      modifies this`systems, this`location
      ensures Valid()
      ensures systems == old(systems)[slot := WithArrival(old(systems[slot]), p)]
      ensures location == old(location)[p := slot]
    {
      location := location[p := slot];
      systems := systems[slot := WithArrival(systems[slot], p)];
    }

    /** `s.Leave(p)`: `p` is no longer present at `s` and has no location. */
    method Leave(slot: nat, p: Conn)
      requires Valid() && slot < |systems|
      modifies this`systems, this`location
      ensures Valid()
      ensures systems == old(systems)[slot := WithDeparture(old(systems[slot]), p)]
      ensures location == old(location) - {p}
    {
      systems := systems[slot := WithDeparture(systems[slot], p)];
      location := location - {p};
    }

    /**
     * `s.EachConn(fn)`: runs the callback once on each present connection,
     * in some order the map iteration chooses, and not at all on a nil
     * registry. `visited` is that order.
     */
    method EachConn(slot: nat, fn: Visit) returns (ghost visited: seq<Conn>)
      requires slot < |systems|
      modifies this`out
      ensures Enumerates(visited, Present(systems[slot]))
      ensures |visited| == NumInhabitants(systems[slot])
      ensures out == old(out) + EachEffects(visited, fn)
    {
      visited := [];
      if systems[slot].players.None? {
        return;
      }
      var rest := systems[slot].players.value;
      ghost var done: set<Conn> := {};
      while rest != {}
        invariant done + rest == Present(systems[slot]) && done !! rest
        invariant Enumerates(visited, done)
        invariant out == old(out) + EachEffects(visited, fn)
        decreases rest
      {
        var c := Pick(rest);
        EachEffectsStep(old(out), out, visited, c, fn);
        out := out + EffectsAt(fn, c);
        EnumeratesSnoc(visited, done, c);
        visited, done, rest := visited + [c], done + {c}, rest - {c};
      }
      EnumerationSize(visited, done);
    }

    /**
     * `s.Bombed(bomber)`: kills every present connection, crediting each kill
     * to the bomber; destroys a colony, telling its owner once; then
     * schedules one bombing notice for every other id of the index. The
     * presence registry, the tables and every other system are untouched.
     */
    method Bombed(slot: nat, bomber: Conn) returns (ghost victims: seq<Conn>, ghost targets: seq<int>)
      requires Valid() && slot < |systems|
      modifies this`out, this`systems, this`pending
      ensures Valid()
      ensures systems == old(systems)[slot := old(systems[slot]).(colonizedBy := None)]
      ensures Enumerates(victims, Present(old(systems[slot])))
      ensures out == old(out) + EachEffects(victims, KillBy(bomber)) + ColonyLoss(old(systems[slot]))
      ensures Enumerates(targets, index.Keys - {systems[slot].id})
      ensures forall id :: id in targets ==> Resolves(id)
      ensures pending == old(pending) + FanOut(systems[slot], targets)
    {
      victims := EachConn(slot, KillBy(bomber));
      var s := systems[slot];
      if s.colonizedBy.Some? {
        out := out + [Line(s.colonizedBy.value, ColonyDestroyed(s.name))];
        systems := systems[slot := s.(colonizedBy := None)];
      } else {
        assert s.(colonizedBy := None) == s;
      }
      assert systems[slot].id == s.id && systems[slot].name == s.name;
      targets := ScheduleNotices(s);
    }

    /** The loop of `Bombed` over `index`: one notice per id other than `from`'s. */
    method ScheduleNotices(from: SystemState) returns (ghost targets: seq<int>)
      requires Valid()
      modifies this`pending
      ensures Enumerates(targets, index.Keys - {from.id})
      ensures forall id :: id in targets ==> Resolves(id)
      ensures pending == old(pending) + FanOut(from, targets)
    {
      var keys := index.Keys;
      ghost var done: set<int> := {};
      targets := [];
      while keys != {}
        invariant done + keys == index.Keys && done !! keys
        invariant Enumerates(targets, done - {from.id})
        invariant forall id :: id in targets ==> Resolves(id)
        invariant pending == old(pending) + FanOut(from, targets)
        decreases keys
      {
        var id := Pick(keys);
        VisitSkipping(targets, done, from.id, id);
        if id != from.id {
          ScheduleNotice(old(pending), from, targets, id);
          targets := targets + [id];
        }
        done, keys := done + {id}, keys - {id};
      }
    }

    /** One pass of the `Bombed` loop over `index`: `After(BombTimeTo(index[id]), bombNotice(id, s.id))`. */
    method ScheduleNotice(ghost start: seq<Timer>, from: SystemState, ghost ids: seq<int>, id: int)
      requires forall i :: i in ids ==> Resolves(i)
      requires Resolves(id) && pending == start + FanOut(from, ids)
      modifies this`pending
      ensures pending == start + FanOut(from, ids + [id])
    {
      FanOutStep(start, pending, from, ids, id);
      After(Delay(Bomb, from, Sys(id)), Notice(id, from.id));
    }

    /**
     * `bombNotice(to, from)`: every connection present at `index[to]` when
     * the notice fires reads that a bombing was observed on `from`'s name.
     */
    method BombNotice(toId: int, fromId: int) returns (ok: bool, ghost visited: seq<Conn>)
      requires Valid()
      modifies this`out
      ensures ok == NoticeOk(toId, fromId)
      ensures ok ==> Heard(toId, Notify(BombingObserved(NameOf(fromId))), visited, old(out), out)
      ensures !ok ==> out == old(out)
    {
      if !NoticeOk(toId, fromId) {
        return false, [];
      }
      visited := EachConn(index[toId], Notify(BombingObserved(NameOf(fromId))));
      ok := true;
    }

    /**
     * `scanSystem(id, reply)`: everyone at the target reads that a scan came
     * from the source; the target is snapshotted now, and one reply is
     * scheduled back to the source after the light time.
     */
    method ScanSystem(id: int, reply: int) returns (ok: bool, ghost visited: seq<Conn>)
      requires Valid()
      modifies this`out, this`pending
      ensures ok == (Resolves(id) && Resolves(reply))
      ensures ok ==> Heard(id, Notify(ScanDetected(Sys(reply).name)), visited, old(out), out)
      ensures ok ==> pending == old(pending) + [Timer(Delay(Light, Sys(id), Sys(reply)), Echo(reply, id, Snapshot(Sys(id))))]
      ensures !ok ==> out == old(out) && pending == old(pending)
    {
      if !Resolves(id) || !Resolves(reply) {
        return false, [];
      }
      var system, source := systems[index[id]], systems[index[reply]];
      var delay := Delay(Light, system, source);
      visited := EachConn(index[id], Notify(ScanDetected(source.name)));
      var results := ScanResult(NumInhabitants(system) > 0, system.colonizedBy);
      After(delay, Echo(source.id, system.id, results));
      ok := true;
    }

    /**
     * `deliverReply(id, echo, results)`: a non-negative result is written to
     * every connection at the origin; a negative one to nobody. Nothing is
     * scheduled.
     */
    method DeliverReply(id: int, echo: int, results: ScanResult) returns (ok: bool, ghost visited: seq<Conn>)
      requires Valid()
      modifies this`out
      ensures pending == old(pending)
      ensures ok == (Resolves(id) && Resolves(echo))
      ensures ok ==> Heard(id, Reply(results, ReplyHeader(id, echo)), visited, old(out), out)
      ensures !ok ==> out == old(out)
    {
      if !Resolves(id) || !Resolves(echo) {
        return false, [];
      }
      visited := EachConn(index[id], Reply(results, ReplyHeader(id, echo)));
      ok := true;
    }

    /** `deliverMessage(to, from, msg)`: one line, with no delay, to each connection at `index[to]`. */
    method DeliverMessage(toId: int, fromId: int, msg: string) returns (ok: bool, ghost visited: seq<Conn>)
      requires Valid()
      modifies this`out
      ensures ok == NoticeOk(toId, fromId)
      ensures ok ==> Heard(toId, Notify(MessageFrom(NameOf(fromId), msg)), visited, old(out), out)
      ensures !ok ==> out == old(out)
    {
      if !NoticeOk(toId, fromId) {
        return false, [];
      }
      visited := EachConn(index[toId], Notify(MessageFrom(NameOf(fromId), msg)));
      ok := true;
    }

    /** The timer `pending[k]` goes off: it leaves the queue and its callback runs once. */
    method Fire(k: nat) returns (ok: bool, ghost visited: seq<Conn>)
      requires Valid() && k < |pending|
      modifies this`out, this`pending
      ensures pending == old(pending[..k] + pending[k + 1..])
      ensures match old(pending[k].task)
        case Notice(toId, fromId) =>
          && ok == NoticeOk(toId, fromId)
          && (ok ==> Heard(toId, Notify(BombingObserved(NameOf(fromId))), visited, old(out), out))
          && (!ok ==> out == old(out))
        case Echo(id, echo, results) =>
          && ok == (Resolves(id) && Resolves(echo))
          && (ok ==> Heard(id, Reply(results, ReplyHeader(id, echo)), visited, old(out), out))
          && (!ok ==> out == old(out))
    {
      var t := pending[k];
      pending := pending[..k] + pending[k + 1..];
      match t.task
      case Notice(toId, fromId) =>
        ok, visited := BombNotice(toId, fromId);
      case Echo(id, echo, results) =>
        ok, visited := DeliverReply(id, echo, results);
    }

    /**
     * `indexSystems()`: `rows` is the result of the `planets` query, `None`
     * when the query fails. On success both tables are rebuilt from the
     * scanned rows (later rows overwriting earlier ones with the same id or
     * name, unscannable rows skipped) and the new `index` is returned; on
     * failure nothing changes and nil is returned.
     */
    method IndexSystems(rows: Option<seq<Row>>) returns (r: Option<map<int, nat>>)
      requires Valid()
      modifies this`systems, this`index, this`nameIndex
      ensures Valid()
      ensures rows.None? ==> r.None? && systems == old(systems) && index == old(index) && nameIndex == old(nameIndex)
      ensures rows.Some? ==> && systems == old(systems) + Loaded(rows.value)
                             && index == IdIndex(rows.value, |old(systems)|)
                             && nameIndex == NameIndex(rows.value, |old(systems)|)
                             && r == Some(index)
    {
      if rows.None? {
        return None;
      }
      var rs := rows.value;
      var prefix := systems;
      var loaded: seq<SystemState> := [];
      var ids: map<int, nat> := map[];
      var names: map<string, nat> := map[];
      var i := 0;
      while i < |rs|
        invariant 0 <= i <= |rs|
        invariant loaded == Loaded(rs[..i])
        invariant ids == IdIndex(rs[..i], |prefix|)
        invariant names == NameIndex(rs[..i], |prefix|)
      {
        LoadStep(rs, i, |prefix|);
        match rs[i] {
          case Unscannable =>
          case Parsed(id, name, _, _) =>
            var slot := |prefix| + |loaded|;
            loaded := loaded + [Fresh(rs[i])];
            ids := ids[id := slot];
            names := names[name := slot];
        }
        i := i + 1;
      }
      assert rs[..|rs|] == rs;
      Installed(prefix, rs);
      systems, index, nameIndex := prefix + loaded, ids, names;
      r := Some(index);
    }
  }
}
