# Galaxy core of a space-exploration game server

This project models `system.go`, the star-system core of a multiplayer text game. Each star system keeps a presence registry of the player connections currently there. The process-wide tables `index` (by id) and `nameIndex` (by name) map to the loaded systems. The core implements three protocols on top of those tables, all driven by delayed callbacks (`After`):
- a **bombing** kills everyone present, destroys any mining colony, and sends a "bombing observed" notice to every other system after the bomb travel time;
- a **scan** tells everyone at the target that it was scanned, snapshots the target, and sends the snapshot back to the scanner after the light time;
- a **message** is delivered at once to everyone at the destination.

The model is in seven modules:

- `Wrappers` (wrappers.dfy): the `Option` and `Result` datatypes, for Go's nil values and `(value, error)` results.
- `StarSystem` (star_system.dfy): the `System` record as a value, `SystemState`.
  - The registry is `Option<set<Conn>>`, where `None` is Go's nil map.
  - Arrival and departure are the functions `WithArrival` and `WithDeparture`.
  - `NumInhabitants` is defined here.
  - So are the visiting-order notions `Distinct` and `Enumerates`, which are used for Go's unordered map iteration.
- `Output` (output.dfy): everything the core does to a connection.
  - Each line it writes, and each `Die` / `MadeKill` call, is one `Effect` appended to a log.
  - One `Msg` constructor stands for each format string.
  - The views `LinesTo` (what one connection reads), `Deaths` and `Credits` read the log back.
- `Scanning` (scanning.dfy): `scanResults` and its methods `negative`, `String` and `write`.
- `Broadcast` (broadcast.dfy): the callbacks passed to `EachConn`, written as the datatype `Visit`, and the log that one visit order produces (`EachEffects`).
- `Loading` (loading.dfy): the tables `indexSystems` builds, as functions of the scanned rows.
- `GalaxyState` (galaxy.dfy): the class `Galaxy`.
  - It holds the objects (an arena `systems`; a `*System` is a slot of it), the two tables, each connection's location, the effect log `out` and the timer queue `pending`.
  - Methods on the class model `Arrive`, `Leave`, `EachConn`, `Bombed`, `bombNotice`, `indexSystems`, `scanSystem`, `deliverReply` and `deliverMessage`.
  - `Fire` runs one pending timer.

An eighth module, `Scenario` (scenario.dfy), is a worked trace. It loads two systems, scans an empty system, bombs an inhabited one, and delivers the notice, stating at each step the exact log and queue.

Nondeterminism and panics are handled as follows:
- **Map iteration order.** Each method that iterates a Go map returns the order it used, as a ghost result. Its contract holds for every such order.
- **Nil dereferences.** When a table lookup misses, Go dereferences a nil `*System` and panics. The methods report this as `ok == false` and leave the state unchanged:
  - `bombNotice` and `deliverMessage` panic when the destination is missing, or when the source is missing while someone is present at the destination (the source's name is read only inside the callback);
  - `scanSystem` and `deliverReply` panic when either id is missing, because the light time reads both systems.

Two points of the code are easy to misread:
- `deliverReply` prints as soon as its timer fires and schedules nothing. After `scanSystem` runs, the reply waits exactly one light time. Any outbound delay before `scanSystem` is its caller's, outside `system.go`.
- In `indexSystems`, `p` is declared inside the loop, so `&p` and `p.miningRate` refer to the same stored object (`miningRate` is left out anyway, see below).

## Model

| member | source | states |
|---|---|---|
| StarSystem.NumInhabitants | system.go:50-55 | the count is the size of the set of present connections; it is 0 for a nil registry, and 0 exactly when nobody is present |
| StarSystem.WithArrival | system.go:30-33 | after arrival the registry exists (it is made if nil) and holds exactly the old members plus `p`; every other field is unchanged |
| StarSystem.WithDeparture | system.go:36-37 | after departure the members are the old ones minus `p`; a nil registry stays nil and a made one stays made; when `p` was absent nothing changes; every other field is unchanged |
| StarSystem.ArriveIdempotent | system.go:27-34 | arriving twice leaves the same state as arriving once (the registry is a set) |
| StarSystem.ArriveThenLeave | system.go:27-39 | for an absent connection, arrival followed by departure restores the set of members and the count |
| StarSystem.ArriveAllCount | system.go:27-34 | after N distinct new connections arrive, they are all present alongside the old members, and NumInhabitants has grown by exactly N |
| StarSystem.EnumerationSize | system.go:45-47 | a visiting order that covers each member once is exactly as long as the registry, so EachConn calls its callback NumInhabitants times |
| StarSystem.DistinctOnce | system.go:45-47 | in a repetition-free visiting order, each member occurs exactly once and a non-member never |
| GalaxyState.Galaxy.Arrive | system.go:27-34 | the table invariant is kept; only the chosen system's registry gains `p`; the connection's location becomes that system |
| GalaxyState.Galaxy.Leave | system.go:36-39 | the table invariant is kept; only the chosen system's registry loses `p`; the connection has no location afterwards |
| GalaxyState.Galaxy.EachConn | system.go:41-48 | the callback runs once per present connection and never on a nil registry: the visiting order enumerates the members, its length is NumInhabitants, and the log grows by exactly the callback's effects in that order |
| Broadcast.EffectsAtLines | system.go:247-253 | one call of any callback writes its lines to the visited connection and nothing to anyone else; the reply callback writes nothing when the result is negative, otherwise the header and then the body |
| Broadcast.EffectsAtDeaths | system.go:86-89 | one call of the bombing callback kills the visited connection and credits it to the bomber alone; the other callbacks kill nobody and credit nobody |
| Broadcast.EachLinesTo | system.go:41-48 | through EachConn, a connection reads the callback's lines exactly once if present and nothing otherwise |
| Broadcast.EachDeaths | system.go:85-89 | the bombing callback yields one death per visited connection, in visiting order, each credited to the bomber and to nobody else; other callbacks kill nobody |
| GalaxyState.BombingKills | system.go:85-93 | over any repetition-free visiting order, a bombing's deaths are exactly the visited connections, in that order, and every kill is credited to the bomber; the colony line kills nobody |
| GalaxyState.VictimsOnce | system.go:85-89 | over a visiting order of the connections present, there are exactly NumInhabitants victims, and each present connection dies exactly once while an absent one never does |
| GalaxyState.ColonyLoss | system.go:90-92 | a bombing writes a colony line exactly when the system is colonized: at most one line, to the owner, saying the colony on this system's name was destroyed |
| GalaxyState.BombingLines | system.go:85-93 | the only line a bombing writes directly is one "colony destroyed" line to the colony owner; without a colony, nobody reads anything |
| GalaxyState.Galaxy.Bombed | system.go:85-105 | tables and registries are untouched; the colony is cleared; the log is the kills followed by the owner's line; exactly one notice is scheduled for each id of the index other than the bombed system's, each with the bomb travel time from the bombed system |
| GalaxyState.Galaxy.ScheduleNotices | system.go:95-104 | the ids visited are exactly the index keys minus the bombed system's id, each once, and the queue grows by one bomb-delay notice per visited id, in visiting order |
| GalaxyState.Galaxy.ScheduleNotice | system.go:99-103 | one pass of the loop: the queue grows by one notice to `id` from the bombed system, with the bomb travel time to `index[id]` |
| GalaxyState.Galaxy.FanOut | system.go:99-103 | the j-th scheduled timer carries the bomb travel time to the j-th target and a notice addressed to that target from the bombed system |
| GalaxyState.Galaxy.FanOutTargets | system.go:95-104 | the notices scheduled for a list of ids address exactly those ids, in order |
| GalaxyState.Galaxy.BombingFanOutOnce | system.go:95-104 | over an enumeration of the other ids, every other system of the index gets exactly one notice; the bombed system and unknown ids get none |
| GalaxyState.Galaxy.BombNotice | system.go:107-113 | it succeeds exactly when it cannot dereference nil; then every connection present at the destination reads "a bombing has been observed on" the source's name, once each; otherwise it has no effect |
| GalaxyState.Galaxy.IndexSystems | system.go:165-185 | when the query fails, nothing changes and nil is returned; otherwise one fresh object is created per scanned row, both tables are rebuilt from the rows alone, the table invariant holds, and the new index is returned |
| Loading.Fresh | system.go:175-176 | an object built from a row has the row's id, name, coordinates and planet count, a nil registry and no colony |
| Loading.LoadedAt | system.go:174-180 | the object made for scanned row j is the one at position "number of scanned rows before j" among the objects of the load |
| Loading.IdIndexSound | system.go:172-180 | every key of the new index leads to an object of this load with that id, and every scanned row's id is a key |
| Loading.NameIndexSound | system.go:173-181 | every key of the new name index leads to an object of this load with that name, and every scanned row's name is a key |
| Loading.IdIndexLast | system.go:180 | a later scanned row with the same id overwrites an earlier one: the id leads to the object of its last row |
| Loading.NameIndexLast | system.go:181 | a later scanned row with the same name overwrites an earlier one: the name leads to the object of its last row |
| Loading.SameObject | system.go:175-181 | a row that no later row overrides, by id or by name, is reachable through both tables, which lead to the same object, built from that row |
| GalaxyState.Galaxy.RandomSystem | system.go:187-196 | an empty index yields the error "no planets are known to exist"; otherwise the pick in [0, len) is looked up as an id, giving nil when absent and otherwise exactly the object `index[pick]`, whose id is the pick |
| Scanning.Negative | system.go:204-206 | a result is negative exactly when its summary text is "(none)" (no life) and no colony owner was seen |
| Scanning.Summary | system.go:208-213 | the text is "life detected" exactly when life was seen and "(none)" exactly when it was not, whatever the colony |
| Scanning.ReplyBody | system.go:215-222 | the body has no line exactly when the result is negative; it has one life line iff life was seen and one owner line iff a colony was seen, naming that owner, and no other line; life comes first and the owner last |
| Broadcast.ReplySilence | system.go:204-206 | a reply writes nothing at all exactly when the result is negative (neither life nor colony) or nobody is present to read it |
| Scanning.Snapshot | system.go:233-236 | the snapshot shows life iff someone is present, carries the system's colony owner, and is negative iff the system is empty and uncolonized |
| GalaxyState.Galaxy.ScanSystem | system.go:224-240 | it succeeds iff both ids resolve; then everyone at the target reads "scan detected from" the source's name, once each, and exactly one timer is added: the light time, carrying a reply addressed to the source with the snapshot taken now; otherwise it has no effect |
| GalaxyState.Galaxy.DeliverReply | system.go:242-254 | it never schedules anything; it succeeds iff both ids resolve; then every connection at the origin reads the header (target name and light time) followed by the body, unless the result is negative |
| Output.WriteViews | system.go:215-222 | writing a list of lines to a connection is read back by that connection as exactly that list and by nobody else, and kills nobody |
| GalaxyState.Galaxy.DeliverMessage | system.go:256-262 | it succeeds exactly when it cannot dereference nil; then every connection present at the destination reads one "Message from" line with the source's name and the text, with no delay; otherwise it has no effect |
| GalaxyState.Galaxy.Fire | system.go:101-103 | the fired timer, and only it, leaves the queue; a bombing-notice timer (the callback at system.go:101-103) runs `bombNotice`, and a scan-reply timer (the callback at system.go:237-239) runs `deliverReply`, each on the ids it carries and with that method's contract |
| GalaxyState.Galaxy.After | system.go:237-239 | a scheduled callback is appended to the queue of pending timers |

## Left out

- `Store`, `Nearby`, `countSystems` and the SQL query in `indexSystems` talk to a database. The rows of the load are a parameter, and a failed query is `None`.
- `dist3d`, `sq`, `DistanceTo`, `LightTimeTo`, `BombTimeTo` and `TravelTimeTo` are floating-point arithmetic. Every delay is the value of an unspecified function `timing` of the two systems' coordinates. The worked trace uses one concrete axis-aligned instance with the source's 1e8 and 1.1e8 factors.
- `miningRate` and its `rand.Float64()` initialisation are left out, as is the randomness behind `rand.Intn`. `randomSystem` takes the pick as a parameter.
- Iteration order of Go maps is not fixed; the model proves each contract for every order.
- `After` runs its callbacks concurrently on timers. The model keeps a queue of pending timers, and `Fire` runs any one of them. Wall-clock time and data races between callbacks are not modelled.
- The `Connection` methods `SetSystem`, `PlayerName`, `Die`, `MadeKill` and the `io.Writer` stream are not part of this model. They become handles and log entries, so an owner's player name stands for the owner's handle.
- The exact byte content of each line (fmt formatting of names and durations), and logging through `log_info` / `log_error`, are left out.
- `System.String` and the `Neighbor` type are used only by code outside this core.
- What happens after a panic is not modelled. In Go, a nil dereference inside an `After` callback panics and, unless `After` recovers it, ends the process. The model returns `ok == false`, changes nothing, and carries on; `Fire` has already dropped the timer.
- GalaxyState.Galaxy.Leave: `location = nil` is modelled as removing the connection from the location map, not as storing a nil pointer.
