/**
 * `indexSystems`: building the two lookup tables from the rows of the
 * bulk load. Every System object created is an entry of an arena
 * (a sequence); both tables map to arena slots, so "both tables point to
 * the same object" is "both tables hold the same slot". Slots are
 * numbered from `base`, the number of objects created before this load.
 */
module Loading {
  import opened Wrappers
  import opened StarSystem

  /** One row of the `planets` query: a scanned record, or a row whose `Scan` failed. */
  datatype Row =
    | Parsed(id: int, name: string, pos: Point, planets: int)
    | Unscannable

  /** The System object built from a scanned row: nobody present, no colony. */
  function Fresh(row: Row): (s: SystemState)
    requires row.Parsed?
    ensures s.id == row.id && s.name == row.name && s.pos == row.pos && s.planets == row.planets
    ensures s.players.None? && Present(s) == {} && s.colonizedBy.None?
  {
    SystemState(row.id, row.name, row.pos, row.planets, None, None)
  }

  /** The objects created by the load, one per scanned row, in row order. */
  function Loaded(rows: seq<Row>): seq<SystemState>
  {
    if rows == [] then []
    else
      var init, last := rows[..|rows| - 1], rows[|rows| - 1];
      Loaded(init) + (if last.Parsed? then [Fresh(last)] else [])
  }

  /** `index` after the load: each scanned row stores its object under its id. */
  function IdIndex(rows: seq<Row>, base: nat): map<int, nat>
  {
    if rows == [] then map[]
    else
      var init, last := rows[..|rows| - 1], rows[|rows| - 1];
      var m := IdIndex(init, base);
      if last.Parsed? then m[last.id := base + |Loaded(init)|] else m
  }

  /** `nameIndex` after the load: each scanned row stores its object under its name. */
  function NameIndex(rows: seq<Row>, base: nat): map<string, nat>
  {
    if rows == [] then map[]
    else
      var init, last := rows[..|rows| - 1], rows[|rows| - 1];
      var m := NameIndex(init, base);
      if last.Parsed? then m[last.name := base + |Loaded(init)|] else m
  }

  /** The object of scanned row `j` sits at offset |Loaded(rows[..j])| of the arena part. */
  lemma {:induction false} LoadedAt(rows: seq<Row>, j: nat)
    requires j < |rows| && rows[j].Parsed?
    ensures |Loaded(rows[..j])| < |Loaded(rows)|
    ensures Loaded(rows)[|Loaded(rows[..j])|] == Fresh(rows[j])
  {
    var init := rows[..|rows| - 1];
    if j == |rows| - 1 {
      assert rows[..j] == init;
    } else {
      assert init[..j] == rows[..j];
      LoadedAt(init, j);
    }
  }

  /**
   * Every id in the table leads to an object of the load carrying that
   * id, and every scanned row's id is in the table.
   */
  lemma {:induction false} IdIndexSound(rows: seq<Row>, base: nat)
    ensures forall id :: id in IdIndex(rows, base) ==>
      base <= IdIndex(rows, base)[id] < base + |Loaded(rows)|
      && Loaded(rows)[IdIndex(rows, base)[id] - base].id == id
    ensures forall j :: 0 <= j < |rows| && rows[j].Parsed? ==> rows[j].id in IdIndex(rows, base)
  {
    if rows != [] {
      var init, last := rows[..|rows| - 1], rows[|rows| - 1];
      IdIndexSound(init, base);
      assert Loaded(rows)[..|Loaded(init)|] == Loaded(init);
      forall j | 0 <= j < |rows| && rows[j].Parsed? ensures rows[j].id in IdIndex(rows, base) {
        if j < |rows| - 1 {
          assert init[j] == rows[j];
        }
      }
    }
  }

  /**
   * Every name in the table leads to an object of the load carrying that
   * name, and every scanned row's name is in the table.
   */
  lemma {:induction false} NameIndexSound(rows: seq<Row>, base: nat)
    ensures forall n :: n in NameIndex(rows, base) ==>
      base <= NameIndex(rows, base)[n] < base + |Loaded(rows)|
      && Loaded(rows)[NameIndex(rows, base)[n] - base].name == n
    ensures forall j :: 0 <= j < |rows| && rows[j].Parsed? ==> rows[j].name in NameIndex(rows, base)
  {
    if rows != [] {
      var init, last := rows[..|rows| - 1], rows[|rows| - 1];
      NameIndexSound(init, base);
      assert Loaded(rows)[..|Loaded(init)|] == Loaded(init);
      forall j | 0 <= j < |rows| && rows[j].Parsed? ensures rows[j].name in NameIndex(rows, base) {
        if j < |rows| - 1 {
          assert init[j] == rows[j];
        }
      }
    }
  }

  /** A later scanned row with the same id overwrites: the id leads to the last such row's object. */
  lemma {:induction false} IdIndexLast(rows: seq<Row>, base: nat, j: nat)
    requires j < |rows| && rows[j].Parsed?
    requires forall k :: j < k < |rows| && rows[k].Parsed? ==> rows[k].id != rows[j].id
    ensures rows[j].id in IdIndex(rows, base)
    ensures IdIndex(rows, base)[rows[j].id] == base + |Loaded(rows[..j])|
  {
    var init := rows[..|rows| - 1];
    if j == |rows| - 1 {
      assert rows[..j] == init;
    } else {
      assert init[..j] == rows[..j];
      IdIndexLast(init, base, j);
    }
  }

  /** A later scanned row with the same name overwrites: the name leads to the last such row's object. */
  lemma {:induction false} NameIndexLast(rows: seq<Row>, base: nat, j: nat)
    requires j < |rows| && rows[j].Parsed?
    requires forall k :: j < k < |rows| && rows[k].Parsed? ==> rows[k].name != rows[j].name
    ensures rows[j].name in NameIndex(rows, base)
    ensures NameIndex(rows, base)[rows[j].name] == base + |Loaded(rows[..j])|
  {
    var init := rows[..|rows| - 1];
    if j == |rows| - 1 {
      assert rows[..j] == init;
    } else {
      assert init[..j] == rows[..j];
      NameIndexLast(init, base, j);
    }
  }

  /**
   * A scanned row that no later row overrides, by id nor by name, is
   * reachable through both tables, and both lead to the same fresh object
   * built from that row.
   */
  lemma SameObject(rows: seq<Row>, base: nat, j: nat)
    requires j < |rows| && rows[j].Parsed?
    requires forall k :: j < k < |rows| && rows[k].Parsed? ==> rows[k].id != rows[j].id
    requires forall k :: j < k < |rows| && rows[k].Parsed? ==> rows[k].name != rows[j].name
    ensures rows[j].id in IdIndex(rows, base) && rows[j].name in NameIndex(rows, base)
    ensures IdIndex(rows, base)[rows[j].id] == NameIndex(rows, base)[rows[j].name]
    ensures base <= IdIndex(rows, base)[rows[j].id] < base + |Loaded(rows)|
    ensures Loaded(rows)[IdIndex(rows, base)[rows[j].id] - base] == Fresh(rows[j])
  {
    IdIndexLast(rows, base, j);
    NameIndexLast(rows, base, j);
    LoadedAt(rows, j);
  }

  /** One more row: the load and both tables grow by that row alone. */
  lemma LoadStep(rows: seq<Row>, i: nat, base: nat)
    requires i < |rows|
    ensures Loaded(rows[..i + 1]) == Loaded(rows[..i]) + (if rows[i].Parsed? then [Fresh(rows[i])] else [])
    ensures IdIndex(rows[..i + 1], base)
         == if rows[i].Parsed? then IdIndex(rows[..i], base)[rows[i].id := base + |Loaded(rows[..i])|]
            else IdIndex(rows[..i], base)
    ensures NameIndex(rows[..i + 1], base)
         == if rows[i].Parsed? then NameIndex(rows[..i], base)[rows[i].name := base + |Loaded(rows[..i])|]
            else NameIndex(rows[..i], base)
  {
    assert rows[..i + 1][..i] == rows[..i] && rows[..i + 1][i] == rows[i];
  }

  /**
   * The tables of a load placed after `prefix` in the arena: every entry is
   * a live object filed under its own id or name.
   */
  lemma Installed(prefix: seq<SystemState>, rows: seq<Row>)
    ensures forall id :: id in IdIndex(rows, |prefix|) ==>
      IdIndex(rows, |prefix|)[id] < |prefix + Loaded(rows)|
      && (prefix + Loaded(rows))[IdIndex(rows, |prefix|)[id]].id == id
    ensures forall n :: n in NameIndex(rows, |prefix|) ==>
      NameIndex(rows, |prefix|)[n] < |prefix + Loaded(rows)|
      && (prefix + Loaded(rows))[NameIndex(rows, |prefix|)[n]].name == n
  {
    IdIndexSound(rows, |prefix|);
    NameIndexSound(rows, |prefix|);
  }
}
