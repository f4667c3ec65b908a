/**
 * `scanResults`: the snapshot of a target system taken when a scan hits
 * it, carried unchanged back to the scanning system.
 */
module Scanning {
  import opened Wrappers
  import opened StarSystem
  import opened Output

  /** The snapshot; the source's `miningRate` field is never filled in by a scan. */
  datatype ScanResult = ScanResult(life: bool, colonizedBy: Option<Conn>)

  /** `negative()`: neither life nor a colony was seen. */
  predicate Negative(r: ScanResult): (b: bool)
    ensures b <==> Summary(r) == "(none)" && r.colonizedBy.None?
  {
    !r.life && r.colonizedBy.None?
  }

  /** `String()`: mentions life only; a colonized system without life reads "(none)". */
  function Summary(r: ScanResult): (s: string)
    ensures r.life <==> s == "life detected"
    ensures !r.life <==> s == "(none)"
  {
    if r.life then "life detected" else "(none)"
  }

  /**
   * `write(w)`: the body lines of a scan reply, "life detected" first and
   * the colony owner second, each only when it was seen.
   */
  function ReplyBody(r: ScanResult): (ms: seq<Msg>)
    ensures ms == [] <==> Negative(r)
    ensures LifeDetected in ms <==> r.life
    ensures forall o :: ColonyOwnedBy(o) in ms <==> r.colonizedBy == Some(o)
    ensures 0 < |ms| && r.life ==> ms[0] == LifeDetected
    ensures 0 < |ms| && r.colonizedBy.Some? ==> ms[|ms| - 1] == ColonyOwnedBy(r.colonizedBy.value)
    ensures |ms| == (if r.life then 1 else 0) + (if r.colonizedBy.Some? then 1 else 0)
  {
    (if r.life then [LifeDetected] else [])
    + (match r.colonizedBy
       case None => []
       case Some(o) => [ColonyOwnedBy(o)])
  }

  /** The snapshot `scanSystem` takes of its target at the moment the scan arrives. */
  function Snapshot(s: SystemState): (r: ScanResult)
    ensures r.life <==> Present(s) != {}
    ensures r.colonizedBy == s.colonizedBy
    ensures Negative(r) <==> Present(s) == {} && s.colonizedBy.None?
  {
    ScanResult(NumInhabitants(s) > 0, s.colonizedBy)
  }
}
