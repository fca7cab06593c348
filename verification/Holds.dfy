/** The table of services held stopped, as hlb-state keeps it. */
module Holds {
  import opened Wrappers

  /** How a copy's hold begins. */
  const COPY_HOLD := "backup copy of "

  predicate IsCopy(why: string) {
    COPY_HOLD <= why
  }

  /** `count` is what to give back; `None` on a row older than the column. */
  datatype Hold = Hold(why: string, count: Option<nat>, node: Option<string>)

  type Table = map<string, Hold>

  /** A service, and the replicas its caller read. */
  type Counted = (string, nat)

  function Max(a: nat, b: nat): nat {
    if a > b then a else b
  }

  function Row(holds: Table, s: string): Option<Hold> {
    if s in holds then Some(holds[s]) else None
  }

  /** `hold_node`: where the volume written under `s` is, when its row says so. */
  function NodeOf(holds: Table, s: string): Option<string> {
    if s in holds then holds[s].node else None
  }

  /** A row recorded over another: no count gets smaller, and a node noted stays noted. */
  function Reheld(row: Option<Hold>, count: nat, why: string): (h: Hold)
    ensures h.why == why && h.node == (if row.Some? then row.value.node else None)
    ensures h.count.Some? && h.count.value >= count
    ensures row.Some? && row.value.count.Some? ==> h.count.value >= row.value.count.value
    ensures h.count == Some(count) || (row.Some? && h.count == row.value.count)
  {
    match row
    case None => Hold(why, Some(count), None)
    case Some(h) =>
      Hold(why, Some(Max(match h.count case None => 0 case Some(n) => n, count)), h.node)
  }

  /** One statement of `hold_services`. */
  function HoldRow(holds: Table, s: string, count: nat, why: string): Table {
    holds[s := Reheld(Row(holds, s), count, why)]
  }

  /** One statement of `set_hold_node`, which makes no row. */
  function NoteRow(holds: Table, s: string, node: string): Table {
    if s in holds then holds[s := holds[s].(node := Some(node))] else holds
  }

  function ReleaseRow(holds: Table, s: string): Table {
    holds - {s}
  }

  /** What `start` gives a service back: never less than its hold says, though its caller found
      the 0 of a dead process. */
  function GiveBack(seen: Option<Hold>, caller: nat): (n: nat)
    ensures n >= caller
    ensures seen.Some? && seen.value.count.Some? ==> n >= seen.value.count.value
    ensures n == caller || (seen.Some? && seen.value.count == Some(n))
  {
    match seen
    case Some(Hold(_, Some(count), _)) => Max(count, caller)
    case _ => caller
  }
}
