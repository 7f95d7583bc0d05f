/**
 * A pandas DataFrame built from a list of decoded messages
 * (`pd.DataFrame(messages)`): one row per message, one column per key that
 * appears in any message.
 */
module Frames {
  import opened JsonDoc

  /** One decoded message, a JSON object. */
  type Record = map<string, Json>

  function Columns(rows: seq<Record>): set<string> {
    set i, k | 0 <= i < |rows| && k in rows[i] :: k
  }

  /** `df.empty`: no rows, or no columns. */
  predicate IsEmpty(rows: seq<Record>) {
    |rows| == 0 || Columns(rows) == {}
  }

  /**
   * `row.get(col, default)` on row `i`: the default only when the whole frame
   * lacks the column; a row that lacks a key the frame has reads as NaN (JNull).
   */
  function Cell(rows: seq<Record>, i: nat, col: string, default: Json): Json
    requires i < |rows|
  {
    if col in Columns(rows) then (if col in rows[i] then rows[i][col] else JNull) else default
  }

  /** A frame is empty exactly when it has no row or every message is `{}`. */
  lemma EmptyIffAllRecordsEmpty(rows: seq<Record>)
    ensures IsEmpty(rows) <==> (|rows| == 0 || forall i :: 0 <= i < |rows| ==> rows[i] == map[])
  {
    forall i, k | 0 <= i < |rows| && k in rows[i] ensures k in Columns(rows) { }
    forall i | 0 <= i < |rows| && rows[i].Keys == {} ensures rows[i] == map[] { }
  }
}
