/**
 * The fm_ledger table: an append-only sequence of rows, and the quantities that the
 * rest of the program reads back from it.
 */
module Ledger {
  import opened Options

  type Rid = string
  type TradeId = string

  datatype Bucket = Intraday | Positional

  /** The `bucket` column: one bucket, or 'both'. */
  datatype Scope = One(bucket: Bucket) | Both

  datatype EntryType = INIT | RESERVE | RELEASE | COMMIT | RELEASE_USED | SYNC | RESET_PNL | TOP_UP

  /** `qty` is the "qty=" token of the reason text; `ts` counts seconds. */
  datatype Row = Row(
    entryType: EntryType, ts: int, amount: real, scope: Scope,
    before: real, after: real,
    signal: Option<string>, rid: Option<Rid>, trade: Option<TradeId>,
    qty: int, marginDelta: real, pnlDelta: real)

  type Log = seq<Row>

  const SECONDS_PER_DAY := 86400

  function Day(ts: int): int {
    ts / SECONDS_PER_DAY
  }

  function Last(log: Log): Row
    requires log != []
  {
    log[|log| - 1]
  }

  function Front(log: Log): Log
    requires log != []
  {
    log[..|log| - 1]
  }

  lemma Snoc(log: Log, row: Row)
    ensures Front(log + [row]) == log && Last(log + [row]) == row
  {
  }

  /** The rows of one reservation, in insertion order. */
  function Chain(log: Log, rid: Rid): Log {
    if log == [] then []
    else Chain(Front(log), rid) + (if Last(log).rid == Some(rid) then [Last(log)] else [])
  }

  /** Sum of margin_delta over the rows of one reservation. */
  function MarginOf(log: Log, rid: Rid): real {
    if log == [] then 0.0
    else MarginOf(Front(log), rid) + (if Last(log).rid == Some(rid) then Last(log).marginDelta else 0.0)
  }

  /** INIT amount, plus the profit and loss and the broker syncs since that INIT. */
  function TotalOf(log: Log): real {
    if log == [] then 0.0
    else
      var row := Last(log);
      match row.entryType
      case INIT => row.amount
      case RELEASE_USED => TotalOf(Front(log)) + row.pnlDelta
      case SYNC => TotalOf(Front(log)) + row.amount
      case _ => TotalOf(Front(log))
  }

  /** balance_after of the latest row of a bucket since the last INIT or SYNC. */
  function LatestBalance(log: Log, bucket: Bucket): Option<real> {
    if log == [] || Last(log).entryType in {INIT, SYNC} then None
    else if Last(log).scope == One(bucket) then Some(Last(log).after)
    else LatestBalance(Front(log), bucket)
  }

  /** get_daily_realized_net_pnl: sum of pnl_delta over the rows of one date. */
  function DailyPnl(log: Log, day: int): real {
    if log == [] then 0.0
    else DailyPnl(Front(log), day) + (if Day(Last(log).ts) == day then Last(log).pnlDelta else 0.0)
  }

  /** Every test in the source is `bucket == "intraday"`: anything else is positional. */
  function RowBucket(row: Row): Bucket {
    if row.scope == One(Intraday) then Intraday else Positional
  }

  /** The rehydrate carryover: RELEASE_USED pnl at or after a floor, of one bucket. */
  function CarryoverOf(log: Log, floor: int, bucket: Bucket): real {
    if log == [] then 0.0
    else CarryoverOf(Front(log), floor, bucket)
         + (if Last(log).entryType == RELEASE_USED && Last(log).ts >= floor && RowBucket(Last(log)) == bucket
            then Last(log).pnlDelta else 0.0)
  }

  /** today_realized_pnl_carryover: the same rows, both buckets together. */
  function Carryover(log: Log, floor: int): real {
    if log == [] then 0.0
    else Carryover(Front(log), floor)
         + (if Last(log).entryType == RELEASE_USED && Last(log).ts >= floor then Last(log).pnlDelta else 0.0)
  }

  lemma {:induction false} CarryoverSplits(log: Log, floor: int)
    ensures Carryover(log, floor) == CarryoverOf(log, floor, Intraday) + CarryoverOf(log, floor, Positional)
  {
    if log != [] {
      CarryoverSplits(Front(log), floor);
    }
  }

  /** The (margin, quantity) that get_entry_commit_margin sums over the COMMIT rows. */
  function CommitMargin(log: Log, rid: Rid): real {
    if log == [] then 0.0
    else CommitMargin(Front(log), rid)
         + (if IsCommitOf(Last(log), rid) then Last(log).amount else 0.0)
  }

  function CommitQty(log: Log, rid: Rid): int {
    if log == [] then 0
    else CommitQty(Front(log), rid)
         + (if IsCommitOf(Last(log), rid) then Last(log).qty else 0)
  }

  function CommitCount(log: Log, rid: Rid): nat {
    if log == [] then 0
    else CommitCount(Front(log), rid) + (if IsCommitOf(Last(log), rid) then 1 else 0)
  }

  predicate IsCommitOf(row: Row, rid: Rid) {
    row.entryType == COMMIT && row.rid == Some(rid)
  }

  /** The "qty=<digits>" token of every COMMIT row parses: no negative quantity was committed. */
  function CommitQtyParses(log: Log, rid: Rid): bool {
    log == [] || (CommitQtyParses(Front(log), rid) && (IsCommitOf(Last(log), rid) ==> Last(log).qty >= 0))
  }

  /** get_entry_commit_margin, with the trade's reservation already looked up. */
  function EntryCommitMargin(log: Log, rid: Option<Rid>): Option<(real, int)> {
    if rid.None? || CommitCount(log, rid.value) == 0 then None
    else if !CommitQtyParses(log, rid.value) || CommitQty(log, rid.value) <= 0 then None
    else Some((CommitMargin(log, rid.value), CommitQty(log, rid.value)))
  }

  /** get_reservation_id_for_signal: the LATEST reserve row of the signal. */
  function RidForSignal(log: Log, signal: string): Option<Rid> {
    if log == [] then None
    else if Last(log).entryType == RESERVE && Last(log).signal == Some(signal) && Last(log).rid.Some?
    then Last(log).rid
    else RidForSignal(Front(log), signal)
  }

  /** The earliest RESERVE row of a reservation. */
  function ReserveRow(log: Log, rid: Rid): Option<Row> {
    if log == [] then None
    else
      var earlier := ReserveRow(Front(log), rid);
      if earlier.Some? then earlier
      else if Last(log).entryType == RESERVE && Last(log).rid == Some(rid) then Some(Last(log)) else None
  }

  predicate Mentions(log: Log, rid: Rid) {
    exists i :: 0 <= i < |log| && log[i].rid == Some(rid)
  }

  /** An id that no row mentions contributes to none of the sums. */
  lemma {:induction false} Unmentioned(log: Log, rid: Rid)
    requires !Mentions(log, rid)
    ensures MarginOf(log, rid) == 0.0 && Chain(log, rid) == []
    ensures CommitCount(log, rid) == 0 && CommitMargin(log, rid) == 0.0 && CommitQty(log, rid) == 0
    ensures ReserveRow(log, rid) == None
  {
    if log != [] {
      forall i | 0 <= i < |Front(log)| ensures Front(log)[i].rid != Some(rid) {
        assert log[i].rid != Some(rid);
      }
      assert log[|log| - 1].rid != Some(rid);
      Unmentioned(Front(log), rid);
    }
  }
}
