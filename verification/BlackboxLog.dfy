/** The image log: records, and what one call of log_cbk or log_pub does when nobody interferes. */
module BlackboxLog {
  import opened Common

  datatype Record = Record(
    seqNo: nat, headerStamp: uint64, tCapture: uint64, tCbk: uint64, tPub: uint64, capDone: bool, rosDone: bool)

  // Field stores of log_cbk and of log_pub.
  const FILL_STORES: nat := 7
  const PUB_STORES: nat := 2

  // What fallocate leaves in the file.
  const ZERO := Record(0, 0, 0, 0, 0, false, false)

  /** The shared counters and the mapped array. */
  datatype Log = Log(idx: nat, seqNo: nat, records: seq<Record>)

  function Filled(log: Log): (n: nat)
    ensures n <= |log.records| && n <= log.idx
  {
    if log.idx < |log.records| then log.idx else |log.records|
  }

  /** log_cbk: the record's slot, or None when the log is full. */
  function LogCbk(log: Log, header: uint64, capture: uint64, now: uint64): (Log, Option<nat>) {
    var i := log.idx;
    var log' := log.(idx := i + 1);
    if i < |log.records| then
      (log'.(seqNo := log.seqNo + 1,
             records := log.records[i := Record(log.seqNo + 1, header, capture, now, 0, true, false)]),
       Some(i))
    else (log', None)
  }

  function LogPub(log: Log, slot: Option<nat>, now: uint64): Log {
    if slot.Some? && slot.value < |log.records| then
      log.(records := log.records[slot.value := log.records[slot.value].(tPub := now, rosDone := true)])
    else log
  }
}
