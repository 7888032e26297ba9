/**
 * The store a backup is restored into: append-only logs, a durable copy that
 * lags them, and the decisions of the node around it.
 */
module Stores {
  import opened Bytes
  import opened Wrappers
  import opened Layout
  import opened Report

  /** A log record, as the bytes it encodes to. */
  type Record = seq<Byte>

  type Logs = map<LogId, seq<Record>>

  function LogOf(logs: Logs, log: LogId): seq<Record> {
    if log in logs then logs[log] else []
  }

  /** The highest sequence committed in a log; positions count from one. */
  function Tail(logs: Logs, log: LogId): nat {
    |LogOf(logs, log)|
  }

  function Append(logs: Logs, log: LogId, record: Record): Logs {
    logs[log := LogOf(logs, log) + [record]]
  }

  /**
   * What the code asks of parts this model does not hold: the running build,
   * the record codec, what a log position already held makes of a record sent
   * to it again, what the schema admits, which device syncs fail, and the key
   * order logs are listed in.
   */
  datatype Node = Node(
    running: Version,
    decode: seq<Byte> -> Option<Record>,
    repeats: (Logs, LogId, Record, Record) -> bool,
    admits: (Logs, LogId, Record) -> bool,
    syncFails: nat -> bool,
    list: Logs -> seq<LogId>)
  {
    /** A listing names every log held, once. */
    ghost predicate ListsLogs() {
      forall logs :: Enumerates(list(logs), logs)
    }

    /** Nothing but the backup itself can refuse: no sync fails and every next record is admitted. */
    ghost predicate Willing() {
      && (forall n :: !syncFails(n))
      && (forall logs, log, record :: admits(logs, log, record))
    }
  }

  ghost predicate Enumerates(ids: seq<LogId>, logs: Logs) {
    && (forall log :: log in ids <==> log in logs)
    && (forall i, j :: 0 <= i < j < |ids| ==> ids[i] != ids[j])
  }

  /** The listed logs of one home, in listing order. */
  function OfHome(ids: seq<LogId>, home: Reach): (r: seq<LogId>)
    ensures forall log :: log in r <==> log in ids && log.home == home
  {
    if ids == [] then []
    else
      var rest := OfHome(ids[1..], home);
      assert ids == [ids[0]] + ids[1..];
      if ids[0].home == home then [ids[0]] + rest else rest
  }

  /**
   * A store's whole state. `exposed` counts the records landed since the last
   * successful sync, `peak` the most it has ever been, `syncs` the syncs asked
   * for.
   */
  datatype Held = Held(logs: Logs, durable: Logs, exposed: nat, peak: nat, syncs: nat)

  /** Whether the store takes this record at this position, repeats included. */
  predicate Takes(node: Node, logs: Logs, log: LogId, at: nat, record: Record) {
    if at == 0 then true
    else if at <= Tail(logs, log) then node.repeats(logs, log, LogOf(logs, log)[at - 1], record)
    else at == Tail(logs, log) + 1 && node.admits(logs, log, record)
  }

  /** The store once it has taken the record: one position on, or unmoved by a repeat. */
  function Landed(held: Held, log: LogId, at: nat, record: Record): Held {
    if at <= Tail(held.logs, log) then held
    else held.(logs := Append(held.logs, log, record),
               exposed := held.exposed + 1,
               peak := Max(held.peak, held.exposed + 1))
  }

  function Synced(node: Node, held: Held): Held {
    if node.syncFails(held.syncs) then held.(syncs := held.syncs + 1)
    else held.(durable := held.logs, exposed := 0, syncs := held.syncs + 1)
  }

  class Store {
    const node: Node
    var logs: Logs
    var durable: Logs
    var exposed: nat
    var peak: nat
    var syncs: nat

    constructor (node: Node)
      ensures this.node == node && State() == Held(map[], map[], 0, 0, 0)
    {
      this.node := node;
      logs, durable := map[], map[];
      exposed, peak, syncs := 0, 0, 0;
    }

    function State(): Held
      reads this
    {
      Held(logs, durable, exposed, peak, syncs)
    }

    method CommittedTail(log: LogId) returns (tail: nat)
      ensures tail == Tail(logs, log)
    {
      tail := if log in logs then |logs[log]| else 0;
    }

    method List() returns (ids: seq<LogId>)
      ensures ids == node.list(logs)
    {
      ids := node.list(logs);
    }

    method ListHome(home: Reach) returns (ids: seq<LogId>)
      ensures ids == OfHome(node.list(logs), home)
    {
      ids := OfHome(node.list(logs), home);
    }

    /** Take one record into a named log, landed without a sync of its own. */
    method RestoreRecordIn(log: LogId, at: nat, record: Record) returns (taken: bool)
      modifies this
      ensures taken <==> Takes(node, old(logs), log, at, record)
      ensures State() == if taken then Landed(old(State()), log, at, record) else old(State())
    {
      var applied := CommittedTail(log);
      if at <= applied {
        taken := at == 0 || node.repeats(logs, log, logs[log][at - 1], record);
        return;
      }
      if at != applied + 1 || !node.admits(logs, log, record) {
        return false;
      }
      logs := logs[log := (if log in logs then logs[log] else []) + [record]];
      exposed := exposed + 1;
      peak := if peak < exposed then exposed else peak;
      taken := true;
    }

    /** Make everything landed durable, or say that it could not be. */
    method SyncLanded() returns (done: bool)
      modifies this
      ensures done <==> !node.syncFails(old(syncs))
      ensures State() == Synced(node, old(State()))
    {
      done := !node.syncFails(syncs);
      syncs := syncs + 1;
      if done {
        durable, exposed := logs, 0;
      }
    }
  }
}
