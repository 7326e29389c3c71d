/** What a caller of the pack store sees: a table of objects by hash, a table of records, and an open batch. */
module Cas {
  import opened Basics

  datatype Db = Db(objs: map<Id, Bytes>, meta: map<Bytes, Bytes>)

  datatype Cas = Cas(committed: Db, pending: Option<Db>) {

    /** What the writer thread reads: its own batch if one is open. */
    function View(): Db {
      if pending.Some? then pending.value else committed
    }

    function Write(db: Db): Cas {
      if pending.Some? then Cas(committed, Some(db)) else Cas(db, None)
    }

    function Begin(): Cas {
      if pending.Some? then this else Cas(committed, Some(committed))
    }

    /** `put`: opens a batch if none is open; an id that is already there keeps its content. */
    function Put(h: Id, data: Bytes): Cas {
      var db := View();
      if h in db.objs then Begin() else Cas(committed, Some(db.(objs := db.objs[h := data])))
    }

    /** `meta_put` and `meta_del` join an open batch, and commit at once otherwise. */
    function MetaPut(key: Bytes, val: Bytes): Cas {
      Write(View().(meta := View().meta[key := val]))
    }

    function MetaDel(key: Bytes): Cas {
      Write(View().(meta := View().meta - {key}))
    }

    function Sync(): Cas {
      Cas(View(), None)
    }

    /** An abort, or the death of the process: the batch is gone. */
    function Drop(): Cas {
      Cas(committed, None)
    }

    /** `compact`: syncs, then keeps the objects `live` names. */
    function Compact(live: set<Id>): Cas {
      Cas(View().(objs := map h | h in View().objs && h in live :: View().objs[h]), None)
    }
  }

  /** What a writer can do to the store. A put that syncs by itself is a `Store` followed by a `Flush`. */
  datatype Op =
    | Open
    | Store(h: Id, data: Bytes)
    | SetRecord(key: Bytes, val: Bytes)
    | DelRecord(key: Bytes)
    | Flush
    | Collect(live: set<Id>)

  function Apply(c: Cas, op: Op): Cas {
    match op
    case Open => c.Begin()
    case Store(h, data) => c.Put(h, data)
    case SetRecord(key, val) => c.MetaPut(key, val)
    case DelRecord(key) => c.MetaDel(key)
    case Flush => c.Sync()
    case Collect(live) => c.Compact(live)
  }

  /** Some operation leads from one to the other, or nothing happens. */
  ghost predicate Leads(c: Cas, c': Cas) {
    c' == c || exists op :: c' == Apply(c, op)
  }

  /** Everything the CAS has been for one writer, from a time when nothing was pending. */
  ghost predicate IsHistory(log: seq<Cas>) {
    && log != [] && log[0].pending.None?
    && forall i :: 0 <= i < |log| - 1 ==> Leads(log[i], log[i + 1])
  }

  lemma HistoryNext(log: seq<Cas>, op: Op)
    requires IsHistory(log)
    ensures IsHistory(log + [Apply(log[|log| - 1], op)])
  {
    var log' := log + [Apply(log[|log| - 1], op)];
    forall i | 0 <= i < |log'| - 1 ensures Leads(log'[i], log'[i + 1]) {
      if i < |log| - 1 { assert log'[i] == log[i] && log'[i + 1] == log[i + 1]; }
    }
  }

  /** From `log0` on, the writer has seen nothing but `db`. */
  ghost predicate Now(log0: seq<Cas>, log: seq<Cas>, db: Db) {
    log0 <= log && |log0| < |log| && forall i :: |log0| <= i < |log| ==> log[i].View() == db
  }

  /**
   * Wherever the syncs fall, what is committed at a point is what was committed at an earlier one, or something the
   * writer saw since.
   */
  lemma {:induction false} CommittedSince(log: seq<Cas>, k: nat, n: nat)
    requires IsHistory(log) && k <= n < |log|
    ensures log[n].committed == log[k].committed || exists i :: k <= i <= n && log[n].committed == log[i].View()
    decreases n - k
  {
    if k < n {
      CommittedSince(log, k, n - 1);
      assert Leads(log[n - 1], log[n - 1 + 1]);
      if log[n].committed != log[n - 1].committed { assert log[n].committed == log[n].View(); }
    }
  }

  /** So a crash, at any point, leaves a state that the writer had seen; a property of every view is one of it. */
  lemma CrashLeavesAView(log: seq<Cas>, n: nat) returns (i: nat)
    requires IsHistory(log) && n < |log|
    ensures i <= n && log[n].Drop().View() == log[i].View()
  {
    CommittedSince(log, 0, n);
    if log[n].committed == log[0].committed { i := 0; } else { i :| i <= n && log[n].committed == log[i].View(); }
  }
}
