/** `ItemQueue`: a bounded queue between the archive reader and the ingest, and the two threads that use it. */
module Queue {
  import opened Basics
  import opened TarFold

  const MAX_ITEMS: nat := 512
  const MAX_BYTES: nat := 128 * 0x10_0000

  /** What the mutex protects. */
  datatype Shared = Shared(items: seq<TarItem>, bytes: nat, done: bool, closed: bool, err: Option<Error>)

  const Fresh := Shared([], 0, false, false, None)

  function Total(items: seq<TarItem>): nat {
    if items == [] then 0 else |items[0].data| + Total(items[1..])
  }

  lemma {:induction false} TotalAppend(items: seq<TarItem>, item: TarItem)
    ensures Total(items + [item]) == Total(items) + |item.data|
  {
    if items != [] {
      assert (items + [item])[1..] == items[1..] + [item];
      TotalAppend(items[1..], item);
    }
  }

  predicate Bounded(q: Shared) {
    && q.bytes == Total(q.items)
    && |q.items| <= MAX_ITEMS
    && (q.bytes <= MAX_BYTES || |q.items| == 1)
  }

  // ---------------------------------------------------------------- the queue

  /** The condition `push` waits for. */
  predicate CanPush(q: Shared, item: TarItem) {
    q.closed || q.items == [] || (|q.items| < MAX_ITEMS && q.bytes + |item.data| <= MAX_BYTES)
  }

  /** The condition `pop` waits for. */
  predicate CanPop(q: Shared) {
    q.items != [] || q.done
  }

  function Enqueued(q: Shared, item: TarItem): Shared {
    q.(items := q.items + [item], bytes := Total(q.items + [item]))
  }

  function Dequeued(q: Shared): Shared
    requires q.items != []
  {
    q.(items := q.items[1..], bytes := Total(q.items[1..]))
  }

  datatype PushResult = Pushed | Gone | PushBlocks

  datatype PopResult = Got(item: TarItem) | AtEnd | PopBlocks

  class ItemQueue {
    var items: seq<TarItem>
    var bytes: nat
    var done: bool
    var closed: bool
    var err: Option<Error>

    ghost function State(): Shared
      reads this
    {
      Shared(items, bytes, done, closed, err)
    }

    constructor ()
      ensures State() == Fresh
    {
      items, bytes, done, closed, err := [], 0, false, false, None;
    }

    /** One look at the condition under the lock, and what follows if it holds. */
    method Push(item: TarItem) returns (r: PushResult)
      requires Bounded(State())
      modifies this
      ensures Bounded(State())
      ensures r == if !CanPush(old(State()), item) then PushBlocks else if old(closed) then Gone else Pushed
      ensures State() == if r.Pushed? then Enqueued(old(State()), item) else old(State())
      ensures r.PushBlocks? <==>
                && !old(closed) && old(items) != []
                && (|old(items)| >= 512 || old(bytes) + |item.data| > 128 * 0x10_0000)
      ensures r.Pushed? ==> items == old(items) + [item] && bytes == old(bytes) + |item.data|
    {
      TotalAppend(items, item);
      if !(closed || items == [] || (|items| < MAX_ITEMS && bytes + |item.data| <= MAX_BYTES)) {
        return PushBlocks;
      }
      if closed {
        return Gone;
      }
      bytes := bytes + |item.data|;
      items := items + [item];
      r := Pushed;
    }

    method Close()
      modifies this
      ensures State() == old(State()).(closed := true)
    {
      closed := true;
    }

    method Pop() returns (r: PopResult)
      requires Bounded(State())
      modifies this
      ensures Bounded(State())
      ensures r == if !CanPop(old(State())) then PopBlocks else if old(items) == [] then AtEnd else Got(old(items)[0])
      ensures State() == if r.Got? then Dequeued(old(State())) else old(State())
      ensures r.PopBlocks? <==> old(items) == [] && !old(done)
      ensures r.Got? ==> old(items) == [r.item] + items && bytes == old(bytes) - |r.item.data|
    {
      if !(items != [] || done) {
        return PopBlocks;
      }
      if items == [] {
        return AtEnd;
      }
      var out := items[0];
      items := items[1..];
      bytes := bytes - |out.data|;
      r := Got(out);
    }

    method Finish(error: Option<Error>)
      modifies this
      ensures State() == old(State()).(done := true, err := error)
    {
      done := true;
      err := error;
    }
  }

  // ---------------------------------------------------------------- the two threads

  /** What the archive holds, and the error that ends it, if any. */
  datatype Archive = Archive(items: seq<TarItem>, error: Option<Error>)

  /** `Running` is between waits; `Failed` has caught "consumer gone". */
  datatype Producer = Running | Asleep | Failed | Ended

  /** `Awake` is about to look at the condition of `pop`. The rest of the ingest comes after `Over`. */
  datatype Consumer = Awake | Sleeping | Applying | Closing | Joining(failed: bool) | Over(failed: bool)

  datatype System = System(q: Shared, prod: Producer, pushed: nat, cons: Consumer, delivered: seq<TarItem>)

  const Start := System(Fresh, Running, 0, Awake, [])

  /** A turn of either thread, the consumer's applying succeeding or not; or a wake-up without a notification. */
  datatype Move = Produce | Consume(applied: bool) | WakeProducer | WakeConsumer

  /** `notify_all`: both threads use the one condition variable. */
  function Notified(s: System): System {
    s.(prod := if s.prod.Asleep? then Running else s.prod, cons := if s.cons.Sleeping? then Awake else s.cons)
  }

  function Produced(a: Archive, s: System): Option<System> {
    match s.prod
    case Running =>
      if s.pushed >= |a.items| then
        Some(Notified(s.(q := s.q.(done := true, err := a.error), prod := Ended)))
      else
        var item := a.items[s.pushed];
        if !CanPush(s.q, item) then Some(s.(prod := Asleep))
        else if s.q.closed then Some(s.(prod := Failed))
        else Some(Notified(s.(q := Enqueued(s.q, item), pushed := s.pushed + 1)))
    case Failed => Some(Notified(s.(q := s.q.(done := true, err := Some(ConsumerGone)), prod := Ended)))
    case Asleep => None
    case Ended => None
  }

  function Consumed(s: System, applied: bool): Option<System> {
    match s.cons
    case Awake =>
      if !CanPop(s.q) then Some(s.(cons := Sleeping))
      else if s.q.items == [] then Some(s.(cons := Joining(false)))
      else Some(Notified(s.(q := Dequeued(s.q), cons := Applying, delivered := s.delivered + [s.q.items[0]])))
    case Applying => Some(s.(cons := if applied then Awake else Closing))
    case Closing => Some(Notified(s.(q := s.q.(closed := true), cons := Joining(true))))
    case Joining(failed) => if s.prod.Ended? then Some(s.(cons := Over(failed))) else None
    case Sleeping => None
    case Over(_) => None
  }

  /** The next state, if the move is possible. */
  function Step(a: Archive, s: System, m: Move): Option<System> {
    match m
    case Produce => Produced(a, s)
    case Consume(applied) => Consumed(s, applied)
    case WakeProducer => if s.prod.Asleep? then Some(s.(prod := Running)) else None
    case WakeConsumer => if s.cons.Sleeping? then Some(s.(cons := Awake)) else None
  }

  ghost predicate IsRun(a: Archive, ss: seq<System>, ms: seq<Move>) {
    && |ss| == |ms| + 1 && ss[0] == Start
    && forall i :: 0 <= i < |ms| ==> Step(a, ss[i], ms[i]) == Some(ss[i + 1])
  }

  /**
   * Nothing is lost or reordered; the bounds hold; a thread asleep has nothing to wake up for, so no notification
   * was missed; and the flags say how far the threads are.
   */
  predicate Inv(a: Archive, s: System) {
    && s.pushed <= |a.items| && s.delivered + s.q.items == a.items[..s.pushed]
    && Bounded(s.q)
    && (s.prod.Asleep? ==> s.pushed < |a.items| && !CanPush(s.q, a.items[s.pushed]))
    && (s.cons.Sleeping? ==> !CanPop(s.q))
    && (s.q.done <==> s.prod.Ended?)
    && (s.q.closed <==> (s.cons.Joining? || s.cons.Over?) && s.cons.failed)
    && (s.prod.Failed? ==> s.q.closed)
    && ((s.cons.Joining? || s.cons.Over?) && !s.cons.failed ==> s.prod.Ended? && s.q.items == [])
    && (s.cons.Over? ==> s.prod.Ended?)
    && (s.prod.Ended? ==> (s.pushed == |a.items| && s.q.err == a.error) || (s.q.closed && s.q.err == Some(ConsumerGone)))
  }

  lemma ProducedKeeps(a: Archive, s: System)
    requires Inv(a, s) && Produced(a, s).Some?
    ensures Inv(a, Produced(a, s).value)
  {
    if s.prod.Running? && s.pushed < |a.items| {
      var item := a.items[s.pushed];
      TotalAppend(s.q.items, item);
      assert a.items[..s.pushed + 1] == a.items[..s.pushed] + [item];
      assert s.delivered + (s.q.items + [item]) == (s.delivered + s.q.items) + [item];
    }
  }

  lemma ConsumedKeeps(a: Archive, s: System, applied: bool)
    requires Inv(a, s) && Consumed(s, applied).Some?
    ensures Inv(a, Consumed(s, applied).value)
  {
    if s.cons.Awake? && s.q.items != [] {
      assert (s.delivered + [s.q.items[0]]) + s.q.items[1..] == s.delivered + s.q.items;
    }
  }

  lemma StepKeeps(a: Archive, s: System, m: Move)
    requires Inv(a, s) && Step(a, s, m).Some?
    ensures Inv(a, Step(a, s, m).value)
  {
    match m
    case Produce => ProducedKeeps(a, s);
    case Consume(applied) => ConsumedKeeps(a, s, applied);
    case WakeProducer =>
    case WakeConsumer =>
  }

  /** Safety over every run, of any archive, any scheduling, any outcome of applying, any spurious wake-ups. */
  lemma {:induction false} RunSafe(a: Archive, ss: seq<System>, ms: seq<Move>, n: nat)
    requires IsRun(a, ss, ms) && n < |ss|
    ensures Inv(a, ss[n])
  {
    if n == 0 {
      assert a.items[..0] == [];
    } else {
      RunSafe(a, ss, ms, n - 1);
      assert Step(a, ss[n - 1], ms[n - 1]) == Some(ss[n - 1 + 1]);
      StepKeeps(a, ss[n - 1], ms[n - 1]);
    }
  }

  // ---------------------------------------------------------------- progress

  predicate Finished(s: System) {
    s.prod.Ended? && s.cons.Over?
  }

  predicate Proper(m: Move) {
    m.Produce? || m.Consume?
  }

  /** No deadlock: unless both threads are finished, one of them can take a turn. */
  lemma NeverStuck(a: Archive, s: System)
    requires Inv(a, s)
    ensures Finished(s) <==> forall m :: Proper(m) ==> Step(a, s, m).None?
    ensures !(s.prod.Asleep? && s.cons.Sleeping?)
    ensures s.prod.Asleep? ==> Step(a, s, Consume(true)).Some?
    ensures s.cons.Sleeping? ==> Step(a, s, Produce).Some?
  {
    if forall m :: Proper(m) ==> Step(a, s, m).None? {
      assert Step(a, s, Produce).None? && Step(a, s, Consume(true)).None?;
    }
  }

  function ProducerLeft(p: Producer): nat {
    match p case Running => 2 case Asleep => 2 case Failed => 1 case Ended => 0
  }

  function ConsumerLeft(c: Consumer): nat {
    match c case Awake => 3 case Sleeping => 3 case Applying => 4 case Closing => 2 case Joining(_) => 1 case Over(_) => 0
  }

  /** What is left to do; a turn that only falls asleep uses up being awake. */
  function Left(a: Archive, s: System): nat
    requires s.pushed <= |a.items|
  {
    3 * (3 * (|a.items| - s.pushed) + 2 * |s.q.items| + ProducerLeft(s.prod) + ConsumerLeft(s.cons))
    + (if s.prod.Asleep? then 0 else 1) + (if s.cons.Sleeping? then 0 else 1)
  }

  lemma ProperDecreases(a: Archive, s: System, m: Move)
    requires Inv(a, s) && Step(a, s, m).Some? && Proper(m) && Step(a, s, m).value.pushed <= |a.items|
    ensures Left(a, Step(a, s, m).value) < Left(a, s)
  {
  }

  lemma StepDecreases(a: Archive, s: System, m: Move)
    requires Inv(a, s) && Step(a, s, m).Some?
    ensures Step(a, s, m).value.pushed <= |a.items|
    ensures if Proper(m) then Left(a, Step(a, s, m).value) < Left(a, s) else Left(a, Step(a, s, m).value) == Left(a, s) + 1
  {
    StepKeeps(a, s, m);
    if Proper(m) { ProperDecreases(a, s, m); }
  }

  function Spurious(ms: seq<Move>): nat {
    if ms == [] then 0 else Spurious(ms[..|ms| - 1]) + if Proper(ms[|ms| - 1]) then 0 else 1
  }

  /** Runs are finite: the turns of the two threads are bounded by the archive and the number of spurious wake-ups. */
  lemma {:induction false} RunBounded(a: Archive, ss: seq<System>, ms: seq<Move>)
    requires IsRun(a, ss, ms)
    ensures ss[|ms|].pushed <= |a.items|
    ensures |ms| + Left(a, ss[|ms|]) <= 9 * |a.items| + 17 + 2 * Spurious(ms)
  {
    RunSafe(a, ss, ms, |ms|);
    if ms != [] {
      var n := |ms| - 1;
      assert IsRun(a, ss[..|ms|], ms[..n]);
      RunBounded(a, ss[..|ms|], ms[..n]);
      RunSafe(a, ss, ms, n);
      assert Step(a, ss[n], ms[n]) == Some(ss[n + 1]);
      StepDecreases(a, ss[n], ms[n]);
    }
  }

  /**
   * How every run that cannot go on has ended. Both threads are through. If the consumer did not bail out, it was
   * given all items of the archive in order, and then the reader's error; if it did, a prefix of them.
   */
  lemma RunEnds(a: Archive, ss: seq<System>, ms: seq<Move>)
    requires IsRun(a, ss, ms)
    requires forall m :: Proper(m) ==> Step(a, ss[|ms|], m).None?
    ensures Finished(ss[|ms|])
    ensures var end := ss[|ms|];
            if end.cons.failed then end.delivered <= a.items else end.delivered == a.items && end.q.err == a.error
  {
    RunSafe(a, ss, ms, |ms|);
    NeverStuck(a, ss[|ms|]);
    var end := ss[|ms|];
    assert a.items[..|a.items|] == a.items;
    assert end.delivered <= a.items[..end.pushed];
  }
}
