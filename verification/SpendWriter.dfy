/**
 The asynchronous spend writer: a bounded channel filled by requests, a batch drained from it by one
 goroutine, and a final drain on shutdown. Each method is one step that other goroutines' steps can run
 between; how the database answers a batch is not modelled, since nothing depends on it.
 */
module Spend {
  import opened Options

  datatype Event = Event(tenant: string, agent: string, task: string, model: string, tokensIn: int, tokensOut: int,
                         costUSD: real, trace: string, decision: string, reason: string, createdAt: Option<real>)

  datatype Arg = Null | Text(s: string) | Number(n: int) | Money(usd: real) | Time(at: Option<real>)

  const COLS := 11

  function OrNull(s: string): Arg {
    if s != "" then Text(s) else Null
  }

  /** The value of one column of the insert, by its position in the column list. */
  function Column(e: Event, j: nat): Arg
    requires j < COLS
  {
    match j
    case 0 => Text(e.tenant)
    case 1 => OrNull(e.agent)
    case 2 => OrNull(e.task)
    case 3 => Text(e.model)
    case 4 => Number(e.tokensIn)
    case 5 => Number(e.tokensOut)
    case 6 => Money(e.costUSD)
    case 7 => Text(e.trace)
    case 8 => Text(e.decision)
    case 9 => Text(e.reason)
    case _ => Time(e.createdAt)
  }

  /** Placeholder j of row i is number 11i + j + 1 and names column j of event i. */
  ghost predicate Bound(batch: seq<Event>, values: seq<seq<nat>>, args: seq<Arg>) {
    && |values| == |batch| && |args| == COLS * |batch|
    && forall i :: 0 <= i < |batch| ==> BoundRow(batch[i], values[i], args, i)
  }

  ghost predicate BoundRow(e: Event, row: seq<nat>, args: seq<Arg>, i: nat) {
    && |row| == COLS && COLS * (i + 1) <= |args|
    && forall j :: 0 <= j < COLS ==> row[j] == COLS * i + j + 1 && args[row[j] - 1] == Column(e, j)
  }

  method WriteBatch(batch: seq<Event>) returns (values: seq<seq<nat>>, args: seq<Arg>)
    ensures Bound(batch, values, args)
  {
    values, args := [], [];
    for i := 0 to |batch|
      invariant |values| == i && |args| == COLS * i
      invariant forall k :: 0 <= k < i ==> BoundRow(batch[k], values[k], args, k)
    {
      var e, base := batch[i], i * COLS;
      var placeholders: seq<nat> := [];
      for j := 0 to COLS
        invariant |placeholders| == j && forall k :: 0 <= k < j ==> placeholders[k] == base + k + 1
      {
        placeholders := placeholders + [base + j + 1];
      }
      var row := RowArgs(e);
      RowBinds(e, placeholders, args, row, i);
      RowsStayBound(batch, values, args, row, i);
      values := values + [placeholders];
      args := args + row;
    }
  }

  /** The arguments of one row, in column order. */
  method RowArgs(e: Event) returns (row: seq<Arg>)
    ensures |row| == COLS && forall j :: 0 <= j < COLS ==> row[j] == Column(e, j)
  {
    var agentID, taskID := Null, Null;
    if e.agent != "" {
      agentID := Text(e.agent);
    }
    if e.task != "" {
      taskID := Text(e.task);
    }
    row := [Text(e.tenant), agentID, taskID, Text(e.model), Number(e.tokensIn), Number(e.tokensOut), Money(e.costUSD),
            Text(e.trace), Text(e.decision), Text(e.reason), Time(e.createdAt)];
  }

  lemma {:induction false} RowBinds(e: Event, placeholders: seq<nat>, args: seq<Arg>, row: seq<Arg>, i: nat)
    requires |args| == COLS * i && |placeholders| == COLS
    requires forall j :: 0 <= j < COLS ==> placeholders[j] == COLS * i + j + 1
    requires |row| == COLS && forall j :: 0 <= j < COLS ==> row[j] == Column(e, j)
    ensures BoundRow(e, placeholders, args + row, i)
  {
    forall j | 0 <= j < COLS ensures (args + row)[placeholders[j] - 1] == Column(e, j) {
      assert (args + row)[COLS * i + j] == row[j];
    }
  }

  lemma {:induction false} RowsStayBound(batch: seq<Event>, values: seq<seq<nat>>, args: seq<Arg>, more: seq<Arg>,
                                         n: nat)
    requires n <= |batch| && n <= |values| && forall k :: 0 <= k < n ==> BoundRow(batch[k], values[k], args, k)
    ensures forall k :: 0 <= k < n ==> BoundRow(batch[k], values[k], args + more, k)
  {
    forall k | 0 <= k < n ensures BoundRow(batch[k], values[k], args + more, k) {
      RowStaysBound(batch[k], values[k], args, more, k);
    }
  }

  lemma {:induction false} RowStaysBound(e: Event, values: seq<nat>, args: seq<Arg>, more: seq<Arg>, k: nat)
    requires BoundRow(e, values, args, k)
    ensures BoundRow(e, values, args + more, k)
  {
    forall j | 0 <= j < COLS ensures (args + more)[values[j] - 1] == Column(e, j) {
      assert args[values[j] - 1] == Column(e, j);
    }
  }

  /** What each column of a row gets, in the order of the statement's column list. */
  lemma {:induction false} ColumnsByName(batch: seq<Event>, values: seq<seq<nat>>, args: seq<Arg>, i: nat)
    requires Bound(batch, values, args) && i < |batch|
    ensures var e, base := batch[i], 11 * i;
            && |args| == 11 * |batch|
            && args[base] == Text(e.tenant)
            && args[base + 1] == (if e.agent == "" then Null else Text(e.agent))
            && args[base + 2] == (if e.task == "" then Null else Text(e.task))
            && args[base + 3] == Text(e.model)
            && args[base + 4] == Number(e.tokensIn)
            && args[base + 5] == Number(e.tokensOut)
            && args[base + 6] == Money(e.costUSD)
            && args[base + 7] == Text(e.trace)
            && args[base + 8] == Text(e.decision)
            && args[base + 9] == Text(e.reason)
            && args[base + 10] == Time(e.createdAt)
  {
    ColumnAt(batch, values, args, i, 0);
    ColumnAt(batch, values, args, i, 1);
    ColumnAt(batch, values, args, i, 2);
    ColumnAt(batch, values, args, i, 3);
    ColumnAt(batch, values, args, i, 4);
    ColumnAt(batch, values, args, i, 5);
    ColumnAt(batch, values, args, i, 6);
    ColumnAt(batch, values, args, i, 7);
    ColumnAt(batch, values, args, i, 8);
    ColumnAt(batch, values, args, i, 9);
    ColumnAt(batch, values, args, i, 10);
  }

  lemma {:induction false} ColumnAt(batch: seq<Event>, values: seq<seq<nat>>, args: seq<Arg>, i: nat, j: nat)
    requires Bound(batch, values, args) && i < |batch| && j < 11
    ensures 11 * i + j < |args| && args[11 * i + j] == Column(batch[i], j)
  {
    assert BoundRow(batch[i], values[i], args, i);
    assert values[i][j] == COLS * i + j + 1;
  }

  /** An event without a creation time gets the time it was offered; nothing else of it changes. */
  lemma {:induction false} StampedExactly(e: Event, now: real)
    ensures Stamped(e, now)
            == Event(e.tenant, e.agent, e.task, e.model, e.tokensIn, e.tokensOut, e.costUSD, e.trace, e.decision,
                     e.reason, if e.createdAt.Some? then e.createdAt else Some(now))
  {
  }

  /** Placeholders 1 to 11n appear once each, in order, when the rows are read one after another. */
  lemma {:induction false} NumberingIsExact(batch: seq<Event>, values: seq<seq<nat>>, args: seq<Arg>, n: nat)
    requires Bound(batch, values, args) && n <= |batch|
    ensures |Joined(values[..n])| == COLS * n
    ensures forall p :: 0 <= p < COLS * n ==> Joined(values[..n])[p] == p + 1
  {
    if n > 0 {
      NumberingIsExact(batch, values, args, n - 1);
      assert values[..n][..n - 1] == values[..n - 1];
      assert BoundRow(batch[n - 1], values[n - 1], args, n - 1);
    }
  }

  function Joined<T>(parts: seq<seq<T>>): seq<T> {
    if parts == [] then [] else Joined(parts[..|parts| - 1]) + parts[|parts| - 1]
  }

  lemma {:induction false} JoinedGrows<T>(parts: seq<seq<T>>, part: seq<T>)
    ensures Joined(parts + [part]) == Joined(parts) + part
  {
    assert (parts + [part])[..|parts + [part]| - 1] == parts;
  }

  /** One call of Enqueue: the event as stamped, and whether the channel had room for it. */
  datatype Entry = Entry(e: Event, kept: bool)

  function Offered(log: seq<Entry>): seq<Event> {
    if log == [] then [] else Offered(log[..|log| - 1]) + [log[|log| - 1].e]
  }

  function Accepted(log: seq<Entry>): seq<Event> {
    if log == [] then [] else Accepted(log[..|log| - 1]) + if log[|log| - 1].kept then [log[|log| - 1].e] else []
  }

  function Dropped(log: seq<Entry>): nat {
    if log == [] then 0 else Dropped(log[..|log| - 1]) + if log[|log| - 1].kept then 0 else 1
  }

  lemma {:induction false} LogGrows(log: seq<Entry>, x: Entry)
    ensures Offered(log + [x]) == Offered(log) + [x.e]
    ensures Accepted(log + [x]) == Accepted(log) + if x.kept then [x.e] else []
    ensures Dropped(log + [x]) == Dropped(log) + if x.kept then 0 else 1
  {
    assert (log + [x])[..|log + [x]| - 1] == log;
  }

  /** `a` is `b` with some elements left out, order kept. */
  ghost predicate Subsequence<T>(a: seq<T>, b: seq<T>) {
    if b == [] then a == []
    else
      || (a != [] && a[|a| - 1] == b[|b| - 1] && Subsequence(a[..|a| - 1], b[..|b| - 1]))
      || Subsequence(a, b[..|b| - 1])
  }

  /** Accepted plus dropped is offered, and acceptance keeps the order of the offers. */
  lemma {:induction false} EveryOfferIsAccounted(log: seq<Entry>)
    ensures |Accepted(log)| + Dropped(log) == |Offered(log)| == |log|
    ensures Subsequence(Accepted(log), Offered(log))
  {
    if log != [] {
      EveryOfferIsAccounted(log[..|log| - 1]);
      var a, b, x := Accepted(log[..|log| - 1]), Offered(log[..|log| - 1]), log[|log| - 1];
      SubsequenceGrows(a, b, x.e);
      assert a + [] == a;
    }
  }

  lemma {:induction false} SubsequenceGrows<T>(a: seq<T>, b: seq<T>, x: T)
    requires Subsequence(a, b)
    ensures Subsequence(a + [x], b + [x]) && Subsequence(a, b + [x])
  {
    assert (a + [x])[..|a + [x]| - 1] == a && (b + [x])[..|b + [x]| - 1] == b;
  }

  /** Taking one event from the channel into the batch keeps the order of everything. */
  lemma {:induction false} Moves(done: seq<Event>, batch: seq<Event>, ch: seq<Event>)
    requires ch != []
    ensures done + batch + ch == done + (batch + [ch[0]]) + ch[1..]
    ensures done + (batch + [ch[0]]) == done + batch + [ch[0]]
  {
    assert ch == [ch[0]] + ch[1..];
  }

  /** One offer of another goroutine, and when it was made. */
  datatype Arrival = Arrival(e: Event, now: real)

  datatype Turn = Offer(a: Arrival) | Take | Tick

  /** One INSERT: its rows of placeholders, and its arguments. */
  datatype Insert = Insert(values: seq<seq<nat>>, args: seq<Arg>)

  ghost predicate Recorded(written: seq<seq<Event>>, inserts: seq<Insert>) {
    && |written| == |inserts|
    && forall i :: 0 <= i < |written| ==> Bound(written[i], inserts[i].values, inserts[i].args)
  }

  class SpendWriter {
    const capacity: nat
    const batchSize: int
    var ch: seq<Event>
    var batch: seq<Event>
    var dropped: nat
    var stopped: bool
    ghost var log: seq<Entry>
    ghost var written: seq<seq<Event>>
    var inserts: seq<Insert>

    /** What has left the channel: the events handed over and those in the batch. */
    ghost function Taken(): seq<Event>
      reads this
    {
      Joined(written) + batch
    }

    /** Every accepted event is, in order, either handed over, in the batch, or still in the channel. */
    ghost predicate Kept()
      reads this
    {
      && Accepted(log) == Taken() + ch
      && Dropped(log) == dropped
      && |ch| <= capacity
      && Recorded(written, inserts)
    }

    /** Between turns the batch is moreover below its size. */
    ghost predicate Valid()
      reads this
    {
      && Kept()
      && (batch == [] || |batch| < batchSize)
      && (stopped ==> batch == [])
    }

    constructor (queueCapacity: nat, batchSize: int)
      ensures Valid() && capacity == queueCapacity && this.batchSize == batchSize
      ensures log == [] && written == [] && !stopped
    {
      capacity, this.batchSize := queueCapacity, batchSize;
      ch, batch, dropped, stopped := [], [], 0, false;
      log, written, inserts := [], [], [];
    }

    /** Never blocks: a full channel drops the new event. */
    method Enqueue(e: Event, now: real)
      requires Kept()
      modifies this`ch, this`dropped, this`log
      ensures Kept() && (old(Valid()) ==> Valid())
      ensures log == old(log) + [Entry(Stamped(e, now), |old(ch)| < capacity)]
      ensures ch == if |old(ch)| < capacity then old(ch) + [Stamped(e, now)] else old(ch)
    {
      var s := e;
      if s.createdAt.None? {
        s := s.(createdAt := Some(now));
      }
      LogGrows(log, Entry(s, |ch| < capacity));
      log := log + [Entry(s, |ch| < capacity)];
      if |ch| < capacity {
        ch := ch + [s];
      } else {
        dropped := dropped + 1;
      }
    }

    /** The statement that goes to the database is the one that binds the batch handed over. */
    method Flush()
      requires Recorded(written, inserts)
      modifies this`batch, this`written, this`inserts
      ensures batch == [] && Taken() == old(Taken()) == Joined(written)
      ensures written == if old(batch) == [] then old(written) else old(written) + [old(batch)]
      ensures Recorded(written, inserts) && old(inserts) <= inserts
    {
      if |batch| == 0 {
        NothingAfter(Joined(written), batch);
        return;
      }
      var values, args := WriteBatch(batch);
      JoinedGrows(written, batch);
      written, inserts := written + [batch], inserts + [Insert(values, args)];
      batch := [];
      NothingAfter(Joined(written), batch);
    }

    method FlushKept()
      requires Kept()
      modifies this`batch, this`written, this`inserts
      ensures Kept() && batch == [] && Joined(written) == old(Taken())
    {
      Flush();
    }

    /** Moves the oldest event of the channel to the batch. */
    method TakeOne()
      requires Kept() && ch != []
      modifies this`ch, this`batch
      ensures Kept() && ch == old(ch)[1..] && batch == old(batch) + [old(ch)[0]]
      ensures Taken() == old(Taken()) + [old(ch)[0]]
    {
      Moves(Joined(written), batch, ch);
      batch, ch := batch + [ch[0]], ch[1..];
    }

    /** The receive arm of the select. */
    method Receive()
      requires Valid() && !stopped && ch != []
      modifies this`ch, this`batch, this`written, this`inserts
      ensures Valid() && ch == old(ch)[1..] && Taken() == old(Taken()) + [old(ch)[0]]
      ensures if |old(batch)| + 1 >= batchSize then batch == [] && written == old(written) + [old(batch) + [old(ch)[0]]]
              else batch == old(batch) + [old(ch)[0]] && written == old(written)
    {
      TakeOne();
      if |batch| >= batchSize {
        Flush();
      }
    }

    /** The ticker arm of the select. */
    method Ticker()
      requires Valid() && !stopped
      modifies this`batch, this`written, this`inserts
      ensures Valid() && batch == [] && Joined(written) == old(Taken())
      ensures written == if old(batch) == [] then old(written) else old(written) + [old(batch)]
    {
      Flush();
    }

    /** Offers from other goroutines, one after another. */
    method EnqueueAll(offers: seq<Arrival>)
      requires Kept()
      modifies this`ch, this`dropped, this`log
      ensures Kept() && (offers == [] ==> ch == old(ch))
      ensures old(log) <= log && Offered(log[|old(log)|..]) == Stamps(offers)
    {
      ghost var n := |log|;
      for i := 0 to |offers|
        invariant Kept() && (i == 0 ==> ch == old(ch) && log == old(log))
        invariant old(log) <= log && Offered(log[n..]) == Stamps(offers[..i])
      {
        ghost var x := Entry(Stamped(offers[i].e, offers[i].now), |ch| < capacity);
        LogGrows(log[n..], x);
        assert (log + [x])[n..] == log[n..] + [x];
        assert offers[..i + 1][..i] == offers[..i];
        Enqueue(offers[i].e, offers[i].now);
      }
      assert offers[..|offers|] == offers;
    }

    /**
     Receive until the channel is found empty, while others keep offering: `arrivals[i]` come in before
     the i-th look at the channel. `looks` says how many of them the drain saw.
     */
    method DrainRemaining(arrivals: seq<seq<Arrival>>) returns (ghost looks: nat)
      requires Kept()
      modifies this`ch, this`batch, this`dropped, this`log
      ensures Kept() && ch == [] && old(batch) <= batch && Taken() == Accepted(log)
      ensures looks <= |arrivals| && Seen(old(log), log, arrivals, looks)
    {
      looks := 0;
      var i, empty := 0, false;
      while !empty
        invariant Kept() && old(batch) <= batch && (empty ==> ch == [])
        invariant looks == (if i < |arrivals| then i else |arrivals|) && Seen(old(log), log, arrivals, looks)
        decreases !empty, if i < |arrivals| then |arrivals| - i else 0, |ch|
      {
        if i < |arrivals| {
          Hear(arrivals, i, old(log));
          looks := i + 1;
        }
        i := i + 1;
        if |ch| > 0 {
          TakeOne();
        } else {
          empty := true;
        }
      }
      NothingAfter(Taken(), ch);
    }

    method Hear(arrivals: seq<seq<Arrival>>, i: nat, ghost base: seq<Entry>)
      requires Kept() && i < |arrivals| && Seen(base, log, arrivals, i)
      modifies this`ch, this`dropped, this`log
      ensures Kept() && Seen(base, log, arrivals, i + 1)
    {
      ghost var before := log;
      EnqueueAll(arrivals[i]);
      OffersJoin(before, log[|before|..], arrivals, i);
      PrefixAndRest(before, log);
    }

    /**
     The cancellation arm: drain, flush, return. Handed over is then everything accepted up to the
     drain's last look at the channel; only what was offered after it, `late`, can be left unwritten.
     */
    method Cancel(arrivals: seq<seq<Arrival>>, late: seq<Arrival>) returns (ghost looks: nat, ghost drained: seq<Entry>)
      requires Valid() && !stopped
      modifies this`ch, this`batch, this`written, this`inserts, this`stopped, this`dropped, this`log
      ensures Valid() && stopped && batch == [] && (late == [] ==> ch == [])
      ensures looks <= |arrivals| && drained <= log
      ensures Seen(old(log), drained, arrivals, looks) && Offered(log[|drained|..]) == Stamps(late)
      ensures Joined(written) == Accepted(drained)
    {
      looks := DrainRemaining(arrivals);
      drained := log;
      FlushAndReturn(late);
    }

    /** The last flush, with the offers that still come in before the writer returns. */
    method FlushAndReturn(late: seq<Arrival>)
      requires Kept() && ch == []
      modifies this`ch, this`batch, this`written, this`inserts, this`stopped, this`dropped, this`log
      ensures Valid() && stopped && batch == [] && (late == [] ==> ch == [])
      ensures old(log) <= log && Offered(log[|old(log)|..]) == Stamps(late)
      ensures Joined(written) == old(Taken())
    {
      EnqueueAll(late);
      FlushKept();
      stopped := true;
    }

    /** One offer of another goroutine, or one pass of the select. */
    method TakeTurn(turn: Turn)
      requires Valid() && !stopped
      modifies this`ch, this`batch, this`written, this`inserts, this`dropped, this`log
      ensures Valid()
      ensures Offered(log) == Offered(old(log)) + if turn.Offer? then [Stamped(turn.a.e, turn.a.now)] else []
    {
      match turn
      case Offer(a) =>
        LogGrows(log, Entry(Stamped(a.e, a.now), |ch| < capacity));
        Enqueue(a.e, a.now);
      case Take =>
        if |ch| > 0 {
          Receive();
        }
      case Tick =>
        Ticker();
    }

    /** The loop of the select, until it is cancelled. */
    method TakeTurns(turns: seq<Turn>)
      requires Valid() && !stopped
      modifies this`ch, this`batch, this`written, this`inserts, this`dropped, this`log
      ensures Valid() && Offered(log) == Offered(old(log)) + Offers(turns)
    {
      for i := 0 to |turns|
        invariant Valid() && !stopped
        invariant Offered(log) == Offered(old(log)) + Offers(turns[..i])
      {
        assert turns[..i + 1][..i] == turns[..i];
        TakeTurn(turns[i]);
      }
      assert turns[..|turns|] == turns;
    }

    /**
     Run against any schedule of offers from other goroutines, ready receives and ticks, ended by a
     cancellation that others keep offering through. What was accepted before the drain's last look at
     the channel, and nothing else, has been handed over, once each and in order; and if nobody offered
     after that look, both queues are empty.
     */
    method Run(turns: seq<Turn>, arrivals: seq<seq<Arrival>>, late: seq<Arrival>)
        returns (ghost looks: nat, ghost drained: seq<Entry>)
      requires Valid() && !stopped
      modifies this
      ensures Valid() && stopped && batch == [] && (late == [] ==> ch == [])
      ensures looks <= |arrivals| && drained <= log
      ensures Offered(drained) == Offered(old(log)) + Offers(turns) + Stamps(Joined(arrivals[..looks]))
      ensures Offered(log[|drained|..]) == Stamps(late)
      ensures Joined(written) == Accepted(drained) && Joined(written) + ch == Accepted(log)
      ensures |Offered(log)| == |Accepted(log)| + dropped && Subsequence(Accepted(log), Offered(log))
    {
      TakeTurns(turns);
      looks, drained := Cancel(arrivals, late);
      NothingAfter(Joined(written), batch);
      EveryOfferIsAccounted(log);
    }
  }

  lemma {:induction false} NothingAfter<T>(s: seq<T>, t: seq<T>)
    requires t == []
    ensures s + t == s
  {
  }

  lemma {:induction false} PrefixAndRest<T>(a: seq<T>, b: seq<T>)
    requires a <= b
    ensures a + b[|a|..] == b
  {
  }

  /** Since `base` the log has grown by exactly the first n rounds of arrivals. */
  ghost predicate Seen(base: seq<Entry>, log: seq<Entry>, arrivals: seq<seq<Arrival>>, n: nat)
    requires n <= |arrivals|
  {
    base <= log && Offered(log) == Offered(base) + Stamps(Joined(arrivals[..n]))
  }

  lemma {:induction false} OfferedConcat(a: seq<Entry>, b: seq<Entry>)
    ensures Offered(a + b) == Offered(a) + Offered(b)
  {
    if b == [] {
      assert a + b == a;
    } else {
      assert (a + b)[..|a + b| - 1] == a + b[..|b| - 1];
      OfferedConcat(a, b[..|b| - 1]);
    }
  }

  /** The events of some arrivals, as stamped. */
  function Stamps(offers: seq<Arrival>): seq<Event> {
    if offers == [] then []
    else
      var last := offers[|offers| - 1];
      Stamps(offers[..|offers| - 1]) + [Stamped(last.e, last.now)]
  }

  lemma {:induction false} StampsConcat(a: seq<Arrival>, b: seq<Arrival>)
    ensures Stamps(a + b) == Stamps(a) + Stamps(b)
  {
    if b == [] {
      assert a + b == a;
    } else {
      assert (a + b)[..|a + b| - 1] == a + b[..|b| - 1];
      StampsConcat(a, b[..|b| - 1]);
    }
  }

  /** One more round of arrivals lengthens what has been offered by exactly that round. */
  lemma {:induction false} OffersJoin(before: seq<Entry>, more: seq<Entry>, arrivals: seq<seq<Arrival>>, i: nat)
    requires i < |arrivals| && Offered(more) == Stamps(arrivals[i])
    ensures Offered(before + more) == Offered(before) + Stamps(arrivals[i])
    ensures Stamps(Joined(arrivals[..i + 1])) == Stamps(Joined(arrivals[..i])) + Stamps(arrivals[i])
  {
    OfferedConcat(before, more);
    assert arrivals[..i + 1][..i] == arrivals[..i];
    StampsConcat(Joined(arrivals[..i]), arrivals[i]);
  }

  function Stamped(e: Event, now: real): Event {
    if e.createdAt.None? then e.(createdAt := Some(now)) else e
  }

  function Offers(turns: seq<Turn>): seq<Event> {
    if turns == [] then []
    else
      var last := turns[|turns| - 1];
      Offers(turns[..|turns| - 1]) + if last.Offer? then [Stamped(last.a.e, last.a.now)] else []
  }
}
