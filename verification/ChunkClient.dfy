/**
  The browser half of the chunk protocol: uploadChunks of web/app.js. Event handlers run one at a time. A request
  that is open is a member of `live`, a pending retry timer of `timers`, and `acked` remembers which chunks got a
  2xx answer; the source keeps none of these three, only counters, and the invariant says what the counters mean.
 */
module ChunkClient {
  import opened Bytes

  datatype Client = Client(
    total: nat,
    count: nat,
    parallelism: nat,
    active: int,
    completed: nat,
    nextIndex: nat,
    settled: bool,
    retries: seq<nat>,
    live: multiset<nat>,
    timers: multiset<nat>,
    acked: set<nat>,
    posts: nat)

  /** Math.ceil(total / chunkSize). */
  function CeilDiv(total: nat, size: nat): nat
    requires size > 0
  {
    (total + size - 1) / size
  }

  // ---------------------------------------------------------------- handlers

  /** fail(): the open requests are told to abort, and each will still report back. */
  function Fail(c: Client): Client { c.(settled := true) }

  /** start(). */
  function Start(c: Client, i: nat, replacing: bool): Client {
    c.(active := if replacing then c.active else c.active + 1, live := c.live + multiset{i})
  }

  /** The loop of schedule(). */
  function Fill(c: Client): Client
    requires c.nextIndex <= c.count
    decreases c.count - c.nextIndex
  {
    if c.active < c.parallelism && c.nextIndex < c.count then
      Fill(Start(c, c.nextIndex, false).(nextIndex := c.nextIndex + 1))
    else c
  }

  /** schedule(), with finish() posting the completion request. */
  function Schedule(c: Client): Client
    requires c.nextIndex <= c.count
  {
    if c.settled then c
    else
      var d := Fill(c);
      if d.completed == d.count && d.active == 0 then d.(posts := d.posts + 1) else d
  }

  /** uploadChunks up to its first wait. `sane` is its check of the sizes it was given. */
  function Launch(total: nat, size: nat, parallelism: nat): Client
    requires size > 0
  {
    var count := CeilDiv(total, size);
    var c := Client(total, count, parallelism, 0, 0, 0, false, seq(count, _ => 0), multiset{}, multiset{}, {}, 0);
    if total == 0 || parallelism < 2 then Fail(c) else Schedule(c)
  }

  datatype Event =
    | Accepted(i: nat)                          // onload, 2xx
    | Refused(i: nat, backpressure: bool, cancelled: bool)   // onload, any other status
    | Broken(i: nat)                            // onerror
    | Aborted(i: nat)                           // onabort
    | TimerFired(i: nat, cancelled: bool)
    | CompletionAnswered(ok: bool)

  /** An event can only come from an open request, a pending timer or a completion request that was sent. */
  predicate CanHappen(c: Client, e: Event) {
    match e
    case Accepted(i) => i in c.live
    case Refused(i, _, _) => i in c.live
    case Broken(i) => i in c.live
    case Aborted(i) => i in c.live
    case TimerFired(i, _) => i in c.timers
    case CompletionAnswered(_) => c.posts > 0
  }

  function Max0(x: int): int { if x > 0 then x else 0 }

  /** The counters of a 2xx answer. */
  function Acknowledge(c: Client, i: nat): Client {
    c.(live := c.live - multiset{i}, active := c.active - 1, completed := c.completed + 1, acked := c.acked + {i})
  }

  function Handle(c: Client, e: Event): Client
    requires c.nextIndex <= c.count && CanHappen(c, e)
  {
    match e
    case Accepted(i) =>
      Schedule(Acknowledge(c, i))
    case Refused(i, backpressure, cancelled) =>
      if backpressure && !cancelled then
        c.(live := c.live - multiset{i}, timers := c.timers + multiset{i},
           retries := if i < |c.retries| then c.retries[i := c.retries[i] + 1] else c.retries)
      else Fail(c.(live := c.live - multiset{i}, active := c.active - 1))
    case Broken(i) => Fail(c.(live := c.live - multiset{i}, active := c.active - 1))
    case Aborted(i) => Fail(c.(live := c.live - multiset{i}, active := Max0(c.active - 1)))
    case TimerFired(i, cancelled) =>
      var d := c.(timers := c.timers - multiset{i});
      if c.settled then d
      else if cancelled then Fail(d.(active := Max0(d.active - 1)))
      else Start(d, i, true)
    case CompletionAnswered(ok) => c.(settled := true)
  }

  // ---------------------------------------------------------------- invariant

  /** 1 when chunk `i` was acknowledged. */
  function Acked(c: Client, i: nat): nat { if i in c.acked then 1 else 0 }

  /** Everything but the completion request: one request, timer or acknowledgement for each chunk started. */
  ghost predicate Counted(c: Client) {
    && c.nextIndex <= c.count && |c.retries| == c.count
    && (forall i: nat :: c.live[i] + c.timers[i] + Acked(c, i) <= if i < c.nextIndex then 1 else 0)
    && c.completed == |c.acked|
    && |c.live| + |c.timers| <= c.parallelism
    && (!c.settled ==>
          && c.active == |c.live| + |c.timers|
          && forall i: nat :: i < c.nextIndex ==> c.live[i] + c.timers[i] + Acked(c, i) == 1)
  }

  ghost predicate CInv(c: Client) {
    && Counted(c)
    && c.posts <= 1
    && (c.posts == 1 ==> c.count > 0 && c.completed == c.count)
    && (!c.settled ==>
          && c.count > 0 && c.parallelism > 0
          && (c.active == c.parallelism || c.nextIndex == c.count)
          && (c.posts == 1 <==> c.completed == c.count && c.active == 0))
  }

  lemma {:induction false} FillKeeps(c: Client)
    requires Counted(c) && !c.settled
    ensures Counted(Fill(c)) && !Fill(c).settled
    ensures Fill(c).active == c.parallelism || Fill(c).nextIndex == c.count || Fill(c).active > c.parallelism
    ensures Fill(c) == c.(active := Fill(c).active, nextIndex := Fill(c).nextIndex, live := Fill(c).live)
    ensures Fill(c).nextIndex > c.nextIndex ==> Fill(c).active > 0
    decreases c.count - c.nextIndex
  {
    if c.active < c.parallelism && c.nextIndex < c.count {
      StartKeeps(c);
      FillKeeps(Start(c, c.nextIndex, false).(nextIndex := c.nextIndex + 1));
    }
  }

  lemma StartKeeps(c: Client)
    requires Counted(c) && !c.settled && c.active < c.parallelism && c.nextIndex < c.count
    ensures Counted(Start(c, c.nextIndex, false).(nextIndex := c.nextIndex + 1))
  {
    var d := Start(c, c.nextIndex, false).(nextIndex := c.nextIndex + 1);
    assert d.live[c.nextIndex] == c.live[c.nextIndex] + 1;
  }

  lemma {:induction false} BelowCount(s: set<nat>, n: nat)
    requires forall i :: i in s ==> i < n
    ensures |s| <= n
    ensures |s| == n ==> forall i: nat :: i < n ==> i in s
  {
    if n == 0 {
      assert s == {};
    } else {
      BelowCount(s - {n - 1}, n - 1);
      if n - 1 !in s {
        assert s - {n - 1} == s;
      }
    }
  }

  lemma {:induction false} FullRange(s: set<nat>, n: nat)
    requires forall i :: i in s ==> i < n
    requires forall i: nat :: i < n ==> i in s
    ensures |s| == n
  {
    if n == 0 {
      assert s == {};
    } else {
      FullRange(s - {n - 1}, n - 1);
    }
  }

  lemma AckedBounds(c: Client)
    requires Counted(c)
    ensures forall i :: i in c.acked ==> i < c.nextIndex
    ensures c.completed <= c.nextIndex
    ensures c.completed == c.count ==> forall i: nat :: i < c.count ==> i in c.acked
    ensures !c.settled && c.active == 0 ==> c.completed == c.nextIndex
  {
    forall i | i in c.acked ensures i < c.nextIndex {
      assert Acked(c, i) == 1;
    }
    BelowCount(c.acked, c.nextIndex);
    if c.completed == c.count {
      BelowCount(c.acked, c.count);
    }
    if !c.settled && c.active == 0 {
      assert c.live == multiset{} && c.timers == multiset{};
      forall i: nat | i < c.nextIndex ensures i in c.acked {
        assert c.live[i] + c.timers[i] + Acked(c, i) == 1;
      }
      FullRange(c.acked, c.nextIndex);
    }
  }

  /** After any schedule() of a running upload nothing that could be started was left, and the post was made if due. */
  lemma ScheduleKeeps(c: Client)
    requires Counted(c) && !c.settled && c.count > 0 && c.parallelism > 0 && c.posts == 0
    ensures CInv(Schedule(c))
  {
    FillKeeps(c);
    AckedBounds(Fill(c));
  }

  lemma LaunchInv(total: nat, size: nat, parallelism: nat)
    requires size > 0
    ensures CInv(Launch(total, size, parallelism))
  {
    var count := CeilDiv(total, size);
    var c := Client(total, count, parallelism, 0, 0, 0, false, seq(count, _ => 0), multiset{}, multiset{}, {}, 0);
    assert forall i: nat :: c.live[i] == 0 && c.timers[i] == 0 && Acked(c, i) == 0;
    if total > 0 && parallelism >= 2 {
      CeilPositive(total, size);
      ScheduleKeeps(c);
    }
  }

  lemma CeilPositive(total: nat, size: nat)
    requires size > 0 && total > 0
    ensures CeilDiv(total, size) > 0
  {
    var q := (total + size - 1) / size;
    assert total + size - 1 == q * size + (total + size - 1) % size;
    assert q * size > 0;
  }

  lemma AcceptedKeeps(c: Client, i: nat)
    requires CInv(c) && i in c.live
    ensures CInv(Handle(c, Accepted(i)))
  {
    assert c.live[i] + c.timers[i] + Acked(c, i) <= if i < c.nextIndex then 1 else 0;
    var d := Acknowledge(c, i);
    forall j: nat ensures d.live[j] + d.timers[j] + Acked(d, j) == c.live[j] + c.timers[j] + Acked(c, j) {
    }
    AckedBounds(c);
    assert |d.live| == |c.live| - 1;
    if c.settled {
      AckedBounds(d);
    } else {
      ScheduleKeeps(d);
    }
  }

  /** Moving a chunk between the places where it can be outstanding, or taking it away once settled. */
  lemma MovedKeeps(c: Client, d: Client)
    requires CInv(c)
    requires d.nextIndex == c.nextIndex && d.count == c.count && d.parallelism == c.parallelism
    requires |d.retries| == |c.retries|
    requires d.completed == c.completed && d.acked == c.acked && d.posts == c.posts && (c.settled ==> d.settled)
    requires forall j: nat :: d.live[j] + d.timers[j] <= c.live[j] + c.timers[j]
    requires |d.live| + |d.timers| <= |c.live| + |c.timers|
    requires !d.settled ==> d.active == c.active && |d.live| + |d.timers| == |c.live| + |c.timers|
    requires !d.settled ==> forall j: nat :: d.live[j] + d.timers[j] == c.live[j] + c.timers[j]
    ensures CInv(d)
  {
    forall j: nat ensures d.live[j] + d.timers[j] + Acked(d, j) <= if j < d.nextIndex then 1 else 0 {
      assert c.live[j] + c.timers[j] + Acked(c, j) <= if j < c.nextIndex then 1 else 0;
    }
    forall j: nat | !d.settled && j < d.nextIndex ensures d.live[j] + d.timers[j] + Acked(d, j) == 1 {
      assert c.live[j] + c.timers[j] + Acked(c, j) == 1;
    }
  }

  lemma MoveOne(from: multiset<nat>, to: multiset<nat>, i: nat)
    requires i in from
    ensures |from - multiset{i}| == |from| - 1 && |to + multiset{i}| == |to| + 1
    ensures forall j: nat :: (from - multiset{i})[j] + (to + multiset{i})[j] == from[j] + to[j]
    ensures forall j: nat :: (from - multiset{i})[j] <= from[j]
  {
  }

  lemma RefusedKeeps(c: Client, i: nat, backpressure: bool, cancelled: bool)
    requires CInv(c) && i in c.live
    ensures CInv(Handle(c, Refused(i, backpressure, cancelled)))
  {
    MoveOne(c.live, c.timers, i);
    MovedKeeps(c, Handle(c, Refused(i, backpressure, cancelled)));
  }

  lemma TimerKeeps(c: Client, i: nat, cancelled: bool)
    requires CInv(c) && i in c.timers
    ensures CInv(Handle(c, TimerFired(i, cancelled)))
  {
    MoveOne(c.timers, c.live, i);
    MovedKeeps(c, Handle(c, TimerFired(i, cancelled)));
  }

  lemma LostKeeps(c: Client, i: nat)
    requires CInv(c) && i in c.live
    ensures CInv(Handle(c, Broken(i))) && CInv(Handle(c, Aborted(i)))
  {
    MoveOne(c.live, c.timers, i);
    MovedKeeps(c, Handle(c, Broken(i)));
    MovedKeeps(c, Handle(c, Aborted(i)));
  }

  lemma HandleKeeps(c: Client, e: Event)
    requires CInv(c) && CanHappen(c, e)
    ensures CInv(Handle(c, e))
  {
    match e
    case Accepted(i) => AcceptedKeeps(c, i);
    case Refused(i, backpressure, cancelled) => RefusedKeeps(c, i, backpressure, cancelled);
    case Broken(i) => LostKeeps(c, i);
    case Aborted(i) => LostKeeps(c, i);
    case TimerFired(i, cancelled) => TimerKeeps(c, i, cancelled);
    case CompletionAnswered(_) => MovedKeeps(c, Handle(c, e));
  }

  // ---------------------------------------------------------------- runs

  ghost predicate ClientRun(c: Client, events: seq<Event>, c': Client) {
    if events == [] then c' == c
    else exists mid :: ClientRun(c, events[..|events| - 1], mid) && mid.nextIndex <= mid.count &&
                       CanHappen(mid, events[|events| - 1]) && c' == Handle(mid, events[|events| - 1])
  }

  lemma {:induction false} ClientRunKeeps(c: Client, events: seq<Event>, c': Client)
    requires CInv(c) && ClientRun(c, events, c')
    ensures CInv(c')
  {
    if events != [] {
      var mid :| ClientRun(c, events[..|events| - 1], mid) && mid.nextIndex <= mid.count &&
                 CanHappen(mid, events[|events| - 1]) && c' == Handle(mid, events[|events| - 1]);
      ClientRunKeeps(c, events[..|events| - 1], mid);
      HandleKeeps(mid, events[|events| - 1]);
    }
  }

  /**
    In every run: at most `parallelism` chunks are outstanding, each chunk has at most one open request or pending
    timer, the completion request is sent at most once and only when every chunk was acknowledged, and a client
    that has neither settled nor posted still has something outstanding.
   */
  lemma ClientSafety(total: nat, size: nat, parallelism: nat, events: seq<Event>, c: Client)
    requires size > 0 && ClientRun(Launch(total, size, parallelism), events, c)
    ensures |c.live| + |c.timers| <= c.parallelism
    ensures forall i: nat :: c.live[i] + c.timers[i] <= 1 && (i in c.acked ==> c.live[i] + c.timers[i] == 0)
    ensures c.posts <= 1
    ensures c.posts == 1 ==> forall i: nat :: i < c.count ==> i in c.acked
    ensures !c.settled && c.posts == 0 ==> |c.live| + |c.timers| > 0
  {
    LaunchInv(total, size, parallelism);
    ClientRunKeeps(Launch(total, size, parallelism), events, c);
    AckedBounds(c);
    forall i: nat ensures c.live[i] + c.timers[i] <= 1 && (i in c.acked ==> c.live[i] + c.timers[i] == 0) {
      assert c.live[i] + c.timers[i] + Acked(c, i) <= if i < c.nextIndex then 1 else 0;
    }
  }

  // ---------------------------------------------------------------- refusals for want of a slot

  /** The event of a request that goes out again: the server had no slot, and nobody cancelled. */
  predicate Retries(e: Event) { e.Refused? && e.backpressure && !e.cancelled }

  /** The events after which no upload goes on. */
  predicate Ends(e: Event) {
    match e
    case Accepted(_) => false
    case Refused(_, backpressure, cancelled) => !backpressure || cancelled
    case Broken(_) => true
    case Aborted(_) => true
    case TimerFired(_, cancelled) => cancelled
    case CompletionAnswered(_) => true
  }

  lemma RefusalWaits(c: Client, i: nat)
    requires CInv(c) && !c.settled && i in c.live
    ensures i < |c.retries|
    ensures
      var d := Handle(c, Refused(i, true, false));
      && !d.settled && d.live[i] == 0 && d.timers[i] == 1
      && (forall j: nat :: j != i ==> d.live[j] == c.live[j] && d.timers[j] == c.timers[j])
      && d == c.(live := d.live, timers := d.timers, retries := c.retries[i := c.retries[i] + 1])
  {
    assert c.live[i] + c.timers[i] + Acked(c, i) <= if i < c.nextIndex then 1 else 0;
  }

  /** The timer of a refused chunk undoes the refusal. */
  lemma TimerSendsAgain(c: Client, i: nat)
    requires i in c.live && !c.settled && c.nextIndex <= c.count
    ensures
      var d := Handle(c, Refused(i, true, false));
      && CanHappen(d, TimerFired(i, false)) && d.nextIndex <= d.count
      && Handle(d, TimerFired(i, false)) == c.(retries := d.retries)
  {
    assert c.live - multiset{i} + multiset{i} == c.live && c.timers + multiset{i} - multiset{i} == c.timers;
  }

  /**
    A refusal for want of a slot does not end the upload: the chunk stays outstanding, as a timer, every other chunk
    and every counter is as it was, and one more retry of this chunk is counted. When the timer fires, exactly that
    chunk is requested again, and the client is where it was before the refusal.
   */
  lemma RefusalIsRetried(c: Client, i: nat)
    requires CInv(c) && !c.settled && i in c.live
    ensures i < |c.retries|
    ensures
      var d := Handle(c, Refused(i, true, false));
      && !d.settled && d.live[i] == 0 && d.timers[i] == 1
      && (forall j: nat :: j != i ==> d.live[j] == c.live[j] && d.timers[j] == c.timers[j])
      && d == c.(live := d.live, timers := d.timers, retries := c.retries[i := c.retries[i] + 1])
      && d.nextIndex <= d.count && CanHappen(d, TimerFired(i, false))
      && Handle(d, TimerFired(i, false)) == c.(retries := d.retries)
  {
    RefusalWaits(c, i);
    TimerSendsAgain(c, i);
  }

  lemma EndsSettles(c: Client, e: Event)
    requires CInv(c) && CanHappen(c, e)
    ensures Handle(c, e).settled <==> c.settled || Ends(e)
  {
    if e.Accepted? && !c.settled {
      AcceptedKeepsRunning(c, e.i);
    }
  }

  lemma AcceptedKeepsRunning(c: Client, i: nat)
    requires CInv(c) && !c.settled && i in c.live
    ensures !Handle(c, Accepted(i)).settled
  {
    AcceptedCounts(c, i);
    FillKeeps(Acknowledge(c, i));
  }

  lemma AcceptedCounts(c: Client, i: nat)
    requires CInv(c) && !c.settled && i in c.live
    ensures Counted(Acknowledge(c, i)) && !Acknowledge(c, i).settled
  {
    assert c.live[i] + c.timers[i] + Acked(c, i) <= if i < c.nextIndex then 1 else 0;
    var d := Acknowledge(c, i);
    forall j: nat ensures d.live[j] + d.timers[j] + Acked(d, j) == c.live[j] + c.timers[j] + Acked(c, j) {
    }
  }

  /** The state before the last event of a run. */
  lemma BeforeLast(c: Client, events: seq<Event>, c': Client) returns (mid: Client)
    requires events != [] && ClientRun(c, events, c')
    ensures ClientRun(c, events[..|events| - 1], mid) && mid.nextIndex <= mid.count
    ensures CanHappen(mid, events[|events| - 1]) && c' == Handle(mid, events[|events| - 1])
  {
    mid :| ClientRun(c, events[..|events| - 1], mid) && mid.nextIndex <= mid.count &&
           CanHappen(mid, events[|events| - 1]) && c' == Handle(mid, events[|events| - 1]);
  }

  predicate Ended(events: seq<Event>) { exists k :: 0 <= k < |events| && Ends(events[k]) }

  lemma EndedSnoc(events: seq<Event>)
    requires events != []
    ensures Ended(events) <==> Ended(events[..|events| - 1]) || Ends(events[|events| - 1])
  {
    var init := events[..|events| - 1];
    assert forall k :: 0 <= k < |init| ==> init[k] == events[k];
  }

  lemma {:induction false} EndedExactly(c: Client, events: seq<Event>, c': Client)
    requires CInv(c) && ClientRun(c, events, c')
    ensures c'.settled <==> c.settled || Ended(events)
  {
    if events != [] {
      var mid := BeforeLast(c, events, c');
      EndedExactly(c, events[..|events| - 1], mid);
      ClientRunKeeps(c, events[..|events| - 1], mid);
      EndsSettles(mid, events[|events| - 1]);
      EndedSnoc(events);
    }
  }

  /**
    Over every run: a client that was launched has given up or come to its end if and only if its numbers made no
    sense, or one of the events was a refusal other than for want of a slot, a cancelled refusal or timer, a request
    that broke or was aborted, or the answer to the completion request.
   */
  lemma SettledExactly(total: nat, size: nat, parallelism: nat, events: seq<Event>, c: Client)
    requires size > 0 && ClientRun(Launch(total, size, parallelism), events, c)
    ensures c.settled <==> total == 0 || parallelism < 2 || Ended(events)
  {
    LaunchInv(total, size, parallelism);
    EndedExactly(Launch(total, size, parallelism), events, c);
    LaunchSettles(total, size, parallelism);
  }

  lemma LaunchSettles(total: nat, size: nat, parallelism: nat)
    requires size > 0
    ensures Launch(total, size, parallelism).settled <==> total == 0 || parallelism < 2
  {
    var count := CeilDiv(total, size);
    var c := Client(total, count, parallelism, 0, 0, 0, false, seq(count, _ => 0), multiset{}, multiset{}, {}, 0);
    assert forall i: nat :: c.live[i] == 0 && c.timers[i] == 0 && Acked(c, i) == 0;
    FillKeeps(c);
  }

  /** How often chunk `i` was refused for want of a slot. */
  function RefusalsOf(events: seq<Event>, i: nat): nat {
    if events == [] then 0
    else
      var last := events[|events| - 1];
      RefusalsOf(events[..|events| - 1], i) + if Retries(last) && last.i == i then 1 else 0
  }

  lemma HandleCountsRetries(c: Client, e: Event, i: nat)
    requires CInv(c) && CanHappen(c, e) && i < c.count
    ensures |Handle(c, e).retries| == c.count == Handle(c, e).count
    ensures Handle(c, e).retries[i] == c.retries[i] + if Retries(e) && e.i == i then 1 else 0
  {
    HandleKeeps(c, e);
    if e.Accepted? {
      ScheduleLeavesRetries(Acknowledge(c, e.i));
    }
  }

  lemma ScheduleLeavesRetries(c: Client)
    requires c.nextIndex <= c.count
    ensures Schedule(c).retries == c.retries && Schedule(c).count == c.count
  {
    FillLeavesRetries(c);
  }

  lemma {:induction false} FillLeavesRetries(c: Client)
    requires c.nextIndex <= c.count
    ensures Fill(c).retries == c.retries && Fill(c).count == c.count
    decreases c.count - c.nextIndex
  {
    if c.active < c.parallelism && c.nextIndex < c.count {
      FillLeavesRetries(Start(c, c.nextIndex, false).(nextIndex := c.nextIndex + 1));
    }
  }

  lemma {:induction false} RunCountsRetries(c: Client, events: seq<Event>, d: Client, i: nat)
    requires CInv(c) && ClientRun(c, events, d) && i < c.count
    ensures |d.retries| == d.count == c.count && d.retries[i] == c.retries[i] + RefusalsOf(events, i)
  {
    if events != [] {
      var mid := BeforeLast(c, events, d);
      ClientRunKeeps(c, events[..|events| - 1], mid);
      RunCountsRetries(c, events[..|events| - 1], mid, i);
      HandleCountsRetries(mid, events[|events| - 1], i);
    }
  }

  /** Over every run the retries of a chunk, which set its delay, count its own refusals for want of a slot. */
  lemma RetriesAreRefusals(total: nat, size: nat, parallelism: nat, events: seq<Event>, c: Client, i: nat)
    requires size > 0 && ClientRun(Launch(total, size, parallelism), events, c) && i < CeilDiv(total, size)
    ensures i < |c.retries| && c.retries[i] == RefusalsOf(events, i)
  {
    LaunchInv(total, size, parallelism);
    LaunchRetries(total, size, parallelism);
    RunCountsRetries(Launch(total, size, parallelism), events, c, i);
  }

  lemma LaunchRetries(total: nat, size: nat, parallelism: nat)
    requires size > 0
    ensures
      var c := Launch(total, size, parallelism);
      c.count == |c.retries| == CeilDiv(total, size) && forall i :: 0 <= i < |c.retries| ==> c.retries[i] == 0
  {
    var count := CeilDiv(total, size);
    var c := Client(total, count, parallelism, 0, 0, 0, false, seq(count, _ => 0), multiset{}, multiset{}, {}, 0);
    ScheduleLeavesRetries(c);
  }

  // ---------------------------------------------------------------- every chunk is acknowledged in the end

  /** Two events for each chunk that was not acknowledged, unless it is under way again. */
  function ToGo(c: Client): nat {
    2 * (if c.completed <= c.count then c.count - c.completed else 0) + |c.timers|
  }

  function Refusals(events: seq<Event>): nat {
    if events == [] then 0
    else Refusals(events[..|events| - 1]) + if Retries(events[|events| - 1]) then 1 else 0
  }

  lemma AcceptedLowers(c: Client, i: nat)
    requires CInv(c) && !c.settled && i in c.live
    ensures ToGo(Handle(c, Accepted(i))) + 2 == ToGo(c)
  {
    AcceptedCounts(c, i);
    AckedBounds(Acknowledge(c, i));
    FillKeeps(Acknowledge(c, i));
  }

  lemma EventLowers(c: Client, e: Event)
    requires CInv(c) && !c.settled && CanHappen(c, e) && !Ends(e)
    ensures ToGo(Handle(c, e)) < ToGo(c) || (Retries(e) && ToGo(Handle(c, e)) == ToGo(c) + 1)
  {
    match e
    case Accepted(i) => AcceptedLowers(c, i);
    case Refused(i, _, _) => MoveOne(c.live, c.timers, i);
    case TimerFired(i, _) => MoveOne(c.timers, c.live, i);
  }

  /**
    However often chunks are refused for want of a slot, and at whatever moments, a run that nothing ends has at most
    twice as many further events as it has refusals, beyond what there was to go.
   */
  lemma {:induction false} RefusalsOnlyDelay(c: Client, events: seq<Event>, d: Client)
    requires CInv(c) && !c.settled && ClientRun(c, events, d) && !Ended(events)
    ensures CInv(d) && !d.settled && |events| + ToGo(d) <= ToGo(c) + 2 * Refusals(events)
  {
    ClientRunKeeps(c, events, d);
    EndedExactly(c, events, d);
    if events != [] {
      var mid := BeforeLast(c, events, d);
      EndedSnoc(events);
      RefusalsOnlyDelay(c, events[..|events| - 1], mid);
      EventLowers(mid, events[|events| - 1]);
    }
  }

  /** Until the completion request is sent, something outstanding can be accepted or sent again. */
  lemma SomethingCanHappen(c: Client) returns (e: Event)
    requires CInv(c) && !c.settled && c.posts == 0
    ensures CanHappen(c, e) && !Ends(e) && !Retries(e)
  {
    AckedBounds(c);
    if c.timers != multiset{} {
      var i :| i in c.timers;
      e := TimerFired(i, false);
    } else {
      assert |c.live| > 0;
      var i :| i in c.live;
      e := Accepted(i);
    }
  }

  lemma RunOfOne(c: Client, e: Event)
    requires c.nextIndex <= c.count && CanHappen(c, e)
    ensures ClientRun(c, [e], Handle(c, e))
  {
    assert [e][..0] == [] && ClientRun(c, [], c);
    assert ClientRun(c, [e][..|[e]| - 1], c);
  }

  lemma RunSnocs(c: Client, init: seq<Event>, mid: Client, e: Event)
    requires ClientRun(c, init, mid) && mid.nextIndex <= mid.count && CanHappen(mid, e)
    ensures ClientRun(c, init + [e], Handle(mid, e))
  {
    assert (init + [e])[..|init + [e]| - 1] == init;
  }

  lemma LastOfCons(e: Event, events: seq<Event>)
    requires events != []
    ensures [e] + events[..|events| - 1] + [events[|events| - 1]] == [e] + events
  {
    assert events == events[..|events| - 1] + [events[|events| - 1]];
  }

  lemma {:induction false} ClientRunCons(c: Client, e: Event, next: Client, events: seq<Event>, d: Client)
    requires ClientRun(c, [e], next) && ClientRun(next, events, d)
    ensures ClientRun(c, [e] + events, d)
    decreases |events|
  {
    if events == [] {
      assert [e] + events == [e];
    } else {
      var mid := BeforeLast(next, events, d);
      ClientRunCons(c, e, next, events[..|events| - 1], mid);
      RunSnocs(c, [e] + events[..|events| - 1], mid, events[|events| - 1]);
      LastOfCons(e, events);
    }
  }

  /**
    From every client that has not settled, wherever refusals have left it, the upload can come to its completion
    request, in no more events than there are to go.
   */
  lemma {:induction false} CompletionIsReached(c: Client) returns (events: seq<Event>, d: Client)
    requires CInv(c) && !c.settled
    ensures ClientRun(c, events, d) && !Ended(events) && Refusals(events) == 0 && |events| <= ToGo(c)
    ensures CInv(d) && !d.settled && d.posts == 1
    decreases ToGo(c)
  {
    if c.posts == 1 {
      events, d := [], c;
    } else {
      var e := SomethingCanHappen(c);
      HandleKeeps(c, e);
      EndsSettles(c, e);
      EventLowers(c, e);
      var more;
      more, d := CompletionIsReached(Handle(c, e));
      RunOfOne(c, e);
      ClientRunCons(c, e, Handle(c, e), more, d);
      events := [e] + more;
      NotEndedCons(e, more);
    }
  }

  lemma {:induction false} NotEndedCons(e: Event, more: seq<Event>)
    requires !Ends(e) && !Ended(more) && !Retries(e) && Refusals(more) == 0
    ensures !Ended([e] + more) && Refusals([e] + more) == 0
    decreases |more|
  {
    var all := [e] + more;
    EndedSnoc(all);
    if more == [] {
      assert all[..0] == [];
    } else {
      var init := more[..|more| - 1];
      EndedSnoc(more);
      NotEndedCons(e, init);
      assert all[..|all| - 1] == [e] + init;
    }
  }

  // ---------------------------------------------------------------- the closure variables, in place

  /** Math.min(500, 40 * Math.pow(2, retries)). */
  function RetryDelay(retries: nat): (ms: nat)
    ensures 40 <= ms <= 500
  {
    if retries == 0 then 40
    else
      var before := RetryDelay(retries - 1);
      if 2 * before < 500 then 2 * before else 500
  }

  function PowerOf2(n: nat): nat { if n == 0 then 1 else 2 * PowerOf2(n - 1) }

  /** The delay doubles with every retry of the chunk, from 40 milliseconds up to half a second. */
  lemma {:induction false} RetryDelayIs(retries: nat)
    ensures RetryDelay(retries) == if 40 * PowerOf2(retries) < 500 then 40 * PowerOf2(retries) else 500
  {
    if retries > 0 { RetryDelayIs(retries - 1); }
  }

  /** The variables of uploadChunks, and as ghosts the requests and timers the browser holds for it. */
  class ChunkUpload {
    const total: nat
    const count: nat
    const parallelism: nat
    var active: int
    var completed: nat
    var nextIndex: nat
    var settled: bool
    var retries: seq<nat>
    ghost var live: multiset<nat>
    ghost var timers: multiset<nat>
    ghost var acked: set<nat>
    ghost var posts: nat

    ghost function View(): Client
      reads this
    {
      Client(total, count, parallelism, active, completed, nextIndex, settled, retries, live, timers, acked, posts)
    }

    constructor (total: nat, size: nat, parallelism: nat)
      requires size > 0
      ensures View() == Launch(total, size, parallelism) && CInv(View())
    {
      this.total, this.count, this.parallelism := total, CeilDiv(total, size), parallelism;
      active, completed, nextIndex, settled := 0, 0, 0, false;
      retries := seq(CeilDiv(total, size), _ => 0);
      live, timers, acked, posts := multiset{}, multiset{}, {}, 0;
      new;
      LaunchInv(total, size, parallelism);
      if total == 0 || parallelism < 2 {
        Abandon();
      } else {
        RunSchedule();
      }
    }

    /** fail(). */
    method Abandon()
      modifies `settled
      ensures View() == Fail(old(View()))
    {
      settled := true;
    }

    /** start(). */
    method StartRequest(i: nat, replacing: bool)
      modifies `active, `live
      ensures View() == Start(old(View()), i, replacing)
    {
      if !replacing { active := active + 1; }
      live := live + multiset{i};
    }

    /** schedule(): requests are opened while there is room, and the completion request follows the last answer. */
    method RunSchedule()
      requires nextIndex <= count
      modifies `active, `nextIndex, `live, `posts
      ensures View() == Schedule(old(View()))
    {
      if settled { return; }
      while active < parallelism && nextIndex < count
        invariant nextIndex <= count && !settled
        invariant Fill(View()) == Fill(old(View()))
        decreases count - nextIndex
      {
        StartRequest(nextIndex, false);
        nextIndex := nextIndex + 1;
      }
      if completed == count && active == 0 {
        posts := posts + 1;
      }
    }

    method CountAnswer(i: nat)
      modifies `live, `active, `completed, `acked
      ensures View() == Acknowledge(old(View()), i)
    {
      live := live - multiset{i};
      active := active - 1;
      completed := completed + 1;
      acked := acked + {i};
    }

    method OnAccepted(i: nat)
      requires CInv(View()) && i in live
      modifies this
      ensures View() == Handle(old(View()), Accepted(i)) && CInv(View())
    {
      ghost var d := Handle(View(), Accepted(i));
      HandleKeeps(View(), Accepted(i));
      CountAnswer(i);
      RunSchedule();
      assert View() == d;
    }

    method OnRefused(i: nat, backpressure: bool, cancelled: bool) returns (delay: nat)
      requires CInv(View()) && i in live
      modifies this
      ensures View() == Handle(old(View()), Refused(i, backpressure, cancelled)) && CInv(View())
      ensures delay == if backpressure && !cancelled && i < |old(retries)| then RetryDelay(old(retries)[i]) else 0
      ensures backpressure && !cancelled ==>
                && settled == old(settled) && active == old(active) && completed == old(completed)
                && live == old(live) - multiset{i} && timers == old(timers) + multiset{i}
      ensures !(backpressure && !cancelled) ==> settled
    {
      ghost var d := Handle(View(), Refused(i, backpressure, cancelled));
      HandleKeeps(View(), Refused(i, backpressure, cancelled));
      if backpressure && !cancelled {
        delay := CountRetry(i);
        TradeForTimer(i);
      } else {
        delay := 0;
        GiveUp(i);
      }
      assert View() == d;
    }

    /** The other branch: the request is gone, and the upload with it. */
    method GiveUp(i: nat)
      modifies `live, `active, `settled
      ensures View() == Fail(old(View()).(live := old(live) - multiset{i}, active := old(active) - 1))
    {
      live := live - multiset{i};
      active := active - 1;
      Abandon();
    }

    /** The delay, and one more retry counted. */
    method CountRetry(i: nat) returns (delay: nat)
      modifies `retries
      ensures retries == if i < |old(retries)| then old(retries)[i := old(retries)[i] + 1] else old(retries)
      ensures delay == if i < |old(retries)| then RetryDelay(old(retries)[i]) else 0
    {
      delay := 0;
      if i < |retries| {
        delay := RetryDelay(retries[i]);
        retries := retries[i := retries[i] + 1];
      }
    }

    /** The request is gone, and a timer takes its place. */
    ghost method TradeForTimer(i: nat)
      modifies `live, `timers
      ensures live == old(live) - multiset{i} && timers == old(timers) + multiset{i}
    {
      live := live - multiset{i};
      timers := timers + multiset{i};
    }

    method OnTimer(i: nat, cancelled: bool)
      requires CInv(View()) && i in timers
      modifies this
      ensures View() == Handle(old(View()), TimerFired(i, cancelled)) && CInv(View())
    {
      HandleKeeps(View(), TimerFired(i, cancelled));
      timers := timers - multiset{i};
      if settled { return; }
      if cancelled {
        active := Max0(active - 1);
        Abandon();
      } else {
        StartRequest(i, true);
      }
    }

    /** onerror, and onabort, which never lets the counter go below zero. */
    method OnLost(i: nat, aborted: bool)
      requires CInv(View()) && i in live
      modifies this
      ensures View() == Handle(old(View()), if aborted then Aborted(i) else Broken(i)) && CInv(View())
    {
      HandleKeeps(View(), if aborted then Aborted(i) else Broken(i));
      live := live - multiset{i};
      active := if aborted then Max0(active - 1) else active - 1;
      Abandon();
    }
  }
}
