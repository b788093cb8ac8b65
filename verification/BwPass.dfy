/**
 * The bandwidth pass itself: the nested post / fence / poll / account loops, running
 * against a device that may complete, order and batch records as it likes. Every method
 * follows the steps of `Pipeline`, so its invariant holds along the whole loop.
 */
module BwPass {
  import opened Sums
  import opened Arithmetic
  import opened Assignment
  import opened Pipeline
  import opened Progress
  import opened Stalls

  const POLL_BATCH: nat := 16

  datatype Completion = Completion(status: int, ctx: nat)
  {
    predicate IsSuccess() { status == 0 }
  }

  datatype Outcome =
    | Done(ops: nat)
    | EmptyList
    | PostFailed
    | PollFailed
    | PollTimeout
    | BadCompletion(status: int, ctx: nat)

  /**
   * What the pass may count on: nothing, or a device that accepts what is posted, fails no
   * request, and hands out a record at every poll while one is to come.
   */
  datatype Device = Any | Prompt

  /** The completion queue that passes share, with the ops of the passes finished on it. */
  class Queue {
    ghost var log: seq<nat>

    constructor ()
      ensures log == []
    {
      log := [];
    }
  }

  /** Posting `k` ops one after the other. */
  function PostedOps(c: Config, s: State, k: nat): (s': State)
    requires Shaped(c, s)
    ensures Shaped(c, s') && s'.next == s.next + k && s'.doneTotal == s.doneTotal && s'.fenced == s.fenced
  {
    if k == 0 then s else PostedOp(c, PostedOps(c, s, k - 1))
  }

  /** The requests of `k` consecutive ops. */
  function ChunkRequests(c: Config, start: nat, k: nat): (r: seq<Request>)
    ensures |r| == k
  {
    seq(k, (i: nat) => OpRequest(c, start + i))
  }

  lemma ChunkExtend(c: Config, start: nat, k: nat)
    ensures ChunkRequests(c, start, k) + [OpRequest(c, start + k)] == ChunkRequests(c, start, k + 1)
  {
  }

  /** Op-by-op posting inside one post-list window is one list of requests on one jetty. */
  lemma {:induction false} ChunkIsOneList(c: Config, s: State, k: nat)
    requires Shaped(c, s) && s.next % c.list + k <= c.list
    ensures var j := OpJetty(s.next, c.n, c.list);
            PostedOps(c, s, k) == s.(next := s.next + k,
                                     posted := s.posted[j := s.posted[j] + k],
                                     lanes := s.lanes[j := s.lanes[j].(queue := s.lanes[j].queue + ChunkRequests(c, s.next, k))])
  {
    var j := OpJetty(s.next, c.n, c.list);
    if k == 0 {
      assert s.lanes[j].queue + ChunkRequests(c, s.next, 0) == s.lanes[j].queue;
    } else {
      ChunkIsOneList(c, s, k - 1);
      ChunkStaysOnJetty(s.next, k - 1, c.n, c.list);
      var q := s.lanes[j].queue;
      assert q + ChunkRequests(c, s.next, k)
          == q + ChunkRequests(c, s.next, k - 1) + [OpRequest(c, s.next + k - 1)];
    }
  }

  /** A chunk that respects stop test and pipeline room keeps the invariant. */
  lemma {:induction false} PostedOpsInv(c: Config, stop: Stop, s: State, k: nat)
    requires c.Valid() && Inv(c, stop, s)
    requires s.next + k - s.doneTotal <= c.depth && s.next + k <= FENCE_CTX_MIN
    requires k > 0 ==> if stop.Ops? then s.next + k <= stop.ops else !s.expired
    ensures Inv(c, stop, PostedOps(c, s, k))
    ensures PostedOps(c, s, k).expired == s.expired
  {
    if k > 0 {
      PostedOpsInv(c, stop, s, k - 1);
      PostOpInv(c, stop, PostedOps(c, s, k - 1));
    }
  }

  /** Such a chunk never comes to a position whose tails fill the pipeline. */
  lemma {:induction false} PostedOpsClear(c: Config, stop: Stop, s: State, k: nat)
    requires c.Valid() && Shaped(c, s) && Inv(c, stop, s) && Clear(c, s)
    requires s.next + k - s.doneTotal <= c.depth && s.next + k <= FENCE_CTX_MIN
    requires k > 0 ==> if stop.Ops? then s.next + k <= stop.ops else !s.expired
    ensures Clear(c, PostedOps(c, s, k))
  {
    hide Inv, Clear, PostedOp, OpJetty, OpRank;
    if k > 0 {
      PostedOpsClear(c, stop, s, k - 1);
      PostedOpsInv(c, stop, s, k - 1);
      PostOpClear(c, stop, PostedOps(c, s, k - 1));
    }
  }

  lemma PostedOpWork(c: Config, stop: Stop, s: State, posts: int)
    requires c.Valid() && Inv(c, stop, s)
    ensures Work(posts, PostedOp(c, s)) == Work(posts, s) + 1
  {
    EnqueueOutstanding(c, stop, s, OpJetty(s.next, c.n, c.list), OpRequest(c, s.next));
  }

  /** A chunk adds one outstanding request per op. */
  lemma {:induction false} PostedOpsWork(c: Config, stop: Stop, s: State, k: nat, posts: int)
    requires c.Valid() && Shaped(c, s)
    requires forall i: nat :: i < k ==> Inv(c, stop, PostedOps(c, s, i))
    ensures Work(posts, PostedOps(c, s, k)) == Work(posts, s) + k
  {
    hide Inv, Work, PostedOp;
    if k > 0 {
      PostedOpsWork(c, stop, s, k - 1, posts);
      PostedOpWork(c, stop, PostedOps(c, s, k - 1), posts);
    }
  }

  /** The deadline may pass between two readings without hurting the invariant. */
  lemma ExpiredInv(c: Config, stop: Stop, s: State, e: bool)
    requires c.Valid() && Inv(c, stop, s) && (s.expired ==> e)
    ensures Inv(c, stop, s.(expired := e))
    ensures forall posts :: Work(posts, s.(expired := e)) == Work(posts, s)
  {
  }

  /** The state after appending one chunk to its lane. */
  function ChunkPosted(c: Config, s: State, k: nat, e: bool): (s': State)
    requires Shaped(c, s)
  {
    var j := OpJetty(s.next, c.n, c.list);
    s.(next := s.next + k,
       posted := s.posted[j := s.posted[j] + k],
       lanes := s.lanes[j := s.lanes[j].(queue := s.lanes[j].queue + ChunkRequests(c, s.next, k))],
       expired := e)
  }

  lemma ChunkIsPosted(c: Config, s: State, k: nat, e: bool)
    requires Shaped(c, s) && s.next % c.list + k <= c.list
    ensures ChunkPosted(c, s, k, e) == PostedOps(c, s, k).(expired := e)
  {
    hide OpJetty, PostedOps, ChunkRequests;
    ChunkIsOneList(c, s, k);
  }

  lemma ChunkPostedInv(c: Config, stop: Stop, s: State, k: nat, e: bool, posts: int)
    requires c.Valid() && Shaped(c, s) && Inv(c, stop, s) && s.next % c.list + k <= c.list && (s.expired ==> e)
    requires s.next + k - s.doneTotal <= c.depth && s.next + k <= FENCE_CTX_MIN
    requires k > 0 ==> if stop.Ops? then s.next + k <= stop.ops else !s.expired
    ensures ChunkPosted(c, s, k, e) == PostedOps(c, s, k).(expired := e)
    ensures Inv(c, stop, ChunkPosted(c, s, k, e))
    ensures Work(posts, ChunkPosted(c, s, k, e)) == Work(posts, s) + k
  {
    ChunkIsPosted(c, s, k, e);
    hide Inv, Work, PostedOps, ChunkPosted;
    forall i: nat | i <= k ensures Inv(c, stop, PostedOps(c, s, i)) && PostedOps(c, s, i).expired == s.expired {
      PostedOpsInv(c, stop, s, i);
    }
    PostedOpsWork(c, stop, s, k, posts);
    ExpiredInv(c, stop, PostedOps(c, s, k), e);
  }

  lemma ChunkPostedClear(c: Config, stop: Stop, s: State, k: nat, e: bool)
    requires c.Valid() && Shaped(c, s) && Inv(c, stop, s) && Clear(c, s)
    requires s.next + k - s.doneTotal <= c.depth && s.next + k <= FENCE_CTX_MIN
    requires k > 0 ==> if stop.Ops? then s.next + k <= stop.ops else !s.expired
    ensures Shaped(c, ChunkPosted(c, s, k, e)) && Clear(c, ChunkPosted(c, s, k, e))
  {
    hide Inv, Clear, OpJetty, PostedOps, ChunkRequests;
    PostedOpsClear(c, stop, s, k);
    SameClear(c, PostedOps(c, s, k), ChunkPosted(c, s, k, e));
  }

  /** Stop-test readings that can still come out negative, as ops still to be posted. */
  function PostsLeft(stop: Stop, next: nat, ticks: nat): (k: int)
  {
    match stop
    case Ops(ops) => ops - next
    case Until => if next == 0 then ticks + 1 else ticks
  }

  /** Length of a chunk: what is left of the post-list window, of the pipeline, of the posts. */
  function ChunkLength(rem: int, room: int, posts: int): (k: int)
  {
    Min(rem, Min(room, posts))
  }

  /** Record `at` of the device's lanes is handed out. */
  ghost predicate Delivery(lanes: seq<Lane>, at: (nat, nat), ctx: nat, lanes': seq<Lane>)
  {
    && at.0 < |lanes| && Deliverable(lanes[at.0], at.1)
    && ctx == lanes[at.0].queue[at.1].ctx
    && lanes' == lanes[at.0 := lanes[at.0].(polled := at.1 + 1)]
  }

  /** The first record that is no success has this status and user_ctx. */
  predicate FirstFailure(crs: seq<Completion>, status: int, ctx: nat)
  {
    exists i :: 0 <= i < |crs| && !crs[i].IsSuccess() && crs[i] == Completion(status, ctx)
      && forall k :: 0 <= k < i ==> crs[k].IsSuccess()
  }

  class Pass {
    const c: Config
    const stop: Stop
    const dev: Device
    const queue: Queue
    var next: nat
    var posted: seq<nat>
    var done: seq<nat>
    var doneTotal: nat
    var fenced: seq<bool>
    /** the device's view of this pass */
    var lanes: seq<Lane>
    /** deadline clock: readings of the stop test that still lie before the deadline */
    var ticks: nat
    /** some reading of the stop test has seen the deadline */
    ghost var expired: bool

    ghost function View(): (s: State)
      reads this
    {
      State(next, posted, done, doneTotal, fenced, lanes, expired)
    }

    ghost predicate Valid()
      reads this
    {
      && c.Valid()
      && Inv(c, stop, View()) && Clear(c, View())
      && (expired ==> ticks == 0 && next > 0)
      && next + PostsLeft(stop, next, ticks) <= FENCE_CTX_MIN
    }

    /** Termination measure of the pass. */
    ghost function WorkRemaining(): (w: int)
      reads this
    {
      Work(PostsLeft(stop, next, ticks), View())
    }

    /** A pass may start once the previous one left no record behind. */
    constructor (c: Config, stop: Stop, ticks: nat, dev: Device, queue: Queue, before: seq<Lane>)
      requires c.Valid() && Drained(before)
      requires PostsLeft(stop, 0, ticks) <= FENCE_CTX_MIN
      ensures this.c == c && this.stop == stop && this.ticks == ticks && this.dev == dev && this.queue == queue
      ensures Valid() && View() == Init(c)
      ensures next == 0 && doneTotal == 0 && !expired
    {
      this.c, this.stop, this.ticks, this.dev, this.queue := c, stop, ticks, dev, queue;
      next, doneTotal := 0, 0;
      posted, done := seq(c.n, _ => 0), seq(c.n, _ => 0);
      fenced := seq(c.n, _ => false);
      lanes := seq(c.n, _ => Lane([], {}, 0));
      expired := false;
      new;
      InitInv(c, stop);
    }

    /** One reading of the stop test; the deadline arm reads the clock only after a first post. */
    method StopTest() returns (b: bool)
      requires expired ==> ticks == 0 && next > 0
      modifies this`ticks, this`expired
      ensures expired ==> ticks == 0 && next > 0
      ensures b == StopPosting(stop, View())
      ensures b <==> PostsLeft(stop, next, old(ticks)) <= 0
      ensures expired == (old(expired) || (stop.Until? && next > 0 && old(ticks) == 0))
      ensures ticks == (if stop.Until? && next > 0 && old(ticks) > 0 then old(ticks) - 1 else old(ticks))
    {
      match stop
      case Ops(ops) =>
        b := next >= ops;
      case Until =>
        if next > 0 {
          b := ticks == 0;
          if b {
            expired := true;
          } else {
            ticks := ticks - 1;
          }
        } else {
          b := false;
        }
    }

    /** Collect the chunk that starts at `next`: one request per op, counted as posted. */
    method FillChunk(j: nat, rem: Positive) returns (reqs: seq<Request>)
      requires j < |posted| && doneTotal <= next < doneTotal + c.depth
      requires (expired ==> ticks == 0 && next > 0) && !StopPosting(stop, View())
      modifies this`next, this`posted, this`ticks, this`expired
      ensures |reqs| == ChunkLength(rem, c.depth - (old(next) - doneTotal), PostsLeft(stop, old(next), old(ticks)))
      ensures reqs == ChunkRequests(c, old(next), |reqs|)
      ensures next == old(next) + |reqs| && posted == old(posted)[j := old(posted)[j] + |reqs|]
      ensures (expired ==> ticks == 0 && next > 0) && (old(expired) ==> expired)
      ensures 0 <= PostsLeft(stop, next, ticks) <= PostsLeft(stop, old(next), old(ticks)) - |reqs|
      ensures |reqs| == rem ==> PostsLeft(stop, next, ticks) == PostsLeft(stop, old(next), old(ticks)) - |reqs|
    {
      ghost var start, budget := next, PostsLeft(stop, next, ticks);
      ghost var room := c.depth - (next - doneTotal);
      reqs := [];
      var open := true;
      while open && |reqs| < rem
        invariant |reqs| <= rem && next == start + |reqs|
        invariant reqs == ChunkRequests(c, start, |reqs|)
        invariant posted == old(posted)[j := old(posted)[j] + |reqs|]
        invariant (expired ==> ticks == 0 && next > 0) && (old(expired) ==> expired)
        invariant |reqs| <= room
        invariant 0 <= PostsLeft(stop, next, ticks) <= budget - |reqs|
        invariant open ==> PostsLeft(stop, next, ticks) == budget - |reqs|
        invariant !open ==> |reqs| < rem && |reqs| == ChunkLength(rem, room, budget)
        decreases open, rem - |reqs|
      {
        var halt := StopTest();
        if halt || next - doneTotal >= c.depth {
          open := false;
        } else {
          ChunkExtend(c, start, |reqs|);
          reqs := reqs + [OpRequest(c, next)];
          next := next + 1;
          posted := posted[j := posted[j] + 1];
        }
      }
    }

    /**
     * Post one chunk as one request list on one jetty. Because the stop test is read again
     * for every entry, a chunk comes out empty, and the list post is refused, exactly when
     * the deadline passes between the two readings.
     */
    method PostChunk(accepted: bool) returns (r: Outcome)
      requires Valid() && !StopPosting(stop, View()) && !Full(c, View())
      modifies this
      ensures next - old(next) == ChunkLength(c.list - old(next) % c.list,
                                              c.depth - (old(next) - old(doneTotal)),
                                              PostsLeft(stop, old(next), old(ticks)))
      ensures r.Done? || r.EmptyList? || r.PostFailed?
      ensures r.PostFailed? ==> !accepted
      ensures r.EmptyList? <==> stop.Until? && old(next) > 0 && old(ticks) == 0
      ensures r.Done? ==> Valid() && next > old(next)
      ensures r.Done? ==> View() == PostedOps(c, old(View()), next - old(next)).(expired := expired)
      ensures r.Done? ==> WorkRemaining() < old(WorkRemaining())
      ensures next - old(next) == c.list - old(next) % c.list ==>
                PostsLeft(stop, next, ticks) == PostsLeft(stop, old(next), old(ticks)) - (next - old(next))
    {
      hide OpJetty, OpRank, LaneInv, Cycle, CountOn, ChunkRequests, PostedOps, Sum, OutstandingAll, Clear;
      ghost var s := View();
      InFlightSum(c, stop, s);
      var reqs := FillChunk(OpJetty(next, c.n, c.list), c.list - next % c.list);
      if reqs == [] {
        return EmptyList;
      }
      r := Submit(s, OpJetty(next - |reqs|, c.n, c.list), reqs, accepted);
    }

    /** Hand a chunk's requests, counted since state `s`, to the device as one list. */
    method Submit(ghost s: State, j: nat, reqs: seq<Request>, accepted: bool) returns (r: Outcome)
      requires c.Valid() && Inv(c, stop, s) && Clear(c, s) && j == OpJetty(s.next, c.n, c.list) && j < |lanes|
      requires |reqs| > 0 && reqs == ChunkRequests(c, s.next, |reqs|)
      requires s.next % c.list + |reqs| <= c.list && s.next + |reqs| - s.doneTotal <= c.depth
      requires s.next + |reqs| <= FENCE_CTX_MIN && (s.expired ==> expired)
      requires if stop.Ops? then s.next + |reqs| <= stop.ops else !s.expired
      requires View() == s.(next := s.next + |reqs|, posted := s.posted[j := s.posted[j] + |reqs|], expired := expired)
      modifies this`lanes
      ensures if accepted then r == Done(|reqs|) else r == PostFailed
      ensures r.Done? ==> Inv(c, stop, View()) && Clear(c, View()) && View() == PostedOps(c, s, |reqs|).(expired := expired)
      ensures r.Done? ==> forall posts :: Work(posts, View()) == Work(posts, s) + |reqs|
    {
      hide OpJetty, OpRank, LaneInv, Cycle, CountOn, Clear;
      if !accepted {
        return PostFailed;
      }
      lanes := lanes[j := lanes[j].(queue := lanes[j].queue + reqs)];
      r := Done(|reqs|);
      assert View() == ChunkPosted(c, s, |reqs|, expired);
      ChunkPostedInv(c, stop, s, |reqs|, expired, 0);
      ChunkPostedClear(c, stop, s, |reqs|, expired);
    }

    /** The stop test as the outer loop reads it. */
    method ReadStop() returns (b: bool)
      requires Valid()
      modifies this`ticks, this`expired
      ensures Valid() && b == StopPosting(stop, View())
      ensures View() == old(View()).(expired := expired) && (old(expired) ==> expired)
      ensures WorkRemaining() <= old(WorkRemaining())
      ensures ticks == (if stop.Until? && next > 0 && old(ticks) > 0 then old(ticks) - 1 else old(ticks))
      ensures stop.Until? && old(ticks) > 0 ==> !b
    {
      hide Clear;
      b := StopTest();
      ExpiredInv(c, stop, old(View()), expired);
      SameClear(c, old(View()), View());
    }

    /** Post chunks while the stop test and the pipeline allow. */
    method PostAll() returns (r: Outcome)
      requires Valid()
      modifies this
      ensures r.Done? || r.EmptyList? || r.PostFailed?
      ensures r.EmptyList? ==> stop.Until?
      ensures r.PostFailed? ==> dev.Any?
      ensures r.Done? ==> Valid() && (StopPosting(stop, View()) || Full(c, View()))
      ensures r.Done? ==> WorkRemaining() <= old(WorkRemaining())
    {
      r := Done(0);
      var halt := ReadStop();
      while !halt && next - doneTotal < c.depth
        invariant Valid() && halt == StopPosting(stop, View())
        invariant r.Done? && WorkRemaining() <= old(WorkRemaining())
        decreases WorkRemaining()
      {
        var accepted: bool := *;
        r := PostChunk(accepted || dev.Prompt?);
        if !r.Done? {
          return;
        }
        halt := ReadStop();
      }
    }

    /** Once posting has stopped and a slot is free, fence every jetty that ended on an unsignaled tail. */
    method PostFences() returns (r: Outcome)
      requires Valid() && (StopPosting(stop, View()) || Full(c, View()))
      modifies this
      ensures r.Done? || (r.PostFailed? && dev.Any?)
      ensures r.Done? ==> Valid() && (StopPosting(stop, View()) || Full(c, View()))
      ensures next == old(next) && doneTotal == old(doneTotal) && done == old(done)
      ensures r.Done? && !Full(c, View()) ==>
                forall j: nat :: j < c.n && TailUncovered(c, posted[j]) ==> fenced[j]
      ensures r.Done? ==> WorkRemaining() <= old(WorkRemaining())
    {
      hide OpJetty, OpRank, LaneInv, Cycle, CountOn, Clear, Work, PostedFence;
      r := Done(0);
      var halt := ReadStop();
      if halt && next - doneTotal < c.depth {
        for j := 0 to c.n
          invariant Valid() && StopPosting(stop, View()) && r.Done?
          invariant next == old(next) && doneTotal == old(doneTotal) && done == old(done)
          invariant forall i: nat :: i < j && TailUncovered(c, posted[i]) ==> fenced[i]
          invariant WorkRemaining() <= old(WorkRemaining())
        {
          if !fenced[j] && TailUncovered(c, posted[j]) {
            r := PostOneFence(j);
            if !r.Done? {
              return;
            }
          }
        }
      }
    }

    method PostOneFence(j: nat) returns (r: Outcome)
      requires Valid() && StopPosting(stop, View()) && !Full(c, View())
      requires j < c.n && !fenced[j] && TailUncovered(c, posted[j])
      modifies this`fenced, this`lanes
      ensures r.Done? || (r.PostFailed? && dev.Any?)
      ensures r.Done? ==> Valid() && View() == PostedFence(c, old(View()), j)
      ensures r.Done? ==> posted == old(posted) && fenced == old(fenced)[j := true]
      ensures r.Done? ==> WorkRemaining() < old(WorkRemaining())
    {
      hide OpJetty, OpRank, LaneInv, Cycle, CountOn, Clear;
      var accepted: bool := *;
      if !accepted && dev.Any? {
        return PostFailed;
      }
      ghost var s := View();
      lanes := lanes[j := lanes[j].(queue := lanes[j].queue + [Request(FENCE_CTX_BASE - j, true)])];
      fenced := fenced[j := true];
      r := Done(1);
      PostFenceInv(c, stop, s, j);
      PostFenceClear(c, stop, s, j);
      EnqueueOutstanding(c, stop, s, j, FenceRequest(j));
      FenceUnfenced(s.fenced, j);
    }

    /**
     * The device's side of a poll: complete any posted requests, then hand out up to a
     * buffer of records. A successful record obeys comp_order; a failed one may be anything.
     */
    method PollBatch(crs: array<Completion>) returns (cnt: nat, ghost path: seq<seq<Lane>>, ghost at: seq<(nat, nat)>)
      requires |lanes| == c.n && crs.Length > 0
      modifies this`lanes, crs
      ensures cnt <= crs.Length && |path| == cnt + 1 && |at| == cnt
      ensures exists more :: CanComplete(old(lanes), more) && path[0] == Completed(old(lanes), more)
      ensures path[cnt] == lanes
      ensures forall i :: 0 <= i < cnt && crs[i].IsSuccess() ==> Delivery(path[i], at[i], crs[i].ctx, path[i + 1])
      ensures dev.Prompt? ==> forall i :: 0 <= i < cnt ==> crs[i].IsSuccess()
      ensures dev.Prompt? && cnt == 0 ==> forall j :: 0 <= j < |old(lanes)| ==> !Pending(old(lanes)[j])
    {
      var before := lanes;
      var more := Finishing(before);
      lanes := Completed(before, more);
      assert CanComplete(before, more);
      cnt, path, at := 0, [lanes], [];
      var willing: nat := *;
      while cnt < crs.Length && willing > 0
        invariant cnt <= crs.Length && |path| == cnt + 1 && |at| == cnt && |lanes| == c.n
        invariant path[0] == Completed(before, more) && path[cnt] == lanes
        invariant forall i :: 0 <= i < cnt && crs[i].IsSuccess() ==> Delivery(path[i], at[i], crs[i].ctx, path[i + 1])
        invariant dev.Prompt? ==> forall i :: 0 <= i < cnt ==> crs[i].IsSuccess()
        decreases willing
      {
        willing := willing - 1;
        var j: nat, k: nat := *, *;
        var failure: int, ctx: nat := *, *;
        if failure != 0 && dev.Any? {
          crs[cnt] := Completion(failure, ctx);
          cnt, path, at := cnt + 1, path + [lanes], at + [(j, k)];
        } else if j < |lanes| && Deliverable(lanes[j], k) {
          crs[cnt] := Completion(0, lanes[j].queue[k].ctx);
          lanes := lanes[j := lanes[j].(polled := k + 1)];
          cnt, path, at := cnt + 1, path + [lanes], at + [(j, k)];
        }
      }
      if dev.Prompt? && cnt == 0 {
        var found, j, k := FindRecord(before, more);
        if found {
          crs[0] := Completion(0, lanes[j].queue[k].ctx);
          lanes := lanes[j := lanes[j].(polled := k + 1)];
          cnt, path, at := 1, path + [lanes], at + [(j, k)];
        }
      }
    }

    /** Which posted requests complete now: any, or all of them. */
    method Finishing(before: seq<Lane>) returns (more: seq<set<nat>>)
      ensures CanComplete(before, more)
      ensures dev.Prompt? ==> forall j, i: nat :: 0 <= j < |before| && i < |before[j].queue| ==> i in more[j]
    {
      var wish: seq<set<nat>> := *;
      more := seq(|before|, (j: nat) requires j < |before| =>
        if dev.Prompt? then Positions(|before[j].queue|)
        else if j < |wish| then set k: nat | k in wish[j] && k < |before[j].queue| else {});
    }

    /** A record that can be handed out once everything has completed, if there is one. */
    method FindRecord(before: seq<Lane>, more: seq<set<nat>>) returns (found: bool, j: nat, k: nat)
      requires |more| == |before|
      requires forall j, i: nat :: 0 <= j < |before| && i < |before[j].queue| ==> i in more[j]
      ensures found ==> j < |before| && Deliverable(Completed(before, more)[j], k)
      ensures !found ==> forall j :: 0 <= j < |before| ==> !Pending(before[j])
    {
      found, j, k := false, 0, 0;
      while j < |before|
        invariant j <= |before| && forall i :: 0 <= i < j ==> !Pending(before[i])
        decreases |before| - j
      {
        k := before[j].polled;
        while k < |before[j].queue|
          invariant before[j].polled <= k
          invariant forall i :: before[j].polled <= i < k && i < |before[j].queue| ==> !before[j].queue[i].signaled
          decreases |before[j].queue| - k
        {
          if before[j].queue[k].signaled {
            found := true;
            return;
          }
          k := k + 1;
        }
        j := j + 1;
      }
    }

    /** Account the records of one poll, in order; a failed record ends the pass. */
    method Account(crs: seq<Completion>, ghost path: seq<seq<Lane>>, ghost at: seq<(nat, nat)>)
      returns (r: Outcome)
      requires c.Valid() && |path| == |crs| + 1 && |at| == |crs| && lanes == path[|crs|]
      requires Inv(c, stop, View().(lanes := path[0]))
      requires forall i :: 0 <= i < |crs| && crs[i].IsSuccess() ==> Delivery(path[i], at[i], crs[i].ctx, path[i + 1])
      modifies this`done, this`doneTotal
      ensures r.Done? || r.BadCompletion?
      ensures r.BadCompletion? <==> exists i :: 0 <= i < |crs| && !crs[i].IsSuccess()
      ensures r.BadCompletion? ==> FirstFailure(crs, r.status, r.ctx)
      ensures r.Done? ==> Inv(c, stop, View())
      ensures crs == [] ==> done == old(done) && doneTotal == old(doneTotal)
      ensures r.Done? ==> Sum(OutstandingAll(lanes)) + |crs| <= Sum(OutstandingAll(path[0]))
    {
      hide OpJetty, OpRank, LaneInv, Cycle, CountOn, CtxTarget, CtxJetty, Counts, Sum, OutstandingAll;
      r := Done(0);
      for i := 0 to |crs|
        invariant r.Done? && forall k :: 0 <= k < i ==> crs[k].IsSuccess()
        invariant Inv(c, stop, View().(lanes := path[i]))
        invariant i == 0 ==> done == old(done) && doneTotal == old(doneTotal)
        invariant Sum(OutstandingAll(path[i])) + i <= Sum(OutstandingAll(path[0]))
      {
        if !crs[i].IsSuccess() {
          return BadCompletion(crs[i].status, crs[i].ctx);
        }
        ghost var s := View().(lanes := path[i]);
        assert Delivery(path[i], at[i], crs[i].ctx, path[i + 1]);
        ReapInv(c, stop, s, at[i].0, at[i].1);
        ReapOutstanding(s, at[i].0, at[i].1);
        AccountOne(crs[i].ctx, Delivered(s, at[i].0, at[i].1));
      }
    }

    /** Move a jetty's completion count to what the record proves, and the total with it. */
    method AccountOne(ctx: nat, ghost s: State)
      requires Shaped(c, s) && 0 <= CtxJetty(c, ctx) < c.n
      requires s == View().(lanes := s.lanes)
      modifies this`done, this`doneTotal
      ensures View().(lanes := s.lanes) == Accounted(c, s, ctx)
    {
      var j, target := CtxJetty(c, ctx), CtxTarget(c, posted, ctx);
      if target > done[j] {
        doneTotal := doneTotal + (target - done[j]);
        done := done[j := target];
      }
    }

    /** One poll and the accounting of its records. */
    method PollAndAccount(crs: array<Completion>) returns (r: Outcome, cnt: nat)
      requires Valid() && crs.Length > 0
      modifies this`lanes, this`done, this`doneTotal, crs
      ensures r.Done? || r.PollFailed? || r.BadCompletion?
      ensures dev.Prompt? ==> r.Done? && (cnt == 0 ==> !SomePending(old(View())))
      ensures r.Done? ==> Valid()
      ensures r.Done? && cnt == 0 ==> View() == old(View()).(lanes := lanes) && WorkRemaining() == old(WorkRemaining())
      ensures r.Done? && cnt > 0 ==> WorkRemaining() < old(WorkRemaining())
    {
      hide OpJetty, OpRank, LaneInv, Cycle, CountOn, Clear;
      ghost var s := View();
      var broken: bool := *;
      if broken && dev.Any? {
        return PollFailed, 0;
      }
      ghost var path, at;
      cnt, path, at := PollBatch(crs);
      ghost var more :| CanComplete(s.lanes, more) && path[0] == Completed(s.lanes, more);
      CompleteInv(c, stop, s, more);
      assert OutstandingAll(path[0]) == OutstandingAll(s.lanes);
      r := Account(crs[..cnt], path, at);
      if r.Done? {
        SameClear(c, s, View());
      }
    }

    /** The posting half of a round: chunks, then fences, then the exit test. */
    method PostHalf() returns (r: Outcome, finished: bool)
      requires Valid()
      modifies this
      ensures r.Done? || r.EmptyList? || (r.PostFailed? && dev.Any?)
      ensures r.EmptyList? ==> stop.Until?
      ensures r.Done? ==> Valid() && WorkRemaining() <= old(WorkRemaining())
      ensures r.Done? ==> if finished then Finished(stop, View()) else AboutToPoll(c, stop, View())
    {
      hide OpJetty, OpRank, LaneInv, Cycle, CountOn, Clear;
      finished := false;
      r := PostAll();
      if !r.Done? {
        return;
      }
      r := PostFences();
      if !r.Done? {
        return;
      }
      var halt := ReadStop();
      finished := doneTotal == next && halt;
      InFlightSum(c, stop, View());
    }

    /**
     * The whole pass. Whatever the device does, an Ok result has counted exactly the ops
     * it posted and left the completion queue empty, and its tails never filled the
     * pipeline. A timeout means that the device kept silent although it owed a record, or
     * that the tails fill the pipeline and no record will ever come.
     */
    method Run() returns (r: Outcome)
      requires Valid() && View() == Init(c)
      modifies this, queue`log
      ensures r.Done? ==> Valid() && Finished(stop, View()) && r.ops == doneTotal == next
      ensures r.Done? ==> done == posted && Drained(lanes)
      ensures r.Done? ==> forall j: nat, k: nat :: j < c.n && k < posted[j] ==> k in lanes[j].completed
      ensures r.Done? ==> NeverFills(c, r.ops)
      ensures r.Done? && stop.Ops? ==> r.ops == stop.ops
      ensures stop.Ops? && !NeverFills(c, stop.ops) ==> !r.Done?
      ensures r.Done? && stop.Until? ==> r.ops > 0
      ensures r.PollTimeout? ==> Valid() && AboutToPoll(c, stop, View())
      ensures r.PollTimeout? ==> (SomePending(View()) <==> !TailsFill(c, next))
      ensures r.PollTimeout? && (DeepEnough(c) || (stop.Ops? && NeverFills(c, stop.ops))) ==> SomePending(View())
      ensures r.EmptyList? ==> stop.Until?
      ensures queue.log == if r.Done? then old(queue.log) + [r.ops] else old(queue.log)
      ensures dev.Prompt? ==> r.Done? || r.EmptyList? || (r.PollTimeout? && TailsFill(c, next))
      ensures dev.Prompt? && stop.Ops? ==> if NeverFills(c, stop.ops) then r == Done(stop.ops) else r.PollTimeout?
    {
      hide OpJetty, OpRank, LaneInv, Cycle, CountOn, Drained, SomePending, NeverFills, Clear, TailsFill, AboutToPoll;
      var crs := new Completion[POLL_BATCH](_ => Completion(0, 0));
      var patience: nat := *;
      var finished: bool;
      while true
        invariant Valid() && queue.log == old(queue.log)
        decreases WorkRemaining(), patience
      {
        r, finished := PostHalf();
        if !r.Done? {
          return;
        }
        if finished {
          FinishedIsDrained(c, stop, View());
          FinishedNeverFilled(c, stop, View());
          queue.log := queue.log + [doneTotal];
          return Done(doneTotal);
        }
        ghost var before := View();
        var cnt: nat;
        r, cnt := PollAndAccount(crs);
        if !r.Done? {
          return;
        }
        if cnt > 0 {
          patience := *;
        } else if patience > 0 {
          patience := patience - 1;
        } else {
          SilentPoll(c, stop, before, View());
          PollDecided(c, stop, before);
          TimeoutState(c, stop, View());
          return PollTimeout;
        }
      }
    }
  }

  datatype Duration = None | Ticks(ticks: nat)

  /**
   * Warmup, then the timed pass, on one completion queue. Only op-count mode warms up; the
   * timed pass starts only when the warmup left nothing in the queue, and reports exactly
   * its own ops. On a prompt device it gets there if the tails leave room.
   */
  method RunIters(c: Config, warmup: nat, iters: nat, duration: Duration, dev: Device, queue: Queue)
    returns (r: Outcome)
    requires c.Valid() && warmup < 0x1_0000_0000 && 1 <= iters < 0x1_0000_0000
    requires duration.Ticks? ==> duration.ticks < FENCE_CTX_MIN
    modifies queue`log
    ensures r.Done? ==> if duration.None? then r.ops == iters else r.ops > 0
    ensures r.Done? ==>
      queue.log == old(queue.log) + (if duration.None? && warmup > 0 then [warmup, r.ops] else [r.ops])
    ensures dev.Prompt? && duration.None? && NeverFills(c, iters) && (warmup > 0 ==> NeverFills(c, warmup)) ==> r == Done(iters)
    ensures r.EmptyList? ==> duration.Ticks?
  {
    hide NeverFills, Inv, Work;
    var before: seq<Lane> := seq(c.n, _ => Lane([], {}, 0));
    if duration.None? && warmup > 0 {
      var warm := new Pass(c, Ops(warmup), 0, dev, queue, before);
      r := warm.Run();
      if !r.Done? {
        return;
      }
      before := warm.lanes;
    }
    var stop := if duration.None? then Ops(iters) else Until;
    var timed := new Pass(c, stop, if duration.None? then 0 else duration.ticks, dev, queue, before);
    r := timed.Run();
  }

  /**
   * The empty chunk is reached: with one reading left, the outer test still says go, the
   * inner one says stop, and the second list post is refused.
   */
  method DeadlineRace(n: Positive, depth: Positive, cqMod: Positive) returns (r: Outcome)
    requires n <= MAX_JETTIES && 2 <= depth < 0x1_0000_0000
    ensures r == EmptyList
  {
    hide Inv, Work, PostedOps, Init, Clear;
    var c := Config(n, 1, depth, cqMod);
    var queue := new Queue();
    var pass := new Pass(c, Until, 1, Any, queue, []);
    r := pass.PostChunk(true);
    assert pass.next == 1 && pass.ticks == 1;
    var halt := pass.ReadStop();
    assert !halt;
    r := pass.PostChunk(true);
  }

  /** A poll without records leaves the pass about to poll. */
  lemma SilentPoll(c: Config, stop: Stop, s: State, s': State)
    requires Shaped(c, s) && Shaped(c, s') && AboutToPoll(c, stop, s) && s' == s.(lanes := s'.lanes)
    ensures AboutToPoll(c, stop, s')
  {
  }

  lemma TimeoutState(c: Config, stop: Stop, s: State)
    requires c.Valid() && Inv(c, stop, s) && Clear(c, s) && AboutToPoll(c, stop, s)
    ensures SomePending(s) <==> !TailsFill(c, s.next)
    ensures DeepEnough(c) || (stop.Ops? && NeverFills(c, stop.ops)) ==> SomePending(s)
  {
    hide Clear, LaneInv, AboutToPoll, SomePending, TailsFill;
    PollDecided(c, stop, s);
    if DeepEnough(c) {
      DeepEnoughNeverFills(c, s.next);
    }
  }
}
