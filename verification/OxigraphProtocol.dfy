/**
 * The worker, its calls and the two message channels between them as one machine, and what
 * holds in every interleaving of sends, handler segments, deliveries, timeouts and a close.
 */
module OxigraphProtocol {

  import opened Strings
  import opened Json
  import opened OxigraphWorker
  import opened OxigraphClient

  /** `posted` keeps every reply; the first `delivered` of them have reached the listeners. */
  datatype System = System(
    store: Option<Store>, inbox: seq<Message>, handlers: seq<Handler>,
    posted: seq<Reply>, delivered: nat, calls: seq<Call>, open: bool)

  const START := System(None, [], [], [], 0, [], true)

  datatype Step =
    | Send(taskID: string, instruction: Instruction)
    | Receive(thrown: Option<string>)
    | Resume(k: nat, fetched: Option<string>)
    | Post(k: nat)
    | Deliver
    | Expire(i: nat)
    | Close

  predicate Enabled(s: System, step: Step)
  {
    match step
    case Send(_, _) => true
    case Receive(_) => s.inbox != []
    case Resume(k, _) => k < |s.handlers| && !s.handlers[k].Ready?
    case Post(k) => k < |s.handlers| && s.handlers[k].Ready?
    case Deliver => s.open && s.delivered < |s.posted|
    case Expire(i) => i < |s.calls| && s.calls[i].timer
    case Close => s.open
  }

  /** Every listener hears every reply. */
  function Broadcast(calls: seq<Call>, r: Reply): (heard: seq<Call>)
    ensures |heard| == |calls|
  {
    seq(|calls|, i requires 0 <= i < |calls| => Heard(calls[i], r))
  }

  /** A terminated worker gets no message. */
  function Sent(s: System, taskID: string, instruction: Instruction): System
  {
    var m := Message(taskID, |s.calls|, instruction);
    s.(calls := s.calls + [Started(taskID, instruction, s.delivered)],
       inbox := if s.open then s.inbox + [m] else s.inbox)
  }

  function After(ox: Oxigraph, s: System, step: Step): System
    requires Enabled(s, step)
  {
    match step
    case Send(taskID, instruction) => Sent(s, taskID, instruction)
    case Receive(thrown) =>
      var (store, h) := Received(ox, s.store, s.inbox[0], thrown);
      s.(store := store, inbox := s.inbox[1..], handlers := s.handlers + [h])
    case Resume(k, fetched) =>
      var (store, h) := Resumed(s.store, s.handlers[k], fetched);
      s.(store := store, handlers := s.handlers[k := h])
    case Post(k) => s.(handlers := Without(s.handlers, k), posted := s.posted + [s.handlers[k].reply])
    case Deliver =>
      s.(delivered := s.delivered + 1, calls := Broadcast(s.calls, s.posted[s.delivered]))
    case Expire(i) => s.(calls := s.calls[i := Expired(s.calls[i])])
    case Close => s.(inbox := [], handlers := [], open := false)
  }

  /** A run skips the steps that are not possible when their turn comes. */
  function Run(ox: Oxigraph, s: System, steps: seq<Step>): System
    decreases |steps|
  {
    if steps == [] then s
    else Run(ox, if Enabled(s, steps[0]) then After(ox, s, steps[0]) else s, steps[1..])
  }

  ghost predicate Reachable(ox: Oxigraph, s: System)
  {
    exists steps :: Run(ox, START, steps) == s
  }

  ghost predicate DistinctIds(calls: seq<Call>)
  {
    forall i, j :: 0 <= i < j < |calls| ==> calls[i].taskID != calls[j].taskID
  }

  // What the listeners make of the replies

  function FirstReply(id: string, replies: seq<Reply>): (r: Option<Reply>)
    ensures r.Some? ==> r.value.taskID == id && r.value in replies
  {
    if replies == [] then None
    else if replies[0].taskID == id then Some(replies[0])
    else FirstReply(id, replies[1..])
  }

  lemma {:induction false} FirstReplySnoc(id: string, replies: seq<Reply>, r: Reply)
    ensures FirstReply(id, replies + [r])
         == if FirstReply(id, replies).Some? then FirstReply(id, replies)
            else if r.taskID == id then Some(r) else None
  {
    if replies == [] {
      assert replies + [r] == [r];
    } else {
      FirstReplySnoc(id, replies[1..], r);
      assert (replies + [r])[1..] == replies[1..] + [r];
    }
  }

  function Verdict(reply: Option<Reply>): Outcome
  {
    if reply.None? then Pending
    else if reply.value.error.Some? then Rejected(WorkerError(reply.value.error.value))
    else Resolved(reply.value)
  }

  /** A call that did not time out has the verdict of the first reply to its id since it was made. */
  predicate Justified(c: Call, posted: seq<Reply>, delivered: nat)
  {
    && c.since <= delivered <= |posted|
    && c.outcome == (if c.failed then Rejected(TimedOut) else Verdict(FirstReply(c.taskID, posted[c.since..delivered])))
    && (c.timer <==> c.outcome.Pending?)
  }

  ghost predicate AllJustified(s: System)
  {
    s.delivered <= |s.posted| && forall i :: 0 <= i < |s.calls| ==> Justified(s.calls[i], s.posted, s.delivered)
  }

  lemma HeardIsJustified(c: Call, posted: seq<Reply>, delivered: nat)
    requires delivered < |posted| && Justified(c, posted, delivered)
    ensures Justified(Heard(c, posted[delivered]), posted, delivered + 1)
  {
    var r := posted[delivered];
    assert posted[c.since..delivered + 1] == posted[c.since..delivered] + [r];
    FirstReplySnoc(c.taskID, posted[c.since..delivered], r);
  }

  lemma PostKeepsJustified(c: Call, posted: seq<Reply>, r: Reply, delivered: nat)
    requires Justified(c, posted, delivered)
    ensures Justified(c, posted + [r], delivered)
  {
    assert (posted + [r])[c.since..delivered] == posted[c.since..delivered];
  }

  lemma StepKeepsJustified(ox: Oxigraph, s: System, step: Step)
    requires Enabled(s, step) && AllJustified(s)
    ensures AllJustified(After(ox, s, step))
  {
    var t := After(ox, s, step);
    forall i | 0 <= i < |t.calls|
      ensures Justified(t.calls[i], t.posted, t.delivered)
    {
      if step.Post? {
        PostKeepsJustified(s.calls[i], s.posted, s.handlers[step.k].reply, s.delivered);
      } else if step.Deliver? {
        HeardIsJustified(s.calls[i], s.posted, s.delivered);
      } else if i == |s.calls| {
        assert s.posted[s.delivered..s.delivered] == [];
      }
    }
  }

  // Every message has one place

  function MessageOrigins(messages: seq<Message>): seq<nat>
  {
    seq(|messages|, i requires 0 <= i < |messages| => messages[i].origin)
  }

  function HandlerOrigins(handlers: seq<Handler>): seq<nat>
  {
    seq(|handlers|, i requires 0 <= i < |handlers| => handlers[i].Origin())
  }

  function ReplyOrigins(replies: seq<Reply>): seq<nat>
  {
    seq(|replies|, i requires 0 <= i < |replies| => replies[i].origin)
  }

  /** The calls whose message waits, is worked on, or has been answered. */
  function Origins(s: System): multiset<nat>
  {
    multiset(MessageOrigins(s.inbox)) + multiset(HandlerOrigins(s.handlers)) + multiset(ReplyOrigins(s.posted))
  }

  ghost predicate OnePlaceEach(s: System)
  {
    forall i: nat ::
      && Origins(s)[i] <= (if i < |s.calls| then 1 else 0)
      && (s.open && i < |s.calls| ==> Origins(s)[i] == 1)
  }

  lemma ReceiveMoves(ox: Oxigraph, s: System, thrown: Option<string>)
    requires s.inbox != []
    ensures Origins(After(ox, s, Receive(thrown))) == Origins(s)
  {
    var t, m := After(ox, s, Receive(thrown)), s.inbox[0];
    var h := Received(ox, s.store, m, thrown).1;
    HandlersKeepStoreAndOrigin(ox, s.store, m, thrown, h, None);
    assert MessageOrigins(s.inbox) == [m.origin] + MessageOrigins(t.inbox);
    assert HandlerOrigins(t.handlers) == HandlerOrigins(s.handlers) + [m.origin];
  }

  lemma ResumeMoves(ox: Oxigraph, s: System, k: nat, fetched: Option<string>)
    requires Enabled(s, Resume(k, fetched))
    ensures Origins(After(ox, s, Resume(k, fetched))) == Origins(s)
  {
    HandlersKeepStoreAndOrigin(ox, s.store, Message("", 0, OtherTask), None, s.handlers[k], fetched);
    assert HandlerOrigins(After(ox, s, Resume(k, fetched)).handlers) == HandlerOrigins(s.handlers);
  }

  lemma PostMoves(ox: Oxigraph, s: System, k: nat)
    requires Enabled(s, Post(k))
    ensures Origins(After(ox, s, Post(k))) == Origins(s)
  {
    var t, r := After(ox, s, Post(k)), s.handlers[k].reply;
    var before, after := HandlerOrigins(s.handlers), HandlerOrigins(t.handlers);
    assert after == Without(before, k);
    RemoveAt(before, k);
    assert ReplyOrigins(t.posted) == ReplyOrigins(s.posted) + [r.origin];
    assert multiset(before) + multiset(ReplyOrigins(s.posted)) == multiset(after) + multiset(ReplyOrigins(t.posted));
  }

  lemma SendAddsOne(s: System, taskID: string, instruction: Instruction)
    ensures Origins(Sent(s, taskID, instruction))
         == if s.open then Origins(s) + multiset{|s.calls|} else Origins(s)
  {
    if s.open {
      assert MessageOrigins(Sent(s, taskID, instruction).inbox) == MessageOrigins(s.inbox) + [|s.calls|];
    }
  }

  /** Only a send adds an origin, and only a close takes some away. */
  lemma StepMoves(ox: Oxigraph, s: System, step: Step)
    requires Enabled(s, step) && !step.Send? && !step.Close?
    ensures Origins(After(ox, s, step)) == Origins(s)
  {
    match step
    case Receive(thrown) => ReceiveMoves(ox, s, thrown);
    case Resume(k, fetched) => ResumeMoves(ox, s, k, fetched);
    case Post(k) => PostMoves(ox, s, k);
    case _ =>
  }

  lemma SendKeepsPlaces(s: System, taskID: string, instruction: Instruction)
    requires OnePlaceEach(s)
    ensures OnePlaceEach(Sent(s, taskID, instruction))
  {
    var n := |s.calls|;
    SendAddsOne(s, taskID, instruction);
    assert Origins(s)[n] == 0;
    assert forall i: nat :: (Origins(s) + multiset{n})[i] == Origins(s)[i] + (if i == n then 1 else 0);
  }

  lemma CloseKeepsPlaces(ox: Oxigraph, s: System)
    requires OnePlaceEach(s) && s.open
    ensures OnePlaceEach(After(ox, s, Close))
  {
    var t := After(ox, s, Close);
    assert Origins(t) == multiset(ReplyOrigins(s.posted));
    assert forall i: nat :: Origins(t)[i] <= Origins(s)[i];
  }

  lemma StepKeepsPlaces(ox: Oxigraph, s: System, step: Step)
    requires Enabled(s, step) && OnePlaceEach(s)
    ensures OnePlaceEach(After(ox, s, step))
  {
    if step.Send? {
      SendKeepsPlaces(s, step.taskID, step.instruction);
    } else if step.Close? {
      CloseKeepsPlaces(ox, s);
    } else {
      var t := After(ox, s, step);
      assert |t.calls| == |s.calls| && t.open == s.open;
      assert Origins(t) == Origins(s) by { StepMoves(ox, s, step); }
    }
  }

  // Whose message a handler or a reply belongs to, and what it says about the store

  predicate MessageOf(m: Message, calls: seq<Call>)
  {
    && m.origin < |calls|
    && m.taskID == calls[m.origin].taskID
    && m.instruction == calls[m.origin].instruction
  }

  /** A reply names its call's id, and only an INIT is answered with Initialized. */
  predicate ReplyOf(r: Reply, calls: seq<Call>, store: Option<Store>)
  {
    && r.origin < |calls|
    && r.taskID == calls[r.origin].taskID
    && (calls[r.origin].instruction.Init? && r.error.None? ==> r.answer == Initialized)
    && (r.answer == Initialized || r.answer.Loaded? ==> store.Some?)
  }

  predicate HandlerOf(h: Handler, calls: seq<Call>, store: Option<Store>)
  {
    match h
    case Fetching(m) => MessageOf(m, calls)
    case Loading(m, _, _) => MessageOf(m, calls) && !m.instruction.Init? && store.Some?
    case Ready(r) => ReplyOf(r, calls, store)
  }

  ghost predicate AllOwned(s: System)
  {
    && (forall m <- s.inbox :: MessageOf(m, s.calls))
    && (forall h <- s.handlers :: HandlerOf(h, s.calls, s.store))
    && (forall r <- s.posted :: ReplyOf(r, s.calls, s.store))
  }

  /** `calls` keep their place, id and instruction from one state to a later one. */
  ghost predicate CallsKept(calls: seq<Call>, later: seq<Call>)
  {
    && |calls| <= |later|
    && forall i :: 0 <= i < |calls| ==>
         later[i].taskID == calls[i].taskID && later[i].instruction == calls[i].instruction
  }

  lemma ReceivedIsOwned(ox: Oxigraph, store: Option<Store>, m: Message, thrown: Option<string>, calls: seq<Call>)
    requires MessageOf(m, calls)
    ensures var (after, h) := Received(ox, store, m, thrown);
      HandlerOf(h, calls, after) && (store.Some? ==> after.Some?)
  {
  }

  lemma ResumedIsOwned(store: Option<Store>, h: Handler, fetched: Option<string>, calls: seq<Call>)
    requires HandlerOf(h, calls, store)
    ensures var (after, next) := Resumed(store, h, fetched);
      HandlerOf(next, calls, after) && (store.Some? ==> after == store)
  {
  }

  lemma StillOwned(s: System, calls: seq<Call>, store: Option<Store>)
    requires AllOwned(s) && CallsKept(s.calls, calls) && (s.store.Some? ==> store.Some?)
    ensures AllOwned(s.(calls := calls, store := store))
  {
  }

  lemma StepKeepsOwned(ox: Oxigraph, s: System, step: Step)
    requires Enabled(s, step) && AllOwned(s)
    ensures AllOwned(After(ox, s, step))
    ensures CallsKept(s.calls, After(ox, s, step).calls)
    ensures s.store.Some? ==> After(ox, s, step).store.Some?
  {
    var t := After(ox, s, step);
    if step.Receive? {
      ReceivedIsOwned(ox, s.store, s.inbox[0], step.thrown, s.calls);
    } else if step.Resume? {
      ResumedIsOwned(s.store, s.handlers[step.k], step.fetched, s.calls);
    } else if step.Post? {
      assert HandlerOf(s.handlers[step.k], s.calls, s.store);
    }
    StillOwned(s, t.calls, t.store);
  }

  /** A reply delivered before a call was made answers an earlier call. */
  ghost predicate OlderReplies(s: System)
  {
    forall i, k :: 0 <= i < |s.calls| && 0 <= k < s.calls[i].since && k < |s.posted| ==> s.posted[k].origin < i
  }

  lemma StepKeepsOlderReplies(ox: Oxigraph, s: System, step: Step)
    requires Enabled(s, step) && OlderReplies(s) && AllOwned(s) && AllJustified(s)
    ensures OlderReplies(After(ox, s, step))
  {
    var t := After(ox, s, step);
    forall i, k | 0 <= i < |t.calls| && 0 <= k < t.calls[i].since && k < |t.posted|
      ensures t.posted[k].origin < i
    {
      if i < |s.calls| {
        assert Justified(s.calls[i], s.posted, s.delivered);
        assert t.calls[i].since == s.calls[i].since;
        assert t.posted[k] == s.posted[k];
      } else {
        assert ReplyOf(s.posted[k], s.calls, s.store);
      }
    }
  }

  ghost predicate Invariant(s: System)
  {
    AllJustified(s) && OnePlaceEach(s) && AllOwned(s) && OlderReplies(s)
  }

  /** What a later state cannot take back: the calls, a settled outcome, a timeout, the store. */
  ghost predicate Kept(s: System, t: System)
  {
    && CallsKept(s.calls, t.calls)
    && (s.store.Some? ==> t.store.Some?)
    && (forall i :: 0 <= i < |s.calls| && !s.calls[i].outcome.Pending? ==> t.calls[i].outcome == s.calls[i].outcome)
    && (forall i :: 0 <= i < |s.calls| && s.calls[i].failed ==> t.calls[i].failed)
  }

  lemma StepKeepsInvariant(ox: Oxigraph, s: System, step: Step)
    requires Enabled(s, step) && Invariant(s)
    ensures Invariant(After(ox, s, step)) && Kept(s, After(ox, s, step))
  {
    StepKeepsJustified(ox, s, step);
    StepKeepsPlaces(ox, s, step);
    StepKeepsOwned(ox, s, step);
    StepKeepsOlderReplies(ox, s, step);
  }

  lemma {:induction false} RunKeepsInvariant(ox: Oxigraph, s: System, steps: seq<Step>)
    requires Invariant(s)
    ensures Invariant(Run(ox, s, steps)) && Kept(s, Run(ox, s, steps))
    decreases |steps|
  {
    if steps != [] {
      if Enabled(s, steps[0]) {
        StepKeepsInvariant(ox, s, steps[0]);
        RunKeepsInvariant(ox, After(ox, s, steps[0]), steps[1..]);
      } else {
        RunKeepsInvariant(ox, s, steps[1..]);
      }
    }
  }

  lemma ReachableInvariant(ox: Oxigraph, s: System)
    requires Reachable(ox, s)
    ensures Invariant(s)
  {
    var steps :| Run(ox, START, steps) == s;
    RunKeepsInvariant(ox, START, steps);
  }

  /** In every interleaving a settled promise keeps its outcome, and a store stays defined. */
  lemma SettledOnce(ox: Oxigraph, s: System, steps: seq<Step>)
    requires Reachable(ox, s)
    ensures Kept(s, Run(ox, s, steps))
  {
    ReachableInvariant(ox, s);
    RunKeepsInvariant(ox, s, steps);
  }

  lemma OnceInMultiset<T>(s: seq<T>, i: nat, j: nat)
    requires i < j < |s| && multiset(s)[s[i]] <= 1
    ensures s[i] != s[j]
  {
    RemoveAt(s, i);
    assert Without(s, i)[j - 1] == s[j];
    assert s[j] in multiset(Without(s, i));
  }

  /** At most one reply per message, also on failure and when task ids collide. */
  lemma OneReplyEach(ox: Oxigraph, s: System, i: nat, j: nat)
    requires Reachable(ox, s) && i < j < |s.posted|
    ensures s.posted[i].origin != s.posted[j].origin
  {
    ReachableInvariant(ox, s);
    assert Origins(s)[s.posted[i].origin] <= 1;
    OnceInMultiset(ReplyOrigins(s.posted), i, j);
  }

  /** Exactly one once an open worker has nothing left to do. */
  lemma AnsweredAtRest(ox: Oxigraph, s: System, i: nat)
    requires Reachable(ox, s) && s.open && s.inbox == [] && s.handlers == [] && i < |s.calls|
    ensures exists k :: 0 <= k < |s.posted| && s.posted[k].origin == i
  {
    ReachableInvariant(ox, s);
    assert Origins(s)[i] == 1;
    assert MessageOrigins(s.inbox) == [] && HandlerOrigins(s.handlers) == [];
    assert i in ReplyOrigins(s.posted);
    var k :| 0 <= k < |s.posted| && ReplyOrigins(s.posted)[k] == i;
  }

  lemma {:induction false} NoFirstReply(id: string, replies: seq<Reply>)
    ensures FirstReply(id, replies).None? <==> forall r <- replies :: r.taskID != id
  {
    if replies != [] {
      NoFirstReply(id, replies[1..]);
      assert replies == [replies[0]] + replies[1..];
    }
  }

  /** The reply to call `i` has been delivered. */
  ghost predicate Delivered(s: System, i: nat, r: Reply)
    requires s.delivered <= |s.posted|
  {
    r.origin == i && r in s.posted[..s.delivered]
  }

  lemma OwnReplyIsFirst(s: System, i: nat, r: Reply)
    requires Invariant(s) && DistinctIds(s.calls) && i < |s.calls|
    ensures FirstReply(s.calls[i].taskID, s.posted[s.calls[i].since..s.delivered]) == Some(r) ==> Delivered(s, i, r)
    ensures Delivered(s, i, r) ==> FirstReply(s.calls[i].taskID, s.posted[s.calls[i].since..s.delivered]).Some?
  {
    var c := s.calls[i];
    var heard := s.posted[c.since..s.delivered];
    assert Justified(c, s.posted, s.delivered);
    NoFirstReply(c.taskID, heard);
    if FirstReply(c.taskID, heard) == Some(r) {
      assert ReplyOf(r, s.calls, s.store);
      assert r in s.posted[..s.delivered];
    }
    if Delivered(s, i, r) {
      var k :| 0 <= k < s.delivered && s.posted[k] == r;
      assert k >= c.since;
      assert heard[k - c.since] == r;
      assert ReplyOf(r, s.calls, s.store);
    }
  }

  lemma SameOriginSameReply(s: System, a: Reply, b: Reply)
    requires Invariant(s) && a in s.posted && b in s.posted && a.origin == b.origin
    ensures a == b
  {
    var i :| 0 <= i < |s.posted| && s.posted[i] == a;
    var j :| 0 <= j < |s.posted| && s.posted[j] == b;
    assert Origins(s)[a.origin] <= 1;
    if i < j {
      OnceInMultiset(ReplyOrigins(s.posted), i, j);
    } else if j < i {
      OnceInMultiset(ReplyOrigins(s.posted), j, i);
    }
  }

  /**
   * With distinct task ids a call resolves exactly when its own reply has been delivered,
   * carries no error, and came before the timeout; it is pending exactly when neither happened.
   */
  lemma ResolvedIff(ox: Oxigraph, s: System, i: nat, r: Reply)
    requires Reachable(ox, s) && DistinctIds(s.calls) && i < |s.calls|
    ensures s.delivered <= |s.posted|
    ensures s.calls[i].outcome == Resolved(r) <==>
            !s.calls[i].failed && r.error.None? && Delivered(s, i, r)
    ensures s.calls[i].outcome.Pending? <==> !s.calls[i].failed && !exists q :: Delivered(s, i, q)
    ensures s.calls[i].failed ==> s.calls[i].outcome == Rejected(TimedOut)
  {
    ReachableInvariant(ox, s);
    var c := s.calls[i];
    var first := FirstReply(c.taskID, s.posted[c.since..s.delivered]);
    assert Justified(c, s.posted, s.delivered);
    OwnReplyIsFirst(s, i, r);
    if first.Some? {
      OwnReplyIsFirst(s, i, first.value);
      if Delivered(s, i, r) {
        SameOriginSameReply(s, r, first.value);
      }
    } else {
      forall q | Delivered(s, i, q)
        ensures false
      {
        OwnReplyIsFirst(s, i, q);
      }
    }
  }

  /** No call hangs: while it is pending its timer runs, and the timeout settles it. */
  lemma PendingCanExpire(ox: Oxigraph, s: System, i: nat)
    requires Reachable(ox, s) && i < |s.calls|
    ensures s.calls[i].outcome.Pending? <==> Enabled(s, Expire(i))
    ensures Enabled(s, Expire(i)) ==> After(ox, s, Expire(i)).calls[i].outcome == Rejected(TimedOut)
  {
    ReachableInvariant(ox, s);
    assert Justified(s.calls[i], s.posted, s.delivered);
  }

  /** Nothing from call `n` on is answered with NoStore. */
  ghost predicate StoreFoundFrom(s: System, n: nat)
  {
    && s.store.Some?
    && (forall h <- s.handlers :: h.Ready? && h.reply.answer == NoStore ==> h.reply.origin < n)
    && (forall r <- s.posted :: r.answer == NoStore ==> r.origin < n)
  }

  lemma ReceivedFindsStore(ox: Oxigraph, store: Store, m: Message, thrown: Option<string>)
    ensures var h := Received(ox, Some(store), m, thrown).1; h.Ready? ==> h.reply.answer != NoStore
  {
  }

  lemma {:induction false} RunFindsStore(ox: Oxigraph, s: System, steps: seq<Step>, n: nat)
    requires StoreFoundFrom(s, n)
    ensures StoreFoundFrom(Run(ox, s, steps), n)
    decreases |steps|
  {
    if steps != [] {
      if Enabled(s, steps[0]) {
        if steps[0].Receive? {
          ReceivedFindsStore(ox, s.store.value, s.inbox[0], steps[0].thrown);
        }
        RunFindsStore(ox, After(ox, s, steps[0]), steps[1..], n);
      } else {
        RunFindsStore(ox, s, steps[1..], n);
      }
    }
  }

  /** Once an INIT has resolved, no later query or dump is told that there is no store. */
  lemma AfterInitTheStoreIsFound(ox: Oxigraph, s: System, steps: seq<Step>, i: nat, j: nat)
    requires Reachable(ox, s) && i < |s.calls| && s.calls[i].instruction.Init? && s.calls[i].outcome.Resolved?
    requires |s.calls| <= j < |Run(ox, s, steps).calls|
    requires DistinctIds(Run(ox, s, steps).calls)
    ensures var c := Run(ox, s, steps).calls[j];
      c.outcome.Resolved? ==> c.outcome.reply.answer != NoStore
  {
    var t := Run(ox, s, steps);
    ReachableInvariant(ox, s);
    RunKeepsInvariant(ox, s, steps);
    InitLeavesStore(s, i);
    assert StoreFoundFrom(s, |s.calls|) by {
      forall r | r in s.posted ensures r.origin < |s.calls| { assert ReplyOf(r, s.calls, s.store); }
      forall h | h in s.handlers ensures h.Origin() < |s.calls| { assert HandlerOf(h, s.calls, s.store); }
    }
    RunFindsStore(ox, s, steps, |s.calls|);
    var c := t.calls[j];
    if c.outcome.Resolved? {
      assert Justified(c, t.posted, t.delivered);
      OwnReplyIsFirst(t, j, c.outcome.reply);
      assert c.outcome.reply in t.posted;
    }
  }

  lemma InitLeavesStore(s: System, i: nat)
    requires Invariant(s) && DistinctIds(s.calls)
    requires i < |s.calls| && s.calls[i].instruction.Init? && s.calls[i].outcome.Resolved?
    ensures s.store.Some?
  {
    var c := s.calls[i];
    assert Justified(c, s.posted, s.delivered);
    OwnReplyIsFirst(s, i, c.outcome.reply);
    assert ReplyOf(c.outcome.reply, s.calls, s.store);
  }

  /** Two calls that drew one id: the query resolves with the reply to the INIT. */
  lemma CollidingIdsMixReplies(ox: Oxigraph)
    ensures var t := Run(ox, START,
        [Send("a", Init("")), Send("a", Query("q")), Receive(None), Resume(0, None), Post(0), Deliver]);
      t.calls[1].instruction.Query? && t.calls[1].outcome == Resolved(Reply("a", 0, Initialized, None))
  {
  }
}
