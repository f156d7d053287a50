/** A server's store is the replay of the log up to what it has applied, whatever mixture of
    commands, repeats, snapshots and restarts it was fed. */
module KvReplay {
  import opened Basics
  import opened RaftNode
  import opened Cluster
  import opened Commands
  import opened ClusterSafety
  import ReadIndex
  import opened KvMachine
  import opened KvServer
  import opened KvValues

  /** What reaches a server, for a log whose entry number i is log[i - 1]. Snapshots carry the
      store of the log up to their index. */
  datatype Feed =
    | Committed(index: nat, term: int)
    | Image(index: nat)
    | Begun(incrId: nat, term: int)
    | Reboot

  predicate Within(n: nat, f: Feed) {
    match f
    case Committed(i, _) => 1 <= i <= n
    case Image(i) => i <= n
    case _ => true
  }

  predicate AllWithin(n: nat, feeds: seq<Feed>) { forall k :: 0 <= k < |feeds| ==> Within(n, feeds[k]) }

  const Fresh0: State := State(Empty, map[], 0)

  function Fed(always: bool, log: seq<Op>, s: State, f: Feed): State
    requires Within(|log|, f)
  {
    match f
    case Committed(i, term) => Deliver(always, s, i, term, log[i - 1])
    case Image(i) => Restored(s, i, Some(Machine(log[..i])))
    case Begun(incrId, term) => s.(pending := s.pending[incrId := term])
    case Reboot => Fresh0
  }

  function After(always: bool, log: seq<Op>, feeds: seq<Feed>): State
    requires AllWithin(|log|, feeds)
  {
    if feeds == [] then Fresh0
    else Fed(always, log, After(always, log, feeds[..|feeds| - 1]), feeds[|feeds| - 1])
  }

  /** How far a server gets depends on the indices alone. */
  function Reached(feeds: seq<Feed>): nat {
    if feeds == [] then 0
    else
      var a := Reached(feeds[..|feeds| - 1]);
      match feeds[|feeds| - 1]
      case Committed(i, _) => if i <= a then a else i
      case Image(i) => if i < a then a else i
      case Begun(_, _) => a
      case Reboot => 0
  }

  /** No command overtakes the one before it: each is a repeat or the next in line. */
  predicate InLine(feeds: seq<Feed>) {
    forall k :: 0 <= k < |feeds| && feeds[k].Committed? ==> feeds[k].index <= Reached(feeds[..k]) + 1
  }

  /** The store equals the full replay after every feed. */
  ghost predicate Faithful(log: seq<Op>, feeds: seq<Feed>)
    requires AllWithin(|log|, feeds)
  {
    forall k :: 0 <= k <= |feeds| ==> Replayed(log, feeds[..k])
  }

  predicate Replayed(log: seq<Op>, feeds: seq<Feed>)
    requires AllWithin(|log|, feeds)
  {
    Reached(feeds) <= |log| && After(true, log, feeds).store == Machine(log[..Reached(feeds)])
  }

  lemma {:induction false} AppliedIsReached(always: bool, log: seq<Op>, feeds: seq<Feed>)
    requires AllWithin(|log|, feeds)
    ensures After(always, log, feeds).applied == Reached(feeds) <= |log|
    decreases |feeds|
  {
    if feeds != [] {
      AppliedIsReached(always, log, feeds[..|feeds| - 1]);
    }
  }

  /** One feed that is a repeat, the next in line, a snapshot or a restart. */
  lemma FedReplays(log: seq<Op>, s: State, f: Feed)
    requires Within(|log|, f) && s.applied <= |log| && s.store == Machine(log[..s.applied])
    requires f.Committed? ==> f.index <= s.applied + 1
    ensures var s' := Fed(true, log, s, f); s'.applied <= |log| && s'.store == Machine(log[..s'.applied])
  {
    if f.Committed? && f.index > s.applied {
      MachineSnoc(log, s.applied);
    }
  }

  /** Snapshot plus suffix equals full replay: in-line feeds leave the store of the whole log up
      to the last applied entry, for every log. */
  lemma {:induction false} ReplayIsFull(log: seq<Op>, feeds: seq<Feed>)
    requires AllWithin(|log|, feeds) && InLine(feeds)
    ensures Replayed(log, feeds)
    decreases |feeds|
  {
    if feeds != [] {
      var k := |feeds| - 1;
      var front := feeds[..k];
      InLineFront(feeds, k);
      ReplayIsFull(log, front);
      AppliedIsReached(true, log, front);
      FedReplays(log, After(true, log, front), feeds[k]);
      AppliedIsReached(true, log, feeds);
    }
  }

  lemma InLineFront(feeds: seq<Feed>, k: nat)
    requires InLine(feeds) && k <= |feeds|
    ensures InLine(feeds[..k])
  {
    forall j | 0 <= j < k && feeds[j].Committed? ensures feeds[j].index <= Reached(feeds[..k][..j]) + 1 {
      assert feeds[..k][..j] == feeds[..j];
    }
  }

  /** A log that tells whether entry number `lost` was applied. */
  function Telltale(n: nat, lost: nat): (log: seq<Op>)
    ensures |log| == n
    ensures forall i :: 0 <= i < n ==> log[i] == Op(PUT, i, 0, if i + 1 == lost then "x" else "y", "v")
  {
    seq(n, i requires 0 <= i < n => Op(PUT, i, 0, if i + 1 == lost then "x" else "y", "v"))
  }

  lemma {:induction false} TelltaleStore(n: nat, lost: nat, k: nat)
    requires k <= n
    ensures "x" in Machine(Telltale(n, lost)[..k]).db <==> 1 <= lost <= k
    decreases k
  {
    var log := Telltale(n, lost);
    if k > 0 {
      TelltaleStore(n, lost, k - 1);
      MachineSnoc(log, k - 1);
      ExecutedExactly(log, k - 1);
    }
  }

  /** A command that overtakes an entry leaves that entry out for some log. */
  lemma GapLoses(n: nat, feeds: seq<Feed>, k: nat)
    requires AllWithin(n, feeds) && k < |feeds| && InLine(feeds[..k])
    requires feeds[k].Committed? && feeds[k].index > Reached(feeds[..k]) + 1
    ensures !Replayed(Telltale(n, Reached(feeds[..k]) + 1), feeds[..k + 1])
  {
    var front := feeds[..k];
    var a := Reached(front);
    var log := Telltale(n, a + 1);
    assert feeds[..k + 1][..k] == front;
    ReplayIsFull(log, front);
    AppliedIsReached(true, log, front);
    TelltaleStore(n, a + 1, a);
    TelltaleStore(n, a + 1, feeds[k].index);
  }

  /** Exactly the in-line feeds are faithful to every log. A command may overtake a snapshot: the
      snapshot's index is announced as applied before the snapshot is handed over. */
  lemma FaithfulExactly(n: nat, feeds: seq<Feed>)
    requires AllWithin(n, feeds)
    ensures InLine(feeds) <==> forall log: seq<Op> :: |log| == n ==> Faithful(log, feeds)
  {
    if InLine(feeds) {
      forall log: seq<Op> | |log| == n ensures Faithful(log, feeds) {
        forall k | 0 <= k <= |feeds| ensures Replayed(log, feeds[..k]) {
          InLineFront(feeds, k);
          ReplayIsFull(log, feeds[..k]);
        }
      }
    } else {
      var k := FirstGap(feeds);
      GapLoses(n, feeds, k);
      var log := Telltale(n, Reached(feeds[..k]) + 1);
      assert !Replayed(log, feeds[..k + 1]);
      assert |log| == n && !Faithful(log, feeds);
    }
  }

  lemma {:induction false} FirstGap(feeds: seq<Feed>) returns (k: nat)
    requires !InLine(feeds)
    ensures k < |feeds| && InLine(feeds[..k])
    ensures feeds[k].Committed? && feeds[k].index > Reached(feeds[..k]) + 1
    decreases |feeds|
  {
    k := |feeds| - 1;
    var front := feeds[..k];
    if !InLine(front) {
      k := FirstGap(front);
      assert front[..k] == feeds[..k];
    } else {
      forall j | 0 <= j < k && feeds[j].Committed? ensures feeds[j].index <= Reached(feeds[..j]) + 1 {
        assert front[j] == feeds[j] && front[..j] == feeds[..j];
      }
    }
  }

  /** A snapshot that cannot be read counts as applied all the same. The store then is that of the log,
      whatever the log, exactly when the snapshot would have brought nothing new. */
  lemma UnreadableExactly(n: nat, applied: nat, pending: map<nat, int>, index: nat)
    requires applied <= index <= n
    ensures (forall ops: seq<Op> :: |ops| == n ==>
               Restored(State(Machine(ops[..applied]), pending, applied), index, None)
                 == State(Machine(ops[..index]), pending, index))
            <==> index == applied
  {
    if applied < index {
      var ops := Telltale(n, applied + 1);
      TelltaleStore(n, applied + 1, applied);
      TelltaleStore(n, applied + 1, index);
      assert Restored(State(Machine(ops[..applied]), pending, applied), index, None).store != Machine(ops[..index]);
    }
  }

  // ---- the recording rule as written ----

  /** The code records an execution only if the server itself started the request in the entry's
      term. Its step agrees with the intended one exactly when nothing goes unrecorded. */
  lemma RecordingAgreesExactly(s: State, index: nat, term: int, op: Op)
    ensures Deliver(false, s, index, term, op) == Deliver(true, s, index, term, op) <==>
      index <= s.applied || !Needed(s.store.history, op) || StartedHere(s.pending, op.incrId, term)
  {
    if index > s.applied && Needed(s.store.history, op) && !StartedHere(s.pending, op.incrId, term) {
      var kept, recorded := s.store.history, Execute(s.store, op).history;
      assert op.clerkId in recorded && recorded[op.clerkId].incrId == op.incrId;
      assert kept != recorded;
    }
  }

  /** A repeat of an executed request is suppressed exactly when the first delivery was started
      here in its term. */
  lemma RepeatSuppressedExactly(s: State, index: nat, term: int, op: Op)
    requires index > s.applied && Needed(s.store.history, op)
    ensures !Needed(Deliver(false, s, index, term, op).store.history, op) <==> StartedHere(s.pending, op.incrId, term)
  {
  }

  /** A follower, which starts nothing, appends twice for a request that is in the log twice. */
  lemma FollowerRepeats(op: Op)
    requires op.optype == APPEND && op.value != ""
    ensures After(false, [op, op], [Committed(1, 1), Committed(2, 1)]).store.db == map[op.key := op.value + op.value]
    ensures After(true, [op, op], [Committed(1, 1), Committed(2, 1)]).store.db == map[op.key := op.value]
    ensures !Needed(Machine([op]).history, op)
  {
    var feeds := [Committed(1, 1), Committed(2, 1)];
    assert feeds[..1] == [Committed(1, 1)] && [Committed(1, 1)][..0] == [];
    assert [op][..0] == [];
    assert After(false, [op, op], feeds[..1]).store == Store(map[op.key := op.value], map[]);
    assert After(true, [op, op], feeds[..1]).store.db == map[op.key := op.value];
  }

  /** Everything delivered to the server was recorded. */
  ghost predicate AllRecorded(log: seq<Op>, feeds: seq<Feed>)
    requires AllWithin(|log|, feeds)
  {
    forall k :: 0 <= k < |feeds| && feeds[k].Committed? ==> Recorded(log, feeds, k)
  }

  predicate Recorded(log: seq<Op>, feeds: seq<Feed>, k: nat)
    requires AllWithin(|log|, feeds) && k < |feeds| && feeds[k].Committed?
  {
    var s, op := After(false, log, feeds[..k]), log[feeds[k].index - 1];
    feeds[k].index <= s.applied || !Needed(s.store.history, op) || StartedHere(s.pending, op.incrId, feeds[k].term)
  }

  lemma RecordedFront(log: seq<Op>, feeds: seq<Feed>, k: nat)
    requires AllWithin(|log|, feeds) && AllRecorded(log, feeds) && k <= |feeds|
    ensures AllRecorded(log, feeds[..k])
  {
    var front := feeds[..k];
    forall j | 0 <= j < k && front[j].Committed? ensures Recorded(log, front, j) {
      assert front[..j] == feeds[..j] && Recorded(log, feeds, j);
    }
  }

  /** As long as every execution gets recorded, the code as written runs as intended. */
  lemma {:induction false} RecordedRunsAgree(log: seq<Op>, feeds: seq<Feed>)
    requires AllWithin(|log|, feeds) && AllRecorded(log, feeds)
    ensures After(false, log, feeds) == After(true, log, feeds)
    decreases |feeds|
  {
    if feeds != [] {
      var k := |feeds| - 1;
      var front := feeds[..k];
      RecordedFront(log, feeds, k);
      RecordedRunsAgree(log, front);
      if feeds[k].Committed? {
        assert Recorded(log, feeds, k);
        RecordingAgreesExactly(After(false, log, front), feeds[k].index, feeds[k].term, log[feeds[k].index - 1]);
      }
    }
  }

  // ---- reads ----

  /** Feeds that leave the store of the log: in line, and recorded if recording is as written. */
  ghost predicate Sane(always: bool, ops: seq<Op>, feeds: seq<Feed>) {
    AllWithin(|ops|, feeds) && InLine(feeds) && (always || AllRecorded(ops, feeds))
  }

  lemma SaneReplays(always: bool, ops: seq<Op>, feeds: seq<Feed>)
    requires Sane(always, ops, feeds)
    ensures Reached(feeds) <= |ops| && After(always, ops, feeds).applied == Reached(feeds)
    ensures After(always, ops, feeds).store == Machine(ops[..Reached(feeds)])
  {
    AppliedIsReached(always, ops, feeds);
    ReplayIsFull(ops, feeds);
    if !always {
      RecordedRunsAgree(ops, feeds);
    }
  }

  /** The first i requests of a node's log are the same for all nodes that have committed them, at any
      two moments. */
  lemma SameRequests(r: Rules, events: seq<Event>, more: seq<Event>, a: nat, b: nat, i: nat)
    requires Sound(r) && a < r.nodes && b < r.nodes
    requires i <= Run(r, events).nodes[a].commit && i <= Run(r, events + more).nodes[b].commit
    ensures var (x, y) := (Requests(Run(r, events).nodes[a].log), Requests(Run(r, events + more).nodes[b].log));
            i <= |x| && i <= |y| && x[..i] == y[..i]
  {
    StateMachineSafety(r, events, more, a, b, i);
    RequestsOfRun(r, events, a, i);
    RequestsOfRun(r, events + more, b, i);
  }

  /** Two servers fed in line from any two nodes, or from one node twice, at any two moments, up to the
      same committed index, hold the same store. */
  lemma SameStores(r: Rules, events: seq<Event>, more: seq<Event>, a: nat, b: nat,
                   always: bool, feeds: seq<Feed>, always': bool, feeds': seq<Feed>)
    requires Sound(r) && a < r.nodes && b < r.nodes && Reached(feeds) == Reached(feeds')
    requires Reached(feeds) <= Run(r, events).nodes[a].commit
    requires Reached(feeds') <= Run(r, events + more).nodes[b].commit
    requires Sane(always, Requests(Run(r, events).nodes[a].log), feeds)
    requires Sane(always', Requests(Run(r, events + more).nodes[b].log), feeds')
    ensures After(always, Requests(Run(r, events).nodes[a].log), feeds).store
              == After(always', Requests(Run(r, events + more).nodes[b].log), feeds').store
  {
    SameRequests(r, events, more, a, b, Reached(feeds));
    SaneReplays(always, Requests(Run(r, events).nodes[a].log), feeds);
    SaneReplays(always', Requests(Run(r, events + more).nodes[b].log), feeds');
  }

  /** A read served by the leader: the server has been fed the leader's log up to x.applied, and
      waits for the index sampled for this read. */
  ghost predicate Serving(r: Rules, x: ReadIndex.Read, always: bool, feeds: seq<Feed>, op: Op)
    requires x.node < r.nodes
  {
    var ops := Requests(ReadIndex.After(r, x).nodes[x.node].log);
    && op.optype == GET && Sane(always, ops, feeds) && Reached(feeds) == x.applied
    && var commit := ReadIndex.Before(r, x).nodes[x.node].commit;
       Awaited(After(always, ops, feeds), op, commit) == commit
  }

  /** Its answer is the value its key has after the first x.applied requests of the leader's log. */
  lemma ReadAnswers(r: Rules, x: ReadIndex.Read, term: nat, always: bool, feeds: seq<Feed>, op: Op)
    requires Sound(r) && ReadIndex.ServedIn(r, x, term) && Serving(r, x, always, feeds, op)
    ensures var (log, commit) := (ReadIndex.After(r, x).nodes[x.node].log, ReadIndex.Before(r, x).nodes[x.node].commit);
            var sent := ReadSent(After(always, Requests(log), feeds), op, commit, true);
            && x.applied < |log| && sent.Some?
            && Responds(Fresh(Requests(log[..x.applied + 1])), op, sent.value)
  {
    var log := ReadIndex.After(r, x).nodes[x.node].log;
    ReadIndex.AppliedInLog(r, x, term);
    RequestsOfRun(r, ReadIndex.Whole(x), x.node, x.applied);
    SaneReplays(always, Requests(log), feeds);
    ExecutedAnswer(Requests(log)[..x.applied], op);
  }

  /** And those requests begin with all that any node had committed when the index was sampled, if
      the leader had committed an entry of its own term by then and the heartbeats were taken at most
      one term later. */
  lemma ReadSeesCommitted(r: Rules, x: ReadIndex.Read, term: nat, j: nat, i: nat)
    requires Sound(r) && ReadIndex.ServedIn(r, x, term) && ReadIndex.Settled(r, x)
    requires term <= ReadIndex.SampleTerm(r, x) + 1
    requires j < r.nodes && i <= ReadIndex.Before(r, x).nodes[j].commit
    ensures var (a, b) := (ReadIndex.Before(r, x).nodes[j].log, ReadIndex.After(r, x).nodes[x.node].log);
            && i < |a| && i <= x.applied < |b| && |Requests(b)| == |b| - 1
            && Requests(a[..i + 1]) == Requests(b)[..i] && Requests(b[..x.applied + 1]) == Requests(b)[..x.applied]
  {
    ReadIndex.ReadReflectsCommitted(r, x, term);
    assert ReadIndex.Reflects(r, x, j, i);
    ReadIndex.AppliedInLog(r, x, term);
    RequestsOfRun(r, ReadIndex.Whole(x), x.node, x.applied);
    RequestsOfRun(r, ReadIndex.Whole(x), x.node, i);
  }

  /** A turn of the read queue for a read that is not in the table: the index is sampled at x.node, the
      heartbeat round says `confirmed` only if a quorum has answered in `term`, and the server has been
      fed the node's log up to x.applied by then. */
  ghost predicate Turn(r: Rules, x: ReadIndex.Read, term: nat, always: bool, feeds: seq<Feed>, op: Op, confirmed: bool)
  {
    && x.node < r.nodes && x.round > 0 && op.optype == GET
    && var (s0, s) := (ReadIndex.Before(r, x), ReadIndex.After(r, x));
    && s0.nodes[x.node].role.Leader? && x.round !in s0.samples && x.applied <= s.nodes[x.node].commit
    && (confirmed && x.round in s.samples ==> ReadIndex.ConfirmedIn(s, x.round, x.q, term))
    && Sane(always, Requests(s.nodes[x.node].log), feeds) && Reached(feeds) == x.applied
    && op.incrId !in After(always, Requests(s.nodes[x.node].log), feeds).pending
  }

  ghost function TurnSent(r: Rules, x: ReadIndex.Read, always: bool, feeds: seq<Feed>, op: Op, confirmed: bool)
    : Option<Response>
    requires x.node < r.nodes && AllWithin(|Requests(ReadIndex.After(r, x).nodes[x.node].log)|, feeds)
  {
    ReadSent(After(always, Requests(ReadIndex.After(r, x).nodes[x.node].log), feeds), op,
             ReadIndex.Before(r, x).nodes[x.node].commit, confirmed)
  }

  /** Whatever such a turn answers with data has been confirmed by a quorum and waited for its sample. */
  lemma DataIsServed(r: Rules, x: ReadIndex.Read, term: nat, always: bool, feeds: seq<Feed>, op: Op, confirmed: bool)
    requires Sound(r) && Turn(r, x, term, always, feeds, op, confirmed)
    requires var sent := TurnSent(r, x, always, feeds, op, confirmed); sent.Some? && IsData(sent.value)
    ensures confirmed && ReadIndex.ServedIn(r, x, term) && Serving(r, x, always, feeds, op)
  {
    var ops, commit := Requests(ReadIndex.After(r, x).nodes[x.node].log), ReadIndex.Before(r, x).nodes[x.node].commit;
    ReadIndex.SampleTaken(r, x);
    AppliedIsReached(always, ops, feeds);
    UnlistedTurn(After(always, ops, feeds), op, commit, confirmed);
  }

  /** And if the leader had committed an entry of its own term and the heartbeats were taken at most one
      term later, the data is that of a log that begins with all that any node had committed. */
  lemma DataIsFresh(r: Rules, x: ReadIndex.Read, term: nat, always: bool, feeds: seq<Feed>, op: Op, confirmed: bool)
    requires Sound(r) && Turn(r, x, term, always, feeds, op, confirmed)
    requires var sent := TurnSent(r, x, always, feeds, op, confirmed); sent.Some? && IsData(sent.value)
    requires ReadIndex.Settled(r, x) && term <= ReadIndex.SampleTerm(r, x) + 1
    ensures ReadIndex.Fresh(r, x) && x.applied < |ReadIndex.After(r, x).nodes[x.node].log|
    ensures Responds(Fresh(Requests(ReadIndex.After(r, x).nodes[x.node].log[..x.applied + 1])), op,
                     TurnSent(r, x, always, feeds, op, confirmed).value)
  {
    DataIsServed(r, x, term, always, feeds, op, confirmed);
    ReadIndex.ReadReflectsCommitted(r, x, term);
    ReadAnswers(r, x, term, always, feeds, op);
  }

  // ---- writes ----

  /** A server fed in line up to an entry answers it, if it is no repeat, with its own result at that
      place of the log; marked exactly when its number is in the table under another term. */
  lemma CommandAnswered(always: bool, ops: seq<Op>, feeds: seq<Feed>, term: int)
    requires Sane(always, ops, feeds) && Reached(feeds) < |ops| && Latest(ops, Reached(feeds))
    ensures var (i, s) := (Reached(feeds), After(always, ops, feeds));
            && Sent(s, i + 1, term, ops[i]).Some?
            && exists v :: Responds(Fresh(ops[..i]), ops[i], v)
                 && Marked(v, Sent(s, i + 1, term, ops[i]).value, Elsewhere(s.pending, ops[i].incrId, term))
  {
    var i := Reached(feeds);
    SaneReplays(always, ops, feeds);
    assert Latest(ops[..i] + [ops[i]], i) by {
      assert forall j :: 0 <= j < i ==> (ops[..i] + [ops[i]])[j] == ops[j];
    }
    NewAnswered(ops[..i], After(always, ops, feeds), i + 1, term, ops[i]);
  }

  // ---- numbers shared between reads and writes ----

  /** The table of read indices also holds the start terms of writes, by request number alone. A
      read whose number a write of another clerk has put there is answered, unsampled and with or
      without a leader, as soon as that many entries are applied as the write's term says. */
  lemma SharedNumberServes(always: bool, ops: seq<Op>, feeds: seq<Feed>, op: Op, term: nat,
                           commit: nat, confirmed: bool)
    requires Sane(always, ops, feeds) && op.optype == GET && term <= Reached(feeds)
    ensures AllWithin(|ops|, feeds + [Begun(op.incrId, term)]) && Reached(feeds) <= |ops|
    ensures ReadSent(After(always, ops, feeds + [Begun(op.incrId, term)]), op, commit, confirmed)
              == Some(Answer(Machine(ops[..Reached(feeds)]).db, op))
  {
    var more := feeds + [Begun(op.incrId, term)];
    assert more[..|more| - 1] == feeds;
    SaneReplays(always, ops, feeds);
  }
}
