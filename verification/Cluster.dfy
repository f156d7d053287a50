/** A cluster of Raft nodes and the messages they have sent. Messages stay available for ever,
    so they can be lost, delayed, reordered and delivered any number of times. A run is a list
    of events; an event whose guard fails changes nothing.
    `elections`, `commits`, `tally` and `samples` are history: no guard reads the first three,
    and a sample only ties the heartbeats of one read together. */
module Cluster {
  import opened Quorums
  import opened RaftNode

  /** A won election: the winner, each counted voter with its log at the time of its vote, the
      winner's log length then, and the winner's log as it grows during the term. */
  datatype Election = Election(leader: nat, voters: map<nat, seq<Entry>>, start: nat, log: seq<Entry>)

  type Elections = map<nat, Election>

  /** Committed positions (term of the committing leader, index) with the nodes that held them. */
  type Commits = map<(nat, nat), set<nat>>

  /** Calls carry their arguments into their answers, as the waiting goroutine keeps them.
      `seen` is the voter's log when it answers. `round` names the heartbeat round of a read;
      it is zero for ordinary replication. */
  datatype Msg =
    | VoteRequest(vote: VoteArgs)
    | VoteAnswer(from: nat, vote: VoteArgs, granted: VoteReply, seen: seq<Entry>)
    | AppendRequest(to: nat, args: AppendArgs, round: nat)
    | AppendAnswer(from: nat, args: AppendArgs, reply: AppendReply, round: nat)
    | SnapRequest(to: nat, snap: SnapArgs)
    | SnapAnswer(from: nat, snap: SnapArgs, term: nat)

  /** One vote call: made once per peer and election, answered at most once. */
  datatype Call = Call(candidate: nat, term: nat, peer: nat)
  datatype Ballot = Ballot(call: Call, seen: seq<Entry>)

  /** What a leader knew, and what the cluster had done, when a read sampled its commit index. */
  datatype Sample = Sample(node: nat, term: nat, commit: nat, log: seq<Entry>,
                           elections: Elections, commits: Commits)

  datatype Cluster = Cluster(
    nodes: seq<Node>,
    msgs: set<Msg>,
    calls: set<Call>,
    passed: set<Ballot>,
    tally: seq<map<nat, seq<Entry>>>,
    elections: Elections,
    commits: Commits,
    samples: map<nat, Sample>)

  datatype Event =
    | Timeout(node: nat)
    | DeliverVote(node: nat, args: VoteArgs)
    | DeliverVoteAnswer(msg: Msg)
    | Count(ballot: Ballot, late: bool)
    | ClientCommand(node: nat, command: Op)
    | SendAppend(node: nat, to: nat, prev: nat, full: bool, round: nat)
    | DeliverAppend(msg: Msg)
    | DeliverAppendAnswer(msg: Msg)
    | TakeSnapshot(node: nat, index: nat)
    | SendSnapshot(node: nat, to: nat)
    | DeliverSnapshot(msg: Msg)
    | DeliverSnapshotAnswer(msg: Msg)
    | Save(node: nat)
    | Crash(node: nat, snap: nat)
    | SampleRead(node: nat, round: nat)

  predicate Sized(s: Cluster) { |s.nodes| == |s.tally| }

  function Initial(nodes: nat): Cluster {
    Cluster(seq(nodes, _ => NewNode()), {}, {}, {}, seq(nodes, _ => map[]), map[], map[], map[])
  }

  function Put(s: Cluster, j: nat, n: Node): (s': Cluster)
    requires Sized(s) && j < |s.nodes|
    ensures Sized(s')
  {
    s.(nodes := s.nodes[j := n])
  }

  function Send(s: Cluster, m: Msg): (s': Cluster)
    requires Sized(s)
    ensures Sized(s')
  {
    s.(msgs := s.msgs + {m})
  }

  function CallPeers(nodes: nat, c: nat, term: nat): set<Call> {
    set p | p in All(nodes) && p != c :: Call(c, term, p)
  }

  function ApplyTimeout(s: Cluster, c: nat): (s': Cluster)
    requires Sized(s) && c < |s.nodes|
  {
    var (n, a) := StartElection(s.nodes[c], c);
    Put(s, c, n).(
      msgs := s.msgs + {VoteRequest(a), VoteAnswer(c, a, VoteReply(a.term, true), n.log)},
      calls := s.calls + CallPeers(|s.nodes|, c, a.term),
      tally := s.tally[c := map[c := n.log]])
  }

  function ApplyVote(s: Cluster, j: nat, a: VoteArgs): (s': Cluster)
    requires Sized(s) && j < |s.nodes|
  {
    var (n, reply) := HandleVote(s.nodes[j], a);
    Send(Put(s, j, n), VoteAnswer(j, a, reply, s.nodes[j].log))
  }

  function ApplyVoteAnswer(s: Cluster, m: Msg): (s': Cluster)
    requires Sized(s) && m.VoteAnswer? && m.vote.candidate < |s.nodes|
  {
    var c := m.vote.candidate;
    var call := Call(c, m.vote.term, m.from);
    var (n, pass) := HandleVoteReply(s.nodes[c], m.vote.term, m.granted);
    Put(s, c, n).(
      calls := s.calls - {call},
      passed := s.passed + if pass then {Ballot(call, m.seen)} else {})
  }

  ghost function ApplyCount(r: Rules, s: Cluster, b: Ballot, late: bool): (s': Cluster)
    requires Sized(s) && b.call.candidate < |s.nodes|
  {
    var c := b.call.candidate;
    var before := s.nodes[c];
    var n := CountVote(r, before, b.call.term, late);
    var tally: map<nat, seq<Entry>> :=
      if n.voteCount == before.voteCount then s.tally[c] else s.tally[c][b.call.peer := b.seen];
    Put(s, c, n).(
      passed := s.passed - {b},
      tally := s.tally[c := tally],
      elections := if n.role == before.role then s.elections
                   else s.elections[n.term := Election(c, tally, |n.log|, n.log)])
  }

  function ApplyCommand(s: Cluster, c: nat, command: Op): (s': Cluster)
    requires Sized(s) && c < |s.nodes|
  {
    var n := Submit(s.nodes[c], command);
    Put(s, c, n).(
      elections := if n.role.Leader? && n.term in s.elections
                   then s.elections[n.term := s.elections[n.term].(log := n.log)] else s.elections)
  }

  function ApplyAppend(r: Rules, s: Cluster, m: Msg): (s': Cluster)
    requires Sized(s) && m.AppendRequest? && m.to < |s.nodes|
  {
    var (n, reply) := HandleAppend(r, s.nodes[m.to], m.args);
    Send(Put(s, m.to, n), AppendAnswer(m.to, m.args, reply, m.round))
  }

  function ApplyAppendAnswer(s: Cluster, m: Msg): (s': Cluster)
    requires Sized(s) && m.AppendAnswer? && m.args.leader < |s.nodes|
  {
    var c := m.args.leader;
    var n := HandleAppendReply(|s.nodes|, s.nodes[c], c, m.from, m.args, m.reply);
    Put(s, c, n).(
      commits := if n.commit > s.nodes[c].commit
                 then s.commits[(n.term, n.commit) := Holders(|s.nodes|, c, n.matchIndex, n.commit)]
                 else s.commits)
  }

  predicate CanSend(s: Cluster, c: nat, to: nat) {
    c < |s.nodes| && to < |s.nodes| && to != c && s.nodes[c].role.Leader?
  }

  ghost function Apply(r: Rules, s: Cluster, e: Event): (s': Cluster)
    requires Sized(s)
    ensures Sized(s') && |s'.nodes| == |s.nodes|
  {
    match e
    case Timeout(c) =>
      if c < |s.nodes| then ApplyTimeout(s, c) else s
    case DeliverVote(j, a) =>
      if VoteRequest(a) in s.msgs && j < |s.nodes| && j != a.candidate then ApplyVote(s, j, a) else s
    case DeliverVoteAnswer(m) =>
      if m in s.msgs && m.VoteAnswer? && m.vote.candidate < |s.nodes|
         && Call(m.vote.candidate, m.vote.term, m.from) in s.calls
      then ApplyVoteAnswer(s, m) else s
    case Count(b, late) =>
      if b in s.passed && b.call.candidate < |s.nodes| then ApplyCount(r, s, b, late) else s
    case ClientCommand(c, command) =>
      if c < |s.nodes| then ApplyCommand(s, c, command) else s
    case SendAppend(c, to, prev, full, round) =>
      if CanSend(s, c, to) && s.nodes[c].snap <= prev < |s.nodes[c].log|
         && (round == 0 || (round in s.samples && s.samples[round].node == c))
      then Send(s, AppendRequest(to, Request(s.nodes[c], c, prev, full), round)) else s
    case DeliverAppend(m) =>
      if m in s.msgs && m.AppendRequest? && m.to < |s.nodes| then ApplyAppend(r, s, m) else s
    case DeliverAppendAnswer(m) =>
      if m in s.msgs && m.AppendAnswer? && m.args.leader < |s.nodes| then ApplyAppendAnswer(s, m) else s
    case TakeSnapshot(j, index) =>
      if j < |s.nodes| then Put(s, j, Compact(s.nodes[j], index)) else s
    case SendSnapshot(c, to) =>
      if CanSend(s, c, to) && s.nodes[c].snap < |s.nodes[c].log| then
        var n := s.nodes[c];
        Send(s, SnapRequest(to, SnapArgs(n.term, c, n.snap, n.log[n.snap].term)))
      else s
    case DeliverSnapshot(m) =>
      if m in s.msgs && m.SnapRequest? && m.to < |s.nodes| then
        var n := Install(s.nodes[m.to], m.snap);
        Send(Put(s, m.to, n), SnapAnswer(m.to, m.snap, n.term))
      else s
    case DeliverSnapshotAnswer(m) =>
      if m in s.msgs && m.SnapAnswer? && m.snap.leader < |s.nodes|
      then Put(s, m.snap.leader, InstallReply(s.nodes[m.snap.leader], m.from, m.term)) else s
    case Save(j) =>
      if j < |s.nodes| then Put(s, j, Persist(s.nodes[j])) else s
    case Crash(j, snap) =>
      if j < |s.nodes| && snap <= s.nodes[j].saved.snap then
        Put(s, j, Restart(s.nodes[j], snap)).(
          calls := (set k | k in s.calls && k.candidate != j),
          passed := (set b | b in s.passed && b.call.candidate != j))
      else s
    case SampleRead(c, round) =>
      if c < |s.nodes| && s.nodes[c].role.Leader? && round > 0 && round !in s.samples then
        var n := s.nodes[c];
        s.(samples := s.samples[round := Sample(c, n.term, n.commit, n.log, s.elections, s.commits)])
      else s
  }

  /** The node a step is about. */
  function Actor(e: Event): nat {
    match e
    case DeliverVoteAnswer(m) => if m.VoteAnswer? then m.vote.candidate else 0
    case Count(b, _) => b.call.candidate
    case DeliverAppend(m) => if m.AppendRequest? then m.to else 0
    case DeliverAppendAnswer(m) => if m.AppendAnswer? then m.args.leader else 0
    case DeliverSnapshot(m) => if m.SnapRequest? then m.to else 0
    case DeliverSnapshotAnswer(m) => if m.SnapAnswer? then m.snap.leader else 0
    case _ => e.node
  }

  predicate IsLeader(s: Cluster, j: nat, term: nat) {
    j < |s.nodes| && s.nodes[j].role.Leader? && s.nodes[j].term == term
  }

  /** The state after a run. */
  ghost function Run(r: Rules, events: seq<Event>): (s: Cluster)
    ensures Sized(s) && |s.nodes| == r.nodes
    decreases |events|
  {
    if events == [] then Initial(r.nodes)
    else Apply(r, Run(r, events[..|events| - 1]), events[|events| - 1])
  }

  lemma RunSnoc(r: Rules, events: seq<Event>, e: Event)
    ensures Run(r, events + [e]) == Apply(r, Run(r, events), e)
  {
    assert (events + [e])[..|events + [e]| - 1] == events;
  }
}
