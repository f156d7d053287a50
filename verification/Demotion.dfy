/** Terms: what a node does on seeing a term other than its own, whatever kind of message carries it,
    in every run and under every variant of the rules. */
module Demotion {
  import opened Basics
  import opened Quorums
  import opened RaftNode
  import opened Cluster

  /** The term a message carries for its receiver. */
  function TermOf(m: Msg): nat {
    match m
    case VoteRequest(a) => a.term
    case VoteAnswer(_, _, v, _) => v.term
    case AppendRequest(_, a, _) => a.term
    case AppendAnswer(_, _, v, _) => v.term
    case SnapRequest(_, a) => a.term
    case SnapAnswer(_, _, t) => t
  }

  /** Event e has node j handle message m. */
  ghost predicate Delivers(s: Cluster, e: Event, j: nat, m: Msg) {
    && m in s.msgs && j < |s.nodes|
    && match e
       case DeliverVote(k, a) => m == VoteRequest(a) && j == k && k != a.candidate
       case DeliverVoteAnswer(x) => m == x && x.VoteAnswer? && j == x.vote.candidate
                                    && Call(j, x.vote.term, x.from) in s.calls
       case DeliverAppend(x) => m == x && x.AppendRequest? && j == x.to
       case DeliverAppendAnswer(x) => m == x && x.AppendAnswer? && j == x.args.leader
       case DeliverSnapshot(x) => m == x && x.SnapRequest? && j == x.to
       case DeliverSnapshotAnswer(x) => m == x && x.SnapAnswer? && j == x.snap.leader
       case _ => false
  }

  /** An answer counts only while the term it was asked in is current. */
  predicate Current(n: Node, m: Msg) {
    match m
    case VoteAnswer(_, a, _, _) => n.role.Candidate? && a.term == n.term
    case AppendAnswer(_, a, _, _) => a.term == n.term
    case _ => true
  }

  predicate SameRecord(n: Node, n': Node) {
    n'.log == n.log && n'.commit == n.commit && n'.snap == n.snap
  }

  /** A follower of the term that has voted for nobody, with all else as it was. */
  predicate Demoted(n: Node, n': Node, term: nat) {
    && n'.term == term && n'.role.Follower? && n'.vote == NoVote && SameRecord(n, n')
    && n'.nextIndex == n.nextIndex && n'.matchIndex == n.matchIndex && n'.voteCount == n.voteCount
  }

  /** Its term and vote would survive a crash. */
  predicate Safe(n: Node) { n.saved.term == n.term && n.saved.vote == n.vote }

  // ---- handler by handler ----

  lemma VoteDemotes(n: Node, a: VoteArgs)
    requires a.term > n.term
    ensures var (n', v) := HandleVote(n, a);
            && Safe(n') && v.term == a.term && Demoted(n, n'.(vote := NoVote), a.term)
            && n'.vote == if v.granted then a.candidate else NoVote
  {
  }

  lemma AppendDemotes(r: Rules, n: Node, a: AppendArgs)
    requires a.term > n.term
    ensures var (n', v) := HandleAppend(r, n, a);
            && v.term == a.term && n'.saved.term == a.term && n'.saved.vote == NoVote
            && Demoted(n, n'.(log := n.log, commit := n.commit), a.term)
            && (!v.success ==> SameRecord(n, n'))
  {
  }

  lemma AnswerDemotes(nodes: nat, n: Node, me: nat, server: nat, a: AppendArgs, v: AppendReply)
    requires a.term == n.term && !v.success && v.term > n.term
    ensures var n' := HandleAppendReply(nodes, n, me, server, a, v); Demoted(n, n', v.term) && Safe(n')
  {
  }

  lemma SnapshotDemotes(n: Node, a: SnapArgs)
    requires a.term > n.term
    ensures var n' := Install(n, a); Demoted(n, n'.(commit := n.commit, snap := n.snap), a.term)
  {
  }

  // ---- in runs ----

  /** Only requests of the receiver's own term are answered with success. */
  ghost predicate SuccessInTerm(s: Cluster) {
    forall m :: m in s.msgs && m.AppendAnswer? && m.reply.success ==> m.reply.term == m.args.term
  }

  lemma AppendInTerm(r: Rules, n: Node, a: AppendArgs)
    ensures var v := HandleAppend(r, n, a).1; v.success ==> v.term == a.term
  {
  }

  lemma StepInTerm(r: Rules, s: Cluster, e: Event)
    requires Sized(s) && SuccessInTerm(s)
    ensures SuccessInTerm(Apply(r, s, e))
  {
    if e.DeliverAppend? && e.msg.AppendRequest? && e.msg.to < |s.nodes| {
      AppendInTerm(r, s.nodes[e.msg.to], e.msg.args);
    }
  }

  lemma {:induction false} RunInTerm(r: Rules, events: seq<Event>)
    ensures SuccessInTerm(Run(r, events))
    decreases |events|
  {
    if events != [] {
      RunInTerm(r, events[..|events| - 1]);
      StepInTerm(r, Run(r, events[..|events| - 1]), events[|events| - 1]);
    }
  }

  /** What a higher term leaves of a node: a follower of that term, with no vote but one it has just
      given, and nothing lost. Only a request that brings entries or a snapshot does more. */
  ghost predicate Yields(r: Rules, n: Node, n': Node, m: Msg) {
    && n'.term == TermOf(m) && n'.role.Follower?
    && n'.vote == (if m.VoteRequest? && HandleVote(n, m.vote).1.granted then m.vote.candidate else NoVote)
    && n'.nextIndex == n.nextIndex && n'.matchIndex == n.matchIndex && n'.voteCount == n.voteCount
    && (m.SnapRequest? || (n'.saved.term == n'.term && n'.saved.vote == n'.vote))
    && (m.SnapRequest? ==> n'.log == n.log)
    && (m.SnapRequest? || (m.AppendRequest? && HandleAppend(r, n, m.args).1.success) || SameRecord(n, n'))
  }

  lemma RequestYields(r: Rules, s: Cluster, e: Event, j: nat, m: Msg)
    requires Sized(s) && Delivers(s, e, j, m) && TermOf(m) > s.nodes[j].term
    requires m.VoteRequest? || m.AppendRequest? || m.SnapRequest?
    ensures Yields(r, s.nodes[j], Apply(r, s, e).nodes[j], m)
  {
    var n := s.nodes[j];
    match m
    case VoteRequest(a) => VoteDemotes(n, a);
    case AppendRequest(_, a, _) => AppendDemotes(r, n, a);
    case SnapRequest(_, a) => SnapshotDemotes(n, a);
  }

  lemma AnswerYields(r: Rules, s: Cluster, e: Event, j: nat, m: Msg)
    requires Sized(s) && SuccessInTerm(s) && Delivers(s, e, j, m)
    requires Current(s.nodes[j], m) && TermOf(m) > s.nodes[j].term
    requires m.VoteAnswer? || m.AppendAnswer? || m.SnapAnswer?
    ensures Yields(r, s.nodes[j], Apply(r, s, e).nodes[j], m)
  {
    if m.AppendAnswer? {
      AnswerDemotes(|s.nodes|, s.nodes[j], j, m.from, m.args, m.reply);
    }
  }

  /** In every run, a node that handles a message of a higher term, where it is an answer to a
      question of its current term, becomes a follower of exactly that term. */
  lemma HigherTermDemotes(r: Rules, events: seq<Event>, e: Event, j: nat, m: Msg)
    requires Delivers(Run(r, events), e, j, m) && Current(Run(r, events).nodes[j], m)
    requires TermOf(m) > Run(r, events).nodes[j].term
    ensures Yields(r, Run(r, events).nodes[j], Run(r, events + [e]).nodes[j], m)
  {
    RunSnoc(r, events, e);
    RunInTerm(r, events);
    if m.VoteRequest? || m.AppendRequest? || m.SnapRequest? {
      RequestYields(r, Run(r, events), e, j, m);
    } else {
      AnswerYields(r, Run(r, events), e, j, m);
    }
  }

  /** In every run, a request of a lower term, or an answer to a question of another term, changes
      nothing. */
  lemma StaleChangesNothing(r: Rules, events: seq<Event>, e: Event, j: nat, m: Msg)
    requires Delivers(Run(r, events), e, j, m)
    requires var n := Run(r, events).nodes[j];
             || ((m.VoteRequest? || m.AppendRequest? || m.SnapRequest?) && TermOf(m) < n.term)
             || !Current(n, m)
    ensures Run(r, events + [e]).nodes[j] == Run(r, events).nodes[j]
  {
    RunSnoc(r, events, e);
  }

  // ---- the sender learns ----

  /** Whoever asks with a term that has passed is told the new one, and takes it on. */
  lemma DeposedLearns(r: Rules, n: Node, f: Node, me: nat, p: nat, a: AppendArgs)
    requires a.term == n.term < f.term
    ensures Demoted(n, HandleAppendReply(r.nodes, n, me, p, a, HandleAppend(r, f, a).1), f.term)
  {
    AnswerDemotes(r.nodes, n, me, p, a, HandleAppend(r, f, a).1);
  }

  lemma CandidateLearns(n: Node, f: Node, a: VoteArgs)
    requires n.role.Candidate? && a.term == n.term < f.term
    ensures var (n', pass) := HandleVoteReply(n, a.term, HandleVote(f, a).1);
            !pass && Demoted(n, n', f.term) && Safe(n')
  {
  }

  lemma SenderLearns(n: Node, f: Node, p: nat, a: SnapArgs)
    requires a.term == n.term < f.term
    ensures var n' := InstallReply(n, p, Install(f, a).term); Demoted(n, n', f.term) && Safe(n')
  {
  }

  // ---- how terms move ----

  /** A node's next term: one more when it stands for election, the saved one after a crash, and
      otherwise the highest it has heard of. */
  ghost predicate MovesBy(s: Cluster, e: Event, j: nat, term: nat)
    requires j < |s.nodes|
  {
    var n := s.nodes[j];
    && (e == Timeout(j) ==> term == n.term + 1)
    && (e.Crash? && e.node == j && e.snap <= n.saved.snap ==> term == n.saved.term)
    && (forall m :: Delivers(s, e, j, m) ==> term == if Current(n, m) then Max(n.term, TermOf(m)) else n.term)
    && (e != Timeout(j) && !(e.Crash? && e.node == j) && !(exists m :: Delivers(s, e, j, m)) ==> term == n.term)
  }

  lemma DeliveredTerm(r: Rules, s: Cluster, e: Event, j: nat, m: Msg)
    requires Sized(s) && SuccessInTerm(s) && Delivers(s, e, j, m)
    ensures var n := s.nodes[j];
            Apply(r, s, e).nodes[j].term == if Current(n, m) then Max(n.term, TermOf(m)) else n.term
  {
    if Current(s.nodes[j], m) && TermOf(m) > s.nodes[j].term {
      if m.VoteRequest? || m.AppendRequest? || m.SnapRequest? {
        RequestYields(r, s, e, j, m);
      } else {
        AnswerYields(r, s, e, j, m);
      }
    }
  }

  lemma TermsMove(r: Rules, events: seq<Event>, e: Event, j: nat)
    requires j < r.nodes
    ensures MovesBy(Run(r, events), e, j, Run(r, events + [e]).nodes[j].term)
  {
    var s := Run(r, events);
    RunSnoc(r, events, e);
    RunInTerm(r, events);
    forall m | Delivers(s, e, j, m)
      ensures Apply(r, s, e).nodes[j].term ==
              if Current(s.nodes[j], m) then Max(s.nodes[j].term, TermOf(m)) else s.nodes[j].term
    {
      DeliveredTerm(r, s, e, j, m);
    }
    if !(exists m :: Delivers(s, e, j, m)) && e != Timeout(j) && !(e.Crash? && e.node == j) {
      UntouchedTerm(r, s, e, j);
    }
  }

  /** The message an event is about, if any. */
  function Carried(e: Event): Msg {
    match e
    case DeliverVote(_, a) => VoteRequest(a)
    case DeliverVoteAnswer(m) => m
    case DeliverAppend(m) => m
    case DeliverAppendAnswer(m) => m
    case DeliverSnapshot(m) => m
    case DeliverSnapshotAnswer(m) => m
    case _ => VoteRequest(VoteArgs(0, 0, 0, 0))
  }

  lemma UntouchedTerm(r: Rules, s: Cluster, e: Event, j: nat)
    requires Sized(s) && j < |s.nodes| && e != Timeout(j) && !(e.Crash? && e.node == j)
    requires !Delivers(s, e, j, Carried(e))
    ensures Apply(r, s, e).nodes[j].term == s.nodes[j].term
  {
  }
}
