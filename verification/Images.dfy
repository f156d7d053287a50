/** Snapshots over whole runs: the image a node holds, taken by its own service, sent by a leader or
    reloaded after a crash, and the entries it still stores make up its log. */
module Images {
  import opened Basics
  import opened RaftNode
  import opened Cluster
  import opened ClusterInvariant
  import opened ClusterQuiet
  import opened ClusterSafety
  import opened Commands
  import KvMachine
  import KvReplay

  type Image = KvMachine.Store

  /** What the service holds once it has applied the log up to `index`. */
  function ImageAt(log: seq<Entry>, index: nat): Image
    requires index < |log|
  {
    KvMachine.Machine(Requests(log[..index + 1]))
  }

  // ---- images in a run ----

  /** The image each node goes by, the one that went with each snapshot request, and those that a
      node has held so far, by index. */
  datatype Gallery = Gallery(kept: seq<Image>, sent: map<Msg, Image>, held: seq<map<nat, Image>>)

  predicate Fits(s: Cluster, x: Gallery) { |x.kept| == |x.held| == |s.nodes| }

  function Hang(x: Gallery, j: nat, index: nat, image: Image): Gallery
    requires j < |x.kept| == |x.held|
  {
    var held: map<nat, Image> := x.held[j][index := image];
    x.(kept := x.kept[j := image], held := x.held[j := held])
  }

  function First(nodes: nat): Gallery {
    Gallery(seq(nodes, _ => KvMachine.Empty), map[], seq(nodes, _ => map[0 := KvMachine.Empty]))
  }

  /** The request that carries node c's snapshot. */
  function Offer(n: Node, c: nat, to: nat): Msg
    requires n.snap < |n.log|
  {
    SnapRequest(to, SnapArgs(n.term, c, n.snap, n.log[n.snap].term))
  }

  /** Raft keeps an image only if it is past the one it has and within what it has committed; a
      snapshot request takes along the image its sender goes by; a crash reloads one that was held. */
  function NextImages(s: Cluster, e: Event, x: Gallery): (x': Gallery)
    requires Fits(s, x)
    ensures Fits(s, x')
  {
    match e
    case TakeSnapshot(j, index) =>
      if j < |s.nodes| && s.nodes[j].snap < index <= s.nodes[j].commit && index < |s.nodes[j].log|
      then Hang(x, j, index, ImageAt(s.nodes[j].log, index)) else x
    case SendSnapshot(c, to) =>
      if CanSend(s, c, to) && s.nodes[c].snap < |s.nodes[c].log|
      then x.(sent := x.sent[Offer(s.nodes[c], c, to) := x.kept[c]]) else x
    case DeliverSnapshot(m) =>
      if m in s.msgs && m in x.sent && m.SnapRequest? && m.to < |s.nodes| && TakesImage(s.nodes[m.to], m.snap)
      then Hang(x, m.to, m.snap.index, x.sent[m]) else x
    case Crash(j, snap) =>
      if j < |s.nodes| && snap <= s.nodes[j].saved.snap && snap in x.held[j]
      then Hang(x, j, snap, x.held[j][snap]) else x
    case _ => x
  }

  ghost function ImagesAfter(r: Rules, events: seq<Event>): (x: Gallery)
    ensures |x.kept| == |x.held| == r.nodes
    decreases |events|
  {
    if events == [] then First(r.nodes)
    else
      var front := events[..|events| - 1];
      NextImages(Run(r, front), events[|events| - 1], ImagesAfter(r, front))
  }

  /** A node restarts only from a snapshot it has held. */
  predicate Reloads(s: Cluster, x: Gallery, e: Event) {
    e.Crash? && e.node < |s.nodes| && e.node < |x.held| && e.snap <= s.nodes[e.node].saved.snap ==>
      e.snap in x.held[e.node]
  }

  ghost predicate ReloadsAt(r: Rules, events: seq<Event>, k: nat)
    requires k < |events|
  {
    Reloads(Run(r, events[..k]), ImagesAfter(r, events[..k]), events[k])
  }

  ghost predicate AllReload(r: Rules, events: seq<Event>) {
    forall k: nat {:trigger ReloadsAt(r, events, k)} :: k < |events| ==> ReloadsAt(r, events, k)
  }

  // ---- every image is that of a committed log ----

  ghost predicate ImageOf(E: Elections, C: Commits, log: seq<Entry>, t: nat, i: nat, image: Image) {
    i < |log| && log[0] == Placeholder && Committed(E, C, log, i, t) && image == ImageAt(log, i)
  }

  ghost predicate ImageOk(E: Elections, C: Commits, i: nat, image: Image) {
    exists log, t: nat :: ImageOf(E, C, log, t, i, image)
  }

  ghost predicate KeptOk(s: Cluster, x: Gallery, j: nat)
    requires Fits(s, x) && j < |s.nodes|
  {
    && ImageOk(s.elections, s.commits, s.nodes[j].snap, x.kept[j])
    && forall i :: i in x.held[j] ==> ImageOk(s.elections, s.commits, i, x.held[j][i])
  }

  ghost predicate SentOk(s: Cluster, x: Gallery, m: Msg) {
    m.SnapRequest? ==> m in x.sent && ImageOk(s.elections, s.commits, m.snap.index, x.sent[m])
  }

  ghost predicate GalleryOk(s: Cluster, x: Gallery) {
    && Fits(s, x)
    && (forall j {:trigger KeptOk(s, x, j)} :: 0 <= j < |s.nodes| ==> KeptOk(s, x, j))
    && (forall m {:trigger SentOk(s, x, m)} :: m in s.msgs ==> SentOk(s, x, m))
  }

  lemma ImageStays(s: Cluster, s': Cluster, i: nat, image: Image)
    requires ClusterSafety.Keeps(s, s') && ImageOk(s.elections, s.commits, i, image)
    ensures ImageOk(s'.elections, s'.commits, i, image)
  {
    var log, t: nat :| ImageOf(s.elections, s.commits, log, t, i, image);
    CommittedGrow(s.elections, s'.elections, s.commits, s'.commits, log, i, t, t);
    assert ImageOf(s'.elections, s'.commits, log, t, i, image);
  }

  lemma CommittedBelow(E: Elections, C: Commits, log: seq<Entry>, c: nat, i: nat, t: nat)
    requires Committed(E, C, log, c, t) && i <= c
    ensures Committed(E, C, log, i, t)
  {
    if i > 0 {
      var k :| k in C && k.0 in E && k.0 <= t && c <= k.1 && Agree(log, E[k.0].log, c);
      AgreeDown(log, E[k.0].log, c, i);
    }
  }

  /** The service's image at a committed index. */
  lemma TakenOk(s: Cluster, j: nat, index: nat)
    requires Inv(s) && j < |s.nodes| && index <= s.nodes[j].commit
    ensures index < |s.nodes[j].log|
    ensures ImageOk(s.elections, s.commits, index, ImageAt(s.nodes[j].log, index))
  {
    var n := s.nodes[j];
    assert NodeOk(j, n, s.msgs, s.elections, s.commits);
    CommittedBelow(s.elections, s.commits, n.log, n.commit, index, n.term);
    assert ImageOf(s.elections, s.commits, n.log, n.term, index, ImageAt(n.log, index));
  }

  /** Where the snapshot index of a node moves to. */
  function SnapTo(s: Cluster, e: Event, j: nat): nat
    requires j < |s.nodes|
  {
    var n := s.nodes[j];
    match e
    case TakeSnapshot(k, index) => if k == j && n.snap < index <= n.commit then index else n.snap
    case DeliverSnapshot(m) =>
      if m in s.msgs && m.SnapRequest? && m.to == j && TakesImage(n, m.snap) then m.snap.index else n.snap
    case Crash(k, snap) => if k == j && snap <= n.saved.snap then snap else n.snap
    case _ => n.snap
  }

  lemma SnapMoves(r: Rules, s: Cluster, e: Event, j: nat)
    requires Sized(s) && j < |s.nodes|
    ensures Apply(r, s, e).nodes[j].snap == SnapTo(s, e, j)
  {
    if ElectionEvent(e) {
      ElectionsKeepSnap(r, s, e, j);
    } else if ReplicationEvent(e) {
      ReplicationKeepsSnap(r, s, e, j);
    }
  }

  lemma ElectionsKeepSnap(r: Rules, s: Cluster, e: Event, j: nat)
    requires Sized(s) && j < |s.nodes| && ElectionEvent(e)
    ensures Apply(r, s, e).nodes[j].snap == s.nodes[j].snap
  {
  }

  lemma ReplicationKeepsSnap(r: Rules, s: Cluster, e: Event, j: nat)
    requires Sized(s) && j < |s.nodes| && ReplicationEvent(e)
    ensures Apply(r, s, e).nodes[j].snap == s.nodes[j].snap
  {
  }

  predicate SendsNow(s: Cluster, e: Event, m: Msg) {
    && e.SendSnapshot? && CanSend(s, e.node, e.to) && s.nodes[e.node].snap < |s.nodes[e.node].log|
    && m == Offer(s.nodes[e.node], e.node, e.to)
  }

  /** What a step means for images. */
  ghost predicate Follows(s: Cluster, e: Event, s': Cluster) {
    && |s'.nodes| == |s.nodes| && ClusterSafety.Keeps(s, s')
    && (forall j {:trigger SnapTo(s, e, j)} :: 0 <= j < |s.nodes| ==> s'.nodes[j].snap == SnapTo(s, e, j))
    && (forall m :: m in s'.msgs && m.SnapRequest? ==> m in s.msgs || SendsNow(s, e, m))
  }

  lemma StepFollows(r: Rules, s: Cluster, e: Event)
    requires Sound(r) && Inv(s) && |s.nodes| == r.nodes
    ensures Follows(s, e, Apply(r, s, e))
  {
    Step(r, s, e);
    forall j | 0 <= j < |s.nodes| ensures Apply(r, s, e).nodes[j].snap == SnapTo(s, e, j) {
      SnapMoves(r, s, e, j);
    }
    SentBefore(r, s, e);
  }

  lemma SentBefore(r: Rules, s: Cluster, e: Event)
    requires Sized(s)
    ensures forall m :: m in Apply(r, s, e).msgs && m.SnapRequest? ==> m in s.msgs || SendsNow(s, e, m)
  {
  }

  /** The event gives node j an image. */
  predicate HangsAt(s: Cluster, e: Event, x: Gallery, j: nat)
    requires Fits(s, x) && j < |s.nodes|
  {
    match e
    case TakeSnapshot(k, index) => k == j && s.nodes[j].snap < index <= s.nodes[j].commit && index < |s.nodes[j].log|
    case DeliverSnapshot(m) =>
      m in s.msgs && m in x.sent && m.SnapRequest? && m.to == j && TakesImage(s.nodes[j], m.snap)
    case Crash(k, snap) => k == j && snap <= s.nodes[j].saved.snap && snap in x.held[j]
    case _ => false
  }

  lemma HangsOrNot(s: Cluster, e: Event, x: Gallery, j: nat)
    requires GalleryOk(s, x) && Reloads(s, x, e) && j < |s.nodes| && s.nodes[j].commit < |s.nodes[j].log|
    ensures var x' := NextImages(s, e, x);
            if HangsAt(s, e, x, j) then x'.held[j] == x.held[j][SnapTo(s, e, j) := x'.kept[j]]
            else x'.held[j] == x.held[j] && x'.kept[j] == x.kept[j] && SnapTo(s, e, j) == s.nodes[j].snap
  {
    if e.DeliverSnapshot? && e.msg in s.msgs {
      assert SentOk(s, x, e.msg);
    }
  }

  /** A node's new image. */
  lemma HungOk(s: Cluster, e: Event, s': Cluster, x: Gallery, j: nat)
    requires Inv(s) && GalleryOk(s, x) && Follows(s, e, s') && j < |s.nodes| && HangsAt(s, e, x, j)
    ensures ImageOk(s'.elections, s'.commits, SnapTo(s, e, j), NextImages(s, e, x).kept[j])
  {
    match e
    case TakeSnapshot(_, index) =>
      TakenOk(s, j, index);
      ImageStays(s, s', index, ImageAt(s.nodes[j].log, index));
    case DeliverSnapshot(m) =>
      assert SentOk(s, x, m);
      ImageStays(s, s', m.snap.index, x.sent[m]);
    case Crash(_, snap) =>
      assert KeptOk(s, x, j);
      ImageStays(s, s', snap, x.held[j][snap]);
  }

  lemma KeptNext(s: Cluster, e: Event, s': Cluster, x: Gallery, j: nat)
    requires Inv(s) && GalleryOk(s, x) && Reloads(s, x, e) && Follows(s, e, s') && j < |s.nodes|
    ensures KeptOk(s', NextImages(s, e, x), j)
  {
    var x' := NextImages(s, e, x);
    assert NodeOk(j, s.nodes[j], s.msgs, s.elections, s.commits);
    HangsOrNot(s, e, x, j);
    assert KeptOk(s, x, j) && s'.nodes[j].snap == SnapTo(s, e, j);
    if HangsAt(s, e, x, j) {
      HungOk(s, e, s', x, j);
    } else {
      ImageStays(s, s', s.nodes[j].snap, x.kept[j]);
    }
    forall i | i in x'.held[j] ensures ImageOk(s'.elections, s'.commits, i, x'.held[j][i]) {
      if !(HangsAt(s, e, x, j) && i == SnapTo(s, e, j)) {
        ImageStays(s, s', i, x.held[j][i]);
      }
    }
  }

  lemma SentNext(s: Cluster, e: Event, s': Cluster, x: Gallery, m: Msg)
    requires Inv(s) && GalleryOk(s, x) && Follows(s, e, s') && m in s'.msgs
    ensures SentOk(s', NextImages(s, e, x), m)
  {
    if m.SnapRequest? {
      if SendsNow(s, e, m) {
        assert KeptOk(s, x, e.node);
        ImageStays(s, s', s.nodes[e.node].snap, x.kept[e.node]);
      } else {
        assert SentOk(s, x, m);
        ImageStays(s, s', m.snap.index, x.sent[m]);
      }
    }
  }

  lemma GalleryNext(s: Cluster, e: Event, s': Cluster, x: Gallery)
    requires Inv(s) && GalleryOk(s, x) && Reloads(s, x, e) && Follows(s, e, s')
    ensures GalleryOk(s', NextImages(s, e, x))
  {
    var x' := NextImages(s, e, x);
    forall j | 0 <= j < |s'.nodes| ensures KeptOk(s', x', j) {
      KeptNext(s, e, s', x, j);
    }
    forall m | m in s'.msgs ensures SentOk(s', x', m) {
      SentNext(s, e, s', x, m);
    }
  }

  lemma FirstOk(nodes: nat)
    ensures GalleryOk(Initial(nodes), First(nodes))
  {
    var s, x := Initial(nodes), First(nodes);
    assert ImageOf(s.elections, s.commits, [Placeholder], 0, 0, KvMachine.Empty);
    forall j | 0 <= j < nodes ensures KeptOk(s, x, j) {
    }
  }

  lemma FrontReloads(r: Rules, events: seq<Event>, k: nat)
    requires AllReload(r, events) && k <= |events|
    ensures AllReload(r, events[..k])
  {
    forall i: nat | i < k ensures ReloadsAt(r, events[..k], i) {
      assert ReloadsAt(r, events, i) && events[..k][..i] == events[..i];
    }
  }

  lemma {:induction false} RunImages(r: Rules, events: seq<Event>)
    requires Sound(r) && AllReload(r, events)
    ensures GalleryOk(Run(r, events), ImagesAfter(r, events))
    decreases |events|
  {
    if events == [] {
      FirstOk(r.nodes);
    } else {
      var k := |events| - 1;
      FrontReloads(r, events, k);
      RunImages(r, events[..k]);
      RunInv(r, events[..k]);
      assert ReloadsAt(r, events, k);
      StepFollows(r, Run(r, events[..k]), events[k]);
      GalleryNext(Run(r, events[..k]), events[k], Run(r, events), ImagesAfter(r, events[..k]));
    }
  }

  /** In every run the image a node goes by is that of its own log at its snapshot index, no more and
      no less, whoever took it. */
  lemma ImageIsOwn(r: Rules, events: seq<Event>, j: nat)
    requires Sound(r) && AllReload(r, events) && j < r.nodes
    ensures var n := Run(r, events).nodes[j];
            n.snap < |n.log| && ImagesAfter(r, events).kept[j] == ImageAt(n.log, n.snap)
  {
    var s, x := Run(r, events), ImagesAfter(r, events);
    var n := s.nodes[j];
    RunImages(r, events);
    RunInv(r, events);
    assert KeptOk(s, x, j) && NodeOk(j, n, s.msgs, s.elections, s.commits);
    var log, t: nat :| ImageOf(s.elections, s.commits, log, t, n.snap, x.kept[j]);
    CommittedAgree(r.nodes, s.msgs, s.elections, s.commits, log, n.snap, t, n.log, n.commit, n.term, n.snap);
  }

  // ---- image and stored entries make up the log ----

  /** A service that starts from an image and is fed the requests. */
  function Resume(image: Image, ops: seq<Op>): Image {
    if ops == [] then image else KvMachine.Step(Resume(image, ops[..|ops| - 1]), ops[|ops| - 1])
  }

  lemma {:induction false} ResumeMachine(a: seq<Op>, b: seq<Op>)
    ensures Resume(KvMachine.Machine(a), b) == KvMachine.Machine(a + b)
    decreases |b|
  {
    if b == [] {
      assert a + b == a;
    } else {
      var front := b[..|b| - 1];
      ResumeMachine(a, front);
      assert (a + b)[..|a + b| - 1] == a + front;
    }
  }

  /** The entry at the front of a trimmed log stands for all that it replaces. */
  lemma {:induction false} RequestsSplit(log: seq<Entry>, k: nat)
    requires k < |log|
    ensures Requests(log) == Requests(log[..k + 1]) + Requests(log[k..])
    decreases |log|
  {
    if k == |log| - 1 {
      assert log[..k + 1] == log && Requests(log[k..]) == [];
    } else {
      var front, rest := log[..|log| - 1], log[k..];
      RequestsSplit(front, k);
      assert front[..k + 1] == log[..k + 1] && front[k..] == rest[..|rest| - 1];
      assert log[|log| - 1] == rest[|rest| - 1];
    }
  }

  /** What the server of a node stores once it has trimmed its log. */
  function Stored(n: Node): seq<Entry>
    requires n.snap < |n.log|
  {
    n.log[n.snap..]
  }

  /** The image and the entries stored up to c give what the whole log up to c gives. */
  predicate Rebuilds(n: Node, image: Image, c: nat)
    requires n.snap <= c < |n.log|
  {
    Resume(image, Requests(Stored(n)[..c - n.snap + 1])) == ImageAt(n.log, c)
  }

  lemma ImageAndRest(n: Node, c: nat)
    requires n.snap <= c < |n.log|
    ensures Rebuilds(n, ImageAt(n.log, n.snap), c)
  {
    SplitAt(n.log, n.snap, c);
    ResumeMachine(Requests(n.log[..n.snap + 1]), Requests(Stored(n)[..c - n.snap + 1]));
  }

  lemma SplitAt(log: seq<Entry>, k: nat, c: nat)
    requires k <= c < |log|
    ensures Requests(log[..c + 1]) == Requests(log[..k + 1]) + Requests(log[k..][..c - k + 1])
  {
    var front := log[..c + 1];
    RequestsSplit(front, k);
    assert front[..k + 1] == log[..k + 1] && front[k..] == log[k..][..c - k + 1];
  }

  /** In every run, a node's image rebuilds its log at every index from the snapshot on: trimming
      loses nothing. */
  lemma TrimmingLosesNothing(r: Rules, events: seq<Event>, j: nat, c: nat)
    requires Sound(r) && AllReload(r, events) && j < r.nodes
    requires Run(r, events).nodes[j].snap <= c < |Run(r, events).nodes[j].log|
    ensures Rebuilds(Run(r, events).nodes[j], ImagesAfter(r, events).kept[j], c)
  {
    ImageIsOwn(r, events, j);
    ImageAndRest(Run(r, events).nodes[j], c);
  }

  /** The image that the service hands over at an index, once it has been fed in line up to there. */
  lemma ServiceImage(r: Rules, events: seq<Event>, j: nat, always: bool, feeds: seq<KvReplay.Feed>)
    requires j < r.nodes && KvReplay.Sane(always, Requests(Run(r, events).nodes[j].log), feeds)
    requires KvReplay.Reached(feeds) < |Run(r, events).nodes[j].log|
    ensures var log := Run(r, events).nodes[j].log;
            KvReplay.After(always, Requests(log), feeds).store == ImageAt(log, KvReplay.Reached(feeds))
  {
    var log := Run(r, events).nodes[j].log;
    KvReplay.SaneReplays(always, Requests(log), feeds);
    RequestsOfRun(r, events, j, KvReplay.Reached(feeds));
  }
}
