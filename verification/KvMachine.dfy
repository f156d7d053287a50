/** The key-value state machine: requests executed once each, in log order. */
module KvMachine {
  import opened RaftNode

  datatype Response = Response(opId: nat, incrId: nat, clerkId: int, err: nat, key: string, value: string)

  const GET: nat := 0
  const PUT: nat := 1
  const APPEND: nat := 2
  const OK: nat := 200
  const NO_KEY: nat := 100
  const LEADER_CHANGED: nat := 102

  type Db = map<string, string>

  /** The data, and for each clerk the response to its last executed request. */
  datatype Store = Store(db: Db, history: map<int, Response>)

  const Empty: Store := Store(map[], map[])

  function Written(db: Db, op: Op): Db {
    if op.optype == PUT then db[op.key := op.value]
    else if op.optype == APPEND then db[op.key := if op.key in db then db[op.key] + op.value else op.value]
    else db
  }

  function Answer(db: Db, op: Op): Response {
    if op.optype == GET then
      if op.key in db then Response(GET, op.incrId, op.clerkId, OK, op.key, db[op.key])
      else Response(GET, op.incrId, op.clerkId, NO_KEY, op.key, "")
    else Response(op.optype, op.incrId, op.clerkId, OK, op.key, op.value)
  }

  /** A request is executed unless its clerk is known to have got as far as it already. */
  predicate Needed(history: map<int, Response>, op: Op) {
    op.clerkId !in history || history[op.clerkId].incrId < op.incrId
  }

  function Execute(s: Store, op: Op): Store {
    Store(Written(s.db, op), s.history[op.clerkId := Answer(s.db, op)])
  }

  function Step(s: Store, op: Op): Store {
    if Needed(s.history, op) then Execute(s, op) else s
  }

  /** The store after every request of a log, duplicates included. */
  function Machine(ops: seq<Op>): Store {
    if ops == [] then Empty else Step(Machine(ops[..|ops| - 1]), ops[|ops| - 1])
  }

  lemma MachineSnoc(ops: seq<Op>, i: nat)
    requires i < |ops|
    ensures Machine(ops[..i + 1]) == Step(Machine(ops[..i]), ops[i])
  {
    assert ops[..i + 1][..i] == ops[..i];
  }

  // ---- each request at most once ----

  /** Position i holds the greatest request number its clerk has used up to there. */
  predicate Latest(ops: seq<Op>, i: nat)
    requires i < |ops|
  {
    forall j :: 0 <= j < i && ops[j].clerkId == ops[i].clerkId ==> ops[j].incrId < ops[i].incrId
  }

  /** The history remembers, for each clerk, the greatest request number in the log. */
  lemma {:induction false} HistoryIsGreatest(ops: seq<Op>, c: int)
    ensures c in Machine(ops).history <==> exists j :: 0 <= j < |ops| && ops[j].clerkId == c
    ensures forall j :: 0 <= j < |ops| && ops[j].clerkId == c ==> ops[j].incrId <= Machine(ops).history[c].incrId
    ensures c in Machine(ops).history ==>
      exists j :: 0 <= j < |ops| && ops[j].clerkId == c && ops[j].incrId == Machine(ops).history[c].incrId
    decreases |ops|
  {
    if ops != [] {
      var front, op := ops[..|ops| - 1], ops[|ops| - 1];
      HistoryIsGreatest(front, c);
      assert forall j :: 0 <= j < |front| ==> front[j] == ops[j];
      if c in Machine(front).history && (op.clerkId != c || !Needed(Machine(front).history, op)) {
        var j :| 0 <= j < |front| && front[j].clerkId == c && front[j].incrId == Machine(front).history[c].incrId;
        assert ops[j].clerkId == c;
      }
      if op.clerkId == c {
        assert ops[|ops| - 1].clerkId == c;
      }
    }
  }

  /** Which requests are executed: those numbered above everything before them from their clerk. */
  lemma ExecutedExactly(ops: seq<Op>, i: nat)
    requires i < |ops|
    ensures Needed(Machine(ops[..i]).history, ops[i]) <==> Latest(ops, i)
  {
    var front, c := ops[..i], ops[i].clerkId;
    HistoryIsGreatest(front, c);
    if c in Machine(front).history {
      var j :| 0 <= j < |front| && front[j].clerkId == c && front[j].incrId == Machine(front).history[c].incrId;
      assert ops[j].clerkId == c && ops[j].incrId == Machine(front).history[c].incrId;
      forall h | 0 <= h < i && ops[h].clerkId == c ensures ops[h].incrId <= Machine(front).history[c].incrId {
        assert front[h] == ops[h];
      }
    } else {
      forall h | 0 <= h < i ensures ops[h].clerkId != c {
        assert front[h] == ops[h];
      }
    }
  }

  /** No log makes one request of one clerk execute twice. */
  lemma AtMostOnce(ops: seq<Op>, i: nat, j: nat)
    requires i < j < |ops| && ops[i].clerkId == ops[j].clerkId && ops[i].incrId == ops[j].incrId
    ensures !Needed(Machine(ops[..j]).history, ops[j])
  {
    ExecutedExactly(ops, j);
  }

  /** Plain execution of a list of requests. */
  function Plain(ops: seq<Op>): Db {
    if ops == [] then map[] else Written(Plain(ops[..|ops| - 1]), ops[|ops| - 1])
  }

  /** The log without its repeated and overtaken requests. */
  function Fresh(ops: seq<Op>): seq<Op> {
    if ops == [] then []
    else
      var front := Fresh(ops[..|ops| - 1]);
      if Latest(ops, |ops| - 1) then front + [ops[|ops| - 1]] else front
  }

  /** Duplicates leave no trace in the data: it is what the fresh requests alone produce. */
  lemma {:induction false} DuplicatesVanish(ops: seq<Op>)
    ensures Machine(ops).db == Plain(Fresh(ops))
    decreases |ops|
  {
    if ops != [] {
      var front, k := ops[..|ops| - 1], |ops| - 1;
      DuplicatesVanish(front);
      ExecutedExactly(ops, k);
      var rest := Fresh(front);
      assert (rest + [ops[k]])[..|rest + [ops[k]]| - 1] == rest;
    }
  }
}
