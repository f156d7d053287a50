/** What the store holds and what requests are answered, told from the requests alone: by the place of
    the last Put to a key and the Appends after it. */
module KvValues {
  import opened Basics
  import opened RaftNode
  import opened KvMachine
  import opened KvServer

  // ---- the value of a key ----

  predicate Puts(op: Op, k: string) { op.optype == PUT && op.key == k }

  predicate Appends(op: Op, k: string) { op.optype == APPEND && op.key == k }

  /** The key has been written. */
  predicate Touched(ops: seq<Op>, k: string) {
    exists i :: 0 <= i < |ops| && (Puts(ops[i], k) || Appends(ops[i], k))
  }

  /** Position i holds the last Put to the key; -1 when there is none. */
  predicate LastPut(ops: seq<Op>, k: string, i: int) {
    && -1 <= i < |ops| && (i >= 0 ==> Puts(ops[i], k))
    && forall j :: i < j < |ops| ==> !Puts(ops[j], k)
  }

  /** The values appended to the key from position i on, in order. */
  function Tail(ops: seq<Op>, k: string, i: nat): string
    requires i <= |ops|
    decreases |ops| - i
  {
    if i == |ops| then "" else (if Appends(ops[i], k) then ops[i].value else "") + Tail(ops, k, i + 1)
  }

  /** The value is that of the last Put, followed by what was appended since. */
  ghost predicate IsValue(ops: seq<Op>, k: string, v: string) {
    exists i :: LastPut(ops, k, i) && v == (if i < 0 then "" else ops[i].value) + Tail(ops, k, i + 1)
  }

  /** A key has at most one such value. */
  lemma ValueUnique(ops: seq<Op>, k: string, v: string, w: string)
    requires IsValue(ops, k, v) && IsValue(ops, k, w)
    ensures v == w
  {
    var i :| LastPut(ops, k, i) && v == (if i < 0 then "" else ops[i].value) + Tail(ops, k, i + 1);
    var j :| LastPut(ops, k, j) && w == (if j < 0 then "" else ops[j].value) + Tail(ops, k, j + 1);
    assert i == j;
  }

  lemma {:induction false} TailSnoc(ops: seq<Op>, op: Op, k: string, i: nat)
    requires i <= |ops|
    ensures Tail(ops + [op], k, i) == Tail(ops, k, i) + if Appends(op, k) then op.value else ""
    decreases |ops| - i
  {
    var all := ops + [op];
    if i == |ops| {
      assert Tail(all, k, i + 1) == "";
    } else {
      TailSnoc(ops, op, k, i + 1);
      assert all[i] == ops[i];
    }
  }

  /** One more request: a Put replaces, an Append extends, and any other leaves the value alone. */
  lemma ValueSnoc(ops: seq<Op>, op: Op, k: string, v: string)
    requires IsValue(ops, k, v)
    ensures IsValue(ops + [op], k, if Puts(op, k) then op.value else if Appends(op, k) then v + op.value else v)
  {
    var all := ops + [op];
    var i :| LastPut(ops, k, i) && v == (if i < 0 then "" else ops[i].value) + Tail(ops, k, i + 1);
    if Puts(op, k) {
      assert LastPut(all, k, |ops|) && Tail(all, k, |ops| + 1) == "";
    } else {
      TailSnoc(ops, op, k, i + 1);
      assert LastPut(all, k, i);
      var head := if i < 0 then "" else ops[i].value;
      assert head + (Tail(ops, k, i + 1) + op.value) == head + Tail(ops, k, i + 1) + op.value;
    }
  }

  lemma TouchedSnoc(ops: seq<Op>, op: Op, k: string)
    ensures Touched(ops + [op], k) <==> Touched(ops, k) || Puts(op, k) || Appends(op, k)
  {
    var all := ops + [op];
    if Touched(ops, k) {
      var i :| 0 <= i < |ops| && (Puts(ops[i], k) || Appends(ops[i], k));
      assert all[i] == ops[i];
    }
    if Puts(op, k) || Appends(op, k) {
      assert all[|ops|] == op;
    }
  }

  lemma NoValueYet(k: string)
    ensures IsValue([], k, "")
  {
    assert LastPut([], k, -1) && Tail([], k, 0) == "";
  }

  /** A key that was never written has nothing appended to it. */
  lemma {:induction false} UntouchedEmpty(ops: seq<Op>, k: string)
    requires !Touched(ops, k)
    ensures IsValue(ops, k, "")
    decreases |ops|
  {
    if ops == [] {
      NoValueYet(k);
    } else {
      var front, op := ops[..|ops| - 1], ops[|ops| - 1];
      assert ops == front + [op];
      TouchedSnoc(front, op, k);
      UntouchedEmpty(front, k);
      ValueSnoc(front, op, k, "");
    }
  }

  /** The data has the key exactly if it was written, and then with its value. */
  ghost predicate Holds(db: Db, ops: seq<Op>, k: string) {
    (k in db <==> Touched(ops, k)) && (k in db ==> IsValue(ops, k, db[k]))
  }

  /** What one request makes of the key's value, `was` if it had one. */
  predicate Becomes(was: Option<string>, op: Op, k: string, v: Option<string>) {
    if Puts(op, k) then v == Some(op.value)
    else if Appends(op, k) then v == Some((if was.Some? then was.value else "") + op.value)
    else v == was
  }

  function ValueAt(db: Db, k: string): Option<string> { if k in db then Some(db[k]) else None }

  lemma WrittenAt(db: Db, op: Op, k: string)
    ensures Becomes(ValueAt(db, k), op, k, ValueAt(Written(db, op), k))
  {
    assert "" + op.value == op.value;
  }

  lemma HoldsNext(db: Db, db': Db, ops: seq<Op>, op: Op, k: string)
    requires Holds(db, ops, k) && Becomes(ValueAt(db, k), op, k, ValueAt(db', k))
    ensures Holds(db', ops + [op], k)
  {
    TouchedSnoc(ops, op, k);
    if k in db {
      ValueSnoc(ops, op, k, db[k]);
    } else {
      UntouchedEmpty(ops, k);
      ValueSnoc(ops, op, k, "");
    }
  }

  /** Executed one after the other, the requests leave exactly the keys that were written, each with
      its value. */
  lemma {:induction false} StoreHolds(ops: seq<Op>, k: string)
    ensures Holds(Plain(ops), ops, k)
    decreases |ops|
  {
    if ops != [] {
      var front, op := ops[..|ops| - 1], ops[|ops| - 1];
      assert ops == front + [op];
      StoreHolds(front, k);
      WrittenAt(Plain(front), op, k);
      HoldsNext(Plain(front), Plain(ops), front, op, k);
    }
  }

  /** The store of a log holds what the requests of the log that are no repeats have written. */
  lemma LogHolds(ops: seq<Op>, k: string)
    ensures Holds(Machine(ops).db, Fresh(ops), k)
  {
    DuplicatesVanish(ops);
    StoreHolds(Fresh(ops), k);
  }

  // ---- the response to a request ----

  /** What a request is answered after the requests `before`: its own number, clerk and key, 200 and
      the key's value for a Get, 100 and nothing for a Get of a key that was not written, and 200 and
      the request's value for anything else. */
  ghost predicate Responds(before: seq<Op>, op: Op, v: Response) {
    && v.opId == op.optype && v.incrId == op.incrId && v.clerkId == op.clerkId && v.key == op.key
    && (if op.optype != GET then v.err == 200 && v.value == op.value
        else if Touched(before, op.key) then v.err == 200 && IsValue(before, op.key, v.value)
        else v.err == 100 && v.value == "")
  }

  lemma RespondsUnique(before: seq<Op>, op: Op, v: Response, w: Response)
    requires Responds(before, op, v) && Responds(before, op, w)
    ensures v == w
  {
    if op.optype == GET && Touched(before, op.key) {
      ValueUnique(before, op.key, v.value, w.value);
    }
  }

  /** Executed on the store of a log, a request is answered from what the log has written. */
  lemma ExecutedAnswer(ops: seq<Op>, op: Op)
    ensures Responds(Fresh(ops), op, Answer(Machine(ops).db, op))
  {
    LogHolds(ops, op.key);
  }

  // ---- the response to a delivered command ----

  /** The table of last responses holds, for each clerk, the answer to its latest request as it was
      given when that was executed. */
  ghost predicate Remembers(ops: seq<Op>, i: nat, v: Response)
    requires i < |ops|
  {
    Latest(ops, i) && Responds(Fresh(ops[..i]), ops[i], v)
  }

  lemma {:induction false} HistoryRemembers(ops: seq<Op>, c: int)
    requires c in Machine(ops).history
    ensures exists i :: 0 <= i < |ops| && ops[i].clerkId == c && Remembers(ops, i, Machine(ops).history[c])
    decreases |ops|
  {
    var k := |ops| - 1;
    var front, op := ops[..k], ops[k];
    ExecutedExactly(ops, k);
    if op.clerkId == c && Needed(Machine(front).history, op) {
      ExecutedAnswer(front, op);
      assert Remembers(ops, k, Machine(ops).history[c]);
    } else {
      HistoryRemembers(front, c);
      var i :| 0 <= i < |front| && front[i].clerkId == c && Remembers(front, i, Machine(front).history[c]);
      assert front[..i] == ops[..i] && ops[i] == front[i];
      assert Latest(ops, i) by { assert Latest(front, i); assert forall j :: 0 <= j < i ==> front[j] == ops[j]; }
      assert Remembers(ops, i, Machine(ops).history[c]);
    }
  }

  /** The number is in the table under another term than the entry's. */
  predicate Elsewhere(pending: map<nat, int>, incrId: nat, term: int) {
    incrId in pending && pending[incrId] != term
  }

  /** The response, marked if the number was put into the table in another term. */
  predicate Marked(v: Response, w: Response, elsewhere: bool) {
    w == if elsewhere then v.(err := 102) else v
  }

  /** A command that is new to its clerk is executed, and answered with its own result. */
  lemma NewAnswered(ops: seq<Op>, s: State, index: nat, term: int, op: Op)
    requires index > s.applied && s.store == Machine(ops) && Latest(ops + [op], |ops|)
    ensures Sent(s, index, term, op).Some?
    ensures exists v :: Responds(Fresh(ops), op, v)
              && Marked(v, Sent(s, index, term, op).value, Elsewhere(s.pending, op.incrId, term))
  {
    NeededWhenLatest(ops, op);
    ExecutedAnswer(ops, op);
    var v := Answer(s.store.db, op);
    assert Responds(Fresh(ops), op, v)
           && Marked(v, Sent(s, index, term, op).value, Elsewhere(s.pending, op.incrId, term));
  }

  lemma NeededWhenLatest(ops: seq<Op>, op: Op)
    ensures Needed(Machine(ops).history, op) <==> Latest(ops + [op], |ops|)
  {
    var all := ops + [op];
    assert all[..|ops|] == ops && all[|ops|] == op;
    ExecutedExactly(all, |ops|);
  }

  /** Its clerk's latest request once more is not executed, and answered as it was the first time. */
  lemma RepeatAnswered(ops: seq<Op>, s: State, index: nat, term: int, op: Op)
    requires index > s.applied && s.store == Machine(ops) && op.clerkId in s.store.history
    requires s.store.history[op.clerkId].incrId == op.incrId
    ensures Sent(s, index, term, op).Some?
    ensures exists i, v :: 0 <= i < |ops| && ops[i].clerkId == op.clerkId && ops[i].incrId == op.incrId
              && Remembers(ops, i, v)
              && Marked(v, Sent(s, index, term, op).value, Elsewhere(s.pending, op.incrId, term))
  {
    HistoryRemembers(ops, op.clerkId);
    var i :| 0 <= i < |ops| && ops[i].clerkId == op.clerkId && Remembers(ops, i, s.store.history[op.clerkId]);
    var v := s.store.history[op.clerkId];
    assert Remembers(ops, i, v) && Marked(v, Sent(s, index, term, op).value, Elsewhere(s.pending, op.incrId, term));
  }

  /** The response carries 102 exactly when the number it names is in the table under another term. */
  lemma ChangedExactly(ops: seq<Op>, s: State, index: nat, term: int, op: Op)
    requires index > s.applied && s.store == Machine(ops)
    ensures Sent(s, index, term, op).Some?
    ensures var v := Sent(s, index, term, op).value;
            && (v.err == 102 <==> Elsewhere(s.pending, v.incrId, term))
            && (v.incrId != op.incrId || v.clerkId != op.clerkId ==>
                  !Latest(ops + [op], |ops|) && v.(err := 0) == Blank)
  {
    NeededWhenLatest(ops, op);
    if Latest(ops + [op], |ops|) {
      NewAnswered(ops, s, index, term, op);
    } else if s.store.history[op.clerkId].incrId == op.incrId {
      RepeatAnswered(ops, s, index, term, op);
    }
  }

  /** Which number a delivery takes out of the table: its own if it is executed or repeats the latest,
      otherwise number 0, and no other. */
  lemma NumberLeaves(always: bool, s: State, index: nat, term: int, op: Op, id: nat)
    requires index > s.applied
    ensures var (s', v) := (Deliver(always, s, index, term, op), Sent(s, index, term, op));
            && s'.applied == index && v.Some?
            && (id in s'.pending <==> id in s.pending && id != v.value.incrId)
            && (id in s'.pending ==> s'.pending[id] == s.pending[id])
  {
  }
}
