/** The server's apply loop: committed commands and snapshots in, responses out. */
module KvServer {
  import opened Basics
  import opened RaftNode
  import opened KvMachine

  /** `pending` holds, by request number, the term a write was started in (or the commit index a
      read waits for). */
  datatype State = State(store: Store, pending: map<nat, int>, applied: nat)

  const Blank: Response := Response(0, 0, 0, 0, "", "")

  /** The entry was started here and in the term it carries: the only case the code records. */
  predicate StartedHere(pending: map<nat, int>, incrId: nat, term: int) {
    incrId in pending && pending[incrId] == term
  }

  function Without(pending: map<nat, int>, incrId: nat): map<nat, int> { pending - {incrId} }

  /** One committed command. With `always` every execution is recorded in the history; without it,
      only those the server started in the same term, as the code has it. */
  function Deliver(always: bool, s: State, index: nat, term: int, op: Op): State {
    if index <= s.applied then s
    else if Needed(s.store.history, op) then
      var recorded := always || StartedHere(s.pending, op.incrId, term);
      State(if recorded then Execute(s.store, op) else Store(Written(s.store.db, op), s.store.history),
            Without(s.pending, op.incrId), index)
    else if s.store.history[op.clerkId].incrId == op.incrId then
      State(s.store, Without(s.pending, op.incrId), index)
    else State(s.store, Without(s.pending, 0), index)
  }

  /** The response sent for it, if any. */
  function Sent(s: State, index: nat, term: int, op: Op): Option<Response> {
    if index <= s.applied then None
    else
      var r :=
        if Needed(s.store.history, op) then Answer(s.store.db, op)
        else if s.store.history[op.clerkId].incrId == op.incrId then s.store.history[op.clerkId]
        else Blank;
      Some(if r.incrId in s.pending && s.pending[r.incrId] != term then r.(err := LEADER_CHANGED) else r)
  }

  /** A snapshot; None for one that is empty or cannot be decoded. */
  function Restored(s: State, index: nat, image: Option<Store>): State {
    if index < s.applied then s
    else s.(store := if image.Some? then image.value else s.store, applied := index)
  }

  /** The index a read waits for: the one its number has in the table, otherwise the sample. */
  function Awaited(s: State, op: Op, commit: nat): int {
    if op.incrId in s.pending then s.pending[op.incrId] else commit
  }

  /** The table after one turn of the read queue, on a leader whose commit index is `commit` and
      whose heartbeat round gave `confirmed`. */
  function ReadState(s: State, op: Op, commit: nat, confirmed: bool): State {
    if op.incrId !in s.pending && !confirmed then s
    else if Awaited(s, op, commit) <= s.applied then s.(pending := Without(s.pending, op.incrId))
    else s.(pending := s.pending[op.incrId := Awaited(s, op, commit)])
  }

  function ReadSent(s: State, op: Op, commit: nat, confirmed: bool): Option<Response> {
    if op.incrId !in s.pending && !confirmed then
      Some(Response(GET, op.incrId, op.clerkId, LEADER_CHANGED, op.key, op.value))
    else if Awaited(s, op, commit) <= s.applied then Some(Answer(s.store.db, op))
    else None
  }

  /** The answer carries what the store has for the key, or that it has nothing. */
  predicate IsData(v: Response) { v.err == 200 || v.err == 100 }

  /** A read that is not in the table yet: unconfirmed it is turned away, told nothing and forgotten;
      confirmed it waits for the sample, and is answered once that has been applied. */
  lemma UnlistedTurn(s: State, op: Op, commit: nat, confirmed: bool)
    requires op.optype == GET && op.incrId !in s.pending
    ensures var (sent, s') := (ReadSent(s, op, commit, confirmed), ReadState(s, op, commit, confirmed));
            && (sent.Some? && IsData(sent.value) <==> confirmed && commit <= s.applied)
            && (sent.None? <==> confirmed && commit > s.applied)
            && (!confirmed ==> s' == s && sent.value.err == 102 && sent.value.value == op.value)
            && (sent.Some? ==> s' == s && sent.value.incrId == op.incrId && sent.value.clerkId == op.clerkId)
            && (sent.None? ==> s' == s.(pending := s'.pending) && s'.pending == s.pending[op.incrId := commit])
  {
    assert Without(s.pending, op.incrId) == s.pending;
  }

  /** A read that is in the table waits for the index it has there, and leaves the table when it is
      answered. */
  lemma ListedTurn(s: State, op: Op, commit: nat, confirmed: bool)
    requires op.optype == GET && op.incrId in s.pending
    ensures var (sent, s') := (ReadSent(s, op, commit, confirmed), ReadState(s, op, commit, confirmed));
            && (sent.Some? <==> s.pending[op.incrId] <= s.applied) && (sent.Some? ==> IsData(sent.value))
            && s' == s.(pending := s'.pending)
            && (forall id :: id in s'.pending <==> id in s.pending && !(sent.Some? && id == op.incrId))
            && (forall id :: id in s'.pending ==> s'.pending[id] == s.pending[id])
  {
  }

  /** With a number already in the table, a read is answered without a sample and whether or not
      its leader is still one. */
  lemma SampledExactly(s: State, op: Op)
    requires op.optype == GET
    ensures (forall commit: nat, confirmed: bool, commit': nat, confirmed': bool ::
               ReadSent(s, op, commit, confirmed) == ReadSent(s, op, commit', confirmed'))
            <==> op.incrId in s.pending
  {
    if op.incrId !in s.pending {
      assert ReadSent(s, op, s.applied, true) != ReadSent(s, op, s.applied + 1, true);
    }
  }

  /** Whatever a turn answers, the sampled index has been applied by then. */
  predicate Waits(s: State, op: Op, commit: nat, applied: nat) {
    ReadSent(s.(applied := applied), op, commit, true).Some? ==> commit <= applied
  }

  /** A turn waits for the sample exactly when its number is not in the table with less. */
  lemma WaitsExactly(s: State, op: Op, commit: nat)
    ensures (forall applied: nat :: Waits(s, op, commit, applied))
            <==> op.incrId !in s.pending || s.pending[op.incrId] >= commit || commit == 0
  {
    if op.incrId in s.pending && s.pending[op.incrId] < commit && commit > 0 {
      assert !Waits(s, op, commit, Max(0, s.pending[op.incrId]));
    }
  }

  class KVServer {
    var db: Db
    var history: map<int, Response>
    var pending: map<nat, int>
    var lastApplied: nat
    const always: bool

    ghost function View(): State
      reads this
    {
      State(Store(db, history), pending, lastApplied)
    }

    constructor (recordAlways: bool)
      ensures always == recordAlways && View() == State(Empty, map[], 0)
    {
      always, db, history, pending, lastApplied := recordAlways, map[], map[], map[], 0;
    }

    method DBExecute(op: Op) returns (r: Response)
      modifies this`db
      ensures db == Written(old(db), op) && r == Answer(old(db), op)
    {
      var err, value := OK, op.value;
      if op.optype == GET {
        if op.key in db {
          value := db[op.key];
        } else {
          err, value := NO_KEY, "";
        }
      } else if op.optype == PUT {
        db := db[op.key := op.value];
      } else if op.optype == APPEND {
        if op.key in db {
          db := db[op.key := db[op.key] + op.value];
        } else {
          db := db[op.key := op.value];
        }
      }
      return Response(op.optype, op.incrId, op.clerkId, err, op.key, value);
    }

    /** The command branch of the apply loop. */
    method ApplyCommand(index: nat, term: int, op: Op) returns (sent: Option<Response>)
      modifies this
      ensures View() == Deliver(always, old(View()), index, term, op)
      ensures sent == Sent(old(View()), index, term, op)
    {
      if index <= lastApplied {
        return None;
      }
      lastApplied := index;
      var resp, need := Blank, false;
      if op.clerkId in history {
        if history[op.clerkId].incrId == op.incrId {
          resp := history[op.clerkId];
        } else if history[op.clerkId].incrId < op.incrId {
          need := true;
        }
      } else {
        need := true;
      }
      if need {
        resp := DBExecute(op);
        if always {
          history := history[op.clerkId := resp];
        }
        if resp.incrId in pending {
          if pending[resp.incrId] != term {
            resp := resp.(err := LEADER_CHANGED);
          } else {
            history := history[op.clerkId := resp];
          }
          pending := pending - {resp.incrId};
        }
      }
      if resp.incrId in pending {
        if pending[resp.incrId] != term && resp.err != LEADER_CHANGED {
          resp := resp.(err := LEADER_CHANGED);
        }
        pending := pending - {resp.incrId};
      }
      return Some(resp);
    }

    /** The snapshot branch of the apply loop. */
    method ApplySnapshot(index: nat, image: Option<Store>)
      modifies this
      ensures View() == Restored(old(View()), index, image)
      ensures index >= old(lastApplied) && image.Some? ==> Store(db, history) == image.value
      ensures index < old(lastApplied) || image.None? ==> db == old(db) && history == old(history)
      ensures lastApplied == Max(index, old(lastApplied)) && pending == old(pending)
    {
      if index >= lastApplied {
        if image.Some? {
          db, history := image.value.db, image.value.history;
        }
        lastApplied := index;
      }
    }

    /** One turn of the read queue on a leader whose commit index is `commit` and whose heartbeat
        round gave `confirmed`. A read whose number is in the table already is not sampled again. */
    method ReadTurn(op: Op, commit: nat, confirmed: bool) returns (sent: Option<Response>)
      requires op.optype == GET
      modifies this`pending, this`db
      ensures View() == ReadState(old(View()), op, commit, confirmed)
      ensures sent == ReadSent(old(View()), op, commit, confirmed)
    {
      if op.incrId !in pending {
        if !confirmed {
          return Some(Response(op.optype, op.incrId, op.clerkId, LEADER_CHANGED, op.key, op.value));
        }
        pending := pending[op.incrId := commit];
      }
      if pending[op.incrId] <= lastApplied {
        var resp := DBExecute(op);
        pending := pending - {op.incrId};
        return Some(resp);
      }
      return None;
    }

    method Snapshot() returns (image: Store)
      ensures image == View().store
    {
      return Store(db, history);
    }
  }
}
