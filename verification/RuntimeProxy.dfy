/** Request/reply correlation: entries wait in a map from the moment they are registered until a reply, a failed
    send, a restart of the runtime or a detach takes them out and completes them. */
module RuntimeProxy {
  import opened Wrappers

  type Id = nat

  /** What a pending entry holds: an async caller's callback, no callback, or a blocked caller's shared flags. */
  datatype Entry = Callback | Silent | Waiter

  datatype Outcome = Replied(isError: bool) | SendFailed | Restarted | Detached

  /** `fired[id]` lists what the callback of request id was called with, or its waiter's flags were set to. */
  datatype Proxy = Proxy(pending: map<Id, Entry>, fired: map<Id, seq<Outcome>>)

  function FiredFor(fired: map<Id, seq<Outcome>>, id: Id): seq<Outcome> {
    if id in fired then fired[id] else []
  }

  function Fire(fired: map<Id, seq<Outcome>>, id: Id, entry: Entry, outcome: Outcome): map<Id, seq<Outcome>> {
    if entry.Silent? then fired else fired[id := FiredFor(fired, id) + [outcome]]
  }

  function FireAll(fired: map<Id, seq<Outcome>>, entries: map<Id, Entry>, outcome: Outcome): map<Id, seq<Outcome>> {
    fired + map id | id in entries && !entries[id].Silent? :: FiredFor(fired, id) + [outcome]
  }

  function Registered(p: Proxy, id: Id, entry: Entry): Proxy {
    if id in p.pending then p else p.(pending := p.pending[id := entry])
  }

  /** The entry is taken out and completed; an unknown id changes nothing. */
  function Completed(p: Proxy, id: Id, outcome: Outcome): Proxy {
    if id !in p.pending then p else Proxy(p.pending - {id}, Fire(p.fired, id, p.pending[id], outcome))
  }

  /** Everything is taken out and completed with one outcome. */
  function DrainedWith(p: Proxy, outcome: Outcome): Proxy {
    Proxy(map[], FireAll(p.fired, p.pending, outcome))
  }

  /** Each entry with someone to tell is told once, and nobody else hears anything. */
  lemma FireAllAt(fired: map<Id, seq<Outcome>>, entries: map<Id, Entry>, outcome: Outcome, id: Id)
    ensures var told := id in entries && !entries[id].Silent?;
      && FiredFor(FireAll(fired, entries, outcome), id) == FiredFor(fired, id) + (if told then [outcome] else [])
      && (id in FireAll(fired, entries, outcome) <==> id in fired || told)
  {
  }

  lemma FireAllNext(fired: map<Id, seq<Outcome>>, done: map<Id, Entry>, id: Id, entry: Entry, outcome: Outcome)
    requires id !in done
    ensures FireAll(fired, done[id := entry], outcome) == Fire(FireAll(fired, done, outcome), id, entry, outcome)
  {
    var all, before := FireAll(fired, done[id := entry], outcome), FireAll(fired, done, outcome);
    var next := Fire(before, id, entry, outcome);
    forall i: Id
      ensures (i in all <==> i in next) && (i in all ==> all[i] == next[i])
    {
      FireAllAt(fired, done[id := entry], outcome, i);
      FireAllAt(fired, done, outcome, i);
      hide FireAll;
    }
    hide FireAll, Fire;
    assert all == next;
  }

  class Correlator {
    var attached: bool
    var pending: map<Id, Entry>
    var fired: map<Id, seq<Outcome>>

    ghost function State(): Proxy
      reads this
    {
      Proxy(pending, fired)
    }

    constructor ()
      ensures attached && State() == Proxy(map[], map[])
    {
      attached, pending, fired := true, map[], map[];
    }

    /** The first critical section of a send; ids are fresh. */
    method Register(id: Id, entry: Entry)
      requires id !in pending
      modifies this
      ensures attached == old(attached) && State() == Registered(old(State()), id, entry)
    {
      pending := pending[id := entry];
    }

    method HandleControlReply(id: Id, isError: bool)
      modifies this
      ensures attached == old(attached) && State() == Completed(old(State()), id, Replied(isError))
    {
      if id !in pending {
        return;
      }
      var entry := pending[id];
      pending := pending - {id};
      if entry.Waiter? {
        fired := fired[id := FiredFor(fired, id) + [Replied(isError)]];
        return;
      }
      if entry.Callback? {
        fired := fired[id := FiredFor(fired, id) + [Replied(isError)]];
      }
    }

    /** `sent` is what Invoke returns; `early` is a reply to this request that the pump handles before it does. */
    method SendControl(id: Id, hasCallback: bool, sent: bool, early: Option<bool>) returns (ok: bool)
      requires id !in pending
      modifies this
      ensures attached == old(attached)
      ensures ok == (attached && sent)
      ensures State() ==
        if !attached then old(State()) else
        var p := Registered(old(State()), id, if hasCallback then Callback else Silent);
        var p := if early.Some? then Completed(p, id, Replied(early.value)) else p;
        if sent then p else Completed(p, id, SendFailed)
    {
      if !attached {
        return false;
      }
      Register(id, if hasCallback then Callback else Silent);
      if early.Some? {
        HandleControlReply(id, early.value);
      }
      if !sent {
        if id in pending {
          var entry := pending[id];
          pending := pending - {id};
          if entry.Callback? {
            fired := fired[id := FiredFor(fired, id) + [SendFailed]];
          }
        }
        return false;
      }
      return true;
    }

    /** The blocking form. A failed send takes the entry out without a signal; a timeout leaves it in. The result is
        true exactly when a reply without error came before the deadline. */
    method SendControlSync(id: Id, sent: bool, reply: Option<bool>) returns (ok: bool)
      requires id !in pending && id !in fired
      modifies this
      ensures attached == old(attached)
      ensures ok == (attached && sent && reply == Some(false))
      ensures State() ==
        if !attached then old(State()) else
        var p := Registered(old(State()), id, Waiter);
        if !sent then old(State())
        else if reply.Some? then Completed(p, id, Replied(reply.value)) else p
    {
      if !attached {
        return false;
      }
      Register(id, Waiter);
      if !sent {
        pending := pending - {id};
        assert pending == old(pending);
        return false;
      }
      if reply.Some? {
        HandleControlReply(id, reply.value);
      }
      var flags := FiredFor(fired, id);
      if flags == [] {
        return false;
      }
      return flags[|flags| - 1] == Replied(false);
    }

    /** The drain on a restart: the map is moved out under the lock and its entries completed outside it, in
        whatever order the map iterates. */
    method HandleBridgeRestarting()
      modifies this
      ensures attached == old(attached) && State() == DrainedWith(old(State()), Restarted)
    {
      var snapshot := pending;
      pending := map[];
      CompleteAll(snapshot, Restarted);
    }

    method CompleteAll(snapshot: map<Id, Entry>, outcome: Outcome)
      modifies this`fired
      ensures fired == FireAll(old(fired), snapshot, outcome)
    {
      var todo: set<Id>, done: map<Id, Entry> := snapshot.Keys, map[];
      assert FireAll(old(fired), done, outcome) == fired;
      while todo != {}
        invariant todo <= snapshot.Keys && done == snapshot - todo
        invariant fired == FireAll(old(fired), done, outcome)
      {
        var id :| id in todo;
        FireAllNext(old(fired), done, id, snapshot[id], outcome);
        if snapshot[id].Waiter? {
          fired := fired[id := FiredFor(fired, id) + [outcome]];
        } else if snapshot[id].Callback? {
          fired := fired[id := FiredFor(fired, id) + [outcome]];
        }
        done := done[id := snapshot[id]];
        todo := todo - {id};
        assert done == snapshot - todo;
      }
      assert done == snapshot;
    }

    method Detach()
      modifies this
      ensures !attached && State() == DrainedWith(old(State()), Detached)
    {
      attached := false;
      CompleteAll(pending, Detached);
      pending := map[];
    }
  }
}
