/** One participant's work on one action, as the constructor and destructor of DistributedExecutionContext do
    it (src/fs/metadata_store.cc), against the roles and steps of DistributedExecution.dfy. */
module DistributedContext {
  import opened Paths
  import opened Metadata
  import D = DistributedExecution

  class DistributedExecutionContext {
    const me: D.Participant
    const action: nat
    var known: Store
    var reader: bool
    var writer: bool
    var remoteReaders: set<D.Participant>
    var remoteWriters: set<D.Participant>

    /** The first half of the constructor: local reads, and who else reads and writes. */
    constructor (c: D.Cluster, p: D.Participant, i: nat, store: Store)
      requires D.Act(c, i)
      ensures me == p && action == i && known == D.LocalReads(c, p, i, store)
      ensures (reader <==> p in D.Readers(c, i)) && remoteReaders == D.Readers(c, i) - {p}
      ensures (writer <==> p in D.Writers(c, i)) && remoteWriters == D.Writers(c, i) - {p}
    {
      me, action := p, i;
      known, reader, writer, remoteReaders, remoteWriters := map[], false, false, {}, {};
      new;
      ReadLocal(c, store, GetRWSets(c.log[i]).value.readSet);
      FindWriters(c, GetRWSets(c.log[i]).value.writeSet);
    }

    /** The loop over the readset. */
    method ReadLocal(c: D.Cluster, store: Store, r: seq<Path>)
      requires known == map[] && !reader && remoteReaders == {}
      modifies this`known, this`reader, this`remoteReaders
      ensures known == D.Owned(c, me, Restrict(store, ToSet(r)))
      ensures (reader <==> me in D.Owners(c, ToSet(r))) && remoteReaders == D.Owners(c, ToSet(r)) - {me}
    {
      for j := 0 to |r|
        invariant known == D.Owned(c, me, Restrict(store, ToSet(r[..j])))
        invariant reader <==> me in D.Owners(c, ToSet(r[..j]))
        invariant remoteReaders == D.Owners(c, ToSet(r[..j])) - {me}
      {
        OneMore(c, r, j);
        ReadMore(c, me, store, ToSet(r[..j]), r[j]);
        hide D.Owners, ToSet, D.Owned, Restrict;
        if c.owner(r[j]) == me {
          if r[j] in store {
            known := known[r[j] := store[r[j]]];
          }
          reader := true;
        } else {
          remoteReaders := remoteReaders + {c.owner(r[j])};
        }
      }
      assert r[..|r|] == r;
    }

    /** The loop over the writeset. */
    method FindWriters(c: D.Cluster, w: seq<Path>)
      requires !writer && remoteWriters == {}
      modifies this`writer, this`remoteWriters
      ensures (writer <==> me in D.Owners(c, ToSet(w))) && remoteWriters == D.Owners(c, ToSet(w)) - {me}
    {
      for j := 0 to |w|
        invariant writer <==> me in D.Owners(c, ToSet(w[..j]))
        invariant remoteWriters == D.Owners(c, ToSet(w[..j])) - {me}
      {
        OneMore(c, w, j);
        hide D.Owners, ToSet;
        if c.owner(w[j]) == me {
          writer := true;
        } else {
          remoteWriters := remoteWriters + {c.owner(w[j])};
        }
      }
      assert w[..|w|] == w;
    }

    /** The broadcast of local reads to the other writers. */
    method Broadcast(ghost c: D.Cluster, ghost store: Store) returns (sent: set<D.Message>)
      requires D.Act(c, action) && known == D.LocalReads(c, me, action, store)
      requires (reader <==> me in D.Readers(c, action)) && remoteWriters == D.Writers(c, action) - {me}
      ensures sent == D.Sent(c, me, action, store)
    {
      hide D.Readers, D.Writers, D.LocalReads;
      sent := {};
      if reader {
        var todo := remoteWriters;
        assert remoteWriters - todo == {};
        while todo != {}
          invariant todo <= remoteWriters
          invariant sent == ToAll(remoteWriters - todo, action, me, known)
          decreases |todo|
        {
          var q :| q in todo;
          ToOneMore(remoteWriters - todo, q, action, me, known);
          assert remoteWriters - (todo - {q}) == (remoteWriters - todo) + {q};
          sent := sent + {D.Message(q, action, me, known)};
          todo := todo - {q};
        }
        assert remoteWriters - {} == remoteWriters;
      }
    }

    /** One turn of the receiving loop: the CHECK on every entry of a message never fires on disjoint reads. */
    method Absorb(records: Store)
      requires known.Keys !! records.Keys
      modifies this`known
      ensures known == old(known) + records
    {
      var todo := records.Keys;
      while todo != {}
        invariant todo <= records.Keys && known == old(known) + (records - todo)
        decreases |todo|
      {
        var x :| x in todo;
        AbsorbMore(old(known), records, todo, x);
        known := known[x := records[x]];
        todo := todo - {x};
      }
      assert records - {} == records;
    }

    /** The destructor: of the writes and deletions, only the local ones are installed. */
    method InstallLocal(c: D.Cluster, store: Store, change: Change) returns (s: Store)
      ensures s == Install(store, D.OwnChange(c, me, change))
    {
      s := PutOwn(c, store, change.puts);
      s := DeleteOwn(c, s, change.dels);
    }

    method PutOwn(c: D.Cluster, store: Store, puts: Store) returns (s: Store)
      ensures s == store + D.Owned(c, me, puts)
    {
      s := store;
      var todo := puts.Keys;
      while todo != {}
        invariant todo <= puts.Keys && s == store + D.Owned(c, me, puts - todo)
        decreases |todo|
      {
        var x :| x in todo;
        PutMore(c, me, store, puts, todo, x);
        if c.owner(x) == me {
          s := s[x := puts[x]];
        }
        todo := todo - {x};
      }
      assert puts - {} == puts;
    }

    method DeleteOwn(c: D.Cluster, store: Store, dels: set<Path>) returns (s: Store)
      ensures s == store - (set x | x in dels && c.owner(x) == me)
    {
      s := store;
      var rest := dels;
      while rest != {}
        invariant rest <= dels && s == store - (set x | x in dels - rest && c.owner(x) == me)
        decreases |rest|
      {
        var x :| x in rest;
        if c.owner(x) == me {
          s := s - {x};
        }
        rest := rest - {x};
      }
      assert dels - {} == dels;
    }
  }

  function ToAll(ps: set<D.Participant>, action: nat, from: D.Participant, records: Store): set<D.Message> {
    set q | q in ps :: D.Message(q, action, from, records)
  }

  lemma ToOneMore(ps: set<D.Participant>, q: D.Participant, action: nat, from: D.Participant, records: Store)
    ensures ToAll(ps + {q}, action, from, records) == ToAll(ps, action, from,
        records) + {D.Message(q, action, from, records)}
  {}

  lemma ReadMore(c: D.Cluster, p: D.Participant, store: Store, ps: set<Path>, x: Path)
    ensures D.Owned(c, p, Restrict(store, ps + {x})) ==
      if c.owner(x) == p && x in store then D.Owned(c, p, Restrict(store, ps))[x := store[x]]
          else D.Owned(c, p, Restrict(store, ps))
  {}

  /** One more entry of a message. */
  lemma AbsorbMore(known: Store, records: Store, todo: set<Path>, x: Path)
    requires todo <= records.Keys && x in todo && x !in known
    ensures x !in known + (records - todo)
    ensures known + (records - (todo - {x})) == (known + (records - todo))[x := records[x]]
  {
    assert records - (todo - {x}) == (records - todo)[x := records[x]];
  }

  lemma OwnedMore(c: D.Cluster, p: D.Participant, puts: Store, todo: set<Path>, x: Path)
    requires todo <= puts.Keys && x in todo
    ensures D.Owned(c, p, puts - (todo - {x})) ==
      if c.owner(x) == p then D.Owned(c, p, puts - todo)[x := puts[x]] else D.Owned(c, p, puts - todo)
  {}

  /** One more put. */
  lemma PutMore(c: D.Cluster, p: D.Participant, store: Store, puts: Store, todo: set<Path>, x: Path)
    requires todo <= puts.Keys && x in todo
    ensures store + D.Owned(c, p, puts - (todo - {x})) ==
      if c.owner(x) == p then (store + D.Owned(c, p, puts - todo))[x := puts[x]] else store + D.Owned(c, p, puts - todo)
  {
    OwnedMore(c, p, puts, todo, x);
  }

  lemma OneMore(c: D.Cluster, ps: seq<Path>, j: nat)
    requires j < |ps|
    ensures ToSet(ps[..j + 1]) == ToSet(ps[..j]) + {ps[j]}
    ensures D.Owners(c, ToSet(ps[..j + 1])) == D.Owners(c, ToSet(ps[..j])) + {c.owner(ps[j])}
  {
    assert ps[..j + 1] == ps[..j] + [ps[j]];
    assert ps[j] in ToSet(ps[..j + 1]);
    assert forall x :: x in ToSet(ps[..j + 1]) <==> x in ToSet(ps[..j]) || x == ps[j];
  }
}
