/** The storage object over its database, and the coordinator's merge, proved against the specification. */
module DhtStorage {
  import opened Options
  import opened StableSort
  import opened OrderedTable
  import opened MessageStore
  import opened NetworkMerge

  class DHTMessageStorage {
    var db: Table<Entry>

    constructor ()
      ensures db == Db([])
    {
      db := [];
    }

    /** The record's id and the proof of a signing node are made by the caller's randomness and signature. */
    method StoreMessage(box: Box, data: string, id: string, proof: Option<Proof>, now: nat) returns (record: Record)
      modifies this
      ensures record == AddProof(NewRecord(id, Name(box), data, now), proof)
      ensures db == Apply(old(db), Store(box, id, data, proof), now)
    {
      record := NewRecord(id, Name(box), data, now);
      if proof.Some? {
        record := record.(proofs := record.proofs + [proof.value]);
        record := record.(replicationCount := |record.proofs|);
      }
      db := Put(db, MessageKey(Name(box), record.id), Message(record));
    }

    /** The record handed over gains the proof as well. */
    method StoreExisting(record: Record, proof: Option<Proof>) returns (stored: Record)
      modifies this
      ensures stored == AddProof(record, proof)
      ensures forall box, now ::
                Name(box) == record.recipient ==> db == Apply(old(db), StoreRecord(box, record, proof), now)
    {
      stored := record;
      if proof.Some? {
        stored := stored.(proofs := stored.proofs + [proof.value]);
        stored := stored.(replicationCount := |stored.proofs|);
      }
      db := Put(db, MessageKey(stored.recipient, stored.id), Message(stored));
    }

    /** The scan over the whole database. */
    method ListMessages(recipient: string, now: nat) returns (messages: seq<Record>)
      ensures messages == GetMessages(db, recipient, now)
    {
      messages := [];
      var prefix := recipient + ":";
      var i := 0;
      while i < |db|
        invariant 0 <= i <= |db|
        invariant messages + Revived(Keep(Under(db[i..], prefix), Alive(now)), now)
               == Revived(Keep(Under(db, prefix), Alive(now)), now)
      {
        var (key, value) := db[i];
        assert db[i..][1..] == db[i + 1..];
        if StartsWith(key, prefix) && !Expired(value, now) {
          assert Revived(Keep(Under(db[i..], prefix), Alive(now)), now)
              == [Revive(value, now)] + Revived(Keep(Under(db[i + 1..], prefix), Alive(now)), now) by {
            assert Under(db[i..], prefix)[1..] == Under(db[i + 1..], prefix);
            assert Keep(Under(db[i..], prefix), Alive(now))[1..] == Keep(Under(db[i + 1..], prefix), Alive(now));
          }
          messages := messages + [Revive(value, now)];
        } else {
          assert StartsWith(key, prefix) ==> Under(db[i..], prefix)[1..] == Under(db[i + 1..], prefix);
        }
        i := i + 1;
      }
      assert db[i..] == [] && messages + [] == messages;
      messages := Sort(messages, Stamp);
    }

    method FindMessage(recipient: string, id: string, now: nat) returns (record: Option<Record>)
      ensures record == GetMessage(db, recipient, id, now)
    {
      var found := Get(db, MessageKey(recipient, id));
      if found.None? || Expired(found.value, now) {
        return None;
      }
      record := Some(Revive(found.value, now));
    }

    method DeleteMessage(box: Box, id: string)
      modifies this
      ensures forall now :: db == Apply(old(db), Delete(box, id), now)
    {
      db := Del(db, MessageKey(Name(box), id));
    }

    method MarkAsRead(address: Address, id: string, now: nat)
      modifies this
      ensures db == Apply(old(db), MarkRead(Marks(address), id), now)
    {
      assert "read:" + address + ":" + id == MessageKey(Name(Marks(address)), id);
      db := Put(db, "read:" + address + ":" + id, Mark(now));
    }

    method ReadMessageIds(address: Address) returns (ids: set<string>)
      ensures ids == ReadIds(db, address)
    {
      ids := {};
      var prefix := "read:" + address + ":";
      var i := 0;
      while i < |db|
        invariant 0 <= i <= |db|
        invariant ids + Names(Under(db[i..], prefix)) == Names(Under(db, prefix))
      {
        assert db[i..][1..] == db[i + 1..];
        var key := db[i].0;
        var rest := Under(db[i + 1..], prefix);
        if StartsWith(key, prefix) {
          var entry := (key[|prefix|..], db[i].1);
          assert Under(db[i..], prefix) == [entry] + rest;
          NamesFirst(entry, rest);
          ids := ids + {key[|prefix|..]};
        }
        i := i + 1;
      }
    }

    /** The first phase of a cleanup: the keys of the expired entries. */
    method CollectExpired(now: nat) returns (toDelete: seq<string>)
      ensures toDelete == Dead(db, now)
    {
      toDelete := [];
      var i := 0;
      while i < |db|
        invariant 0 <= i <= |db|
        invariant toDelete + Dead(db[i..], now) == Dead(db, now)
      {
        assert db[i..][1..] == db[i + 1..];
        if Expired(db[i].1, now) {
          toDelete := toDelete + [db[i].0];
        }
        i := i + 1;
      }
      assert db[i..] == [] && toDelete + [] == toDelete;
    }

    method CleanupExpired(now: nat) returns (deleted: nat)
      requires Ordered(db)
      modifies this
      ensures db == Apply(old(db), Cleanup, now)
      ensures deleted == |Dead(old(db), now)|
    {
      var toDelete := CollectExpired(now);
      CleanupDeletesTheDead(db, now);
      DeleteKeys(toDelete);
      deleted := |toDelete|;
    }

    /** The second phase: the keys are deleted one by one. */
    method DeleteKeys(toDelete: seq<string>)
      modifies this
      ensures db == DelAll(old(db), toDelete)
    {
      var k := 0;
      assert toDelete[0..] == toDelete;
      while k < |toDelete|
        invariant 0 <= k <= |toDelete|
        invariant DelAll(db, toDelete[k..]) == DelAll(old(db), toDelete)
      {
        assert toDelete[k..][1..] == toDelete[k + 1..];
        db := Del(db, toDelete[k]);
        k := k + 1;
      }
    }

    /** One node's answer. */
    method MergeReply(ghost start: seq<Record>, ghost before: seq<Record>, merged: seq<Record>, messages: seq<Record>)
      returns (all: seq<Record>)
      requires merged == OfferAll(start, before)
      ensures all == OfferAll(start, before + messages)
    {
      all := merged;
      assert before + messages[..0] == before;
      for m := 0 to |messages|
        invariant all == OfferAll(start, before + messages[..m])
      {
        assert (before + messages[..m + 1])[..|before| + m] == before + messages[..m];
        all := Offer(all, messages[m]);
      }
      assert messages[..|messages|] == messages;
    }

    /** Local messages first, then what each node answers; `None` stands for a node that failed. */
    method FetchFromNetwork(recipient: string, replies: seq<Option<seq<Record>>>, now: nat) returns (all: seq<Record>)
      ensures all == OfferAll(SetAll([], GetMessages(db, recipient, now)), Flat(replies))
    {
      var local := ListMessages(recipient, now);
      all := [];
      for i := 0 to |local|
        invariant all == SetAll([], local[..i])
      {
        assert local[..i + 1][..i] == local[..i];
        all := Set(all, local[i]);
      }
      assert local[..|local|] == local;
      ghost var start := all;
      for n := 0 to |replies|
        invariant all == OfferAll(start, Flat(replies[..n]))
      {
        assert replies[..n + 1][..n] == replies[..n];
        if replies[n].Some? {
          all := MergeReply(start, Flat(replies[..n]), all, replies[n].value);
        } else {
          assert Flat(replies[..n]) + [] == Flat(replies[..n]);
        }
      }
      assert replies[..|replies|] == replies;
    }
  }

  lemma NamesFirst(entry: (string, Entry), rest: Table<Entry>)
    ensures Names([entry] + rest) == {entry.0} + Names(rest)
  {
    assert forall e :: e in [entry] + rest <==> e == entry || e in rest;
  }
}
