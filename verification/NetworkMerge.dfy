/** Merging the copies of messages that several nodes hold: one record per id, the one with the most proofs. */
module NetworkMerge {
  import opened Options
  import opened MessageStore

  /** A map from ids to records in the order in which the ids were first set. */
  function Find(merged: seq<Record>, id: string): Option<Record> {
    if merged == [] then None else if merged[0].id == id then Some(merged[0]) else Find(merged[1..], id)
  }

  function Set(merged: seq<Record>, r: Record): seq<Record> {
    if merged == [] then [r]
    else if merged[0].id == r.id then [r] + merged[1..]
    else [merged[0]] + Set(merged[1..], r)
  }

  function SetAll(merged: seq<Record>, rs: seq<Record>): seq<Record> {
    if rs == [] then merged else Set(SetAll(merged, rs[..|rs| - 1]), rs[|rs| - 1])
  }

  /** A copy from another node replaces the one at hand only if it carries more proofs. */
  function Offer(merged: seq<Record>, r: Record): seq<Record> {
    var existing := Find(merged, r.id);
    if existing.None? || r.replicationCount > existing.value.replicationCount then Set(merged, r) else merged
  }

  function OfferAll(merged: seq<Record>, rs: seq<Record>): seq<Record> {
    if rs == [] then merged else Offer(OfferAll(merged, rs[..|rs| - 1]), rs[|rs| - 1])
  }

  /** What the reachable nodes sent, node after node; a node that fails sends nothing. */
  function Flat(replies: seq<Option<seq<Record>>>): seq<Record> {
    if replies == [] then []
    else
      var last := replies[|replies| - 1];
      Flat(replies[..|replies| - 1]) + if last.Some? then last.value else []
  }

  /** The first of the records with the most proofs under an id. */
  predicate Chosen(rs: seq<Record>, id: string, r: Record) {
    exists k :: 0 <= k < |rs| && rs[k] == r && ChosenAt(rs, id, k)
  }

  predicate ChosenAt(rs: seq<Record>, id: string, k: nat)
    requires k < |rs|
  {
    && rs[k].id == id
    && forall i :: 0 <= i < |rs| && rs[i].id == id ==>
         rs[i].replicationCount <= rs[k].replicationCount && (i < k ==> rs[i].replicationCount < rs[k].replicationCount)
  }

  lemma {:induction false} FindSet(merged: seq<Record>, r: Record, id: string)
    ensures Find(Set(merged, r), id) == if id == r.id then Some(r) else Find(merged, id)
  {
    if merged != [] && merged[0].id != r.id {
      FindSet(merged[1..], r, id);
    }
  }

  predicate DistinctIds(rs: seq<Record>) {
    forall i, j :: 0 <= i < j < |rs| ==> rs[i].id != rs[j].id
  }

  lemma {:induction false} SetIds(merged: seq<Record>, r: Record)
    requires DistinctIds(merged)
    ensures DistinctIds(Set(merged, r))
    ensures forall x :: x in Set(merged, r) ==> x == r || x in merged
  {
    if merged != [] && merged[0].id != r.id {
      SetIds(merged[1..], r);
      var rest := Set(merged[1..], r);
      assert forall i :: 0 <= i < |rest| ==> rest[i] in rest;
    }
  }

  lemma {:induction false} FindNone(merged: seq<Record>, id: string)
    ensures Find(merged, id) == None <==> forall i :: 0 <= i < |merged| ==> merged[i].id != id
  {
    if merged != [] {
      FindNone(merged[1..], id);
      assert forall i :: 0 <= i < |merged| - 1 ==> merged[1..][i] == merged[i + 1];
    }
  }

  lemma {:induction false} SetNew(merged: seq<Record>, r: Record)
    requires Find(merged, r.id) == None
    ensures Set(merged, r) == merged + [r]
  {
    if merged != [] {
      SetNew(merged[1..], r);
    }
  }

  /** The local records, which have different ids, are taken over as they are. */
  lemma {:induction false} LocalsTaken(local: seq<Record>)
    requires DistinctIds(local)
    ensures SetAll([], local) == local == OfferAll([], local)
  {
    if local != [] {
      var front, last := local[..|local| - 1], local[|local| - 1];
      LocalsTaken(front);
      FindNone(front, last.id);
      SetNew(front, last);
      assert local == front + [last];
    }
  }

  lemma ChosenNext(rs: seq<Record>, last: Record, id: string, best: Option<Record>)
    requires best.None? ==> forall i :: 0 <= i < |rs| ==> rs[i].id != id
    requires best.Some? ==> Chosen(rs, id, best.value)
    ensures last.id != id && best.Some? ==> Chosen(rs + [last], id, best.value)
    ensures last.id == id ==>
      Chosen(rs + [last], id,
             if best.None? || last.replicationCount > best.value.replicationCount then last else best.value)
  {
    var more := rs + [last];
    if best.Some? {
      var k :| 0 <= k < |rs| && rs[k] == best.value && ChosenAt(rs, id, k);
      assert more[k] == best.value;
      if last.id != id || last.replicationCount <= best.value.replicationCount {
        assert ChosenAt(more, id, k);
      } else {
        assert ChosenAt(more, id, |rs|) && more[|rs|] == last;
      }
    } else if last.id == id {
      assert ChosenAt(more, id, |rs|) && more[|rs|] == last;
    }
  }

  lemma {:induction false} OffersChoose(rs: seq<Record>, id: string)
    ensures Find(OfferAll([], rs), id) == None <==> forall i :: 0 <= i < |rs| ==> rs[i].id != id
    ensures forall r :: Find(OfferAll([], rs), id) == Some(r) ==> Chosen(rs, id, r)
    ensures DistinctIds(OfferAll([], rs))
  {
    if rs != [] {
      var front, last := rs[..|rs| - 1], rs[|rs| - 1];
      var before := OfferAll([], front);
      OffersChoose(front, id);
      assert rs == front + [last];
      ChosenNext(front, last, id, Find(before, id));
      FindSet(before, last, id);
      SetIds(before, last);
    }
  }

  lemma {:induction false} OffersAppend(local: seq<Record>, rs: seq<Record>)
    ensures OfferAll(OfferAll([], local), rs) == OfferAll([], local + rs)
  {
    if rs == [] {
      assert local + rs == local;
    } else {
      OffersAppend(local, rs[..|rs| - 1]);
      assert (local + rs)[..|local + rs| - 1] == local + rs[..|rs| - 1];
    }
  }

  /** The local copy of an id that counts: the last one. */
  function LastOf(rs: seq<Record>, id: string): Option<Record> {
    if rs == [] then None
    else if rs[|rs| - 1].id == id then Some(rs[|rs| - 1])
    else LastOf(rs[..|rs| - 1], id)
  }

  lemma {:induction false} LocalsSet(local: seq<Record>, id: string)
    ensures DistinctIds(SetAll([], local)) && Find(SetAll([], local), id) == LastOf(local, id)
  {
    if local != [] {
      var front, last := local[..|local| - 1], local[|local| - 1];
      LocalsSet(front, id);
      SetIds(SetAll([], front), last);
      FindSet(SetAll([], front), last, id);
    }
  }

  /** The answers of the nodes that could be reached, in the order in which they were asked; a node that
      failed adds nothing. */
  lemma AnswersInOrder(before: seq<Option<seq<Record>>>, answer: seq<Record>, after: seq<Option<seq<Record>>>)
    ensures Flat(before + [Some(answer)] + after) == Flat(before) + answer + Flat(after)
    ensures Flat(before + [None] + after) == Flat(before) + Flat(after)
  {
    FlatAppends(before + [Some(answer)], after);
    FlatAppends(before + [None], after);
    assert (before + [Some(answer)])[..|before|] == before && (before + [None])[..|before|] == before;
  }

  lemma {:induction false} FlatAppends(before: seq<Option<seq<Record>>>, after: seq<Option<seq<Record>>>)
    ensures Flat(before + after) == Flat(before) + Flat(after)
  {
    if after == [] {
      assert before + after == before;
    } else {
      FlatAppends(before, after[..|after| - 1]);
      assert (before + after)[..|before + after| - 1] == before + after[..|after| - 1];
    }
  }

  /** For every id known locally or to a reachable node, the merge holds exactly one record: of all copies
      the first with the largest number of proofs. Local copies come first, the last one per id if an id
      occurs twice among them. */
  lemma MergeChoosesBest(local: seq<Record>, replies: seq<Option<seq<Record>>>, id: string, r: Record)
    ensures var kept := SetAll([], local);
            var merged := OfferAll(kept, Flat(replies));
            && DistinctIds(kept) && Find(kept, id) == LastOf(local, id) && (DistinctIds(local) ==> kept == local)
            && DistinctIds(merged)
            && (Find(merged, id) == None
                <==> forall i :: 0 <= i < |kept + Flat(replies)| ==> (kept + Flat(replies))[i].id != id)
            && (Find(merged, id) == Some(r) ==> Chosen(kept + Flat(replies), id, r))
  {
    var kept := SetAll([], local);
    LocalsSet(local, id);
    LocalsTaken(kept);
    if DistinctIds(local) {
      LocalsTaken(local);
    }
    OffersAppend(kept, Flat(replies));
    OffersChoose(kept + Flat(replies), id);
  }

  /** What a fetch gives for an inbox of any reachable store: per id the first copy with the most proofs,
      among the local scan, which names no id twice, and the answers of the nodes. */
  lemma FetchChoosesBest(run: seq<Timed>, now: nat, b: Box, replies: seq<Option<seq<Record>>>, id: string, r: Record)
    requires Clocked(run, now) && Proper(b) && !b.Marks?
    ensures var copies := GetMessages(Db(run), Name(b), now) + Flat(replies);
            var fetched := OfferAll(SetAll([], GetMessages(Db(run), Name(b), now)), Flat(replies));
            && DistinctIds(fetched)
            && (Find(fetched, id) == None <==> forall i :: 0 <= i < |copies| ==> copies[i].id != id)
            && (Find(fetched, id) == Some(r) ==> Chosen(copies, id, r))
  {
    var local := GetMessages(Db(run), Name(b), now);
    ScanHasDistinctIds(run, now, b);
    assert DistinctIds(local) by {
      forall i, j | 0 <= i < j < |local| ensures local[i].id != local[j].id {
        assert IdOf(local[i]) != IdOf(local[j]);
      }
    }
    MergeChoosesBest(local, replies, id, r);
  }
}
