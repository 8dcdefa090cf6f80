/** The message store: one flat table in which recipients, sent copies and read marks share the key space,
    next to one table per box that never forgets an expired entry. */
module MessageStore {
  import opened Options
  import opened Encoding
  import opened StableSort
  import opened OrderedTable

  type Address = string

  const MESSAGE_TTL_MS: nat := 7 * 24 * 60 * 60 * 1000

  datatype Proof = Proof(nodeId: string, messageHash: string, timestamp: nat, signature: string)

  datatype Record = Record(
    id: string, recipient: string, data: string, timestamp: nat, expires: nat,
    proofs: seq<Proof>, replicationCount: nat)

  /** What a database value can be: a message record, or a read mark, which has a timestamp only. */
  datatype Entry = Message(record: Record) | Mark(timestamp: nat)

  function NewRecord(id: string, recipient: string, data: string, now: nat): Record {
    Record(id, recipient, data, now, now + MESSAGE_TTL_MS, [], 0)
  }

  function AddProof(r: Record, proof: Option<Proof>): Record {
    if proof.None? then r else r.(proofs := r.proofs + [proof.value], replicationCount := |r.proofs| + 1)
  }

  /** Reading a value builds a record from it; a missing or zero time is filled in at that moment, so a
      read mark, which has no expiry, is given a new one at every reading. */
  function Revive(e: Entry, now: nat): Record {
    match e
    case Message(r) =>
      r.(timestamp := if r.timestamp == 0 then now else r.timestamp,
         expires := if r.expires == 0 then now + MESSAGE_TTL_MS else r.expires)
    case Mark(timestamp) => Record("", "", "", if timestamp == 0 then now else timestamp, now + MESSAGE_TTL_MS, [], 0)
  }

  predicate Expired(e: Entry, now: nat) {
    now > Revive(e, now).expires
  }

  function Alive(now: nat): Entry -> bool {
    e => !Expired(e, now)
  }

  // ------------------------------------------------------------------- boxes

  datatype Box = Inbox(address: Address) | Sent(address: Address) | Marks(address: Address)

  function Name(b: Box): string {
    match b
    case Inbox(a) => a
    case Sent(a) => "sent:" + a
    case Marks(a) => "read:" + a
  }

  function Prefix(b: Box): string {
    Name(b) + ":"
  }

  function MessageKey(recipient: string, id: string): string {
    recipient + ":" + id
  }

  /** Addresses have no colon, and no inbox belongs to an address "sent" or "read". */
  predicate Proper(b: Box) {
    ':' !in b.address && (b.Inbox? ==> b.address != "sent" && b.address != "read")
  }

  // --------------------------------------------------------------- operations

  datatype Op =
    | Store(box: Box, id: string, data: string, proof: Option<Proof>)
    | StoreRecord(box: Box, record: Record, proof: Option<Proof>)
    | Delete(box: Box, id: string)
    | MarkRead(box: Box, id: string)
    | Cleanup

  /** Messages go to inboxes and sent boxes under the box's name, marks to mark boxes. */
  predicate WellFormed(op: Op) {
    match op
    case Store(box, _, _, _) => Proper(box) && !box.Marks?
    case StoreRecord(box, record, _) => Proper(box) && !box.Marks? && record.recipient == Name(box)
    case Delete(box, _) => Proper(box) && !box.Marks?
    case MarkRead(box, _) => Proper(box) && box.Marks?
    case Cleanup => true
  }

  /** What an operation writes: an identifier in a box, and the value it gets, or none when it is deleted. */
  datatype Write = Write(box: Box, id: string, value: Option<Entry>)

  function WriteOf(op: Op, now: nat): Option<Write> {
    match op
    case Store(box, id, data, proof) =>
      Some(Write(box, id, Some(Message(AddProof(NewRecord(id, Name(box), data, now), proof)))))
    case StoreRecord(box, record, proof) => Some(Write(box, record.id, Some(Message(AddProof(record, proof)))))
    case Delete(box, id) => Some(Write(box, id, None))
    case MarkRead(box, id) => Some(Write(box, id, Some(Mark(now))))
    case Cleanup => None
  }

  function Written(t: Table<Entry>, key: string, value: Option<Entry>): Table<Entry> {
    match value
    case Some(v) => Put(t, key, v)
    case None => Del(t, key)
  }

  /** The flat table after an operation. */
  function Apply(db: Table<Entry>, op: Op, now: nat): Table<Entry> {
    match WriteOf(op, now)
    case Some(w) => Written(db, MessageKey(Name(w.box), w.id), w.value)
    case None => Keep(db, Alive(now))
  }

  /** The tables per box after an operation; a cleanup does nothing to them. */
  type Boxes = map<Box, Table<Entry>>

  function BoxOf(boxes: Boxes, b: Box): Table<Entry> {
    if b in boxes then boxes[b] else []
  }

  function Remember(boxes: Boxes, op: Op, now: nat): Boxes {
    match WriteOf(op, now)
    case Some(w) => boxes[w.box := Written(BoxOf(boxes, w.box), w.id, w.value)]
    case None => boxes
  }

  datatype Timed = Timed(op: Op, now: nat)

  function Db(run: seq<Timed>): Table<Entry> {
    if run == [] then [] else Apply(Db(run[..|run| - 1]), run[|run| - 1].op, run[|run| - 1].now)
  }

  function PerBox(run: seq<Timed>): Boxes {
    if run == [] then map[] else Remember(PerBox(run[..|run| - 1]), run[|run| - 1].op, run[|run| - 1].now)
  }

  /** Operations on proper boxes, under a clock that never runs backwards and has not passed `now`. */
  predicate Clocked(run: seq<Timed>, now: nat) {
    run == [] ||
    var last := run[|run| - 1];
    last.now <= now && WellFormed(last.op) && Clocked(run[..|run| - 1], last.now)
  }

  // ------------------------------------------------------------------- reads

  function Revived(t: Table<Entry>, now: nat): seq<Record> {
    if t == [] then [] else [Revive(t[0].1, now)] + Revived(t[1..], now)
  }

  function Stamp(r: Record): real {
    r.timestamp as real
  }

  /** The unexpired records of a table, oldest first. */
  function Messages(t: Table<Entry>, now: nat): seq<Record> {
    Sort(Revived(Keep(t, Alive(now)), now), Stamp)
  }

  function Readable(e: Option<Entry>, now: nat): Option<Record> {
    if e.None? || Expired(e.value, now) then None else Some(Revive(e.value, now))
  }

  /** The prefix scan over the whole database. */
  function GetMessages(db: Table<Entry>, recipient: string, now: nat): seq<Record> {
    Messages(Under(db, recipient + ":"), now)
  }

  function GetMessage(db: Table<Entry>, recipient: string, id: string, now: nat): Option<Record> {
    Readable(Get(db, MessageKey(recipient, id)), now)
  }

  function Names(t: Table<Entry>): set<string> {
    set e | e in t :: e.0
  }

  function ReadIds(db: Table<Entry>, address: Address): set<string> {
    Names(Under(db, "read:" + address + ":"))
  }

  predicate IsRead(db: Table<Entry>, address: Address, id: string) {
    Get(db, "read:" + address + ":" + id).Some?
  }

  // ------------------------------------------------------ regions do not meet

  lemma KeyParts(b: Box, id: string)
    ensures MessageKey(Name(b), id) == Prefix(b) + id
  {
  }

  /** The first part of a key of a proper box. */
  lemma FirstPart(b: Box, id: string)
    requires Proper(b)
    ensures BeforeColon(Prefix(b) + id) == match b case Inbox(a) => a case Sent(_) => "sent" case Marks(_) => "read"
    ensures !b.Inbox? ==> BeforeColon((Prefix(b) + id)[5..]) == b.address
  {
    match b
    case Inbox(a) => BeforeColonOf(a, id);
    case Sent(a) =>
      BeforeColonOf("sent", a + ":" + id);
      assert Prefix(b) + id == "sent" + ":" + (a + ":" + id);
      BeforeColonOf(a, id);
      assert (Prefix(b) + id)[5..] == a + ":" + id;
    case Marks(a) =>
      BeforeColonOf("read", a + ":" + id);
      assert Prefix(b) + id == "read" + ":" + (a + ":" + id);
      BeforeColonOf(a, id);
      assert (Prefix(b) + id)[5..] == a + ":" + id;
  }

  /** A key of one proper box lies in the region of another only if they are the same box. */
  lemma RegionsApart(b: Box, id: string, other: Box)
    requires Proper(b) && Proper(other)
    ensures StartsWith(MessageKey(Name(b), id), Prefix(other)) <==> b == other
  {
    var key := MessageKey(Name(b), id);
    KeyParts(b, id);
    FirstPart(b, id);
    if StartsWith(key, Prefix(other)) {
      assert key == Prefix(other) + key[|Prefix(other)|..];
      FirstPart(other, key[|Prefix(other)|..]);
    }
  }

  /** The scan for one recipient can show an entry stored for another, under some id, exactly when one of
      the two names followed by a colon begins with the other so followed. */
  lemma ScanMixesRecipients(stored: string, scanned: string)
    ensures (exists id :: StartsWith(MessageKey(stored, id), scanned + ":"))
       <==> StartsWith(stored + ":", scanned + ":") || StartsWith(scanned + ":", stored + ":")
  {
    var p, q := stored + ":", scanned + ":";
    if id :| StartsWith(MessageKey(stored, id), q) {
      assert MessageKey(stored, id)[..|p|] == p;
      PrefixesOfOne(MessageKey(stored, id), p, q);
    }
    if StartsWith(p, q) {
      assert MessageKey(stored, "") == p;
    } else if StartsWith(q, p) {
      assert q == p + q[|p|..];
      assert MessageKey(stored, q[|p|..]) == q;
    }
  }

  lemma PrefixesOfOne(key: string, p: string, q: string)
    requires StartsWith(key, p) && StartsWith(key, q)
    ensures StartsWith(p, q) || StartsWith(q, p)
  {
    if |p| <= |q| {
      assert q[..|p|] == key[..|p|];
    } else {
      assert p[..|q|] == key[..|q|];
    }
  }

  // -------------------------------------------------------------- refinement

  predicate AgreeOn(db: Table<Entry>, boxes: Boxes, b: Box, now: nat) {
    Keep(Under(db, Prefix(b)), Alive(now)) == Keep(BoxOf(boxes, b), Alive(now))
  }

  ghost predicate Agree(db: Table<Entry>, boxes: Boxes, now: nat) {
    && Ordered(db)
    && (forall b :: Ordered(BoxOf(boxes, b)))
    && (forall b :: Proper(b) ==> AgreeOn(db, boxes, b, now))
  }

  lemma WrittenOrdered(t: Table<Entry>, key: string, value: Option<Entry>)
    requires Ordered(t)
    ensures Ordered(Written(t, key, value))
  {
    match value
    case Some(v) => PutOrdered(t, key, v);
    case None => DelOrdered(t, key);
  }

  lemma WrittenKept(t: Table<Entry>, key: string, value: Option<Entry>, now: nat)
    requires Ordered(t)
    ensures Keep(Written(t, key, value), Alive(now))
         == Written(Keep(t, Alive(now)), key, if value.Some? && Expired(value.value, now) then None else value)
  {
    match value
    case Some(v) => KeepPut(t, key, v, Alive(now));
    case None => KeepDel(t, key, Alive(now));
  }

  lemma {:induction false} UnderOrdered(t: Table<Entry>, p: string)
    requires Ordered(t)
    ensures Ordered(Under(t, p))
  {
    if t != [] {
      UnderOrdered(t[1..], p);
      if StartsWith(t[0].0, p) {
        assert t[0].0 == p + t[0].0[|p|..];
        AboveUnder(t[1..], p, t[0].0[|p|..]);
        assert Under(t, p)[1..] == Under(t[1..], p);
      }
    }
  }

  lemma UnderWritten(db: Table<Entry>, b: Box, w: Write)
    requires Ordered(db) && Proper(b) && Proper(w.box)
    ensures Under(Written(db, MessageKey(Name(w.box), w.id), w.value), Prefix(b))
         == if b == w.box then Written(Under(db, Prefix(b)), w.id, w.value) else Under(db, Prefix(b))
  {
    var key := MessageKey(Name(w.box), w.id);
    RegionsApart(w.box, w.id, b);
    KeyParts(w.box, w.id);
    assert (Prefix(w.box) + w.id)[|Prefix(w.box)|..] == w.id;
    match w.value
    case Some(v) => UnderPut(db, Prefix(b), key, v);
    case None => UnderDel(db, Prefix(b), key);
  }

  lemma WriteAgrees(db: Table<Entry>, boxes: Boxes, w: Write, now: nat, b: Box)
    requires Ordered(db) && Ordered(BoxOf(boxes, b)) && Proper(b) && Proper(w.box) && AgreeOn(db, boxes, b, now)
    ensures AgreeOn(Written(db, MessageKey(Name(w.box), w.id), w.value),
                    boxes[w.box := Written(BoxOf(boxes, w.box), w.id, w.value)], b, now)
  {
    UnderWritten(db, b, w);
    if b == w.box {
      UnderOrdered(db, Prefix(b));
      WrittenKept(Under(db, Prefix(b)), w.id, w.value, now);
      WrittenKept(BoxOf(boxes, b), w.id, w.value, now);
    }
  }

  lemma AgreeLater(db: Table<Entry>, boxes: Boxes, b: Box, early: nat, late: nat)
    requires AgreeOn(db, boxes, b, early) && early <= late
    ensures AgreeOn(db, boxes, b, late) && AgreeOn(Keep(db, Alive(late)), boxes, b, late)
  {
    var flat, own := Under(db, Prefix(b)), BoxOf(boxes, b);
    KeepKeep(flat, Alive(early), Alive(late));
    KeepKeep(own, Alive(early), Alive(late));
    UnderKeep(db, Prefix(b), Alive(late));
    KeepKeep(flat, Alive(late), Alive(late));
  }

  lemma StepAgrees(db: Table<Entry>, boxes: Boxes, op: Op, early: nat, now: nat)
    requires Agree(db, boxes, early) && early <= now && WellFormed(op)
    ensures Agree(Apply(db, op, now), Remember(boxes, op, now), now)
  {
    var db', boxes' := Apply(db, op, now), Remember(boxes, op, now);
    match WriteOf(op, now) {
      case Some(w) =>
        WrittenOrdered(db, MessageKey(Name(w.box), w.id), w.value);
        forall b ensures Ordered(BoxOf(boxes', b)) {
          assert Ordered(BoxOf(boxes, b));
          if b == w.box {
            WrittenOrdered(BoxOf(boxes, b), w.id, w.value);
          }
        }
        forall b | Proper(b) ensures AgreeOn(db', boxes', b, now) {
          assert Ordered(BoxOf(boxes, b)) && AgreeOn(db, boxes, b, early);
          AgreeLater(db, boxes, b, early, now);
          WriteAgrees(db, boxes, w, now, b);
        }
      case None =>
        KeepOrdered(db, Alive(now));
        forall b | Proper(b) ensures AgreeOn(db', boxes', b, now) {
          assert AgreeOn(db, boxes, b, early);
          AgreeLater(db, boxes, b, early, now);
        }
    }
  }

  lemma {:induction false} RunAgrees(run: seq<Timed>, now: nat, db: Table<Entry>, boxes: Boxes)
    requires Clocked(run, now) && db == Db(run) && boxes == PerBox(run)
    ensures Ordered(db) && forall b :: Ordered(BoxOf(boxes, b))
    ensures forall b :: Proper(b) ==> AgreeOn(db, boxes, b, now)
  {
    if run != [] {
      var last := run[|run| - 1];
      var db0, boxes0 := Db(run[..|run| - 1]), PerBox(run[..|run| - 1]);
      RunAgrees(run[..|run| - 1], last.now, db0, boxes0);
      StepAgrees(db0, boxes0, last.op, last.now, last.now);
      forall b | Proper(b) ensures AgreeOn(db, boxes, b, now) {
        assert AgreeOn(db, boxes, b, last.now);
        AgreeLater(db, boxes, b, last.now, now);
      }
    }
  }

  lemma {:induction false} GetKeep(t: Table<Entry>, id: string, now: nat)
    requires Ordered(t)
    ensures Readable(Get(Keep(t, Alive(now)), id), now) == Readable(Get(t, id), now)
  {
    if t != [] {
      GetKeep(t[1..], id, now);
      if t[0].0 == id && Expired(t[0].1, now) {
        AboveKeep(t[1..], Alive(now), id);
        GetAbove(Keep(t[1..], Alive(now)), id);
      }
    }
  }

  /** After any run, a scan of the flat table for a box and a lookup in it give what the box's own table
      gives, although that table never forgot anything. */
  lemma ReadsAgree(run: seq<Timed>, now: nat, b: Box, id: string)
    requires Clocked(run, now) && Proper(b)
    ensures GetMessages(Db(run), Name(b), now) == Messages(BoxOf(PerBox(run), b), now)
    ensures GetMessage(Db(run), Name(b), id, now) == Readable(Get(BoxOf(PerBox(run), b), id), now)
  {
    var db, boxes := Db(run), PerBox(run);
    RunAgrees(run, now, db, boxes);
    assert AgreeOn(db, boxes, b, now) && Ordered(BoxOf(boxes, b));
    GetUnder(db, Prefix(b), id);
    KeyParts(b, id);
    UnderOrdered(db, Prefix(b));
    GetKeep(Under(db, Prefix(b)), id, now);
    GetKeep(BoxOf(boxes, b), id, now);
  }

  // ------------------------------------------------------- what a box's table holds

  /** The value last written for an identifier, as far back as the run goes. */
  function LastWrite(run: seq<Timed>, b: Box, id: string): Option<Entry> {
    if run == [] then None
    else
      var last := run[|run| - 1];
      match WriteOf(last.op, last.now)
      case Some(w) => if w.box == b && w.id == id then w.value else LastWrite(run[..|run| - 1], b, id)
      case None => LastWrite(run[..|run| - 1], b, id)
  }

  lemma {:induction false} BoxHoldsLastWrites(run: seq<Timed>, b: Box, id: string, t: Table<Entry>)
    requires t == BoxOf(PerBox(run), b)
    ensures Ordered(t) && Get(t, id) == LastWrite(run, b, id)
  {
    if run != [] {
      var last := run[|run| - 1];
      var t0 := BoxOf(PerBox(run[..|run| - 1]), b);
      BoxHoldsLastWrites(run[..|run| - 1], b, id, t0);
      match WriteOf(last.op, last.now) {
        case Some(w) =>
          if w.box == b {
            WrittenOrdered(t0, w.id, w.value);
            match w.value {
              case Some(v) => GetPut(t0, w.id, v, id);
              case None => GetDel(t0, w.id, id);
            }
          }
        case None =>
      }
    }
  }

  lemma {:induction false} RevivedFrom(t: Table<Entry>, now: nat, r: Record)
    ensures r in Revived(Keep(t, Alive(now)), now)
       <==> exists i :: 0 <= i < |t| && Readable(Some(t[i].1), now) == Some(r)
  {
    if t != [] {
      var kept := Keep(t[1..], Alive(now));
      RevivedFrom(t[1..], now, r);
      assert ([t[0]] + kept)[1..] == kept;
      assert forall i :: 0 <= i < |t| - 1 ==> t[1..][i] == t[i + 1];
      if r in Revived(kept, now) {
        var i :| 0 <= i < |t| - 1 && Readable(Some(t[1..][i].1), now) == Some(r);
        assert Readable(Some(t[i + 1].1), now) == Some(r);
      }
    }
  }

  lemma {:induction false} GetEntry(t: Table<Entry>, id: string, e: Entry)
    requires Ordered(t)
    ensures Get(t, id) == Some(e) <==> (id, e) in t
  {
    if t != [] {
      GetEntry(t[1..], id, e);
      if t[0].0 == id {
        LessIrreflexive(id);
        GetAbove(t[1..], id);
      }
      assert (id, e) in t <==> (id, e) == t[0] || (id, e) in t[1..];
    }
  }

  lemma FoundById(t: Table<Entry>, now: nat, r: Record)
    requires Ordered(t)
    ensures r in Messages(t, now) <==> exists id :: Readable(Get(t, id), now) == Some(r)
  {
    var found := Revived(Keep(t, Alive(now)), now);
    SortLaws(found, Stamp);
    assert r in multiset(Messages(t, now)) <==> r in multiset(found);
    RevivedFrom(t, now, r);
    if i :| 0 <= i < |t| && Readable(Some(t[i].1), now) == Some(r) {
      GetEntry(t, t[i].0, t[i].1);
      assert t[i] in t;
      assert Readable(Get(t, t[i].0), now) == Some(r);
    }
    if id :| Readable(Get(t, id), now) == Some(r) {
      GetEntry(t, id, Get(t, id).value);
      var i :| 0 <= i < |t| && t[i] == (id, Get(t, id).value);
      assert Readable(Some(t[i].1), now) == Some(r);
    }
  }

  /** The scan returns the records whose last write was not a deletion and has not expired, no other, in
      the order of their timestamps. */
  lemma ScanIsExact(run: seq<Timed>, now: nat, b: Box, r: Record)
    requires Clocked(run, now) && Proper(b)
    ensures r in GetMessages(Db(run), Name(b), now) <==> exists id :: Readable(LastWrite(run, b, id), now) == Some(r)
    ensures var found := GetMessages(Db(run), Name(b), now);
            forall i, j :: 0 <= i < j < |found| ==> found[i].timestamp <= found[j].timestamp
  {
    var t, found := BoxOf(PerBox(run), b), GetMessages(Db(run), Name(b), now);
    ReadsAgree(run, now, b, "");
    SortLaws(Revived(Keep(t, Alive(now)), now), Stamp);
    forall i, j | 0 <= i < j < |found| ensures found[i].timestamp <= found[j].timestamp {
      assert Stamp(found[i]) <= Stamp(found[j]);
    }
    forall id ensures Ordered(t) && Get(t, id) == LastWrite(run, b, id) {
      BoxHoldsLastWrites(run, b, id, t);
    }
    SameForEveryId(run, now, b, r, t);
  }

  lemma SameForEveryId(run: seq<Timed>, now: nat, b: Box, r: Record, t: Table<Entry>)
    requires Ordered(t) && forall id :: Get(t, id) == LastWrite(run, b, id)
    ensures r in Messages(t, now) <==> exists id :: Readable(LastWrite(run, b, id), now) == Some(r)
  {
    FoundById(t, now, r);
    if r in Messages(t, now) {
      var id :| Readable(Get(t, id), now) == Some(r);
      assert Readable(LastWrite(run, b, id), now) == Some(r);
    } else {
      forall id ensures Readable(LastWrite(run, b, id), now) != Some(r) {
        assert Readable(Get(t, id), now) != Some(r);
      }
    }
  }

  /** What a lookup finds right after a write to its own key. */
  lemma FoundAfter(run: seq<Timed>, op: Op, at: nat, now: nat, box: Box, id: string, value: Option<Entry>)
    requires Clocked(run + [Timed(op, at)], now) && WriteOf(op, at) == Some(Write(box, id, value)) && Proper(box)
    ensures GetMessage(Db(run + [Timed(op, at)]), Name(box), id, now) == Readable(value, now)
  {
    var all := run + [Timed(op, at)];
    assert all[..|all| - 1] == run;
    ReadsAgree(all, now, box, id);
    BoxHoldsLastWrites(all, box, id, BoxOf(PerBox(all), box));
  }

  /** A stored message can be read, with the text and the proof it was stored with, for seven days and not
      longer. */
  lemma StoredForSevenDays(run: seq<Timed>, stored: Op, at: nat, now: nat)
    requires stored.Store? && Clocked(run + [Timed(stored, at)], now) && at > 0
    ensures var found := GetMessage(Db(run + [Timed(stored, at)]), Name(stored.box), stored.id, now);
            && (found.Some? <==> now <= at + 7 * 24 * 60 * 60 * 1000)
            && (found.Some? ==>
                  && found.value.data == stored.data && found.value.timestamp == at
                  && found.value.expires == at + 7 * 24 * 60 * 60 * 1000
                  && found.value.recipient == Name(stored.box) && found.value.id == stored.id
                  && found.value.proofs == (if stored.proof.Some? then [stored.proof.value] else [])
                  && found.value.replicationCount == |found.value.proofs|)
  {
    var record := AddProof(NewRecord(stored.id, Name(stored.box), stored.data, at), stored.proof);
    FoundAfter(run, stored, at, now, stored.box, stored.id, Some(Message(record)));
  }

  /** A replicated record is found as it was handed in, with the proof added at the end and counted, until it
      expires; a record without an expiry time never does, and one without a time of its own always shows the
      time of reading. */
  lemma ReplicatedUntilExpiry(run: seq<Timed>, stored: Op, at: nat, now: nat)
    requires stored.StoreRecord? && Clocked(run + [Timed(stored, at)], now)
    ensures var r := stored.record;
            var found := GetMessage(Db(run + [Timed(stored, at)]), Name(stored.box), r.id, now);
            && (found.Some? <==> r.expires == 0 || now <= r.expires)
            && (found.Some? ==>
                  && found.value.id == r.id && found.value.recipient == r.recipient && found.value.data == r.data
                  && found.value.timestamp == (if r.timestamp > 0 then r.timestamp else now)
                  && found.value.expires == (if r.expires > 0 then r.expires else now + 7 * 24 * 60 * 60 * 1000)
                  && (stored.proof.None? ==>
                        found.value.proofs == r.proofs && found.value.replicationCount == r.replicationCount)
                  && (stored.proof.Some? ==>
                        && found.value.proofs == r.proofs + [stored.proof.value]
                        && found.value.replicationCount == |r.proofs| + 1))
  {
    var record := AddProof(stored.record, stored.proof);
    FoundAfter(run, stored, at, now, stored.box, record.id, Some(Message(record)));
  }

  lemma {:induction false} GetAlive(t: Table<Entry>, k: string, now: nat)
    requires Ordered(t)
    ensures Get(Keep(t, Alive(now)), k)
         == if Get(t, k).Some? && Expired(Get(t, k).value, now) then None else Get(t, k)
  {
    if t != [] {
      GetAlive(t[1..], k, now);
      if t[0].0 == k && Expired(t[0].1, now) {
        GetAbove(t[1..], k);
      }
    }
  }

  /** Right after a cleanup the table holds no expired entry, and every other one reads as before. */
  lemma CleanupLeavesTheLiving(run: seq<Timed>, at: nat, left: Table<Entry>, k: string)
    requires Clocked(run, at) && left == Db(run + [Timed(Cleanup, at)])
    ensures forall i :: 0 <= i < |left| ==> !Expired(left[i].1, at)
    ensures var was := Get(Db(run), k);
            Get(left, k) == if was.Some? && Expired(was.value, at) then None else was
  {
    assert (run + [Timed(Cleanup, at)])[..|run|] == run;
    DbOrdered(run);
    KeepLives(Db(run), at);
    GetAlive(Db(run), k, at);
  }

  lemma {:induction false} DbOrdered(run: seq<Timed>)
    ensures Ordered(Db(run))
  {
    if run != [] {
      var before, last := run[..|run| - 1], run[|run| - 1];
      DbOrdered(before);
      match WriteOf(last.op, last.now)
      case Some(w) => WrittenOrdered(Db(before), MessageKey(Name(w.box), w.id), w.value);
      case None => KeepOrdered(Db(before), Alive(last.now));
    }
  }

  lemma {:induction false} KeepLives(t: Table<Entry>, now: nat)
    ensures forall i :: 0 <= i < |Keep(t, Alive(now))| ==> !Expired(Keep(t, Alive(now))[i].1, now)
  {
    if t != [] {
      KeepLives(t[1..], now);
    }
  }

  /** A deleted message is gone, whether it was there or not. */
  lemma DeletedIsGone(run: seq<Timed>, deleted: Op, at: nat, now: nat)
    requires deleted.Delete? && Clocked(run + [Timed(deleted, at)], now)
    ensures GetMessage(Db(run + [Timed(deleted, at)]), Name(deleted.box), deleted.id, now) == None
  {
    FoundAfter(run, deleted, at, now, deleted.box, deleted.id, None);
  }

  // ---------------------------------------------------------------- read marks

  predicate AllMarks(t: Table<Entry>) {
    forall i :: 0 <= i < |t| ==> t[i].1.Mark?
  }

  lemma {:induction false} MarksStay(t: Table<Entry>, now: nat)
    requires AllMarks(t)
    ensures Keep(t, Alive(now)) == t
  {
    if t != [] {
      MarksStay(t[1..], now);
    }
  }

  lemma {:induction false} PutMark(t: Table<Entry>, id: string, time: nat)
    requires AllMarks(t)
    ensures AllMarks(Put(t, id, Mark(time)))
  {
    if t != [] && !Less(id, t[0].0) && t[0].0 != id {
      PutMark(t[1..], id, time);
    }
  }

  lemma {:induction false} MarksAgree(run: seq<Timed>, now: nat, b: Box, db: Table<Entry>, boxes: Boxes)
    requires Clocked(run, now) && Proper(b) && b.Marks? && db == Db(run) && boxes == PerBox(run)
    ensures Under(db, Prefix(b)) == BoxOf(boxes, b) && AllMarks(BoxOf(boxes, b))
  {
    if run != [] {
      var last := run[|run| - 1];
      var db0, boxes0 := Db(run[..|run| - 1]), PerBox(run[..|run| - 1]);
      MarksAgree(run[..|run| - 1], last.now, b, db0, boxes0);
      RunAgrees(run[..|run| - 1], last.now, db0, boxes0);
      match WriteOf(last.op, last.now) {
        case Some(w) =>
          UnderWritten(db0, b, w);
          if w.box == b {
            PutMark(BoxOf(boxes0, b), w.id, last.now);
          }
        case None =>
          UnderKeep(db0, Prefix(b), Alive(last.now));
          MarksStay(BoxOf(boxes0, b), last.now);
      }
    }
  }

  lemma {:induction false} NamesGet(t: Table<Entry>, id: string)
    ensures id in Names(t) <==> Get(t, id).Some?
  {
    if t != [] {
      NamesGet(t[1..], id);
      assert forall e :: e in t <==> e == t[0] || e in t[1..];
      assert Names(t) == {t[0].0} + Names(t[1..]);
    }
  }

  /** A message counts as read, by lookup and by scan, exactly when it was marked at some time before. */
  lemma MarksAreExact(run: seq<Timed>, now: nat, address: Address, id: string)
    requires Clocked(run, now) && ':' !in address
    ensures IsRead(Db(run), address, id) <==> id in ReadIds(Db(run), address)
    ensures IsRead(Db(run), address, id) <==> exists k :: 0 <= k < |run| && run[k].op == MarkRead(Marks(address), id)
  {
    var b := Marks(address);
    var t := BoxOf(PerBox(run), b);
    MarksAgree(run, now, b, Db(run), PerBox(run));
    assert "read:" + address + ":" == Prefix(b);
    assert "read:" + address + ":" + id == Prefix(b) + id;
    GetUnder(Db(run), Prefix(b), id);
    NamesGet(t, id);
    BoxHoldsLastWrites(run, b, id, t);
    MarkedOnce(run, now, address, id);
  }

  lemma {:induction false} MarkedOnce(run: seq<Timed>, now: nat, address: Address, id: string)
    requires Clocked(run, now)
    ensures LastWrite(run, Marks(address), id).Some?
       <==> exists k :: 0 <= k < |run| && run[k].op == MarkRead(Marks(address), id)
  {
    if run != [] {
      var last, front := run[|run| - 1], run[..|run| - 1];
      MarkedOnce(front, last.now, address, id);
      assert forall k :: 0 <= k < |front| ==> front[k] == run[k];
    }
  }

  // ------------------------------------------------------------------- cleanup

  function Stripped(run: seq<Timed>): seq<Timed> {
    if run == [] then []
    else
      var last := run[|run| - 1];
      Stripped(run[..|run| - 1]) + if last.op.Cleanup? then [] else [last]
  }

  lemma PerBoxNext(run: seq<Timed>, last: Timed)
    ensures PerBox(run + [last]) == Remember(PerBox(run), last.op, last.now)
  {
    assert (run + [last])[..|run|] == run;
  }

  lemma {:induction false} PerBoxStripped(run: seq<Timed>)
    ensures PerBox(run) == PerBox(Stripped(run))
  {
    if run != [] {
      var last, front := run[|run| - 1], run[..|run| - 1];
      PerBoxStripped(front);
      if last.op.Cleanup? {
        assert Stripped(run) == Stripped(front);
      } else {
        PerBoxNext(Stripped(front), last);
      }
    }
  }

  /** Two runs that differ only in when, and whether, cleanups happen answer every read alike. */
  lemma CleanupsAreInvisible(run: seq<Timed>, other: seq<Timed>, now: nat, b: Box, id: string)
    requires Clocked(run, now) && Clocked(other, now) && Proper(b) && Stripped(run) == Stripped(other)
    ensures GetMessages(Db(run), Name(b), now) == GetMessages(Db(other), Name(b), now)
    ensures GetMessage(Db(run), Name(b), id, now) == GetMessage(Db(other), Name(b), id, now)
    ensures b.Marks? ==> ReadIds(Db(run), b.address) == ReadIds(Db(other), b.address)
  {
    PerBoxStripped(run);
    PerBoxStripped(other);
    ReadsAgree(run, now, b, id);
    ReadsAgree(other, now, b, id);
    if b.Marks? {
      MarksAgree(run, now, b, Db(run), PerBox(run));
      MarksAgree(other, now, b, Db(other), PerBox(other));
      assert "read:" + b.address + ":" == Prefix(b);
    }
  }

  /** The cleanup as the code runs it: collect the keys of expired entries, then delete them one by one. */
  function Dead(t: Table<Entry>, now: nat): seq<string> {
    if t == [] then [] else (if Expired(t[0].1, now) then [t[0].0] else []) + Dead(t[1..], now)
  }

  function DelAll(t: Table<Entry>, keys: seq<string>): Table<Entry>
    decreases |keys|
  {
    if keys == [] then t else DelAll(Del(t, keys[0]), keys[1..])
  }

  lemma {:induction false} DelAllSkips(first: (string, Entry), t: Table<Entry>, keys: seq<string>)
    requires first.0 !in keys
    ensures DelAll([first] + t, keys) == [first] + DelAll(t, keys)
    decreases |keys|
  {
    if keys != [] {
      assert Del([first] + t, keys[0]) == [first] + Del(t, keys[0]);
      DelAllSkips(first, Del(t, keys[0]), keys[1..]);
    }
  }

  lemma {:induction false} DeadAbove(t: Table<Entry>, now: nat, low: string)
    requires Above(t, low)
    ensures low !in Dead(t, now)
  {
    if t != [] {
      LessIrreflexive(low);
      DeadAbove(t[1..], now, low);
    }
  }

  /** Without other writes in between, that leaves exactly the entries that have not expired. */
  lemma {:induction false} CleanupDeletesTheDead(t: Table<Entry>, now: nat)
    requires Ordered(t)
    ensures DelAll(t, Dead(t, now)) == Keep(t, Alive(now))
  {
    if t != [] {
      CleanupDeletesTheDead(t[1..], now);
      if Expired(t[0].1, now) {
        assert Dead(t, now)[1..] == Dead(t[1..], now);
      } else {
        DeadAbove(t[1..], now, t[0].0);
        assert Dead(t, now) == Dead(t[1..], now);
        assert t == [t[0]] + t[1..];
        DelAllSkips(t[0], t[1..], Dead(t[1..], now));
      }
    }
  }

  lemma {:induction false} DelAllGet(t: Table<Entry>, keys: seq<string>, k: string)
    requires Ordered(t)
    ensures Get(DelAll(t, keys), k) == if k in keys then None else Get(t, k)
    decreases |keys|
  {
    if keys != [] {
      DelOrdered(t, keys[0]);
      GetDel(t, keys[0], k);
      DelAllGet(Del(t, keys[0]), keys[1..], k);
      assert k in keys <==> k == keys[0] || k in keys[1..];
    }
  }

  /** The table after operations that start from a given one. */
  function Between(t: Table<Entry>, ops: seq<Timed>): Table<Entry> {
    if ops == [] then t else Apply(Between(t, ops[..|ops| - 1]), ops[|ops| - 1].op, ops[|ops| - 1].now)
  }

  lemma {:induction false} BetweenOrdered(t: Table<Entry>, ops: seq<Timed>)
    requires Ordered(t)
    ensures Ordered(Between(t, ops))
  {
    if ops != [] {
      var before, last := Between(t, ops[..|ops| - 1]), ops[|ops| - 1];
      BetweenOrdered(t, ops[..|ops| - 1]);
      match WriteOf(last.op, last.now)
      case Some(w) => WrittenOrdered(before, MessageKey(Name(w.box), w.id), w.value);
      case None => KeepOrdered(before, Alive(last.now));
    }
  }

  /** Whatever is done between the two phases: afterwards exactly the keys that the first phase found expired
      are gone, and every other key reads as the operations left it. */
  lemma CleanupInterleaved(t: Table<Entry>, now: nat, ops: seq<Timed>, k: string)
    requires Ordered(t)
    ensures Get(DelAll(Between(t, ops), Dead(t, now)), k) == if k in Dead(t, now) then None else Get(Between(t, ops), k)
  {
    BetweenOrdered(t, ops);
    DelAllGet(Between(t, ops), Dead(t, now), k);
  }

  /** A record stored between the two phases is lost, however long it still has to live, exactly if it took
      the place of an entry that the first phase found expired. */
  lemma RefreshBetweenPhasesIsLost(t: Table<Entry>, now: nat, k: string, renewed: Entry)
    requires Ordered(t)
    ensures Get(DelAll(Put(t, k, renewed), Dead(t, now)), k) == None <==> k in Dead(t, now)
  {
    PutOrdered(t, k, renewed);
    DelAllGet(Put(t, k, renewed), Dead(t, now), k);
    GetPut(t, k, renewed, k);
  }

  // --------------------------------------------------------- ids are not repeated

  /** Every entry of the table is a message, filed under its own id. */
  predicate Filed(t: Table<Entry>) {
    forall i :: 0 <= i < |t| ==> t[i].1.Message? && t[i].1.record.id == t[i].0
  }

  lemma {:induction false} PutFiled(t: Table<Entry>, k: string, r: Record)
    requires Filed(t) && r.id == k
    ensures Filed(Put(t, k, Message(r)))
  {
    if t != [] && !Less(k, t[0].0) && t[0].0 != k {
      PutFiled(t[1..], k, r);
    }
  }

  lemma {:induction false} DelFiled(t: Table<Entry>, k: string)
    requires Filed(t)
    ensures Filed(Del(t, k))
  {
    if t != [] && t[0].0 != k {
      DelFiled(t[1..], k);
    }
  }

  lemma {:induction false} BoxIsFiled(run: seq<Timed>, now: nat, b: Box, t: Table<Entry>)
    requires Clocked(run, now) && !b.Marks? && t == BoxOf(PerBox(run), b)
    ensures Filed(t)
  {
    if run != [] {
      var last := run[|run| - 1];
      var t0 := BoxOf(PerBox(run[..|run| - 1]), b);
      BoxIsFiled(run[..|run| - 1], last.now, b, t0);
      match WriteOf(last.op, last.now) {
        case Some(w) =>
          if w.box == b {
            match w.value {
              case Some(v) => PutFiled(t0, w.id, v.record);
              case None => DelFiled(t0, w.id);
            }
          }
        case None =>
      }
    }
  }

  function IdOf(r: Record): string {
    r.id
  }

  lemma {:induction false} RevivedIds(t: Table<Entry>, now: nat)
    requires Filed(t)
    ensures |Revived(t, now)| == |t| && forall i :: 0 <= i < |t| ==> Revived(t, now)[i].id == t[i].0
  {
    if t != [] {
      RevivedIds(t[1..], now);
    }
  }

  lemma {:induction false} KeepFiled(t: Table<Entry>, live: Entry -> bool)
    requires Filed(t)
    ensures Filed(Keep(t, live))
  {
    if t != [] {
      KeepFiled(t[1..], live);
    }
  }

  lemma {:induction false} OrderedDistinct<V>(t: Table<V>)
    requires Ordered(t)
    ensures forall i, j :: 0 <= i < j < |t| ==> t[i].0 != t[j].0
  {
    if t != [] {
      OrderedDistinct(t[1..]);
      LessIrreflexive(t[0].0);
      assert forall j :: 0 < j < |t| ==> t[j] == t[1..][j - 1];
    }
  }

  /** A scan of an inbox or a box of sent messages never yields an id twice. */
  lemma ScanHasDistinctIds(run: seq<Timed>, now: nat, b: Box)
    requires Clocked(run, now) && Proper(b) && !b.Marks?
    ensures DistinctBy(GetMessages(Db(run), Name(b), now), IdOf)
  {
    var t := BoxOf(PerBox(run), b);
    var kept := Keep(t, Alive(now));
    ReadsAgree(run, now, b, "");
    BoxHoldsLastWrites(run, b, "", t);
    BoxIsFiled(run, now, b, t);
    KeepFiled(t, Alive(now));
    KeepOrdered(t, Alive(now));
    RevivedIds(kept, now);
    OrderedDistinct(kept);
    assert DistinctBy(Revived(kept, now), IdOf);
    SortLaws(Revived(kept, now), Stamp);
    PermutedDistinct(Revived(kept, now), Messages(t, now), IdOf);
  }
}
