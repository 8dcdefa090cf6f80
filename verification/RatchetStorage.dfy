/** Saving a session as JSON-ready text and loading it again. */
module RatchetStorage {
  import opened Options
  import opened Encoding
  import opened Ratchet

  datatype SavedPair = SavedPair(privateKey: string, publicKey: string)

  /** `None` is JSON's null. */
  datatype Saved = Saved(
    DHs: Option<SavedPair>, DHr: Option<string>, RK: Option<string>, CKs: Option<string>, CKr: Option<string>,
    Ns: nat, Nr: nat, PN: nat, MKSKIPPED: seq<(string, string)>)

  /** The map with these entries, later ones overriding earlier ones. */
  function MapOf(entries: seq<(string, Bytes)>): map<string, Bytes> {
    if |entries| == 0 then map[]
    else
      var last := entries[|entries| - 1];
      MapOf(entries[..|entries| - 1])[last.0 := last.1]
  }

  /** The entries of a map, each once, in some iteration order. */
  predicate Lists(entries: seq<(string, Bytes)>, m: map<string, Bytes>) {
    MapOf(entries) == m && |entries| == |m|
  }

  function SaveKey(k: Option<Bytes>): Option<string> {
    if k.None? then None else Some(Base64(k.value))
  }

  /** An empty string is as absent as null to the loader. */
  function LoadKey(k: Option<string>): Option<Bytes> {
    if k.Some? && k.value != "" then Some(FromBase64(k.value)) else None
  }

  function SaveEntries(entries: seq<(string, Bytes)>): seq<(string, string)> {
    if |entries| == 0 then []
    else
      var last := entries[|entries| - 1];
      SaveEntries(entries[..|entries| - 1]) + [(last.0, Base64(last.1))]
  }

  /** new Map(pairs) with the values decoded. */
  function LoadEntries(pairs: seq<(string, string)>): map<string, Bytes> {
    if |pairs| == 0 then map[]
    else
      var last := pairs[|pairs| - 1];
      LoadEntries(pairs[..|pairs| - 1])[last.0 := FromBase64(last.1)]
  }

  function Serialize(s: State, entries: seq<(string, Bytes)>): Saved {
    Saved(
      if s.DHs.None? then None
      else Some(SavedPair(Base64(s.DHs.value.privateKey), Base64(s.DHs.value.publicKey))),
      SaveKey(s.DHr), SaveKey(s.RK), SaveKey(s.CKs), SaveKey(s.CKr),
      s.Ns, s.Nr, s.PN, SaveEntries(entries))
  }

  function Deserialize(d: Saved): State {
    State(
      if d.DHs.None? then None
      else Some(KeyPair(FromBase64(d.DHs.value.privateKey), FromBase64(d.DHs.value.publicKey))),
      LoadKey(d.DHr), LoadKey(d.RK), LoadKey(d.CKs), LoadKey(d.CKr),
      d.Ns, d.Nr, d.PN, LoadEntries(d.MKSKIPPED))
  }

  /** No key field holds a zero-length key. */
  predicate NoEmptyKeys(s: State) {
    s.DHr != Some([]) && s.RK != Some([]) && s.CKs != Some([]) && s.CKr != Some([])
  }

  lemma LoadSavedKey(k: Option<Bytes>)
    ensures LoadKey(SaveKey(k)) == k <==> k != Some([])
  {
    if k.Some? {
      Base64RoundTrip(k.value);
      Base64Empty(k.value);
    }
  }

  lemma {:induction false} LoadSavedEntries(entries: seq<(string, Bytes)>)
    ensures LoadEntries(SaveEntries(entries)) == MapOf(entries)
  {
    if |entries| > 0 {
      var n := |entries| - 1;
      var saved := SaveEntries(entries);
      assert saved[..|saved| - 1] == SaveEntries(entries[..n]);
      LoadSavedEntries(entries[..n]);
      Base64RoundTrip(entries[n].1);
    }
  }

  /** Loading what was saved gives the session back exactly when no key field is a zero-length key. */
  lemma SaveLoad(s: State, entries: seq<(string, Bytes)>)
    requires Lists(entries, s.MKSKIPPED)
    ensures Deserialize(Serialize(s, entries)) == s <==> NoEmptyKeys(s)
  {
    LoadSavedKey(s.DHr);
    LoadSavedKey(s.RK);
    LoadSavedKey(s.CKs);
    LoadSavedKey(s.CKr);
    LoadSavedEntries(entries);
    if s.DHs.Some? {
      Base64RoundTrip(s.DHs.value.privateKey);
      Base64RoundTrip(s.DHs.value.publicKey);
    }
  }

  /** The case that is lost: a zero-length root key comes back as no root key. */
  lemma EmptyKeyIsLost()
    ensures var s := EMPTY_STATE.(RK := Some([]));
            Lists([], s.MKSKIPPED) && Deserialize(Serialize(s, [])).RK == None
  {
    Base64Empty([]);
  }

  lemma {:induction false} ListingExists(m: map<string, Bytes>)
    ensures exists entries: seq<(string, Bytes)> :: Lists(entries, m)
    decreases |m|
  {
    if m == map[] {
      assert Lists([], m);
    } else {
      var k :| k in m;
      var rest := m - {k};
      assert rest.Keys == m.Keys - {k};
      ListingExists(rest);
      var before: seq<(string, Bytes)> :| Lists(before, rest);
      var entries := before + [(k, m[k])];
      assert entries[..|before|] == before;
      assert rest[k := m[k]] == m;
      assert Lists(entries, m);
    }
  }

  /** The session after it was saved, in whatever entry order, and loaded again. */
  ghost function Reloaded(s: State): State {
    ListingExists(s.MKSKIPPED);
    var entries: seq<(string, Bytes)> :| Lists(entries, s.MKSKIPPED);
    Deserialize(Serialize(s, entries))
  }
}
