/** The session object: the same operations as updates of fields, proved against their specification. */
module RatchetSession {
  import opened Options
  import opened Encoding
  import opened Ratchet

  class DoubleRatchetSession {
    const suite: Suite
    var DHs: Option<KeyPair>
    var DHr: Option<Bytes>
    var RK: Option<Bytes>
    var CKs: Option<Bytes>
    var CKr: Option<Bytes>
    var Ns: nat
    var Nr: nat
    var PN: nat
    var MKSKIPPED: map<string, Bytes>

    ghost function Contents(): State
      reads this
    {
      State(DHs, DHr, RK, CKs, CKr, Ns, Nr, PN, MKSKIPPED)
    }

    ghost predicate Valid()
      reads this
    {
      Coherent(Contents())
    }

    /** A session on a given state, for a new one the empty state. */
    constructor (suite: Suite, state: State)
      ensures Contents() == state && this.suite == suite
      ensures Valid() <==> Coherent(state)
    {
      this.suite := suite;
      DHs, DHr, RK, CKs, CKr := state.DHs, state.DHr, state.RK, state.CKs, state.CKr;
      Ns, Nr, PN, MKSKIPPED := state.Ns, state.Nr, state.PN, state.MKSKIPPED;
    }

    method InitAsInitiator(sharedSecret: Bytes, remotePublicKey: Bytes, draw: Bytes)
      modifies this
      ensures Valid()
      ensures Contents() == InitInitiator(suite, old(Contents()), sharedSecret, remotePublicKey, draw)
    {
      DHs := Some(KeyPair(draw, suite.PublicKey(draw)));
      DHr := Some(remotePublicKey);
      var dhResult := suite.Dh(draw, remotePublicKey);
      RK := Some(suite.RootStep(sharedSecret, dhResult));
      CKs := Some(suite.RootChain(sharedSecret, dhResult));
      CKr := None;
      Ns, Nr, PN := 0, 0, 0;
    }

    method InitAsResponder(sharedSecret: Bytes, ourKeyPair: KeyPair)
      modifies this
      ensures Valid()
      ensures Contents() == InitResponder(old(Contents()), sharedSecret, ourKeyPair)
    {
      DHs := Some(ourKeyPair);
      DHr := None;
      RK := Some(sharedSecret);
      CKs, CKr := None, None;
      Ns, Nr, PN := 0, 0, 0;
    }

    method EncryptMessage(plaintext: Bytes, associatedData: Bytes, nonce: Bytes) returns (r: Result<Message>)
      requires Valid()
      modifies this
      ensures Valid()
      ensures (Contents(), r) == Encrypt(suite, old(Contents()), plaintext, associatedData, nonce)
    {
      if CKs.None? || DHs.None? {
        return Err(NoSendingChain);
      }
      var messageKey := suite.MessageKey(CKs.value);
      CKs := Some(suite.ChainStep(CKs.value));
      var header := Header(DHs.value.publicKey, PN, Ns);
      Ns := Ns + 1;
      var sealed := suite.Seal(messageKey, nonce, associatedData, plaintext);
      r := Ok(Message(header, Base64(nonce), Base64(sealed)));
    }

    method DecryptMessage(m: Message, associatedData: Bytes, draw: Bytes) returns (r: Result<Bytes>)
      requires Valid()
      modifies this
      ensures Valid()
      ensures (Contents(), r) == Decrypt(suite, old(Contents()), m, associatedData, draw)
    {
      var nonce := FromBase64(m.nonce);
      var ciphertext := FromBase64(m.ciphertext);
      var skipKey := SkipKey(m.header.dhPublicKey, m.header.messageNumber);
      var messageKey;
      if skipKey in MKSKIPPED {
        messageKey := MKSKIPPED[skipKey];
        MKSKIPPED := MKSKIPPED - {skipKey};
      } else {
        if DHr.None? || m.header.dhPublicKey != DHr.value {
          var skipped := SkipKeys(m.header.previousCounter);
          if skipped.Err? {
            return Err(skipped.error);
          }
          var turned := TurnRatchet(m.header.dhPublicKey, draw);
          if turned.Err? {
            return Err(turned.error);
          }
        }
        ghost var onChain := Contents();
        assert Decrypt(suite, old(Contents()), m, associatedData, draw)
            == DecryptOnChain(suite, onChain, m, associatedData);
        var caughtUp := SkipKeys(m.header.messageNumber);
        if caughtUp.Err? {
          return Err(caughtUp.error);
        }
        if CKr.None? {
          return Err(NoReceivingChain);
        }
        messageKey := suite.MessageKey(CKr.value);
        CKr := Some(suite.ChainStep(CKr.value));
        Nr := Nr + 1;
      }
      var plaintext := suite.Open(messageKey, nonce, associatedData, ciphertext);
      r := if plaintext.Some? then Ok(plaintext.value) else Err(AuthenticationFailed);
    }

    method TurnRatchet(theirPublicKey: Bytes, draw: Bytes) returns (r: Result<()>)
      requires Valid()
      modifies this
      ensures Valid()
      ensures (Contents(), r) == DhRatchet(suite, old(Contents()), theirPublicKey, draw)
    {
      PN := Ns;
      Ns := 0;
      Nr := 0;
      DHr := Some(theirPublicKey);
      if DHs.None? || RK.None? {
        return Err(NotInitialised);
      }
      var dhResult1 := suite.Dh(DHs.value.privateKey, theirPublicKey);
      CKr := Some(suite.RootChain(RK.value, dhResult1));
      RK := Some(suite.RootStep(RK.value, dhResult1));
      DHs := Some(KeyPair(draw, suite.PublicKey(draw)));
      var dhResult2 := suite.Dh(draw, theirPublicKey);
      CKs := Some(suite.RootChain(RK.value, dhResult2));
      RK := Some(suite.RootStep(RK.value, dhResult2));
      r := Ok(());
    }

    method SkipKeys(until: nat) returns (r: Result<()>)
      requires Valid()
      modifies this
      ensures Valid()
      ensures (Contents(), r) == SkipMessageKeys(suite, old(Contents()), until)
    {
      if Nr + MAX_SKIP < until {
        return Err(TooManySkipped);
      }
      if CKr.Some? {
        while Nr < until
          invariant CKr.Some? && Valid()
          invariant Skip(suite, Contents(), until) == Skip(suite, old(Contents()), until)
          decreases until - Nr
        {
          var messageKey := suite.MessageKey(CKr.value);
          CKr := Some(suite.ChainStep(CKr.value));
          MKSKIPPED := MKSKIPPED[SkipKey(DHr.value, Nr) := messageKey];
          Nr := Nr + 1;
        }
      }
      r := Ok(());
    }
  }
}
