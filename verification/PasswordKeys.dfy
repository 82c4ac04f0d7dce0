/**
 * The password's part in the key: which link keys and passwords lead to which AEAD keys, and what a receiver with
 * another password or another link gets.
 */
module PasswordKeys {
  import opened Wrappers
  import opened Bytes
  import opened Base64Url
  import opened Codecs
  import opened Framing
  import opened Crypto
  import opened Slicing
  import opened Upload
  import opened Download
  import opened EndToEnd

  // ---- The combiner ----

  /** The message hashed for a password key: the label as text, a zero byte, the key. */
  function KdfMessage(passwordKey: ByteString): (m: ByteString)
  {
    Utf8("slothbox-aead-kdf-v1") + [0] + passwordKey
  }

  lemma LabelIsItsText()
    ensures Utf8("slothbox-aead-kdf-v1") == AEAD_KDF_LABEL
  {
    hide Utf8;
    var text := "slothbox-aead-kdf-v1";
    assert IsAscii(text);
    AsciiIsItself(text);
    assert forall i :: 0 <= i < 20 ==> AEAD_KDF_LABEL[i] == text[i] as int;
  }

  /** Each character below 128 is its own byte. */
  lemma {:induction false} AsciiIsItself(s: string)
    requires IsAscii(s)
    ensures |Utf8(s)| == |s| && forall i :: 0 <= i < |s| ==> Utf8(s)[i] == s[i] as int
  {
    if s != "" {
      assert IsAscii(s[1..]);
      AsciiIsItself(s[1..]);
    }
  }

  lemma KdfMessageInjective(k: ByteString, l: ByteString)
    requires KdfMessage(k) == KdfMessage(l)
    ensures k == l
  {
    hide Utf8;
    var front := Utf8("slothbox-aead-kdf-v1") + [0];
    assert k == (front + k)[|front|..] == (front + l)[|front|..] == l;
  }

  /**
   * Two different pairs of link key and password key meet in one AEAD key: two keyed hashes collide, or a keyed hash
   * returns the other link key. Two links without a password never meet.
   */
  predicate Meet(p: Primitives, f: ByteString, k: Option<ByteString>, g: ByteString, l: Option<ByteString>)
  {
    && (f != g || k != l)
    && match (k, l)
       case (Some(k'), Some(l')) => p.keyedBlake2b(KdfMessage(k'), f) == p.keyedBlake2b(KdfMessage(l'), g)
       case (Some(k'), None) => p.keyedBlake2b(KdfMessage(k'), f) == g
       case (None, Some(l')) => p.keyedBlake2b(KdfMessage(l'), g) == f
       case (None, None) => false
  }

  predicate IsKeys(f: ByteString, k: Option<ByteString>)
  {
    |f| == KEY_BYTES && (k.Some? ==> |k.value| == KEY_BYTES)
  }

  lemma AeadKeyIs(p: Primitives, f: ByteString, k: Option<ByteString>)
    ensures DeriveAeadKey(p, f, k).Some? <==> IsKeys(f, k)
    ensures IsKeys(f, k) ==> DeriveAeadKey(p, f, k).value == if k.Some? then p.keyedBlake2b(KdfMessage(k.value), f) else f
  {
    LabelIsItsText();
    hide Utf8;
    if k.Some? {
      assert AEAD_KDF_LABEL + ([0] + k.value) == AEAD_KDF_LABEL + [0] + k.value;
    }
  }

  /** The AEAD key determines the link key and the password key, up to exactly such a meeting. */
  lemma AeadKeyDeterminesBoth(p: Primitives, f: ByteString, k: Option<ByteString>, g: ByteString, l: Option<ByteString>)
    requires IsKeys(f, k) && IsKeys(g, l)
    ensures DeriveAeadKey(p, f, k) == DeriveAeadKey(p, g, l) <==> (f == g && k == l) || Meet(p, f, k, g, l)
  {
    hide DeriveAeadKey, KdfMessage;
    AeadKeyIs(p, f, k);
    AeadKeyIs(p, g, l);
  }

  /** With one link key: two password keys lead to one AEAD key only if they are one, or two different messages collide. */
  lemma PasswordTakesPart(p: Primitives, f: ByteString, k: ByteString, l: ByteString)
    requires |f| == KEY_BYTES && |k| == KEY_BYTES && |l| == KEY_BYTES
    ensures DeriveAeadKey(p, f, Some(k)) == DeriveAeadKey(p, f, Some(l))
      ==> k == l || Collision((m: ByteString) => p.keyedBlake2b(m, f), KdfMessage(k), KdfMessage(l))
    ensures DeriveAeadKey(p, f, Some(k)) == DeriveAeadKey(p, f, None) <==> p.keyedBlake2b(KdfMessage(k), f) == f
  {
    hide DeriveAeadKey, KdfMessage;
    AeadKeyIs(p, f, Some(k));
    AeadKeyIs(p, f, Some(l));
    AeadKeyIs(p, f, None);
    if k != l && KdfMessage(k) == KdfMessage(l) {
      KdfMessageInjective(k, l);
    }
  }

  // ---- The two sides' password keys ----

  /** The sender's Argon2id output, if the share has a password. */
  function SendersSecret(p: Primitives, s: Sender): (k: Option<ByteString>)
  {
    if s.password == "" then None else Some(p.argon2id(s.password, s.salt, s.opsLimit, s.memLimitBytes))
  }

  /** The receiver's, from what the descriptor says of salt and cost. */
  function ReceiversSecret(p: Primitives, r: Receiver, q: PasswordFields): (k: Option<ByteString>)
  {
    match q
    case NoPassword => None
    case Password(salt, opsLimit, memLimitKib) =>
      Some(p.argon2id(r.password, if CryptoCoreDecode(salt).Some? then CryptoCoreDecode(salt).value else [], opsLimit, memLimitKib * 1024))
  }

  lemma SendersKeyIs(p: Primitives, s: Sender)
    requires s.AeadKey(p).Some?
    ensures s.AeadKey(p) == DeriveAeadKey(p, s.fragmentKey, SendersSecret(p, s)) && IsKeys(s.fragmentKey, SendersSecret(p, s))
  {
    hide Utf8;
  }

  lemma ReceiversKeyIs(p: Primitives, r: Receiver, d: Descriptor)
    requires ResolveKey(p, r, d).Ok?
    ensures Some(ResolveKey(p, r, d).value) == DeriveAeadKey(p, r.fragmentKey, ReceiversSecret(p, r, d.password))
    ensures IsKeys(r.fragmentKey, ReceiversSecret(p, r, d.password))
  {
    hide Utf8, CryptoCoreDecode;
  }

  /** The receiver holds another link key, or another Argon2id output, than the sender. */
  predicate Differs(p: Primitives, s: Sender, r: Receiver, d: Descriptor)
  {
    r.fragmentKey != s.fragmentKey || ReceiversSecret(p, r, d.password) != SendersSecret(p, s)
  }

  predicate KeysMeet(p: Primitives, s: Sender, r: Receiver, d: Descriptor)
  {
    Meet(p, r.fragmentKey, ReceiversSecret(p, r, d.password), s.fragmentKey, SendersSecret(p, s))
  }

  /** Such a receiver resolves the sender's key exactly when the two meet. */
  lemma ResolvedKeyIsTheSenders(p: Primitives, s: Sender, r: Receiver, d: Descriptor)
    requires s.AeadKey(p).Some? && ResolveKey(p, r, d).Ok?
    ensures ResolveKey(p, r, d).value == s.AeadKey(p).value <==> !Differs(p, s, r, d) || KeysMeet(p, s, r, d)
  {
    hide DeriveAeadKey, ResolveKey, Sender.AeadKey, SendersSecret, ReceiversSecret, Meet;
    SendersKeyIs(p, s);
    ReceiversKeyIs(p, r, d);
    AeadKeyDeterminesBoth(p, r.fragmentKey, ReceiversSecret(p, r, d.password), s.fragmentKey, SendersSecret(p, s));
    MeetDiffers(p, r.fragmentKey, ReceiversSecret(p, r, d.password), s.fragmentKey, SendersSecret(p, s));
  }

  lemma MeetDiffers(p: Primitives, f: ByteString, k: Option<ByteString>, g: ByteString, l: Option<ByteString>)
    ensures Meet(p, f, k, g, l) ==> f != g || k != l
  {
  }

  /** Metadata that opens under another key than the sender's is forged. */
  lemma OtherKeysOpenForgeries(p: Primitives, s: Sender, meta: ShareMeta, shortId: string, key: ByteString, d: Descriptor)
    requires OpenMeta(p, key, d).Some? && s.AeadKey(p) != Some(key)
    ensures MetaIsForged(p, s, meta, shortId, key, d)
  {
    hide CryptoCoreDecode, BuildChunkAad, Sender.AeadKey;
  }

  lemma OutcomeNeedsItsMeta(p: Primitives, r: Receiver, server: Server)
    requires Outcome(p, r, server).Ok?
    ensures server.descriptor.Some? && ResolveKey(p, r, server.descriptor.value).Ok?
    ensures OpenMeta(p, ResolveKey(p, r, server.descriptor.value).value, server.descriptor.value).Some?
  {
    hide OpenMeta, ResolveKey, OpenChunks, HashGate;
  }

  // ---- What the wrong receiver gets ----

  /**
   * Both the link and the password are needed, whatever the server answers and for any primitives: a receiver with
   * another link key or another Argon2id output gets no file, unless its metadata is forged under the key it
   * resolved or the two sides' keys meet.
   */
  lemma WrongReceiverGetsNothing(p: Primitives, s: Sender, meta: ShareMeta, r: Receiver, server: Server)
    requires s.AeadKey(p).Some? && server.descriptor.Some? && Differs(p, s, r, server.descriptor.value)
    requires Outcome(p, r, server).Ok?
    ensures ForgedOnTheWire(p, s, meta, r, server) || KeysMeet(p, s, r, server.descriptor.value)
  {
    hide Outcome, OpenMeta, ResolveKey, Sender.AeadKey, Differs, KeysMeet, MetaIsForged, ChunkIsForged;
    var d := server.descriptor.value;
    OutcomeNeedsItsMeta(p, r, server);
    ResolvedKeyIsTheSenders(p, s, r, d);
    if !KeysMeet(p, s, r, d) {
      OtherKeysOpenForgeries(p, s, meta, r.shortId, ResolveKey(p, r, d).value, d);
    }
  }

  predicate TooLong(password: string)
  {
    |password| > MAX_PASSWORD_BYTES || |Utf8(password)| > MAX_PASSWORD_BYTES
  }

  lemma HonestFieldsResolve(p: Primitives, s: Sender, r: Receiver, d: Descriptor)
    requires Lawful(p) && s.WellFormed() && |r.fragmentKey| == KEY_BYTES && d.password == SeenPassword(s)
    ensures s.password == "" ==> ResolveKey(p, r, d) == Ok(r.fragmentKey)
    ensures s.password != "" && r.password == "" ==> ResolveKey(p, r, d) == Err(PasswordRequired)
    ensures s.password != "" && r.password != "" ==>
      if TooLong(r.password) then ResolveKey(p, r, d) == Err(Uncaught) else ResolveKey(p, r, d).Ok?
    ensures s.password != "" ==>
      ReceiversSecret(p, r, d.password) == Some(p.argon2id(r.password, s.salt, s.opsLimit, s.MemLimitKib() * 1024))
  {
    hide Utf8, UrlEncode, CryptoCoreDecode, Sender.MemLimitKib;
    RoundTrip(s.salt);
  }

  lemma UnopenedMetaIsTheError(p: Primitives, r: Receiver, server: Server)
    requires |r.fragmentKey| == KEY_BYTES && server.descriptor.Some?
    ensures
      var d := server.descriptor.value;
      && (ResolveKey(p, r, d).Err? ==> Outcome(p, r, server) == Err(ResolveKey(p, r, d).error))
      && (ResolveKey(p, r, d).Ok? && OpenMeta(p, ResolveKey(p, r, d).value, d).None? ==>
            Outcome(p, r, server) == Err(if d.password.Password? then WrongPassword else Metadata))
  {
    hide OpenMeta, ResolveKey, OpenChunks, HashGate;
  }

  /**
   * And it is told why, by the share's own descriptor: without a password on the share, that the metadata is wrong;
   * with one, that a password is needed, or that it is the wrong one. That covers the invited receiver of a share
   * whose memory limit did not survive the KiB column, where Argon2id tells the two limits apart.
   */
  lemma WrongReceiverIsTold(p: Primitives, s: Sender, r: Receiver, server: Server)
    requires Lawful(p) && s.WellFormed() && s.AeadKey(p).Some? && |r.fragmentKey| == KEY_BYTES
    requires server.descriptor.Some? && server.descriptor.value.password == SeenPassword(s)
    requires
      || r.fragmentKey != s.fragmentKey
      || (s.password != "" && p.argon2id(r.password, s.salt, s.opsLimit, s.MemLimitKib() * 1024)
                           != p.argon2id(s.password, s.salt, s.opsLimit, s.memLimitBytes))
    ensures
      var told := Outcome(p, r, server);
      if s.password != "" && r.password == "" then told == Err(PasswordRequired)
      else if s.password != "" && TooLong(r.password) then told == Err(Uncaught)
      else
        || told == Err(if s.password == "" then Metadata else WrongPassword)
        || KeysMeet(p, s, r, server.descriptor.value)
        || (ResolveKey(p, r, server.descriptor.value).Ok?
            && MetaIsForged(p, s, s.Meta(p), r.shortId, ResolveKey(p, r, server.descriptor.value).value, server.descriptor.value))
  {
    hide Lawful, Outcome, OpenMeta, ResolveKey, Sender.AeadKey, KeysMeet, MetaIsForged, Utf8, Sender.MemLimitKib, Sender.Meta, Meet;
    var d := server.descriptor.value;
    HonestFieldsResolve(p, s, r, d);
    UnopenedMetaIsTheError(p, r, server);
    if ResolveKey(p, r, d).Ok? && OpenMeta(p, ResolveKey(p, r, d).value, d).Some? {
      var key := ResolveKey(p, r, d).value;
      ResolvedKeyIsTheSenders(p, s, r, d);
      if s.AeadKey(p) != Some(key) {
        OtherKeysOpenForgeries(p, s, s.Meta(p), r.shortId, key, d);
      }
    }
  }
}
