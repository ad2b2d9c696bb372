/** The two inner frame formats: printers, parsers, and how they invert each other. */
module InnerFrame {
  import opened Bytes
  import opened Framing

  const VERSION_DEV: byte := 0xFE
  const VERSION_AEAD: byte := 0x01
  const NONCE_SIZE: nat := 12
  const TAG_SIZE: nat := 16
  const MAX_PAYLOAD: nat := 2048

  datatype Option<+T> = None | Some(value: T)

  datatype Sealed = Sealed(cipher: seq<byte>, tag: seq<byte>)

  /** AES-GCM under one key, as two functions of the nonce. Either call may fail. */
  datatype Aead = Aead(encrypt: (seq<byte>, seq<byte>) -> Option<Sealed>,
                       decrypt: (seq<byte>, Sealed) -> Option<seq<byte>>) {
    /** What an authenticated cipher promises of plaintexts that fit the session's buffers. */
    ghost predicate Ideal() {
      forall nonce: seq<byte>, plain: seq<byte> :: |plain| <= MAX_PAYLOAD + 2 ==>
        && encrypt(nonce, plain).Some?
        && |encrypt(nonce, plain).value.cipher| == |plain|
        && |encrypt(nonce, plain).value.tag| == TAG_SIZE
        && decrypt(nonce, encrypt(nonce, plain).value) == Some(plain)
    }
  }

  /** The promise can be kept: a cipher that copies the plaintext keeps it. */
  lemma IdealIsPossible()
    ensures exists a: Aead :: a.Ideal()
  {
    var tag: seq<byte> := seq(TAG_SIZE, i => 0);
    var a: Aead := Aead((n: seq<byte>, p: seq<byte>) => Some(Sealed(p, tag)),
                        (n: seq<byte>, s: Sealed) => Some(s.cipher));
    assert a.Ideal();
  }

  datatype Opened = Opened(sequence: u64, payload: seq<byte>)

  /** A frame format: a printer, which may fail, and a parser. */
  datatype Format = Format(encode: (u64, seq<byte>) -> Option<seq<byte>>, decode: seq<byte> -> Option<Opened>) {
    /** Every payload of legal size can be printed under every number into a frame that the framing layer
        takes and that parses back to that number and payload. */
    ghost predicate Faithful() {
      forall n: u64, p: seq<byte> :: |p| <= MAX_PAYLOAD ==>
        && encode(n, p).Some?
        && LegalSize(|encode(n, p).value|)
        && decode(encode(n, p).value) == Some(Opened(n, p))
    }
  }

  /** The twelve nonce octets: the sequence number copied from memory, then zeros. */
  function Nonce(sequence: u64): seq<byte> { LittleEndian(sequence, 8) + [0, 0, 0, 0] }

  /** Length-prefixed payload, common to both formats. */
  function PrintBody(payload: seq<byte>): seq<byte> { BigEndian(|payload|, 2) + payload }

  function ParseBody(body: seq<byte>): Option<seq<byte>> {
    if |body| < 2 then None
    else
      var size := Value(body[..2]);
      if size > MAX_PAYLOAD || |body| < 2 + size then None else Some(body[2..2 + size])
  }

  function PrintDev(sequence: u64, payload: seq<byte>): seq<byte> {
    [VERSION_DEV] + BigEndian(sequence, 8) + PrintBody(payload)
  }

  function ParseDev(frame: seq<byte>): Option<Opened> {
    if |frame| < 11 || frame[0] != VERSION_DEV then None
    else
      match ParseBody(frame[9..])
      case None => None
      case Some(p) => SomeOpened(frame[1..9], p)
  }

  function SomeOpened(sequence: seq<byte>, payload: seq<byte>): Option<Opened>
    requires |sequence| == 8
  {
    ValueBound(sequence);
    Powers();
    Some(Opened(Value(sequence), payload))
  }

  function PrintAead(aead: Aead, sequence: u64, payload: seq<byte>): Option<seq<byte>> {
    match aead.encrypt(Nonce(sequence), PrintBody(payload))
    case None => None
    case Some(s) => Some([VERSION_AEAD] + BigEndian(sequence, 8) + Nonce(sequence) + s.cipher + s.tag)
  }

  function ParseAead(aead: Aead, frame: seq<byte>): Option<Opened> {
    var header := 1 + 8 + NONCE_SIZE + TAG_SIZE;
    if |frame| < header + 2 || frame[0] != VERSION_AEAD then None
    else
      var n := |frame| - TAG_SIZE;
      var cipher, tag := frame[9 + NONCE_SIZE..n], frame[n..];
      // A cipher text longer than the decryption buffer makes BCryptDecrypt fail.
      if |cipher| > MAX_PAYLOAD + 2 then None
      else
        match aead.decrypt(frame[9..9 + NONCE_SIZE], Sealed(cipher, tag))
        case None => None
        case Some(plain) =>
          match ParseBody(plain)
          case None => None
          case Some(p) => SomeOpened(frame[1..9], p)
  }

  function Development(): Format {
    Format((n: u64, p: seq<byte>) => Some(PrintDev(n, p)), (f: seq<byte>) => ParseDev(f))
  }

  function Encrypted(aead: Aead): Format {
    Format((n: u64, p: seq<byte>) => PrintAead(aead, n, p), (f: seq<byte>) => ParseAead(aead, f))
  }

  lemma ParsePrintBody(payload: seq<byte>, tail: seq<byte>)
    requires |payload| <= MAX_PAYLOAD
    ensures ParseBody(PrintBody(payload) + tail) == Some(payload)
  {
    var body := PrintBody(payload) + tail;
    Powers();
    ValueOfBigEndian(|payload|, 2);
    assert body[..2] == BigEndian(|payload|, 2);
    assert body[2..2 + |payload|] == payload;
  }

  /** The development format is faithful. */
  lemma DevelopmentFaithful()
    ensures Development().Faithful()
  {
    forall n: u64, p: seq<byte> | |p| <= MAX_PAYLOAD
      ensures ParseDev(PrintDev(n, p)) == Some(Opened(n, p)) && LegalSize(|PrintDev(n, p)|)
    {
      DevFields(n, p);
    }
  }

  /** The encrypted format is faithful when its cipher is. */
  lemma EncryptedFaithful(aead: Aead)
    requires aead.Ideal()
    ensures Encrypted(aead).Faithful()
  {
    forall n: u64, p: seq<byte> | |p| <= MAX_PAYLOAD
      ensures var f := PrintAead(aead, n, p);
              f.Some? && LegalSize(|f.value|) && ParseAead(aead, f.value) == Some(Opened(n, p))
    {
      AeadFields(aead, n, p);
    }
  }

  lemma DevFields(sequence: u64, payload: seq<byte>)
    requires |payload| <= MAX_PAYLOAD
    ensures |PrintDev(sequence, payload)| == 11 + |payload|
    ensures ParseDev(PrintDev(sequence, payload)) == Some(Opened(sequence, payload))
  {
    var frame := PrintDev(sequence, payload);
    Powers();
    ValueOfBigEndian(sequence, 8);
    assert frame[1..9] == BigEndian(sequence, 8);
    assert frame[9..] == PrintBody(payload) + [];
    ParsePrintBody(payload, []);
  }

  lemma AeadFields(aead: Aead, sequence: u64, payload: seq<byte>)
    requires aead.Ideal() && |payload| <= MAX_PAYLOAD
    ensures PrintAead(aead, sequence, payload).Some?
    ensures var frame := PrintAead(aead, sequence, payload).value;
            && |frame| == 39 + |payload|
            && ParseAead(aead, frame) == Some(Opened(sequence, payload))
  {
    var s := aead.encrypt(Nonce(sequence), PrintBody(payload)).value;
    var frame := PrintAead(aead, sequence, payload).value;
    var n := |frame| - TAG_SIZE;
    Powers();
    ValueOfBigEndian(sequence, 8);
    assert frame[1..9] == BigEndian(sequence, 8);
    assert frame[9..9 + NONCE_SIZE] == Nonce(sequence);
    assert frame[9 + NONCE_SIZE..n] == s.cipher;
    assert frame[n..] == s.tag;
    ParsePrintBody(payload, []);
    assert PrintBody(payload) + [] == PrintBody(payload);
  }

  /** For arbitrary bytes: the encrypted parser accepts a frame as `o` exactly when the version is right, the cipher
      text is neither too short nor too long for the buffer, the header says `o`'s number, and the cipher opens the
      rest to a text that begins with the canonical encoding of `o`'s payload. */
  lemma AeadParserAgainstPrinter(aead: Aead, frame: seq<byte>, o: Opened)
    ensures ParseAead(aead, frame) == Some(o)
            <==> && 39 <= |frame| <= 37 + MAX_PAYLOAD + 2
                 && frame[0] == VERSION_AEAD && frame[1..9] == BigEndian(o.sequence, 8)
                 && |o.payload| <= MAX_PAYLOAD
                 && var n := |frame| - TAG_SIZE;
                 && var plain := aead.decrypt(frame[9..21], Sealed(frame[21..n], frame[n..]));
                 && plain.Some? && PrintBody(o.payload) <= plain.value
  {
    if 39 <= |frame| {
      var n := |frame| - TAG_SIZE;
      var plain := aead.decrypt(frame[9..21], Sealed(frame[21..n], frame[n..]));
      SameNumber(frame[1..9], o.sequence);
      if plain.Some? {
        BodyParserAgainstPrinter(plain.value, o.payload);
      }
    }
  }

  lemma SameNumber(octets: seq<byte>, number: u64)
    requires |octets| == 8
    ensures Value(octets) == number <==> octets == BigEndian(number, 8)
  {
    Powers();
    ValueOfBigEndian(number, 8);
    BigEndianOfValue(octets);
  }

  lemma BodyParserAgainstPrinter(body: seq<byte>, payload: seq<byte>)
    ensures ParseBody(body) == Some(payload) <==> |payload| <= MAX_PAYLOAD && PrintBody(payload) <= body
  {
    if ParseBody(body) == Some(payload) {
      BigEndianOfValue(body[..2]);
      assert PrintBody(payload) == body[..2 + |payload|];
    }
    if |payload| <= MAX_PAYLOAD && PrintBody(payload) <= body {
      var tail := body[|PrintBody(payload)|..];
      assert body == PrintBody(payload) + tail;
      ParsePrintBody(payload, tail);
    }
  }

  /** The frame with `number` in its header; the nonce and the cipher text are as they were. */
  function Renumbered(frame: seq<byte>, number: u64): seq<byte> {
    if |frame| < 9 then frame else frame[..1] + BigEndian(number, 8) + frame[9..]
  }

  /** The number in the header is the one the nonce was made of. */
  predicate NumbersAgree(frame: seq<byte>)
    requires |frame| >= 21
  {
    ValueBound(frame[1..9]);
    Powers();
    Nonce(Value(frame[1..9])) == frame[9..21]
  }

  /** The cipher covers the nonce and the payload, not the number in the header: under any ideal cipher a sealed
      frame whose header number is replaced by `m` parses to the same payload under `m`. Comparing the header
      with the nonce, which the parser does not do, tells the two frames apart for every other `m`. */
  lemma HeaderNumberIsFree(aead: Aead, n: u64, m: u64, payload: seq<byte>)
    requires aead.Ideal() && |payload| <= MAX_PAYLOAD
    ensures PrintAead(aead, n, payload).Some? && |PrintAead(aead, n, payload).value| >= 21
    ensures var frame := Renumbered(PrintAead(aead, n, payload).value, m);
            ParseAead(aead, frame) == Some(Opened(m, payload)) && (NumbersAgree(frame) <==> m == n)
  {
    AeadFields(aead, n, payload);
    var s := aead.encrypt(Nonce(n), PrintBody(payload)).value;
    var frame := Renumbered(PrintAead(aead, n, payload).value, m);
    RenumberedFields(PrintAead(aead, n, payload).value, m, Nonce(n), s);
    ParsePrintBody(payload, []);
    assert PrintBody(payload) + [] == PrintBody(payload);
    NonceInjective(m, n);
  }

  /** A sealed frame whose header number is replaced parses to the same payload under the new number. */
  ghost predicate HeaderIsFree(format: Format) {
    forall n: u64, m: u64, p: seq<byte>, f: seq<byte>
        {:trigger format.encode(n, p), format.decode(Renumbered(f, m))} ::
      |p| <= MAX_PAYLOAD && format.encode(n, p) == Some(f) ==> format.decode(Renumbered(f, m)) == Some(Opened(m, p))
  }

  lemma EncryptedHeaderIsFree(aead: Aead)
    requires aead.Ideal()
    ensures HeaderIsFree(Encrypted(aead))
  {
    forall n: u64, m: u64, p: seq<byte>, f: seq<byte> | |p| <= MAX_PAYLOAD && PrintAead(aead, n, p) == Some(f)
      ensures ParseAead(aead, Renumbered(f, m)) == Some(Opened(m, p))
    {
      HeaderNumberIsFree(aead, n, m, p);
    }
  }

  /** So is that of the development format, which seals nothing. */
  lemma DevelopmentHeaderIsFree()
    ensures HeaderIsFree(Development())
  {
    forall n: u64, m: u64, p: seq<byte> | |p| <= MAX_PAYLOAD
      ensures ParseDev(Renumbered(PrintDev(n, p), m)) == Some(Opened(m, p))
    {
      assert PrintDev(n, p)[9..] == PrintBody(p) && PrintDev(n, p)[..1] == [VERSION_DEV];
      assert Renumbered(PrintDev(n, p), m) == PrintDev(m, p);
      DevFields(m, p);
    }
  }

  lemma RenumberedFields(frame: seq<byte>, m: u64, nonce: seq<byte>, s: Sealed)
    requires |frame| == 37 + |s.cipher| && |nonce| == NONCE_SIZE && |s.tag| == TAG_SIZE
    requires frame[9..] == nonce + s.cipher + s.tag
    ensures var f, n := Renumbered(frame, m), |frame| - TAG_SIZE;
            && |f| == |frame| && f[0] == frame[0] && Value(f[1..9]) == m
            && f[9..21] == nonce && f[21..n] == s.cipher && f[n..] == s.tag
  {
    var f, n := Renumbered(frame, m), |frame| - TAG_SIZE;
    Powers();
    ValueOfBigEndian(m, 8);
    assert f[1..9] == BigEndian(m, 8);
    assert f[9..] == nonce + s.cipher + s.tag;
    assert f[9..21] == f[9..][..12] && f[21..n] == f[9..][12..n - 9] && f[n..] == f[9..][n - 9..];
  }

  /** For arbitrary bytes: the development parser accepts a frame as `o` exactly when the canonical
      encoding of `o` is a prefix of it; bytes behind it are ignored. */
  lemma DevParserAgainstPrinter(frame: seq<byte>, o: Opened)
    ensures ParseDev(frame) == Some(o) <==> |o.payload| <= MAX_PAYLOAD && PrintDev(o.sequence, o.payload) <= frame
  {
    if ParseDev(frame) == Some(o) {
      DevAccepted(frame, o);
    }
    if |o.payload| <= MAX_PAYLOAD && PrintDev(o.sequence, o.payload) <= frame {
      DevAccepts(frame, o);
    }
  }

  lemma DevAccepted(frame: seq<byte>, o: Opened)
    requires ParseDev(frame) == Some(o)
    ensures |o.payload| <= MAX_PAYLOAD && PrintDev(o.sequence, o.payload) <= frame
  {
    var n := |o.payload|;
    BigEndianOfValue(frame[1..9]);
    BigEndianOfValue(frame[9..][..2]);
    assert PrintBody(o.payload) == frame[9..][..2 + n];
    assert frame[..11 + n] == [VERSION_DEV] + frame[1..9] + frame[9..][..2 + n];
  }

  lemma DevAccepts(frame: seq<byte>, o: Opened)
    requires |o.payload| <= MAX_PAYLOAD && PrintDev(o.sequence, o.payload) <= frame
    ensures ParseDev(frame) == Some(o)
  {
    var printed := PrintDev(o.sequence, o.payload);
    var tail := frame[|printed|..];
    assert frame == printed + tail;
    Powers();
    ValueOfBigEndian(o.sequence, 8);
    assert frame[1..9] == BigEndian(o.sequence, 8);
    assert frame[9..] == PrintBody(o.payload) + tail;
    ParsePrintBody(o.payload, tail);
  }

  lemma NonceInjective(a: u64, b: u64)
    ensures Nonce(a) == Nonce(b) ==> a == b
  {
    if Nonce(a) == Nonce(b) {
      assert Nonce(a)[..8] == LittleEndian(a, 8) && Nonce(b)[..8] == LittleEndian(b, 8);
      Powers();
      LittleEndianInjective(a, b, 8);
    }
  }
}
