/** The inner session: a send counter, a receive mark, and the classes that keep them. */
module InnerSession {
  import opened Bytes
  import opened Framing
  import opened InnerFrame

  /** One session: `ready` is the key handle of the encrypted session, always set in the other. */
  datatype Inner = Inner(format: Format, ready: bool, sent: u64, mark: u64)

  function FreshSession(format: Format): Inner { Inner(format, true, 0, 0) }

  /** `++send_sequence_` on a 64-bit counter. */
  function Next(sequence: u64): u64 { (sequence + 1) % TWO_64 }

  predicate Accepts(s: Inner, payload: seq<byte>) { s.ready && |payload| <= MAX_PAYLOAD }

  /** Sealing consumes a number once the payload is accepted, even if encryption then fails. */
  function AfterSeal(s: Inner, payload: seq<byte>): Inner {
    if Accepts(s, payload) then s.(sent := Next(s.sent)) else s
  }

  function Seal(s: Inner, payload: seq<byte>): (Inner, Option<seq<byte>>) {
    (AfterSeal(s, payload), if Accepts(s, payload) then s.format.encode(Next(s.sent), payload) else None)
  }

  /** Opening accepts a well-formed frame whose number is above the mark, and moves the mark to it. */
  function Open(s: Inner, frame: seq<byte>): (Inner, Option<seq<byte>>) {
    if !s.ready then (s, None)
    else
      match s.format.decode(frame)
      case None => (s, None)
      case Some(o) => if o.sequence <= s.mark then (s, None) else (s.(mark := o.sequence), Some(o.payload))
  }

  /** What a session answers. It seals exactly the payloads of at most 2048 bytes once it is ready, under the number
      after the last; it opens exactly the frames that parse to a number above the mark; and what it refuses to open,
      or refuses to seal for its size, leaves it as it was. */
  lemma SessionAnswers(s: Inner, payload: seq<byte>, frame: seq<byte>, p: seq<byte>)
    ensures s.format.Faithful() ==> (Seal(s, payload).1.Some? <==> s.ready && |payload| <= 2048)
    ensures !s.ready || |payload| > 2048 ==> Seal(s, payload) == (s, None)
    ensures s.ready && |payload| <= 2048 && s.sent + 1 < TWO_64 ==>
              Seal(s, payload) == (s.(sent := s.sent + 1), s.format.encode(s.sent + 1, payload))
    ensures Open(s, frame).1 == Some(p)
            <==> && s.ready && s.format.decode(frame).Some?
                 && s.format.decode(frame).value.payload == p && s.format.decode(frame).value.sequence > s.mark
    ensures Open(s, frame).1 == None ==> Open(s, frame).0 == s
  {
    if s.format.Faithful() && |payload| <= MAX_PAYLOAD {
      assert s.format.decode(s.format.encode(Next(s.sent), payload).value) == Some(Opened(Next(s.sent), payload));
    }
  }

  // ---------------------------------------------------------------- the session classes

  datatype Error = NoError | NotReady | PayloadTooLong | FrameTooShort | WrongVersion | Replayed
                 | IllegalLength | EncryptFailed | DecryptFailed | PlainTooShort

  class DevelopmentInnerSession {
    var sendSequence: u64
    var lastReceivedSequence: u64
    var lastError: Error

    constructor ()
      ensures View() == FreshSession(Development()) && lastError == NoError
    {
      sendSequence, lastReceivedSequence, lastError := 0, 0, NoError;
    }

    function View(): Inner
      reads this
    {
      Inner(Development(), true, sendSequence, lastReceivedSequence)
    }

    /** `seal`: on success the vector is replaced by the frame, otherwise it keeps its contents. */
    method SealInto(plaintext: seq<byte>, vector: seq<byte>) returns (ok: bool, ciphertext: seq<byte>)
      modifies this
      ensures var (s, frame) := Seal(old(View()), plaintext);
              View() == s && ok == frame.Some? && ciphertext == (if ok then frame.value else vector)
      ensures lastError == if ok then old(lastError) else PayloadTooLong
    {
      if |plaintext| > MAX_PAYLOAD {
        lastError := PayloadTooLong;
        return false, vector;
      }
      ciphertext := [VERSION_DEV];
      sendSequence := Next(sendSequence);
      ciphertext := WriteU64(ciphertext, sendSequence);
      ciphertext := WriteU16(ciphertext, |plaintext|);
      ciphertext := ciphertext + plaintext;
      ok := true;
      assert ciphertext == PrintDev(sendSequence, plaintext);
    }

    /** `open`: a rejection leaves the mark and the vector as they were. */
    method OpenInto(ciphertext: seq<byte>, vector: seq<byte>) returns (ok: bool, plaintext: seq<byte>)
      modifies this
      ensures var (s, payload) := Open(old(View()), ciphertext);
              View() == s && ok == payload.Some? && plaintext == (if ok then payload.value else vector)
      ensures !ok ==> View() == old(View())
      ensures ok ==> old(lastReceivedSequence) < lastReceivedSequence && lastError == old(lastError)
      ensures !ok ==> lastError == if |ciphertext| < 11 then FrameTooShort
                                   else if ciphertext[0] != 0xFE then WrongVersion
                                   else if Value(ciphertext[1..9]) <= lastReceivedSequence then Replayed
                                   else IllegalLength
    {
      plaintext := vector;
      if |ciphertext| < 1 + 8 + 2 {
        lastError := FrameTooShort;
        return false, vector;
      }
      if ciphertext[0] != VERSION_DEV {
        lastError := WrongVersion;
        return false, vector;
      }
      var sequence := ReadU64(ciphertext, 1);
      if sequence <= lastReceivedSequence {
        lastError := Replayed;
        return false, vector;
      }
      var size := ReadU16(ciphertext, 9);
      assert ciphertext[9..][..2] == ciphertext[9..11];
      if size > MAX_PAYLOAD || |ciphertext| < 11 + size {
        lastError := IllegalLength;
        return false, vector;
      }
      lastReceivedSequence := sequence;
      plaintext := ciphertext[11..11 + size];
      ghost var body := ciphertext[9..];
      assert |body| >= 2 + size && body[2..2 + size] == plaintext;
      ok := true;
    }
  }

  class BcryptInnerSession {
    const aead: Aead
    var keyOpen: bool
    var sendSequence: u64
    var lastReceivedSequence: u64
    var lastError: Error

    constructor (aead: Aead, keyOpen: bool)
      ensures this.aead == aead && View() == FreshSession(Encrypted(aead)).(ready := keyOpen) && lastError == NoError
    {
      this.aead, this.keyOpen := aead, keyOpen;
      sendSequence, lastReceivedSequence, lastError := 0, 0, NoError;
    }

    function View(): Inner
      reads this
    {
      Inner(Encrypted(aead), keyOpen, sendSequence, lastReceivedSequence)
    }

    method SealInto(plaintext: seq<byte>, vector: seq<byte>) returns (ok: bool, ciphertext: seq<byte>)
      modifies this
      ensures var (s, frame) := Seal(old(View()), plaintext);
              View() == s && ok == frame.Some? && ciphertext == (if ok then frame.value else vector)
      ensures lastError == if ok then old(lastError) else if !keyOpen then NotReady
                           else if |plaintext| > 2048 then PayloadTooLong else EncryptFailed
    {
      if !keyOpen {
        lastError := NotReady;
        return false, vector;
      }
      if |plaintext| > MAX_PAYLOAD {
        lastError := PayloadTooLong;
        return false, vector;
      }
      var plainFrame := WriteU16([], |plaintext|);
      plainFrame := plainFrame + plaintext;
      assert plainFrame == PrintBody(plaintext);
      sendSequence := Next(sendSequence);
      var nonce := Nonce(sendSequence);
      match aead.encrypt(nonce, plainFrame) {
        case None =>
          lastError := EncryptFailed;
          return false, vector;
        case Some(s) =>
          ciphertext := WriteU64([VERSION_AEAD], sendSequence);
          ciphertext := ciphertext + nonce + s.cipher + s.tag;
          ok := true;
      }
    }

    method OpenInto(ciphertext: seq<byte>, vector: seq<byte>) returns (ok: bool, plaintext: seq<byte>)
      modifies this
      ensures var (s, payload) := Open(old(View()), ciphertext);
              View() == s && ok == payload.Some? && plaintext == (if ok then payload.value else vector)
      ensures !ok ==> View() == old(View())
      ensures ok ==> old(lastReceivedSequence) < lastReceivedSequence && lastError == old(lastError)
      ensures !ok && !keyOpen ==> lastError == NotReady
      ensures !ok && keyOpen && |ciphertext| < 39 ==> lastError == FrameTooShort
      ensures !ok && keyOpen && |ciphertext| >= 39 && ciphertext[0] != 0x01 ==> lastError == WrongVersion
      ensures !ok && keyOpen && |ciphertext| >= 39 && ciphertext[0] == 0x01 ==>
                if Value(ciphertext[1..9]) <= lastReceivedSequence then lastError == Replayed
                else lastError in {DecryptFailed, PlainTooShort, IllegalLength}
    {
      plaintext := vector;
      if !keyOpen {
        lastError := NotReady;
        return false, vector;
      }
      var header := 1 + 8 + NONCE_SIZE + TAG_SIZE;
      if |ciphertext| < header + 2 {
        lastError := FrameTooShort;
        return false, vector;
      }
      if ciphertext[0] != VERSION_AEAD {
        lastError := WrongVersion;
        return false, vector;
      }
      var sequence := ReadU64(ciphertext, 1);
      if sequence <= lastReceivedSequence {
        lastError := Replayed;
        return false, vector;
      }
      var n := |ciphertext| - TAG_SIZE;
      var sealed := Sealed(ciphertext[9 + NONCE_SIZE..n], ciphertext[n..]);
      var plain := if |sealed.cipher| > MAX_PAYLOAD + 2 then None
                   else aead.decrypt(ciphertext[9..9 + NONCE_SIZE], sealed);
      if plain.None? {
        lastError := DecryptFailed;
        return false, vector;
      }
      if |plain.value| < 2 {
        lastError := PlainTooShort;
        return false, vector;
      }
      var size := ReadU16(plain.value, 0);
      assert plain.value[..2] == plain.value[0..2];
      if size > MAX_PAYLOAD || |plain.value| < 2 + size {
        lastError := IllegalLength;
        return false, vector;
      }
      lastReceivedSequence := sequence;
      plaintext := plain.value[2..2 + size];
      ok := true;
    }
  }

  // ---------------------------------------------------------------- runs of one session

  /** The frames a list of payloads is sealed into; failed attempts leave nothing. */
  function SealAll(s: Inner, payloads: seq<seq<byte>>): seq<seq<byte>>
    decreases |payloads|
  {
    if payloads == [] then []
    else
      var (s', frame) := Seal(s, payloads[0]);
      (if frame.Some? then [frame.value] else []) + SealAll(s', payloads[1..])
  }

  /** The numbers, hence nonces, that a list of seal attempts consumes. */
  function Consumed(s: Inner, payloads: seq<seq<byte>>): seq<u64>
    decreases |payloads|
  {
    if payloads == [] then []
    else
      var s' := AfterSeal(s, payloads[0]);
      (if s'.sent == s.sent then [] else [s'.sent]) + Consumed(s', payloads[1..])
  }

  /** The session's verdict on each of a list of received frames. */
  function Verdicts(s: Inner, frames: seq<seq<byte>>): (v: seq<Option<seq<byte>>>)
    ensures |v| == |frames|
    decreases |frames|
  {
    if frames == [] then []
    else
      var (s', payload) := Open(s, frames[0]);
      [payload] + Verdicts(s', frames[1..])
  }

  /** The payloads a list of received frames delivers. */
  function OpenAll(s: Inner, frames: seq<seq<byte>>): seq<seq<byte>>
    decreases |frames|
  {
    if frames == [] then []
    else
      var (s', payload) := Open(s, frames[0]);
      (if payload.Some? then [payload.value] else []) + OpenAll(s', frames[1..])
  }

  /** The numbers that a list of received frames got past the mark. */
  function AcceptedNumbers(s: Inner, frames: seq<seq<byte>>): seq<u64>
    decreases |frames|
  {
    if frames == [] then []
    else
      var (s', payload) := Open(s, frames[0]);
      (if payload.Some? then [s'.mark] else []) + AcceptedNumbers(s', frames[1..])
  }

  predicate Increasing(ns: seq<int>) {
    forall i, j :: 0 <= i < j < |ns| ==> ns[i] < ns[j]
  }

  lemma IncreasingCons(n: int, ns: seq<int>)
    requires Increasing(ns) && forall m :: m in ns ==> n < m
    ensures Increasing([n] + ns)
  {
    var all := [n] + ns;
    forall i, j | 0 <= i < j < |all| ensures all[i] < all[j] {
      assert all[j] in ns;
    }
  }

  /** Against any bytes whatever, accepted numbers strictly increase and are above the initial mark. */
  lemma {:induction false} AcceptedIncrease(s: Inner, frames: seq<seq<byte>>)
    ensures Increasing(AcceptedNumbers(s, frames))
    ensures forall n :: n in AcceptedNumbers(s, frames) ==> s.mark < n
    decreases |frames|
  {
    if frames != [] {
      var s' := Open(s, frames[0]).0;
      AcceptedIncrease(s', frames[1..]);
      IncreasingCons(s'.mark, AcceptedNumbers(s', frames[1..]));
    }
  }

  predicate AllFit(payloads: seq<seq<byte>>) {
    forall i :: 0 <= i < |payloads| ==> |payloads[i]| <= MAX_PAYLOAD
  }

  /** The frames decode to the payloads under the numbers that follow `base`. */
  ghost predicate Numbered(format: Format, base: nat, frames: seq<seq<byte>>, payloads: seq<seq<byte>>) {
    && |frames| == |payloads| && base + |frames| < TWO_64
    && forall i :: 0 <= i < |frames| ==> format.decode(frames[i]) == Some(Opened(base + 1 + i, payloads[i]))
  }

  lemma SealOne(s: Inner, payload: seq<byte>)
    requires s.ready && s.format.Faithful() && |payload| <= MAX_PAYLOAD && s.sent + 1 < TWO_64
    ensures var (s', frame) := Seal(s, payload);
            && s' == s.(sent := s.sent + 1)
            && frame.Some?
            && s.format.decode(frame.value) == Some(Opened(s.sent + 1, payload))
            && LegalSize(|frame.value|)
  {
    assert s.format.decode(s.format.encode(s.sent + 1, payload).value) == Some(Opened(s.sent + 1, payload));
  }

  /** Sealing numbers the payloads consecutively, and the framing layer takes every sealed frame. */
  lemma {:induction false} SealAllAt(s: Inner, payloads: seq<seq<byte>>)
    requires s.ready && s.format.Faithful() && AllFit(payloads)
    requires s.sent + |payloads| < TWO_64
    ensures var frames := SealAll(s, payloads);
            && AllLegal(frames)
            && Numbered(s.format, s.sent, frames, payloads)
    decreases |payloads|
  {
    if payloads != [] {
      SealOne(s, payloads[0]);
      var (s', frame) := Seal(s, payloads[0]);
      SealAllAt(s', payloads[1..]);
      SealAllCons(s, payloads, frame.value, SealAll(s', payloads[1..]));
    }
  }

  lemma SealAllCons(s: Inner, payloads: seq<seq<byte>>, frame: seq<byte>, rest: seq<seq<byte>>)
    requires payloads != [] && s.sent + |payloads| < TWO_64
    requires s.format.decode(frame) == Some(Opened(s.sent + 1, payloads[0]))
    requires Numbered(s.format, s.sent + 1, rest, payloads[1..])
    ensures Numbered(s.format, s.sent, [frame] + rest, payloads)
  {
    var frames := [frame] + rest;
    forall i | 0 <= i < |frames| ensures s.format.decode(frames[i]) == Some(Opened(s.sent + 1 + i, payloads[i])) {
      if i > 0 {
        assert frames[i] == rest[i - 1] && payloads[i] == payloads[1..][i - 1];
      }
    }
  }

  // ---------------------------------------------------------------- the replay filter

  predicate Within(order: seq<nat>, n: nat) {
    forall i :: 0 <= i < |order| ==> order[i] < n
  }

  /** The frames a network delivers when it drops, repeats and reorders but does not alter. */
  function Pick(frames: seq<seq<byte>>, order: seq<nat>): (fs: seq<seq<byte>>)
    requires Within(order, |frames|)
    ensures |fs| == |order|
    ensures forall i :: 0 <= i < |order| ==> fs[i] == frames[order[i]]
  {
    if order == [] then [] else [frames[order[0]]] + Pick(frames, order[1..])
  }

  /** Position `i` holds a strict left-to-right maximum that is also above `floor`. */
  predicate IsRecord(order: seq<int>, floor: int, i: nat)
    requires i < |order|
  {
    floor < order[i] && forall j :: 0 <= j < i ==> order[j] < order[i]
  }

  /** One numbered frame, met by a session with any mark. */
  lemma OpenNumbered(frames: seq<seq<byte>>, payloads: seq<seq<byte>>, s: Inner, n: nat)
    requires s.ready && Numbered(s.format, 0, frames, payloads) && n < |frames|
    ensures Open(s, frames[n]) == if s.mark - 1 < n then (s.(mark := n + 1), Some(payloads[n])) else (s, None)
  {
    assert s.format.decode(frames[n]) == Some(Opened(n + 1, payloads[n]));
  }

  /** Each frame parses to a number of `numbers` and the payload beside it. */
  ghost predicate Parses(format: Format, frames: seq<seq<byte>>, numbers: seq<u64>, payloads: seq<seq<byte>>) {
    && |frames| == |numbers| == |payloads|
    && (forall i :: 0 <= i < |frames| ==> format.decode(frames[i]) == Some(Opened(numbers[i], payloads[i])))
  }

  /** The filter at its most general: of any frames that parse, the `i`-th is accepted iff its number exceeds the mark
      and all numbers before it. */
  lemma {:induction false} VerdictsAreRecords(s: Inner, frames: seq<seq<byte>>, numbers: seq<u64>,
                                              payloads: seq<seq<byte>>, i: nat)
    requires s.ready && Parses(s.format, frames, numbers, payloads) && i < |frames|
    ensures Verdicts(s, frames)[i] == if IsRecord(numbers, s.mark, i) then Some(payloads[i]) else None
    decreases |frames|
  {
    assert s.format.decode(frames[0]) == Some(Opened(numbers[0], payloads[0]));
    var s' := Open(s, frames[0]).0;
    if i > 0 {
      VerdictsAreRecords(s', frames[1..], numbers[1..], payloads[1..], i - 1);
      RecordTail(numbers, s.mark, s'.mark, i);
    }
  }

  lemma RecordTail(order: seq<int>, floor: int, floor': int, i: nat)
    requires 0 < i < |order|
    requires floor' == if floor < order[0] then order[0] else floor
    ensures IsRecord(order, floor, i) <==> IsRecord(order[1..], floor', i - 1)
  {
    var tail := order[1..];
    if IsRecord(tail, floor', i - 1) {
      forall j | 0 <= j < i ensures order[j] < order[i] {
        if j > 0 { assert tail[j - 1] < tail[i - 1]; }
      }
    }
  }

  /** The replay filter, exactly. Of frames sealed by a fresh peer and delivered in any order, with any
      losses and repetitions, the `i`-th is accepted iff its number exceeds all numbers delivered
      before it; then it yields the payload sealed under that number. */
  lemma ReplayFilter(format: Format, payloads: seq<seq<byte>>, order: seq<nat>)
    requires format.Faithful() && AllFit(payloads) && |payloads| < TWO_64
    requires Within(order, |payloads|)
    ensures |SealAll(FreshSession(format), payloads)| == |payloads|
    ensures forall i :: 0 <= i < |order| ==>
              Verdicts(FreshSession(format), Pick(SealAll(FreshSession(format), payloads), order))[i]
              == if (forall j :: 0 <= j < i ==> order[j] < order[i]) then Some(payloads[order[i]]) else None
  {
    var s := FreshSession(format);
    SealAllAt(s, payloads);
    forall i | 0 <= i < |order|
      ensures Verdicts(s, Pick(SealAll(s, payloads), order))[i]
              == if (forall j :: 0 <= j < i ==> order[j] < order[i]) then Some(payloads[order[i]]) else None
    {
      PickedVerdict(SealAll(s, payloads), payloads, s, order, i);
    }
  }

  /** The numbers of the sealed frames in a given order. */
  function NumbersOf(order: seq<nat>, n: nat): (ns: seq<u64>)
    requires Within(order, n) && n < TWO_64
    ensures |ns| == |order| && forall i :: 0 <= i < |order| ==> ns[i] == order[i] + 1
  {
    seq(|order|, i requires 0 <= i < |order| => order[i] + 1)
  }

  lemma PickedVerdict(frames: seq<seq<byte>>, payloads: seq<seq<byte>>, s: Inner, order: seq<nat>, i: nat)
    requires s.ready && s.mark == 0 && Numbered(s.format, 0, frames, payloads) && |frames| < TWO_64
    requires Within(order, |frames|) && i < |order|
    ensures Verdicts(s, Pick(frames, order))[i]
         == if (forall j :: 0 <= j < i ==> order[j] < order[i]) then Some(payloads[order[i]]) else None
  {
    PickedParse(frames, payloads, s.format, order);
    VerdictsAreRecords(s, Pick(frames, order), NumbersOf(order, |frames|), Pick(payloads, order), i);
    ShiftedRecord(order, NumbersOf(order, |frames|), i);
  }

  lemma PickedParse(frames: seq<seq<byte>>, payloads: seq<seq<byte>>, format: Format, order: seq<nat>)
    requires Numbered(format, 0, frames, payloads) && Within(order, |frames|) && |frames| < TWO_64
    ensures Parses(format, Pick(frames, order), NumbersOf(order, |frames|), Pick(payloads, order))
  {
  }

  lemma ShiftedRecord(order: seq<nat>, numbers: seq<u64>, i: nat)
    requires |numbers| == |order| && i < |order| && forall j :: 0 <= j < |order| ==> numbers[j] == order[j] + 1
    ensures IsRecord(numbers, 0, i) <==> (forall j :: 0 <= j < i ==> order[j] < order[i])
  {
    if IsRecord(numbers, 0, i) {
      forall j | 0 <= j < i ensures order[j] < order[i] {
        assert numbers[j] < numbers[i];
      }
    }
  }

  /** The subsequence of strict left-to-right maxima above `floor`. */
  function Records(order: seq<nat>, floor: int): seq<nat> {
    if order == [] then []
    else if floor < order[0] then [order[0]] + Records(order[1..], order[0])
    else Records(order[1..], floor)
  }

  lemma {:induction false} RecordsIncrease(order: seq<nat>, floor: int)
    ensures Increasing(Records(order, floor))
    ensures forall n :: n in Records(order, floor) ==> floor < n && n in order
  {
    if order != [] {
      var floor' := if floor < order[0] then order[0] else floor;
      RecordsIncrease(order[1..], floor');
      IncreasingCons(floor', Records(order[1..], floor'));
    }
  }

  lemma {:induction false} DeliveredAreRecords(frames: seq<seq<byte>>, payloads: seq<seq<byte>>, s: Inner,
                                               order: seq<nat>)
    requires s.ready && Numbered(s.format, 0, frames, payloads) && Within(order, |frames|)
    ensures var kept := Records(order, s.mark - 1);
            Within(kept, |payloads|) && OpenAll(s, Pick(frames, order)) == Pick(payloads, kept)
    decreases |order|
  {
    if order != [] {
      var n, tail := order[0], order[1..];
      OpenNumbered(frames, payloads, s, n);
      OpenAllCons(s, frames[n], Pick(frames, tail));
      if s.mark - 1 < n {
        DeliveredAreRecords(frames, payloads, s.(mark := n + 1), tail);
        KeepHead(payloads, n, Records(tail, n));
      } else {
        DeliveredAreRecords(frames, payloads, s, tail);
      }
    }
  }

  lemma OpenAllCons(s: Inner, frame: seq<byte>, frames: seq<seq<byte>>)
    ensures var (s', payload) := Open(s, frame);
            OpenAll(s, [frame] + frames) == (if payload.Some? then [payload.value] else []) + OpenAll(s', frames)
  {
    assert ([frame] + frames)[1..] == frames;
  }

  lemma KeepHead(payloads: seq<seq<byte>>, n: nat, kept: seq<nat>)
    requires n < |payloads| && Within(kept, |payloads|)
    ensures Within([n] + kept, |payloads|)
    ensures Pick(payloads, [n] + kept) == [payloads[n]] + Pick(payloads, kept)
  {
    assert ([n] + kept)[1..] == kept;
  }

  /** Hence the delivered payloads are those of an increasing list of distinct sealed positions: a
      subsequence of what was sealed, each at most once. */
  lemma ReplayDelivers(format: Format, payloads: seq<seq<byte>>, order: seq<nat>)
    requires format.Faithful() && AllFit(payloads) && |payloads| < TWO_64
    requires Within(order, |payloads|)
    ensures |SealAll(FreshSession(format), payloads)| == |payloads|
    ensures exists kept: seq<nat> ::
              && Increasing(kept)
              && Within(kept, |payloads|)
              && (forall k :: k in kept ==> k in order)
              && OpenAll(FreshSession(format), Pick(SealAll(FreshSession(format), payloads), order))
                 == Pick(payloads, kept)
  {
    SealAllAt(FreshSession(format), payloads);
    DeliveredAreRecords(SealAll(FreshSession(format), payloads), payloads, FreshSession(format), order);
    RecordsIncrease(order, -1);
  }

  // ---------------------------------------------------------------- frames under other header numbers

  /** The sealed frames in any order, each with a number of `headers` in its header. */
  function Relabelled(frames: seq<seq<byte>>, order: seq<nat>, headers: seq<u64>): (fs: seq<seq<byte>>)
    requires Within(order, |frames|) && |headers| == |order|
    ensures |fs| == |order| && forall i :: 0 <= i < |fs| ==> fs[i] == Renumbered(frames[order[i]], headers[i])
  {
    seq(|order|, i requires 0 <= i < |order| => Renumbered(frames[order[i]], headers[i]))
  }

  /** What sealing prints. */
  lemma {:induction false} SealAllPrints(s: Inner, payloads: seq<seq<byte>>, n: nat)
    requires s.ready && s.format.Faithful() && AllFit(payloads) && s.sent + |payloads| < TWO_64 && n < |payloads|
    ensures |SealAll(s, payloads)| == |payloads|
    ensures Some(SealAll(s, payloads)[n]) == s.format.encode(s.sent + 1 + n, payloads[n])
    decreases |payloads|
  {
    SealAllAt(s, payloads);
    SealOne(s, payloads[0]);
    if n > 0 {
      var s' := Seal(s, payloads[0]).0;
      SealAllPrints(s', payloads[1..], n - 1);
    }
  }

  /** Each frame is printed under the number of its position. */
  ghost predicate Printed(format: Format, frames: seq<seq<byte>>, payloads: seq<seq<byte>>) {
    && |frames| == |payloads| < TWO_64
    && forall n :: 0 <= n < |frames| ==> format.encode(n + 1, payloads[n]) == Some(frames[n])
  }

  lemma SealAllPrinted(format: Format, payloads: seq<seq<byte>>)
    requires format.Faithful() && AllFit(payloads) && |payloads| < TWO_64
    ensures Printed(format, SealAll(FreshSession(format), payloads), payloads)
  {
    var s := FreshSession(format);
    SealAllAt(s, payloads);
    forall n | 0 <= n < |payloads| ensures format.encode(n + 1, payloads[n]) == Some(SealAll(s, payloads)[n]) {
      SealAllPrints(s, payloads, n);
    }
  }

  lemma RelabelledParses(format: Format, frames: seq<seq<byte>>, payloads: seq<seq<byte>>, order: seq<nat>,
                         headers: seq<u64>)
    requires HeaderIsFree(format) && AllFit(payloads) && Printed(format, frames, payloads)
    requires Within(order, |payloads|) && |headers| == |order|
    ensures Parses(format, Relabelled(frames, order, headers), headers, Pick(payloads, order))
  {
    forall i | 0 <= i < |order|
      ensures format.decode(Renumbered(frames[order[i]], headers[i])) == Some(Opened(headers[i], payloads[order[i]]))
    {
      assert format.encode(order[i] + 1, payloads[order[i]]) == Some(frames[order[i]]);
    }
  }

  /** The replay filter for frames whose header numbers were changed, exactly, for a session with any mark: the `i`-th
      is accepted iff its header number exceeds the mark and all header numbers before it, and then yields the
      payload it was sealed with. Both formats are of this kind. */
  lemma RelabelledFilter(s: Inner, payloads: seq<seq<byte>>, order: seq<nat>, headers: seq<u64>)
    requires s.ready && s.format.Faithful() && HeaderIsFree(s.format) && AllFit(payloads) && |payloads| < TWO_64
    requires Within(order, |payloads|) && |headers| == |order|
    ensures |SealAll(FreshSession(s.format), payloads)| == |payloads|
    ensures forall i :: 0 <= i < |order| ==>
              Verdicts(s, Relabelled(SealAll(FreshSession(s.format), payloads), order, headers))[i]
              == if IsRecord(headers, s.mark, i) then Some(payloads[order[i]]) else None
  {
    SealAllPrinted(s.format, payloads);
    var frames := SealAll(FreshSession(s.format), payloads);
    RelabelledParses(s.format, frames, payloads, order, headers);
    FilteredBy(s, Relabelled(frames, order, headers), headers, payloads, order);
  }

  lemma FilteredBy(s: Inner, fs: seq<seq<byte>>, numbers: seq<u64>, payloads: seq<seq<byte>>, order: seq<nat>)
    requires s.ready && Within(order, |payloads|) && Parses(s.format, fs, numbers, Pick(payloads, order))
    ensures forall i :: 0 <= i < |order| ==>
              Verdicts(s, fs)[i] == if IsRecord(numbers, s.mark, i) then Some(payloads[order[i]]) else None
  {
    forall i | 0 <= i < |order|
      ensures Verdicts(s, fs)[i] == if IsRecord(numbers, s.mark, i) then Some(payloads[order[i]]) else None
    {
      VerdictsAreRecords(s, fs, numbers, Pick(payloads, order), i);
    }
  }

  /** When a payload is delivered twice: two arrivals `i < j` of one sealed frame are both accepted iff the header
      number of each exceeds the mark and all header numbers before it. In particular the second must bear a larger
      number than the first, so that frames which arrive under the numbers they were sealed with, as comparing
      header and nonce would enforce, are never delivered twice. */
  lemma DeliveredTwiceIff(s: Inner, payloads: seq<seq<byte>>, order: seq<nat>, headers: seq<u64>, i: nat, j: nat)
    requires s.ready && s.format.Faithful() && HeaderIsFree(s.format) && AllFit(payloads) && |payloads| < TWO_64
    requires Within(order, |payloads|) && |headers| == |order| && i < j < |order| && order[i] == order[j]
    ensures |SealAll(FreshSession(s.format), payloads)| == |payloads|
    ensures var v := Verdicts(s, Relabelled(SealAll(FreshSession(s.format), payloads), order, headers));
            && (v[i].Some? && v[j].Some? <==> IsRecord(headers, s.mark, i) && IsRecord(headers, s.mark, j))
            && (v[i].Some? && v[j].Some? ==> v[i] == v[j] && headers[i] < headers[j])
            && (headers[i] == headers[j] == order[i] + 1 ==> !(v[i].Some? && v[j].Some?))
  {
    RelabelledFilter(s, payloads, order, headers);
  }

  /** A delivery that does it, to a fresh session: the first sealed frame as it is, and again under any larger
      number. */
  lemma DeliveredTwice(format: Format, payload: seq<byte>, m: u64)
    requires format.Faithful() && HeaderIsFree(format) && |payload| <= MAX_PAYLOAD && m > 1
    ensures |SealAll(FreshSession(format), [payload])| == 1
    ensures Verdicts(FreshSession(format), Relabelled(SealAll(FreshSession(format), [payload]), [0, 0], [1, m]))
         == [Some(payload), Some(payload)]
  {
    RelabelledFilter(FreshSession(format), [payload], [0, 0], [1, m]);
  }

  // ---------------------------------------------------------------- counter and nonces

  /** The numbers that follow `sent`, wrapping at 2^64. */
  predicate Consecutive(sent: u64, used: seq<u64>) {
    forall i :: 0 <= i < |used| ==> used[i] == (sent + 1 + i) % TWO_64
  }

  lemma {:induction false} ConsumedAt(s: Inner, payloads: seq<seq<byte>>)
    ensures |Consumed(s, payloads)| <= |payloads| && Consecutive(s.sent, Consumed(s, payloads))
    decreases |payloads|
  {
    if payloads != [] {
      var s' := AfterSeal(s, payloads[0]);
      ConsumedAt(s', payloads[1..]);
      if s'.sent != s.sent {
        ConsecutiveCons(s.sent, Consumed(s', payloads[1..]));
      }
    }
  }

  lemma ConsecutiveCons(sent: u64, used: seq<u64>)
    requires Consecutive(Next(sent), used)
    ensures Consecutive(sent, [Next(sent)] + used)
  {
    var all := [Next(sent)] + used;
    forall i | 0 <= i < |all| ensures all[i] == (sent + 1 + i) % TWO_64 {
      if i > 0 {
        assert all[i] == used[i - 1] == (Next(sent) + i) % TWO_64;
        assert Next(sent) == sent + 1 || Next(sent) == sent + 1 - TWO_64;
      }
    }
  }

  predicate Distinct(ns: seq<seq<byte>>) {
    forall i, j :: 0 <= i < j < |ns| ==> ns[i] != ns[j]
  }

  function Nonces(ns: seq<u64>): (r: seq<seq<byte>>)
    ensures |r| == |ns| && forall i :: 0 <= i < |ns| ==> r[i] == Nonce(ns[i])
  {
    seq(|ns|, i requires 0 <= i < |ns| => Nonce(ns[i]))
  }

  /** Over any attempts on a fresh session, including rejected sizes and failed encryptions: the numbers
      increase iff fewer than 2^64 were consumed, and no nonce repeats iff at most 2^64 were. */
  lemma CounterAndNonces(format: Format, ready: bool, payloads: seq<seq<byte>>)
    ensures var used := Consumed(FreshSession(format).(ready := ready), payloads);
            && (Increasing(used) <==> |used| < TWO_64)
            && (Distinct(Nonces(used)) <==> |used| <= TWO_64)
  {
    var s := FreshSession(format).(ready := ready);
    ConsumedAt(s, payloads);
    Wraps(Consumed(s, payloads));
  }

  lemma Wraps(used: seq<u64>)
    requires Consecutive(0, used)
    ensures Increasing(used) <==> |used| < TWO_64
    ensures Distinct(Nonces(used)) <==> |used| <= TWO_64
  {
    WrapsNumbers(used);
    if |used| > TWO_64 {
      assert Nonces(used)[0] == Nonces(used)[TWO_64];
    } else {
      DistinctNonces(used);
    }
  }

  lemma WrapsNumbers(used: seq<u64>)
    requires Consecutive(0, used)
    ensures Increasing(used) <==> |used| < TWO_64
    ensures |used| > TWO_64 ==> used[0] == used[TWO_64]
    ensures |used| <= TWO_64 ==> forall i, j :: 0 <= i < j < |used| ==> used[i] != used[j]
  {
    assert forall i :: 0 <= i < |used| && i < TWO_64 - 1 ==> used[i] == 1 + i;
    if |used| >= TWO_64 {
      assert used[0] == 1 && used[TWO_64 - 1] == 0;
    }
  }

  lemma DistinctNonces(used: seq<u64>)
    requires forall i, j :: 0 <= i < j < |used| ==> used[i] != used[j]
    ensures Distinct(Nonces(used))
  {
    forall i, j | 0 <= i < j < |used| ensures Nonces(used)[i] != Nonces(used)[j] {
      NonceInjective(used[i], used[j]);
    }
  }

  // ---------------------------------------------------------------- end to end

  lemma OpenAllInOrder(frames: seq<seq<byte>>, payloads: seq<seq<byte>>, s: Inner, n: nat)
    requires s.ready && s.mark == 0 && Numbered(s.format, 0, frames, payloads) && n <= |frames|
    ensures OpenAll(s, frames[..n]) == payloads[..n]
  {
    var order := Range(0, n);
    assert Pick(frames, order) == frames[..n];
    DeliveredAreRecords(frames, payloads, s, order);
    RecordsOfIdentity(0, n);
    assert Pick(payloads, order) == payloads[..n];
  }

  function Range(lo: nat, hi: nat): (r: seq<nat>)
    requires lo <= hi
    ensures |r| == hi - lo && forall i :: 0 <= i < |r| ==> r[i] == lo + i
  {
    seq(hi - lo, i => lo + i)
  }

  lemma {:induction false} RecordsOfIdentity(lo: nat, hi: nat)
    requires lo <= hi
    ensures Records(Range(lo, hi), lo - 1) == Range(lo, hi)
    decreases hi - lo
  {
    if lo < hi {
      assert Range(lo, hi)[1..] == Range(lo + 1, hi);
      RecordsOfIdentity(lo + 1, hi);
    }
  }

  lemma {:induction false} RecordsAbove(lo: nat, hi: nat, floor: int)
    requires lo <= hi && lo <= floor + 1
    ensures var k := if floor + 1 < hi then floor + 1 else hi; Records(Range(lo, hi), floor) == Range(k, hi)
    decreases hi - lo
  {
    if lo < hi {
      assert Range(lo, hi)[1..] == Range(lo + 1, hi);
      if floor < lo {
        RecordsOfIdentity(lo, hi);
      } else {
        RecordsAbove(lo + 1, hi, floor);
      }
    } else {
      assert Range(lo, hi) == [];
    }
  }

  lemma PickRange(frames: seq<seq<byte>>, k: nat)
    requires k <= |frames|
    ensures Within(Range(k, |frames|), |frames|) && Pick(frames, Range(k, |frames|)) == frames[k..]
  {
  }

  lemma OpenAllAbove(frames: seq<seq<byte>>, payloads: seq<seq<byte>>, s: Inner, order: seq<nat>)
    requires s.ready && Numbered(s.format, 0, frames, payloads)
    requires Within(order, |frames|) && Pick(frames, order) == frames
    requires Records(order, s.mark - 1) == Range(Least(s.mark, |payloads|), |payloads|)
    ensures OpenAll(s, frames) == payloads[Least(s.mark, |payloads|)..]
  {
    DeliveredAreRecords(frames, payloads, s, order);
    PickRange(payloads, Least(s.mark, |payloads|));
  }

  lemma OpenAllFrames(frames: seq<seq<byte>>, payloads: seq<seq<byte>>, s: Inner)
    requires s.ready && Numbered(s.format, 0, frames, payloads)
    ensures OpenAll(s, frames) == payloads[Least(s.mark, |payloads|)..]
  {
    PickRange(frames, 0);
    RecordsAbove(0, |payloads|, s.mark - 1);
    OpenAllAbove(frames, payloads, s, Range(0, |payloads|));
  }

  /** What a peer that starts over meets: a session that keeps its mark across the transport's resets refuses as many
      of the new peer's frames as the mark says, and delivers all later ones. It delivers all of them iff the mark is
      zero. */
  lemma FreshPeerIsDelayed(s: Inner, payloads: seq<seq<byte>>)
    requires s.ready && s.format.Faithful() && AllFit(payloads) && |payloads| < TWO_64
    ensures var delivered := OpenAll(s, SealAll(FreshSession(s.format), payloads));
            && delivered == payloads[Least(s.mark, |payloads|)..]
            && (delivered == payloads <==> s.mark == 0 || payloads == [])
  {
    SealAllAt(FreshSession(s.format), payloads);
    OpenAllFrames(SealAll(FreshSession(s.format), payloads), payloads, s);
  }

  /** End-to-end delivery, for every faithful format. Seal with a fresh session, length-prefix, let the transport
      deliver any part of the byte stream in any chunks, reassemble and open with a fresh peer: the
      payloads come out in order, all of them once the whole stream has arrived. */
  lemma EndToEnd(format: Format, payloads: seq<seq<byte>>, chunks: seq<seq<byte>>)
    requires format.Faithful() && AllFit(payloads) && |payloads| < TWO_64
    requires Concat(chunks) <= Wire(SealAll(FreshSession(format), payloads))
    ensures AllLegal(SealAll(FreshSession(format), payloads))
    ensures OpenAll(FreshSession(format), Feed([], chunks).0) <= payloads
    ensures Concat(chunks) == Wire(SealAll(FreshSession(format), payloads)) ==>
              OpenAll(FreshSession(format), Feed([], chunks).0) == payloads
  {
    var s := FreshSession(format);
    SealAllAt(s, payloads);
    var frames := SealAll(s, payloads);
    PrefixOfWire(frames, chunks);
    var n := |Feed([], chunks).0|;
    assert Feed([], chunks).0 == frames[..n];
    OpenAllInOrder(frames, payloads, s, n);
    assert n == |payloads| ==> payloads[..n] == payloads;
  }
}
