/** The send gate of `QuicSecureTransport::send_payload`: a mutex, a condition variable and the flag
    `send_complete` that any number of senders and the completion callback share. One `Step` is one
    atomic action; a schedule is any list of steps. */
module SendGate {
  import opened Bytes
  import opened Framing

  type Sender = nat

  /** Where a sender stands. The four middle states hold the channel's mutex. */
  datatype Pc =
    | Idle
    | AwaitGate(payload: seq<byte>)
    | Entered(payload: seq<byte>)
    | Armed(payload: seq<byte>)
    | Refused
    | Sent(id: nat)
    | AwaitDone(id: nat)
  {
    predicate Holds() { Entered? || Armed? || Refused? || Sent? }

    /** Inside `send_payload`, behind the hand-over of send `i`. */
    predicate Awaits(i: nat) { (Sent? || AwaitDone?) && id == i }
  }

  /** `flag` is `send_complete`. Sends are numbered in the order the library takes them: `accepted` lists their
      payloads, `inflight` those not completed, `confirmed` those whose caller was told `true`. The library reads
      the sender's own buffer while a send is outstanding: `wire` are the bytes it has read, `unread` what the
      buffer of the outstanding send held behind them, and `buffers` the sends whose buffer still exists, which is
      until `send_payload` returns. Histories: `lapsed`, the sends whose sender gave up waiting while they were
      outstanding, and `spoiled`, those of them of which bytes remained to be read. */
  datatype Gate = Gate(
    pcs: map<Sender, Pc>, holder: set<Sender>, flag: bool,
    inflight: set<nat>, accepted: seq<seq<byte>>, wire: seq<byte>, unread: seq<byte>,
    buffers: set<nat>, lapsed: set<nat>, spoiled: set<nat>, confirmed: set<nat>)
  {
    function At(t: Sender): Pc { if t in pcs then pcs[t] else Idle }

    function Move(t: Sender, pc: Pc): Gate { this.(pcs := pcs[t := pc]) }
  }

  function Init(): Gate { Gate(map[], {}, true, {}, [], [], [], {}, {}, {}, {}) }

  datatype Step =
    | Call(t: Sender, payload: seq<byte>)
    | PassGate(t: Sender)
    | GateTimeout(t: Sender)
    | CloseFlag(t: Sender)
    | SendTaken(t: Sender)
    | SendFailed(t: Sender)
    | ReopenFlag(t: Sender)
    | StartWait(t: Sender)
    | Emit(bytes: seq<byte>)
    | Complete(id: nat)
    | Finish(t: Sender)
    | DoneTimeout(t: Sender)

  /** A step that is not possible in a state leaves it unchanged. */
  function Next(g: Gate, s: Step): Gate {
    match s
    case Call(t, payload) =>
      if g.At(t).Idle? && LegalSize(|payload|) then g.Move(t, AwaitGate(payload)) else g
    case PassGate(t) =>
      if g.At(t).AwaitGate? && g.holder == {} && g.flag
      then g.Move(t, Entered(g.At(t).payload)).(holder := {t}) else g
    case GateTimeout(t) =>
      if g.At(t).AwaitGate? && g.holder == {} && !g.flag then g.Move(t, Idle) else g
    case CloseFlag(t) =>
      if g.At(t).Entered? then g.Move(t, Armed(g.At(t).payload)).(flag := false) else g
    case SendTaken(t) => if g.At(t).Armed? then Take(g, t, g.At(t).payload) else g
    case SendFailed(t) =>
      if g.At(t).Armed? then g.Move(t, Refused) else g
    case ReopenFlag(t) =>
      if g.At(t).Refused? then g.Move(t, Idle).(flag := true, holder := {}) else g
    case StartWait(t) =>
      if g.At(t).Sent? then g.Move(t, AwaitDone(g.At(t).id)).(holder := {}) else g
    case Emit(bytes) =>
      if Readable(g, bytes) then g.(wire := g.wire + bytes, unread := g.unread[|bytes|..]) else g
    case Complete(id) =>
      if id in g.inflight && g.unread == [] then g.(inflight := g.inflight - {id}, flag := true) else g
    case Finish(t) =>
      if g.At(t).AwaitDone? && g.holder == {} && g.flag
      then g.Move(t, Idle).(confirmed := g.confirmed + {g.At(t).id}, buffers := g.buffers - {g.At(t).id}) else g
    case DoneTimeout(t) =>
      if g.At(t).AwaitDone? && g.holder == {} && !g.flag then Lapse(g, t, g.At(t).id) else g
  }

  /** `StreamSend` takes the buffer of `t`. */
  function Take(g: Gate, t: Sender, payload: seq<byte>): Gate {
    var id := |g.accepted|;
    g.Move(t, Sent(id)).(inflight := g.inflight + {id}, accepted := g.accepted + [payload], unread := Encode(payload),
                         buffers := g.buffers + {id})
  }

  /** `send_payload` returns on a completion timeout, and its buffer with it. */
  function Lapse(g: Gate, t: Sender, id: nat): Gate {
    g.Move(t, Idle).(buffers := g.buffers - {id},
                     lapsed := g.lapsed + if id in g.inflight then {id} else {},
                     spoiled := g.spoiled + if id in g.inflight && g.unread != [] then {id} else {})
  }

  /** The library may read these bytes next: the next ones of the outstanding send while its buffer exists, and
      anything, in the same number, from memory that is no longer the buffer. */
  predicate Readable(g: Gate, bytes: seq<byte>) {
    && g.inflight != {} && |bytes| <= |g.unread|
    && (g.inflight <= g.buffers ==> bytes <= g.unread)
  }

  function Run(g: Gate, schedule: seq<Step>): Gate
    decreases |schedule|
  {
    if schedule == [] then g else Run(Next(g, schedule[0]), schedule[1..])
  }

  /** Someone closed the flag and has not yet handed the buffer over or taken the closing back. */
  ghost predicate Pending(g: Gate) {
    exists t :: t in g.holder && (g.At(t).Armed? || g.At(t).Refused?)
  }

  ghost predicate MutexInv(g: Gate) {
    && (forall t :: t in g.holder <==> g.At(t).Holds())
    && (forall t, u :: t in g.holder && u in g.holder ==> t == u)
  }

  ghost predicate FlagInv(g: Gate) {
    && (forall i, j :: i in g.inflight && j in g.inflight ==> i == j)
    && (forall t :: g.At(t).Entered? ==> g.flag)
    && (forall t :: g.At(t).Armed? || g.At(t).Refused? ==> !g.flag && g.inflight == {})
    && (!g.flag <==> g.inflight != {} || Pending(g))
  }

  ghost predicate SendInv(g: Gate) {
    && AllLegal(g.accepted)
    && (forall t :: g.At(t).AwaitGate? || g.At(t).Entered? || g.At(t).Armed? ==> LegalSize(|g.At(t).payload|))
    && (forall t :: g.At(t).Sent? || g.At(t).AwaitDone? ==> g.At(t).id < |g.accepted|)
    && (forall i :: i in g.inflight ==> i == |g.accepted| - 1 && i !in g.confirmed)
    && (forall i :: i in g.confirmed ==> i < |g.accepted|)
  }

  /** The buffer of an outstanding send exists iff its sender has not given up, and one that is gone was either read
      to its end before or counted as spoiled. */
  ghost predicate BufferInv(g: Gate) {
    && (forall i :: i in g.buffers || i in g.lapsed ==> i < |g.accepted|)
    && g.spoiled <= g.lapsed
    && (forall i :: i in g.inflight ==> (i in g.buffers <==> i !in g.lapsed))
    && (forall i :: i in g.inflight && i in g.lapsed && i !in g.spoiled ==> g.unread == [])
    && (g.inflight == {} ==> g.unread == [])
  }

  /** A buffer exists exactly as long as the call that owns it: one call each. */
  ghost predicate OwnerInv(g: Gate) {
    && (forall i :: i in g.buffers <==> Owned(g, i))
    && (forall i, t, u {:trigger g.At(t).Awaits(i), g.At(u).Awaits(i)} ::
          g.At(t).Awaits(i) && g.At(u).Awaits(i) ==> t == u)
  }

  ghost predicate Owned(g: Gate, i: nat) { exists t :: g.At(t).Awaits(i) }

  /** As many bytes were read as the accepted frames have, but for the unread ones; and unless a send is spoiled they
      are those frames. */
  ghost predicate WireInv(g: Gate) {
    && |g.wire| + |g.unread| == |Wire(g.accepted)| && g.unread == Wire(g.accepted)[|g.wire|..]
    && (g.spoiled == {} ==> g.wire + g.unread == Wire(g.accepted))
  }

  /** A step moves at most the sender it names. */
  lemma OthersStay(g: Gate, s: Step)
    ensures forall u {:trigger Next(g, s).At(u)} ::
              Next(g, s).At(u) == g.At(u) || (!s.Complete? && !s.Emit? && u == s.t)
  {
  }

  lemma MutexStep(g: Gate, s: Step)
    requires MutexInv(g)
    ensures MutexInv(Next(g, s))
  {
    OthersStay(g, s);
  }

  lemma FlagStep(g: Gate, s: Step)
    requires MutexInv(g) && FlagInv(g)
    ensures FlagInv(Next(g, s))
  {
    OthersStay(g, s);
    var g' := Next(g, s);
    match s
    case CloseFlag(t) => if g.At(t).Entered? { assert t in g'.holder && g'.At(t).Armed?; }
    case SendFailed(t) => if g.At(t).Armed? { assert t in g'.holder && g'.At(t).Refused?; }
    case SendTaken(t) => if g.At(t).Armed? { assert t in g.holder && |g.accepted| in g'.inflight; }
    case ReopenFlag(t) => if g.At(t).Refused? { assert t in g.holder; }
    case Complete(id) => if g' != g { assert g'.inflight == {}; }
    case _ => assert Pending(g) <==> Pending(g');
  }

  lemma SendStep(g: Gate, s: Step)
    requires MutexInv(g) && FlagInv(g) && SendInv(g)
    ensures SendInv(Next(g, s))
  {
    OthersStay(g, s);
  }

  lemma BufferStep(g: Gate, s: Step)
    requires MutexInv(g) && FlagInv(g) && SendInv(g) && BufferInv(g)
    ensures BufferInv(Next(g, s))
  {
  }

  lemma OwnersSame(g: Gate, g': Gate)
    requires OwnerInv(g) && g'.buffers == g.buffers
    requires forall u, i {:trigger g'.At(u).Awaits(i)} {:trigger g.At(u).Awaits(i)} ::
               g'.At(u).Awaits(i) <==> g.At(u).Awaits(i)
    ensures OwnerInv(g')
  {
    forall i ensures Owned(g', i) <==> Owned(g, i) {
      if t :| g.At(t).Awaits(i) { assert g'.At(t).Awaits(i); }
    }
  }

  lemma OwnersJoin(g: Gate, g': Gate, t: Sender, n: nat)
    requires OwnerInv(g) && g'.buffers == g.buffers + {n} && !Owned(g, n)
    requires forall u, i {:trigger g'.At(u).Awaits(i)} {:trigger g.At(u).Awaits(i)} ::
               g'.At(u).Awaits(i) <==> g.At(u).Awaits(i) || (u == t && i == n)
    ensures OwnerInv(g')
  {
    assert g'.At(t).Awaits(n);
    forall i | i != n ensures Owned(g', i) <==> Owned(g, i) {
      if u :| g.At(u).Awaits(i) { assert g'.At(u).Awaits(i); }
    }
  }

  lemma OwnersLeave(g: Gate, g': Gate, t: Sender, n: nat)
    requires OwnerInv(g) && g'.buffers == g.buffers - {n} && g.At(t).Awaits(n)
    requires forall u, i {:trigger g'.At(u).Awaits(i)} {:trigger g.At(u).Awaits(i)} ::
               g'.At(u).Awaits(i) <==> g.At(u).Awaits(i) && u != t
    ensures OwnerInv(g')
  {
    forall i | i != n ensures Owned(g', i) <==> Owned(g, i) {
      if u :| g.At(u).Awaits(i) { assert g'.At(u).Awaits(i); }
    }
  }

  lemma OwnerStep(g: Gate, s: Step)
    requires SendInv(g) && OwnerInv(g)
    ensures OwnerInv(Next(g, s))
  {
    var g' := Next(g, s);
    OthersStay(g, s);
    match s
    case SendTaken(t) => if g.At(t).Armed? { OwnersJoin(g, g', t, |g.accepted|); }
    case Finish(t) => if g' != g { OwnersLeave(g, g', t, g.At(t).id); }
    case DoneTimeout(t) => if g' != g { OwnersLeave(g, g', t, g.At(t).id); }
    case _ => OwnersSame(g, g');
  }

  /** Bytes read from the front of what was left, or others in the same number. */
  lemma Reading(wire: seq<byte>, unread: seq<byte>, all: seq<byte>, bytes: seq<byte>)
    requires |wire| + |unread| == |all| && unread == all[|wire|..] && |bytes| <= |unread|
    ensures |wire + bytes| + |unread[|bytes|..]| == |all| && unread[|bytes|..] == all[|wire + bytes|..]
    ensures bytes <= unread ==> (wire + bytes) + unread[|bytes|..] == wire + unread
  {
    if bytes <= unread {
      assert unread == bytes + unread[|bytes|..];
    }
  }

  /** A new buffer behind bytes all of which were read. */
  lemma Taking(wire: seq<byte>, all: seq<byte>, buffer: seq<byte>)
    requires |wire| == |all|
    ensures (all + buffer)[|wire|..] == buffer
  {
  }

  lemma WireStep(g: Gate, s: Step)
    requires MutexInv(g) && FlagInv(g) && SendInv(g) && BufferInv(g) && WireInv(g)
    ensures WireInv(Next(g, s))
  {
    match s
    case Emit(bytes) =>
      if Readable(g, bytes) {
        Reading(g.wire, g.unread, Wire(g.accepted), bytes);
        if g.spoiled == {} {
          EmitsFromBuffer(g, bytes);
        }
      }
    case SendTaken(t) =>
      if g.At(t).Armed? {
        WireSnoc(g.accepted, g.At(t).payload);
        Taking(g.wire, Wire(g.accepted), Encode(g.At(t).payload));
        assert g.spoiled == {} ==> g.wire + g.unread == g.wire;
      }
    case _ =>
  }

  /** Without a spoiled send only the right bytes can be read. */
  lemma EmitsFromBuffer(g: Gate, bytes: seq<byte>)
    requires BufferInv(g) && g.spoiled == {} && Readable(g, bytes)
    ensures bytes <= g.unread
  {
    if !(g.inflight <= g.buffers) {
      var i :| i in g.inflight && i !in g.buffers;
      assert i in g.lapsed;
    }
  }

  lemma {:induction false} WireSnoc(ps: seq<seq<byte>>, p: seq<byte>)
    ensures Wire(ps + [p]) == Wire(ps) + Encode(p)
  {
    if ps == [] {
      assert [p][1..] == [];
    } else {
      WireSnoc(ps[1..], p);
      assert (ps + [p])[1..] == ps[1..] + [p];
    }
  }

  ghost predicate Inv(g: Gate) {
    MutexInv(g) && FlagInv(g) && SendInv(g) && OwnerInv(g) && BufferInv(g) && WireInv(g)
  }

  lemma {:induction false} RunKeeps(g: Gate, schedule: seq<Step>)
    requires Inv(g)
    ensures Inv(Run(g, schedule))
    decreases |schedule|
  {
    if schedule != [] {
      StepKeeps(g, schedule[0]);
      RunKeeps(Next(g, schedule[0]), schedule[1..]);
    }
  }

  lemma StepKeeps(g: Gate, s: Step)
    requires Inv(g)
    ensures Inv(Next(g, s))
  {
    MutexStep(g, s);
    FlagStep(g, s);
    SendStep(g, s);
    OwnerStep(g, s);
    BufferStep(g, s);
    WireStep(g, s);
  }

  /** Every interleaving: at most one send is outstanding; whenever the mutex is free the flag is false exactly when
      one is; what callers were told completed has completed; a buffer exists iff the call that filled it has not
      returned, which for an outstanding send is: iff its sender has not given up waiting for it. Unless a sender
      gave up while bytes remained to be read, the bytes read are whole accepted frames but for the unread end of
      the outstanding one, so that any receiver of any part of them, however chunked, cuts out the accepted payloads
      in order, all of them once all are read. */
  lemma GateSafety(schedule: seq<Step>, chunks: seq<seq<byte>>)
    ensures var g := Run(Init(), schedule);
            && |g.inflight| <= 1
            && (g.holder == {} ==> (!g.flag <==> |g.inflight| == 1))
            && g.confirmed !! g.inflight
            && (forall i :: i in g.buffers <==> Owned(g, i))
            && (forall i :: i in g.inflight ==> (i in g.buffers <==> i !in g.lapsed))
            && (g.spoiled == {} ==>
                  && g.wire + g.unread == Wire(g.accepted)
                  && (Concat(chunks) <= g.wire ==> Feed([], chunks).0 <= g.accepted)
                  && (Concat(chunks) == g.wire && g.unread == [] ==> Feed([], chunks) == (g.accepted, [])))
  {
    assert Wire([]) == [];
    RunKeeps(Init(), schedule);
    var g := Run(Init(), schedule);
    AtMostOne(g.inflight);
    if g.spoiled == {} && Concat(chunks) <= g.wire {
      assert g.wire <= Wire(g.accepted);
      PrefixOfWire(g.accepted, chunks);
      assert g.unread == [] ==> g.wire + g.unread == g.wire;
    }
  }

  lemma AtMostOne(s: set<nat>)
    requires forall i, j :: i in s && j in s ==> i == j
    ensures |s| <= 1 && (|s| == 1 <==> s != {})
  {
    if s != {} {
      var i :| i in s;
      assert s == {i};
    }
  }

  // ---------------------------------------------------------------- a completion timeout

  /** The condition is exact. As long as what was read are accepted frames, whatever the library reads next still is,
      iff the outstanding send is not one whose sender gave up with bytes unread. */
  lemma NextBytesSoundIff(schedule: seq<Step>)
    requires var g := Run(Init(), schedule); g.wire <= Wire(g.accepted)
    ensures var g := Run(Init(), schedule);
            (forall bytes :: Next(g, Emit(bytes)).wire <= Wire(g.accepted))
            <==> !(g.inflight != {} && g.inflight <= g.lapsed && g.unread != [])
  {
    assert Wire([]) == [];
    RunKeeps(Init(), schedule);
    NextBytes(Run(Init(), schedule));
  }

  lemma NextBytes(g: Gate)
    requires Inv(g) && g.wire <= Wire(g.accepted)
    ensures (forall bytes :: Next(g, Emit(bytes)).wire <= Wire(g.accepted))
            <==> !(g.inflight != {} && g.inflight <= g.lapsed && g.unread != [])
  {
    assert g.wire + g.unread == Wire(g.accepted);
    if g.inflight != {} && g.inflight <= g.lapsed && g.unread != [] {
      WrongByte(g);
    } else {
      forall bytes ensures Next(g, Emit(bytes)).wire <= Wire(g.accepted) {
        if Readable(g, bytes) {
          RightBytes(g, bytes);
        }
      }
    }
  }

  lemma RightBytes(g: Gate, bytes: seq<byte>)
    requires Inv(g) && g.wire + g.unread == Wire(g.accepted) && Readable(g, bytes)
    requires g.inflight <= g.lapsed ==> g.unread == []
    ensures g.wire + bytes <= Wire(g.accepted)
  {
    if g.unread == [] {
      assert bytes == [];
      assert g.wire + bytes == g.wire;
    } else {
      var i :| i in g.inflight && i !in g.lapsed;
      assert g.inflight == {i};
      assert bytes <= g.unread;
    }
  }

  lemma WrongByte(g: Gate)
    requires Inv(g) && g.wire + g.unread == Wire(g.accepted)
    requires g.inflight != {} && g.inflight <= g.lapsed && g.unread != []
    ensures exists bytes :: !(Next(g, Emit(bytes)).wire <= Wire(g.accepted))
  {
    var wrong: byte := if g.unread[0] == 0 then 1 else 0;
    var i :| i in g.inflight;
    assert i !in g.buffers;
    assert Readable(g, [wrong]);
    assert Wire(g.accepted)[|g.wire|] == g.unread[0];
    assert Next(g, Emit([wrong])).wire[|g.wire|] == wrong;
  }

  /** A run that gets there: the sender of a payload gives up before the library has read its buffer. */
  lemma TimeoutSpoils()
    ensures var schedule := [Call(0, [7]), PassGate(0), CloseFlag(0), SendTaken(0), StartWait(0), DoneTimeout(0)];
            var g := Run(Init(), schedule);
            g.inflight == {0} && g.lapsed == {0} && g.buffers == {} && g.unread == Encode([7]) && g.wire == []
  {
    var ops := [Call(0, [7]), PassGate(0), CloseFlag(0), SendTaken(0), StartWait(0), DoneTimeout(0)];
    var g1 := Init().Move(0, AwaitGate([7]));
    var g2 := g1.Move(0, Entered([7])).(holder := {0});
    var g3 := g2.Move(0, Armed([7])).(flag := false);
    var g4 := Take(g3, 0, [7]);
    var g5 := g4.Move(0, AwaitDone(0)).(holder := {});
    RunSix(Init(), g1, g2, g3, g4, g5, ops);
  }

  lemma RunSix(g: Gate, g1: Gate, g2: Gate, g3: Gate, g4: Gate, g5: Gate, s: seq<Step>)
    requires |s| == 6 && Next(g, s[0]) == g1 && Next(g1, s[1]) == g2 && Next(g2, s[2]) == g3 && Next(g3, s[3]) == g4
    requires Next(g4, s[4]) == g5
    ensures Run(g, s) == Next(g5, s[5])
  {
    RunOne(g, s);
    RunOne(g1, s[1..]);
    RunOne(g2, s[2..]);
    RunOne(g3, s[3..]);
    RunOne(g4, s[4..]);
    RunOne(g5, s[5..]);
  }

  lemma RunOne(g: Gate, s: seq<Step>)
    requires s != []
    ensures Run(g, s) == Run(Next(g, s[0]), s[1..])
    ensures |s| == 1 ==> Run(g, s) == Next(g, s[0])
  {
  }

  // ---------------------------------------------------------------- progress

  /** The states of the gate that schedules lead to. */
  ghost predicate Reachable(g: Gate) { exists schedule :: Run(Init(), schedule) == g }

  lemma ReachableInv(g: Gate)
    requires Reachable(g)
    ensures Inv(g)
  {
    assert Wire([]) == [];
    var schedule :| Run(Init(), schedule) == g;
    RunKeeps(Init(), schedule);
  }

  /** The mutex is free and nothing is outstanding. */
  predicate Free(g: Gate) { g.holder == {} && g.flag }

  /** The completion of a send whose bytes have been read: the flag is true, nothing is in flight, and nothing else
      has changed. */
  lemma CompletionOpens(g: Gate, i: nat)
    requires Reachable(g) && i in g.inflight && g.unread == []
    ensures Next(g, Complete(i)) == g.(inflight := {}, flag := true)
  {
    ReachableInv(g);
    assert g.inflight == {i};
  }

  /** The library can read what is left of an outstanding send in one piece, buffer or not. */
  lemma ReadingIsPossible(g: Gate)
    requires g.inflight != {}
    ensures Next(g, Emit(g.unread)) == g.(wire := g.wire + g.unread, unread := [])
  {
    assert g.unread[|g.unread|..] == [];
  }

  /** A sender that waits for a completion leaves as soon as the mutex is free: confirmed if the flag is true, and
      without its buffer if it is not and the time is up. */
  lemma WaitEnds(g: Gate, t: Sender)
    requires g.At(t).AwaitDone? && g.holder == {}
    ensures var g' := Next(g, if g.flag then Finish(t) else DoneTimeout(t));
            && g'.At(t) == Idle && g'.buffers == g.buffers - {g.At(t).id}
            && g'.confirmed == g.confirmed + (if g.flag then {g.At(t).id} else {})
            && g'.flag == g.flag && g'.holder == {} && g'.wire == g.wire && g'.accepted == g.accepted
  {
  }

  /** So does one that waits for the gate. */
  lemma GateAnswers(g: Gate, t: Sender)
    requires g.At(t).AwaitGate? && g.holder == {}
    ensures g.flag ==> Next(g, PassGate(t)) == g.Move(t, Entered(g.At(t).payload)).(holder := {t})
    ensures !g.flag ==> Next(g, GateTimeout(t)) == g.Move(t, Idle)
  {
  }

  /** A hand-over that the library refuses leaves the gate as open as it was, and nothing sent. */
  lemma RefusalReopens(g: Gate, t: Sender)
    requires Reachable(g) && g.At(t).Armed?
    ensures Next(Next(g, SendFailed(t)), ReopenFlag(t)) == g.Move(t, Idle).(flag := true, holder := {})
  {
    ReachableInv(g);
    assert g.pcs[t := Refused][t := Idle] == g.pcs[t := Idle];
  }

  /** What sender `t` achieves alone with an open gate. */
  function Delivered(g: Gate, t: Sender, p: seq<byte>): Gate {
    var id := |g.accepted|;
    g.Move(t, Idle).(accepted := g.accepted + [p], wire := g.wire + Encode(p), unread := [],
                     confirmed := g.confirmed + {id})
  }

  function HandOver(t: Sender, p: seq<byte>): seq<Step> { [Call(t, p), PassGate(t), CloseFlag(t), SendTaken(t)] }

  function Await(t: Sender, p: seq<byte>, id: nat): seq<Step> {
    [StartWait(t), Emit(Encode(p)), Complete(id), Finish(t)]
  }

  /** A free gate, an idle sender and a legal payload: the eight steps of an undisturbed call append its frame to the
      wire and confirm it, and leave the gate free. */
  lemma CallDelivers(g: Gate, t: Sender, p: seq<byte>)
    requires Inv(g) && Free(g) && g.At(t).Idle? && LegalSize(|p|)
    ensures Run(g, HandOver(t, p) + Await(t, p, |g.accepted|)) == Delivered(g, t, p)
  {
    NothingOutstanding(g);
    var g4 := Take(g.(holder := {t}, flag := false), t, p);
    HandsOver(g, t, p, g4);
    Awaited(g4, t, p, |g.accepted|);
    RunAppend(g, HandOver(t, p), Await(t, p, |g.accepted|));
    assert g4.buffers - {|g.accepted|} == g.buffers && g4.inflight - {|g.accepted|} == {};
    assert g4.pcs[t := AwaitDone(|g.accepted|)][t := Idle] == g.pcs[t := Idle];
  }

  lemma NothingOutstanding(g: Gate)
    requires Inv(g) && Free(g)
    ensures g.inflight == {} && g.unread == [] && |g.accepted| !in g.buffers
  {
    assert !Pending(g);
  }

  lemma HandsOver(g: Gate, t: Sender, p: seq<byte>, g4: Gate)
    requires Free(g) && g.At(t).Idle? && LegalSize(|p|) && g4 == Take(g.(holder := {t}, flag := false), t, p)
    ensures Run(g, HandOver(t, p)) == g4
  {
    var g1 := g.Move(t, AwaitGate(p));
    var g2 := g1.Move(t, Entered(p)).(holder := {t});
    var g3 := g2.Move(t, Armed(p)).(flag := false);
    assert Take(g3, t, p).pcs == g4.pcs;
    RunFour(g, g1, g2, g3, HandOver(t, p));
  }

  lemma Awaited(g: Gate, t: Sender, p: seq<byte>, id: nat)
    requires g.At(t) == Sent(id) && g.holder == {t} && g.inflight == {id} && g.unread == Encode(p)
    ensures Run(g, Await(t, p, id))
         == g.Move(t, AwaitDone(id)).Move(t, Idle)
             .(holder := {}, wire := g.wire + Encode(p), unread := [], inflight := {}, flag := true,
               confirmed := g.confirmed + {id}, buffers := g.buffers - {id})
  {
    var g1 := g.Move(t, AwaitDone(id)).(holder := {});
    ReadingIsPossible(g1);
    var g2 := g1.(wire := g.wire + Encode(p), unread := []);
    var g3 := g2.(inflight := {}, flag := true);
    assert g2.inflight - {id} == {};
    RunFour(g, g1, g2, g3, Await(t, p, id));
  }

  lemma RunFour(g: Gate, g1: Gate, g2: Gate, g3: Gate, s: seq<Step>)
    requires |s| == 4 && Next(g, s[0]) == g1 && Next(g1, s[1]) == g2 && Next(g2, s[2]) == g3
    ensures Run(g, s) == Next(g3, s[3])
  {
    RunOne(g, s);
    RunOne(g1, s[1..]);
    RunOne(g2, s[2..]);
    RunOne(g3, s[3..]);
  }

  lemma {:induction false} RunAppend(g: Gate, a: seq<Step>, b: seq<Step>)
    ensures Run(g, a + b) == Run(Run(g, a), b)
    decreases |a|
  {
    if a == [] {
      assert a + b == b;
    } else {
      RunAppend(Next(g, a[0]), a[1..], b);
      assert (a + b)[1..] == a[1..] + b;
    }
  }

  /** The state in which sender `t` has left the mutex, from wherever it holds it. */
  lemma HolderLeaves(g: Gate, t: Sender) returns (schedule: seq<Step>)
    requires Inv(g) && t in g.holder
    ensures Run(g, schedule).holder == {}
    ensures forall u :: u != t ==> Run(g, schedule).At(u) == g.At(u)
  {
    assert g.At(t).Holds() && g.holder == {t};
    RunOneStep(g, StartWait(t));
    RunOneStep(g, ReopenFlag(t));
    if g.At(t).Sent? {
      schedule := [StartWait(t)];
    } else if g.At(t).Refused? {
      schedule := [ReopenFlag(t)];
    } else {
      var g1 := if g.At(t).Entered? then Next(g, CloseFlag(t)) else g;
      RunOneStep(Next(g1, SendFailed(t)), ReopenFlag(t));
      schedule := (if g.At(t).Entered? then [CloseFlag(t)] else []) + [SendFailed(t), ReopenFlag(t)];
      RefusedLeaves(g, g1, t, schedule);
    }
  }

  lemma RunOneStep(g: Gate, a: Step)
    ensures Run(g, [a]) == Next(g, a)
  {
    assert [a][1..] == [];
  }

  lemma RefusedLeaves(g: Gate, g1: Gate, t: Sender, schedule: seq<Step>)
    requires g1 == (if g.At(t).Entered? then Next(g, CloseFlag(t)) else g) && g1.At(t).Armed?
    requires schedule == (if g.At(t).Entered? then [CloseFlag(t)] else []) + [SendFailed(t), ReopenFlag(t)]
    ensures Run(g, schedule) == Next(Next(g1, SendFailed(t)), ReopenFlag(t))
  {
    if g.At(t).Entered? {
      RunOne(g, schedule);
      assert schedule[1..] == [SendFailed(t), ReopenFlag(t)];
    } else {
      assert schedule == [SendFailed(t), ReopenFlag(t)];
    }
    RunOne(g1, [SendFailed(t), ReopenFlag(t)]);
    assert [SendFailed(t), ReopenFlag(t)][1..] == [ReopenFlag(t)];
    RunOneStep(Next(g1, SendFailed(t)), ReopenFlag(t));
  }

  /** With the mutex free, reading and completing the outstanding send opens the gate. */
  lemma OutstandingCompletes(g: Gate) returns (schedule: seq<Step>)
    requires Inv(g) && g.holder == {}
    ensures Free(Run(g, schedule)) && forall u :: Run(g, schedule).At(u) == g.At(u)
  {
    schedule := [];
    if !g.flag {
      assert !Pending(g);
      var i :| i in g.inflight;
      ReadingIsPossible(g);
      schedule := [Emit(g.unread), Complete(i)];
      RunOne(g, schedule);
      assert schedule[1..] == [Complete(i)];
      RunOneStep(Next(g, Emit(g.unread)), Complete(i));
    }
  }

  /** No deadlock: from every state that can be reached the gate can become free without a step of an idle sender. */
  lemma GateReopens(g: Gate) returns (schedule: seq<Step>)
    requires Inv(g)
    ensures Free(Run(g, schedule)) && forall u :: g.At(u).Idle? ==> Run(g, schedule).At(u).Idle?
  {
    var first: seq<Step> := [];
    if g.holder != {} {
      var t :| t in g.holder;
      assert g.At(t).Holds();
      first := HolderLeaves(g, t);
    }
    RunKeeps(g, first);
    var second := OutstandingCompletes(Run(g, first));
    RunAppend(g, first, second);
    schedule := first + second;
  }

  /** And no payload is shut out: from every state that can be reached, a schedule exists in which the legal payload
      of an idle sender is accepted last, its frame ends the wire, its caller is told success, and the gate is free.
      */
  lemma AlwaysDeliverable(g: Gate, t: Sender, p: seq<byte>)
    requires Reachable(g) && g.At(t).Idle? && LegalSize(|p|)
    ensures exists schedule, before :: Run(g, schedule) == Delivered(before, t, p) && Free(before) && Inv(before)
  {
    ReachableInv(g);
    var first := GateReopens(g);
    RunKeeps(g, first);
    var before := Run(g, first);
    CallDelivers(before, t, p);
    RunAppend(g, first, HandOver(t, p) + Await(t, p, |before.accepted|));
  }
}
