/**
  What every course of reads, failures and retries keeps: the log of an attached
  process is its decoded output, each piece appended once; the log of a terminal is
  the bounded end of its output.
 */
module CoordinatorSafety {
  import opened BoundedTail
  import opened Coordinator
  import opened TextDecoding
  import opened Utf8
  import opened Wrappers

  /** A reply hands out a piece of the process's stream that starts no earlier than asked. */
  ghost predicate Follows(stream: seq<Byte>, offset: nat, r: Reply) {
    && offset + |r.output| <= r.nextOffset <= |stream|
    && r.output == stream[r.nextOffset - |r.output|..r.nextOffset]
  }

  /** Replies continue the stream, and a process that has ended stays so. */
  ghost predicate Genuine(stream: seq<Byte>, w: World, t: Turn) {
    t.reply.Some? ==> Follows(stream, w.entry.offset, t.reply.value) && (t.reply.value.running ==> w.past.running)
  }

  function Run(w: World, events: seq<Event>): World
    decreases events
  {
    if events == [] then w else Run(Evolve(w, events[0]), events[1..])
  }

  ghost predicate AllGenuine(stream: seq<Byte>, w: World, events: seq<Event>)
    decreases events
  {
    events != [] ==>
      && (events[0].Reads? ==> Genuine(stream, w, events[0].turn))
      && AllGenuine(stream, Evolve(w, events[0]), events[1..])
  }

  // ----- reading in order -----

  /** Unless a reply left a gap, what was read is the beginning of the stream. */
  ghost predicate InOrder(stream: seq<Byte>, w: World) {
    && |w.past.bytes| <= w.entry.offset <= |stream|
    && (|w.past.bytes| == w.entry.offset ==> w.past.bytes == stream[..w.entry.offset])
  }

  /** A read either takes a reply in or leaves offset and history alone. */
  lemma ReadMoves(w: World, t: Turn)
    ensures var next := ReadUnlocked(w, t);
            || (next.past == w.past && next.entry.offset == w.entry.offset)
            || (t.reply.Some? && next.past == Remember(w.past, w.entry.decoder, t.reply.value)
                && next.entry.offset == t.reply.value.nextOffset)
  {
  }

  lemma InOrderStep(stream: seq<Byte>, w: World, t: Turn)
    requires InOrder(stream, w) && Genuine(stream, w, t)
    ensures InOrder(stream, ReadUnlocked(w, t))
  {
    ReadMoves(w, t);
    if t.reply.Some? { PrefixGrows(stream, w.entry.offset, t.reply.value); }
  }

  lemma PrefixGrows(stream: seq<Byte>, offset: nat, r: Reply)
    requires Follows(stream, offset, r)
    ensures offset + |r.output| == r.nextOffset ==> stream[..r.nextOffset] == stream[..offset] + r.output
  {
  }

  // ----- attached processes -----

  predicate Ended(e: Entry) {
    || (e.pendingSnapshot.Some? && !e.pendingSnapshot.value.running)
    || (e.snapshot.Some? && !e.snapshot.value.running)
  }

  /** The text of the pending snapshot, as long as it has not been appended. */
  function Missing(m: Store, pending: Option<Snap>): seq<Byte> {
    if pending.Some? && pending.value.key !in m.appended then EncodeAll(pending.value.output) else []
  }

  ghost predicate DecoderOk(e: Entry, past: Past) {
    if Ended(e) then past.decoded == Decode(past.bytes)
    else past.decoded == Streamed(past.bytes) && e.decoder == After(past.bytes)
  }

  ghost predicate PendingOk(e: Entry, nextKey: nat) {
    && (e.pendingSnapshot.Some? ==>
          && e.pendingSnapshot.value.key < nextKey
          && e.pendingSnapshot.value.nextOffset == e.offset
          && Changed(e.snapshot, e.pendingSnapshot.value))
    && (e.pendingSnapshot.None? && e.snapshot.Some? ==> e.snapshot.value.nextOffset == e.offset)
    && (e.snapshot.Some? && !e.snapshot.value.running ==> e.pendingSnapshot.None?)
  }

  ghost predicate LogOk(m: Store, pending: Option<Snap>, decoded: seq<Scalar>, nextKey: nat) {
    && (forall k | k in m.appended :: k < nextKey)
    && m.log + Missing(m, pending) == EncodeAll(decoded)
  }

  predicate PersistedStatus(m: Store) {
    m.finished.Some? && m.finished.value.persisted
  }

  /** Persistence stores a terminal status only once the whole log is. */
  ghost predicate StatusOk(m: Store, e: Entry) {
    PersistedStatus(m) ==> Ended(e) && Missing(m, e.pendingSnapshot) == []
  }

  ghost predicate AttachedOk(w: World) {
    && w.entry.kind == Attached
    && DecoderOk(w.entry, w.past) && PendingOk(w.entry, w.nextKey)
    && LogOk(w.store, w.entry.pendingSnapshot, w.past.decoded, w.nextKey)
    && StatusOk(w.store, w.entry)
  }

  lemma InitialOk()
    ensures AttachedOk(Initial(Attached))
  {
    assert Feed(IDLE, []).text == [];
  }

  /** Decoding a reply extends the decoded stream by exactly its text. */
  lemma ReplyDecodes(bytes: seq<Byte>, r: Reply)
    ensures var piece := DecodeReply(After(bytes), r);
            if r.running then Streamed(bytes) + piece.text == Streamed(bytes + r.output) && piece.decoder == After(bytes + r.output)
            else Streamed(bytes) + piece.text == Decode(bytes + r.output)
  {
    PieceExtends(bytes, r.output);
    var first := DecodePiece(After(bytes), r.output, r.running);
    EmptyPiece(first.decoder, r.running);
    assert first.text + [] == first.text;
  }

  lemma EmptyPiece(t: TextDecoder, running: bool)
    requires !running ==> t == FRESH
    ensures DecodePiece(t, [], running).text == []
    ensures !running ==> DecodePiece(t, [], running).decoder == FRESH
  {
    assert Feed(t.state, []) == Decoded([], t.state);
  }

  /** Persisting appends what was missing at most once, and on success has appended it. */
  lemma PersistAppends(m: Store, s: Snap, fault: Fault, decoded: seq<Scalar>, nextKey: nat)
    requires LogOk(m, Some(s), decoded, nextKey) && s.key < nextKey
    requires PersistedStatus(m) ==> !s.running && Missing(m, Some(s)) == []
    ensures var p := Persist(m, Attached, s, fault);
            && LogOk(p.store, Some(s), decoded, nextKey)
            && (p.ok ==> Missing(p.store, Some(s)) == [] && p.store.log == EncodeAll(decoded))
            && (PersistedStatus(p.store) ==> !s.running && Missing(p.store, Some(s)) == [])
  {
    var written := WriteLog(m, Attached, s, fault).store;
    assert written.log + Missing(written, Some(s)) == EncodeAll(decoded);
  }

  lemma DeliverKeeps(w: World, s: Snap, fault: Fault)
    requires w.entry.kind == Attached
    requires AttachedOk(w.(entry := w.entry.(pendingSnapshot := Some(s))))
    ensures AttachedOk(Deliver(w, s, fault))
  {
    PersistAppends(w.store, s, fault, w.past.decoded, w.nextKey);
    var p := Persist(w.store, Attached, s, fault);
    if p.ok {
      assert p.store.log + [] == EncodeAll(w.past.decoded);
    }
  }

  /** A fresh snapshot that brings news becomes pending. */
  lemma TakenPending(w: World, r: Reply)
    requires AttachedOk(w) && w.entry.pendingSnapshot.None? && !Ended(w.entry)
    requires r.nextOffset >= w.entry.offset + |r.output|
    requires Changed(w.entry.snapshot, SnapOf(w.entry, r, w.nextKey))
    ensures var taken := Taken(w, r); var s := SnapOf(w.entry, r, w.nextKey);
            AttachedOk(taken.(entry := taken.entry.(pendingSnapshot := Some(s))))
  {
    ReplyDecodes(w.past.bytes, r);
    var text := DecodeReply(w.entry.decoder, r).text;
    EncodeConcat(w.past.decoded, text);
    assert w.store.log + [] == w.store.log;
  }

  /** One that brings none carries no text. */
  lemma TakenUnchanged(w: World, r: Reply)
    requires AttachedOk(w) && w.entry.pendingSnapshot.None? && !Ended(w.entry)
    requires r.nextOffset >= w.entry.offset + |r.output|
    requires !Changed(w.entry.snapshot, SnapOf(w.entry, r, w.nextKey))
    ensures AttachedOk(Taken(w, r)) && r.running
  {
    assert r.output == [];
    ReplyDecodes(w.past.bytes, r);
    EmptyPiece(w.entry.decoder, true);
    assert w.past.bytes + [] == w.past.bytes && w.past.decoded + [] == w.past.decoded;
  }

  lemma AttachedStep(stream: seq<Byte>, w: World, t: Turn)
    requires AttachedOk(w) && Genuine(stream, w, t)
    ensures AttachedOk(ReadUnlocked(w, t))
  {
    if Finished(w.entry) {
    } else if w.entry.pendingSnapshot.Some? {
      assert w.entry.(pendingSnapshot := w.entry.pendingSnapshot) == w.entry;
      DeliverKeeps(w, w.entry.pendingSnapshot.value, t.fault);
    } else if t.reply.Some? {
      var r := t.reply.value;
      var s := SnapOf(w.entry, r, w.nextKey);
      if Changed(w.entry.snapshot, s) {
        TakenPending(w, r);
        DeliverKeeps(Taken(w, r), s, t.fault);
      } else {
        TakenUnchanged(w, r);
      }
    }
  }

  lemma EventKeeps(stream: seq<Byte>, w: World, e: Event)
    requires AttachedOk(w) && InOrder(stream, w) && (e.Reads? ==> Genuine(stream, w, e.turn))
    ensures AttachedOk(Evolve(w, e)) && InOrder(stream, Evolve(w, e))
  {
    if e.Reads? {
      AttachedStep(stream, w, e.turn);
      InOrderStep(stream, w, e.turn);
    }
  }

  lemma {:induction false} AttachedRun(stream: seq<Byte>, w: World, events: seq<Event>)
    requires AttachedOk(w) && InOrder(stream, w) && AllGenuine(stream, w, events)
    ensures AttachedOk(Run(w, events)) && InOrder(stream, Run(w, events))
    decreases events
  {
    if events != [] {
      EventKeeps(stream, w, events[0]);
      AttachedRun(stream, Evolve(w, events[0]), events[1..]);
    }
  }

  /**
    In every run the log holds the decoded text of what was read, in order and once,
    but for the snapshot still to be appended; without gaps what was read is the stream.
   */
  lemma LogIsDecodedStream(stream: seq<Byte>, events: seq<Event>)
    requires AllGenuine(stream, Initial(Attached), events)
    ensures var w := Run(Initial(Attached), events);
            && w.store.log + Missing(w.store, w.entry.pendingSnapshot) == EncodeAll(w.past.decoded)
            && (w.entry.pendingSnapshot.None? ==> w.store.log == EncodeAll(w.past.decoded))
            && w.past.decoded == (if Ended(w.entry) then Decode(w.past.bytes) else Streamed(w.past.bytes))
            && InOrder(stream, w)
  {
    InitialOk();
    AttachedRun(stream, Initial(Attached), events);
    var w := Run(Initial(Attached), events);
    assert w.store.log + [] == w.store.log;
  }

  /** A snapshot with text is pending that no append has succeeded for. */
  predicate Unappended(m: Store, pending: Option<Snap>) {
    pending.Some? && pending.value.key !in m.appended && pending.value.output != []
  }

  lemma MissingIsText(m: Store, pending: Option<Snap>)
    ensures Missing(m, pending) != [] <==> Unappended(m, pending)
  {
    if pending.Some? && pending.value.output != [] {
      var text := pending.value.output;
      assert EncodeAll(text) == Encode(text[0]) + EncodeAll(text[1..]);
    }
  }

  /**
    What a stored terminal status says of the log. One that persistence has stored means that the
    process has ended and its whole output is there. Any other says nothing: with it as without a
    status, the log holds all that was read exactly when no snapshot with text waits to be appended.
   */
  lemma StatusMeansComplete(stream: seq<Byte>, events: seq<Event>)
    requires AllGenuine(stream, Initial(Attached), events)
    ensures var w := Run(Initial(Attached), events);
            && (PersistedStatus(w.store) ==> Ended(w.entry) && w.store.log == EncodeAll(Decode(w.past.bytes)))
            && (w.store.log == EncodeAll(w.past.decoded) <==>
                  !Unappended(w.store, w.entry.pendingSnapshot))
  {
    InitialOk();
    AttachedRun(stream, Initial(Attached), events);
    var w := Run(Initial(Attached), events);
    assert w.store.log + [] == w.store.log;
    MissingIsText(w.store, w.entry.pendingSnapshot);
    assert |w.store.log + Missing(w.store, w.entry.pendingSnapshot)|
           == |w.store.log| + |Missing(w.store, w.entry.pendingSnapshot)|;
  }

  /**
    A promotion whose first append fails: the job is stored as failed while the output of the
    process, which goes on running, is not in the log.
   */
  lemma FailedPromotionLosesOutput() returns (events: seq<Event>)
    ensures AllGenuine([97], Initial(Attached), events)
    ensures var w := Run(Initial(Attached), events);
            && w.store.finished == Some(Finish(Failed(None), false)) && !w.entry.present
            && w.past.running && w.past.decoded == [97] && w.store.log == []
  {
    var t := FailingFirstRead();
    events := [Reads(t), Abandoned, MarkedElsewhere(Failed(None))];
    assert events[1..] == [Abandoned, MarkedElsewhere(Failed(None))];
    ThenMarked(ReadUnlocked(Initial(Attached), t));
  }

  lemma FailingFirstRead() returns (t: Turn)
    ensures Genuine([97], Initial(Attached), t)
    ensures var w := ReadUnlocked(Initial(Attached), t);
            w.store == Initial(Attached).store && w.past == Past([97], [97], true, [])
  {
    var r := Reply([97], 1, true, None, None);
    t := Turn(Some(r), WriteFails, true);
    OneLetter();
    assert DecodeReply(FRESH, r).text == [97];
    assert Changed(None, SnapOf(Initial(Attached).entry, r, 0));
  }

  lemma OneLetter()
    ensures DecodePiece(FRESH, [97], true).text == [97]
  {
  }

  lemma ThenMarked(w: World)
    ensures var events := [Abandoned, MarkedElsewhere(Failed(None))];
            && Run(w, events) == Evolve(Evolve(w, events[0]), events[1])
            && forall stream :: AllGenuine(stream, w, events)
  {
    var events := [Abandoned, MarkedElsewhere(Failed(None))];
    assert events[1..] == [events[1]];
  }

  /** After any failures, one read whose storage calls work leaves nothing unwritten. */
  lemma RetryCompletes(stream: seq<Byte>, w: World, t: Turn)
    requires AttachedOk(w) && Genuine(stream, w, t) && t.fault == NoFault
    requires w.entry.pendingSnapshot.Some? || t.reply.Some?
    ensures var next := ReadUnlocked(w, t);
            && next.entry.pendingSnapshot.None? && next.store.log == EncodeAll(next.past.decoded)
            && (t.disposes ==> Answer(w, t).Some?)
  {
    AttachedStep(stream, w, t);
    NothingPending(w, t);
    var next := ReadUnlocked(w, t);
    assert next.store.log + [] == next.store.log;
  }

  lemma PersistWorks(m: Store, kind: Kind, s: Snap)
    ensures Persist(m, kind, s, NoFault).ok
  {
  }

  /** Without a fault nothing stays pending, and the caller gets its answer. */
  lemma NothingPending(w: World, t: Turn)
    requires PendingOk(w.entry, w.nextKey) && w.entry.kind == Attached && t.fault == NoFault
    requires w.entry.pendingSnapshot.Some? || t.reply.Some?
    ensures ReadUnlocked(w, t).entry.pendingSnapshot.None? && (t.disposes ==> Answer(w, t).Some?)
  {
    if w.entry.pendingSnapshot.Some? {
      PersistWorks(w.store, Attached, w.entry.pendingSnapshot.value);
    } else {
      PersistWorks(w.store, Attached, SnapOf(w.entry, t.reply.value, w.nextKey));
    }
  }

  // ----- terminals -----

  /** The stored log is current once the latest state of the process has been delivered. */
  ghost predicate PtyOk(w: World) {
    var e := w.entry;
    && e.kind == Pty && e.pendingSnapshot.None?
    && Size(e.output) <= MAX_OUTPUT_BYTES
    && (MarksApart(w.past.decoded) ==> e.output == Bounded(w.past.decoded, MAX_OUTPUT_BYTES))
    && (!w.past.running ==> e.decoder == FRESH)
    && (e.snapshot.Some? ==>
          && e.snapshot.value.nextOffset <= e.offset
          && (!e.snapshot.value.running ==> !w.past.running)
          && (Current(e, w.past) ==> w.store.log == EncodeAll(e.output)))
  }

  predicate Current(e: Entry, past: Past) {
    e.snapshot.Some? && e.snapshot.value.nextOffset == e.offset && e.snapshot.value.running == past.running
  }

  lemma PtyTaken(stream: seq<Byte>, w: World, r: Reply)
    requires PtyOk(w) && Follows(stream, w.entry.offset, r) && (r.running ==> w.past.running)
    ensures var e := Taken(w, r).entry; var past := Taken(w, r).past;
            && Size(e.output) <= MAX_OUTPUT_BYTES
            && (MarksApart(past.decoded) ==> e.output == Bounded(past.decoded, MAX_OUTPUT_BYTES))
            && (!past.running ==> e.decoder == FRESH)
            && (Current(e, past) ==> Current(w.entry, w.past) && e.output == w.entry.output)
  {
    var piece := DecodeReply(w.entry.decoder, r);
    BoundedFits(w.entry.output + piece.text, MAX_OUTPUT_BYTES);
    if MarksApart(w.past.decoded + piece.text) {
      BoundedOfStream(w.past.decoded, piece.text, MAX_OUTPUT_BYTES);
    }
    EmptyPiece(FRESH, false);
    if r.output == [] {
      EmptyPiece(w.entry.decoder, r.running || w.past.running);
      assert w.entry.output + [] == w.entry.output;
    }
  }

  lemma PtyStep(stream: seq<Byte>, w: World, t: Turn)
    requires PtyOk(w) && Genuine(stream, w, t)
    ensures PtyOk(ReadUnlocked(w, t))
  {
    if t.reply.Some? {
      var r := t.reply.value;
      var s := SnapOf(w.entry, r, w.nextKey);
      var taken := Taken(w, r);
      PtyTaken(stream, w, r);
      assert taken.entry.snapshot == w.entry.snapshot && taken.store == w.store;
      if Changed(w.entry.snapshot, s) {
        PtyDelivered(taken, s, t.fault);
      } else {
        assert Current(taken.entry, taken.past);
      }
    }
  }

  /** Delivering writes the whole kept text, or leaves the log as it was. */
  lemma PtyDelivered(w: World, s: Snap, fault: Fault)
    requires PtyOk(w) && s.output == w.entry.output && s.nextOffset == w.entry.offset && s.running == w.past.running
    ensures PtyOk(Deliver(w, s, fault))
  {
    var p := Persist(w.store, Pty, s, fault);
    assert p.store.log == w.store.log || p.store.log == EncodeAll(s.output);
    assert p.ok ==> p.store.log == EncodeAll(s.output);
  }

  lemma {:induction false} PtyRun(stream: seq<Byte>, w: World, events: seq<Event>)
    requires PtyOk(w) && AllGenuine(stream, w, events)
    ensures PtyOk(Run(w, events))
    decreases events
  {
    if events != [] {
      if events[0].Reads? { PtyStep(stream, w, events[0].turn); }
      PtyRun(stream, Evolve(w, events[0]), events[1..]);
    }
  }

  /**
    In every run, once the latest state has been delivered the log of a terminal is the
    bounded end of everything decoded, provided no two byte order marks adjoin.
   */
  lemma TerminalLogIsBoundedEnd(stream: seq<Byte>, events: seq<Event>)
    requires AllGenuine(stream, Initial(Pty), events)
    ensures var w := Run(Initial(Pty), events);
            Current(w.entry, w.past) && MarksApart(w.past.decoded)
            ==> w.store.log == EncodeAll(Bounded(w.past.decoded, 8 * 1024 * 1024))
  {
    PtyRun(stream, Initial(Pty), events);
  }
}
