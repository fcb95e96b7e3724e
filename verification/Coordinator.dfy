/**
  packages/ext-background-bash/src/coordinator.ts and process-manager.ts: the
  serialized read of a background process and the persistence of what it yields.
  A failed persistence is retried with the same snapshot by the next read.
 */
module Coordinator {
  import opened BoundedTail
  import opened TextDecoding
  import opened Utf8
  import opened Wrappers

  const MAX_OUTPUT_BYTES: nat := 8 * 1024 * 1024

  datatype Kind = Pty | Attached

  datatype Signal = Sigterm | Sigkill

  /** `key` is the identity of the snapshot object. */
  datatype Snap = Snap(
    key: nat,
    output: seq<Scalar>,
    running: bool,
    nextOffset: nat,
    exitCode: Option<int>,
    signal: Option<Signal>)

  /** What process.read answers; `signal` is the reported one, or else the one a stop has recorded. */
  datatype Reply = Reply(
    output: seq<Byte>,
    nextOffset: nat,
    running: bool,
    exitCode: Option<int>,
    signal: Option<Signal>)

  datatype Entry = Entry(
    kind: Kind,
    offset: nat,
    decoder: TextDecoder,
    output: seq<Scalar>,
    snapshot: Option<Snap>,
    pendingSnapshot: Option<Snap>,
    present: bool)

  datatype Patch = Killed(signal: Signal) | Unknown | Completed | Failed(exitCode: Option<int>)

  /**
    A terminal status that was stored, and whether by the persistence of a last snapshot or by
    another part of the manager: a failed promotion, a stop or a refresh of an unattached job.
   */
  datatype Finish = Finish(patch: Patch, persisted: bool)

  /** The manager's side: the log file, the snapshots it has appended, the terminal status that is stored. */
  datatype Store = Store(log: seq<Byte>, appended: set<nat>, finished: Option<Finish>)

  /** Which storage call fails while a snapshot is persisted. */
  datatype Fault = NoFault | JobMissing | WriteFails | MarkFails

  // ----- persistence -----

  function PatchOf(s: Snap): Patch {
    if s.signal.Some? then Killed(s.signal.value)
    else if s.exitCode.None? then Unknown
    else if s.exitCode.value == 0 then Completed
    else Failed(s.exitCode)
  }

  datatype Persisted = Persisted(store: Store, ok: bool)

  function WriteLog(m: Store, kind: Kind, s: Snap, fault: Fault): Persisted {
    if fault == JobMissing then Persisted(m, false)
    else if kind == Attached && s.key in m.appended then Persisted(m, true)
    else if fault == WriteFails then Persisted(m, false)
    else if kind == Attached then
      Persisted(m.(log := m.log + EncodeAll(s.output), appended := m.appended + {s.key}), true)
    else Persisted(m.(log := EncodeAll(s.output)), true)
  }

  /** markStatus leaves a terminal status as it is. */
  function Mark(m: Store, patch: Patch, persisted: bool): Store {
    m.(finished := Some(m.finished.GetOr(Finish(patch, persisted))))
  }

  function Persist(m: Store, kind: Kind, s: Snap, fault: Fault): Persisted {
    var written := WriteLog(m, kind, s, fault);
    if !written.ok || s.running then written
    else if fault == MarkFails then Persisted(written.store, false)
    else Persisted(Mark(written.store, PatchOf(s), true), true)
  }

  // ----- one serialized read -----

  /** What the decoder makes of a reply; the last one is flushed. */
  function DecodeReply(t: TextDecoder, r: Reply): Piece {
    var first := DecodePiece(t, r.output, r.running);
    if r.running then first
    else
      var second := DecodePiece(first.decoder, [], false);
      Piece(first.text + second.text, second.decoder)
  }

  function TakeReply(e: Entry, r: Reply): Entry {
    var piece := DecodeReply(e.decoder, r);
    e.(offset := r.nextOffset, decoder := piece.decoder,
       output := if e.kind == Pty then Bounded(e.output + piece.text, MAX_OUTPUT_BYTES) else e.output)
  }

  function SnapOf(e: Entry, r: Reply, key: nat): Snap {
    Snap(key, if e.kind == Attached then DecodeReply(e.decoder, r).text else TakeReply(e, r).output,
         r.running, r.nextOffset, r.exitCode, r.signal)
  }

  predicate Changed(previous: Option<Snap>, s: Snap) {
    || previous.None?
    || previous.value.nextOffset != s.nextOffset
    || previous.value.running != s.running
    || previous.value.exitCode != s.exitCode
    || previous.value.signal != s.signal
  }

  predicate Finished(e: Entry) {
    e.kind == Attached && e.snapshot.Some? && !e.snapshot.value.running
  }

  /**
    Every byte read, all text decoded from them, whether the process was running when last read, and
    the replies that said it was not.
   */
  datatype Past = Past(bytes: seq<Byte>, decoded: seq<Scalar>, running: bool, ended: seq<Reply>)

  /** The entry, the store, the next snapshot identity, and what has been read so far. */
  datatype World = World(entry: Entry, store: Store, nextKey: nat, past: Past)

  /**
    One read: what the process answers, or that it fails to, which storage call fails, and whether
    an ended process can be disposed of.
   */
  datatype Turn = Turn(reply: Option<Reply>, fault: Fault, disposes: bool)

  function Remember(past: Past, t: TextDecoder, r: Reply): Past {
    Past(past.bytes + r.output, past.decoded + DecodeReply(t, r).text, r.running,
         past.ended + if r.running then [] else [r])
  }

  /** A fresh snapshot is taken from the process. */
  function Taken(w: World, r: Reply): World {
    World(TakeReply(w.entry, r), w.store, w.nextKey + 1, Remember(w.past, w.entry.decoder, r))
  }

  /** An attached process that has ended is disposed of and forgotten, whether or not that succeeds. */
  function Settle(w: World, s: Snap): World {
    if w.entry.kind == Attached && !s.running then w.(entry := w.entry.(present := false)) else w
  }

  function Deliver(w: World, s: Snap, fault: Fault): World {
    var e := if w.entry.kind == Attached then w.entry.(pendingSnapshot := Some(s)) else w.entry;
    var p := Persist(w.store, e.kind, s, fault);
    if !p.ok then w.(entry := e, store := p.store)
    else
      var kept := if e.kind == Attached then s.(output := []) else s;
      Settle(w.(entry := e.(snapshot := Some(kept), pendingSnapshot := None), store := p.store), s)
  }

  function Conclude(w: World, s: Snap, fault: Fault): World {
    if Changed(w.entry.snapshot, s) then Deliver(w, s, fault) else Settle(w, s)
  }

  function ReadUnlocked(w: World, t: Turn): World {
    if Finished(w.entry) then w
    else if w.entry.pendingSnapshot.Some? then Conclude(w, w.entry.pendingSnapshot.value, t.fault)
    else if t.reply.None? then w
    else Conclude(Taken(w, t.reply.value), SnapOf(w.entry, t.reply.value, w.nextKey), t.fault)
  }

  /** What the read returns; nothing when it fails. */
  function Answer(w: World, t: Turn): Option<Snap> {
    if Finished(w.entry) then w.entry.snapshot
    else if w.entry.pendingSnapshot.None? && t.reply.None? then None
    else
      var s := w.entry.pendingSnapshot.GetOr(SnapOf(w.entry, t.reply.GetOr(Reply([], 0, true, None, None)), w.nextKey));
      if Changed(w.entry.snapshot, s) && !Persist(w.store, w.entry.kind, s, t.fault).ok then None
      else if w.entry.kind == Attached && !s.running && w.entry.present && !t.disposes then None
      else Some(s)
  }

  // ----- what else may happen to a job -----

  datatype Event = Reads(turn: Turn) | MarkedElsewhere(patch: Patch) | Abandoned

  /**
    Another part of the manager stores a status; adoption gives up on its entry, of which only
    operations that are already queued still know.
   */
  function Evolve(w: World, e: Event): World {
    match e
    case Reads(t) => ReadUnlocked(w, t)
    case MarkedElsewhere(patch) => w.(store := Mark(w.store, patch, false))
    case Abandoned => w.(entry := w.entry.(present := false))
  }

  // ----- the same, as an object whose fields a read updates -----

  class BackgroundProcess {
    const kind: Kind
    var offset: nat
    var decoder: TextDecoder
    var output: seq<Scalar>
    var snapshot: Option<Snap>
    var pendingSnapshot: Option<Snap>
    var present: bool
    var store: Store
    var nextKey: nat
    ghost var past: Past

    ghost function View(): World
      reads this
    {
      World(Entry(kind, offset, decoder, output, snapshot, pendingSnapshot, present), store, nextKey, past)
    }

    constructor (kind: Kind)
      ensures View() == Initial(kind)
    {
      this.kind := kind;
      offset, decoder, output := 0, FRESH, [];
      snapshot, pendingSnapshot, present := None, None, true;
      store, nextKey := Store([], {}, None), 0;
      past := Past([], [], true, []);
    }

    method PersistInteractiveSnapshot(s: Snap, fault: Fault) returns (ok: bool)
      modifies `store
      ensures store == Persist(old(store), kind, s, fault).store
      ensures ok == Persist(old(store), kind, s, fault).ok
    {
      if fault == JobMissing { return false; }
      if kind == Attached {
        if s.key !in store.appended {
          if fault == WriteFails { return false; }
          store := store.(log := store.log + EncodeAll(s.output));
          store := store.(appended := store.appended + {s.key});
        }
      } else {
        if fault == WriteFails { return false; }
        store := store.(log := EncodeAll(s.output));
      }
      if s.running { return true; }
      if fault == MarkFails { return false; }
      MarkStatus(PatchOf(s), true);
      return true;
    }

    method MarkStatus(patch: Patch, persisted: bool)
      modifies `store
      ensures store == Mark(old(store), patch, persisted)
    {
      if store.finished.None? { store := store.(finished := Some(Finish(patch, persisted))); }
    }

    method Take(r: Reply) returns (s: Snap)
      modifies `offset, `decoder, `output, `nextKey, `past
      ensures View() == Taken(old(View()), r)
      ensures s == SnapOf(old(View()).entry, r, old(nextKey))
    {
      past := Remember(past, decoder, r);
      offset := r.nextOffset;
      var piece := DecodePiece(decoder, r.output, r.running);
      var text := piece.text;
      decoder := piece.decoder;
      if !r.running {
        var last := DecodePiece(decoder, [], false);
        text, decoder := text + last.text, last.decoder;
      }
      if kind == Pty { output := BoundText(output + text, MAX_OUTPUT_BYTES); }
      s := Snap(nextKey, if kind == Attached then text else output, r.running, r.nextOffset, r.exitCode, r.signal);
      nextKey := nextKey + 1;
    }

    method Read(t: Turn) returns (r: Option<Snap>)
      modifies this
      ensures View() == ReadUnlocked(old(View()), t)
      ensures r == Answer(old(View()), t)
    {
      if kind == Attached && snapshot.Some? && !snapshot.value.running { return snapshot; }
      var result: Snap;
      if pendingSnapshot.Some? {
        result := pendingSnapshot.value;
      } else {
        if t.reply.None? { return None; }
        result := Take(t.reply.value);
      }
      if Changed(snapshot, result) {
        if kind == Attached { pendingSnapshot := Some(result); }
        var ok := PersistInteractiveSnapshot(result, t.fault);
        if !ok { return None; }
        snapshot := Some(if kind == Attached then result.(output := []) else result);
        pendingSnapshot := None;
      }
      if kind == Attached && !result.running && present {
        present := false;
        if !t.disposes { return None; }
      }
      return Some(result);
    }

    /** The first read of an adopted process; when it fails, promote gives up and marks the job, if storage lets it. */
    method Adopt(t: Turn, marks: bool) returns (r: Option<Snap>)
      modifies this
      ensures r == Answer(old(View()), t)
      ensures var read := ReadUnlocked(old(View()), t);
              var dropped := Evolve(read, Abandoned);
              View() == if r.Some? then read else if marks then Evolve(dropped, MarkedElsewhere(Failed(None))) else dropped
    {
      r := Read(t);
      if r.None? {
        present := false;
        if marks { MarkStatus(Failed(None), false); }
      }
    }
  }

  function Initial(kind: Kind): World {
    World(Entry(kind, 0, FRESH, [], None, None, true), Store([], {}, None), 0, Past([], [], true, []))
  }
}
