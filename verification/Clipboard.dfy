// Clipboard synchronisation of two peers: each polls its clipboard, debounces what it sends, and
// keeps two snapshots so that what it received is not sent back. The theorems are about all runs
// of two peers over first-in-first-out channels.

module Clipboard {
  import opened Basics

  const MAX_CLIPBOARD_TEXT_LENGTH: nat := 1024 * 1024
  const MAX_CLIPBOARD_IMAGE_LENGTH: nat := 12 * 1024 * 1024

  // Clipboard contents after normalisation: an empty field stands for an absent one. The snapshot
  // of such contents, the JSON text of the three fields, determines them and is identified with them.
  datatype Data = Data(html: string, image: string, text: string)

  const NOTHING := Data("", "", "")

  predicate HasData(d: Data) { d.text != "" || d.html != "" || d.image != "" }

  // readClipboardDataForSync: an over-long image is not read.
  function ReadForSync(clip: Data): Data {
    if |clip.image| <= MAX_CLIPBOARD_IMAGE_LENGTH then clip else clip.(image := "")
  }

  // sanitizeClipboardSyncMessage: over-long fields and images that are no data URL are dropped;
  // None when nothing remains.
  function Sanitize(d: Data, imageIsDataUrl: bool): Data {
    Data(if |d.html| <= MAX_CLIPBOARD_TEXT_LENGTH then d.html else "",
         if |d.image| <= MAX_CLIPBOARD_IMAGE_LENGTH && imageIsDataUrl then d.image else "",
         if |d.text| <= MAX_CLIPBOARD_TEXT_LENGTH then d.text else "")
  }

  // One peer. `pending` is the message the armed debounce timer will send; `running` says whether
  // synchronisation has been started and not stopped.
  datatype Peer = Peer(
    clip: Data, snapshot: Data, remote: Option<Data>, pending: Option<Data>, running: bool)

  function Start(p: Peer): Peer { p.(snapshot := ReadForSync(p.clip), pending := None, running := true) }

  function Stop(p: Peer): Peer { p.(pending := None, running := false) }

  function Poll(p: Peer): Peer {
    var data := ReadForSync(p.clip);
    if !p.running then p
    else if data == p.snapshot || Some(data) == p.remote then p.(snapshot := data)
    else if !HasData(data) then p.(snapshot := data)
    else p.(snapshot := data, pending := Some(data))
  }

  // The debounce timer fires: the pending message is sent and forgotten.
  function Flush(p: Peer): Peer { p.(pending := None) }

  // applyRemoteClipboard, with the clipboard written only when it differs.
  function ApplyRemote(p: Peer, data: Data): Peer {
    if !HasData(data) then p
    else p.(remote := Some(data),
            clip := if ReadForSync(p.clip) != data then data else p.clip,
            snapshot := data)
  }

  function Copy(p: Peer, data: Data): Peer { p.(clip := data) }

  // ----- two peers

  datatype Side = Host | Viewer

  function Other(side: Side): Side { if side.Host? then Viewer else Host }

  // One value for each side.
  datatype Both<T> = Both(host: T, viewer: T) {
    function At(side: Side): T { if side.Host? then host else viewer }

    function Put(side: Side, value: T): Both<T> {
      if side.Host? then Both(value, viewer) else Both(host, value)
    }
  }

  // `channel.At(side)` holds the messages on their way to that side; `sent` and `copied` are the
  // histories of what a side has sent and of what its user has copied.
  datatype World = World(
    peer: Both<Peer>, channel: Both<seq<Data>>, sent: Both<seq<Data>>, copied: Both<seq<Data>>)

  datatype Event =
    | UserCopies(side: Side, data: Data)
    | Polls(side: Side)
    | TimerFires(side: Side)
    | Receives(side: Side, imageIsDataUrl: bool)
    | ChannelOpens(side: Side)
    | ChannelCloses(side: Side)

  function Apply(w: World, e: Event): World {
    var p := w.peer.At(e.side);
    match e
    case UserCopies(side, data) =>
      w.(peer := w.peer.Put(side, Copy(p, data)),
         copied := w.copied.Put(side, w.copied.At(side) + [ReadForSync(data)]))
    case Polls(side) => w.(peer := w.peer.Put(side, Poll(p)))
    case TimerFires(side) =>
      if p.pending.None? then w
      else
        w.(peer := w.peer.Put(side, Flush(p)),
           channel := w.channel.Put(Other(side), w.channel.At(Other(side)) + [p.pending.value]),
           sent := w.sent.Put(side, w.sent.At(side) + [p.pending.value]))
    case Receives(side, imageIsDataUrl) =>
      if w.channel.At(side) == [] then w
      else w.(peer := w.peer.Put(side, ApplyRemote(p, Sanitize(w.channel.At(side)[0], imageIsDataUrl))),
              channel := w.channel.Put(side, w.channel.At(side)[1..]))
    case ChannelOpens(side) => w.(peer := w.peer.Put(side, Start(p)))
    case ChannelCloses(side) => w.(peer := w.peer.Put(side, Stop(p)), channel := w.channel.Put(side, []))
  }

  function Run(w: World, events: seq<Event>): World {
    if events == [] then w else Apply(Run(w, events[..|events| - 1]), events[|events| - 1])
  }

  function Initial(host: Data, viewer: Data): World {
    World(Both(Idle(host), Idle(viewer)), Both([], []), Both([], []), Both([], []))
  }

  function Idle(clip: Data): Peer { Peer(clip, NOTHING, None, None, false) }

  // ----- no echo

  // A poll would schedule the present contents.
  predicate Dirty(p: Peer) {
    var data := ReadForSync(p.clip);
    p.running && data != p.snapshot && Some(data) != p.remote && HasData(data)
  }

  function PendingPart(p: Peer): seq<Data> { if p.pending.Some? then [p.pending.value] else [] }

  function DirtyPart(p: Peer): seq<Data> { if Dirty(p) then [ReadForSync(p.clip)] else [] }

  // What a side has sent, or is about to.
  function Outgoing(w: World, side: Side): seq<Data> {
    w.sent.At(side) + (PendingPart(w.peer.At(side)) + DirtyPart(w.peer.At(side)))
  }

  // `a` is `b` with some entries left out.
  predicate Subsequence(a: seq<Data>, b: seq<Data>) {
    a == [] || (b != [] && (Subsequence(a, b[..|b| - 1])
                            || (a[|a| - 1] == b[|b| - 1] && Subsequence(a[..|a| - 1], b[..|b| - 1]))))
  }

  lemma {:induction false} SubsequenceRefl(a: seq<Data>)
    ensures Subsequence(a, a)
  {
    if a != [] {
      SubsequenceRefl(a[..|a| - 1]);
    }
  }

  lemma {:induction false} SubsequenceTransitive(a: seq<Data>, b: seq<Data>, c: seq<Data>)
    requires Subsequence(a, b) && Subsequence(b, c)
    ensures Subsequence(a, c)
    decreases |b| + |c|
  {
    if a != [] {
      var c' := c[..|c| - 1];
      if Subsequence(b, c') {
        SubsequenceTransitive(a, b, c');
      } else if Subsequence(a, b[..|b| - 1]) {
        SubsequenceTransitive(a, b[..|b| - 1], c');
      } else {
        SubsequenceTransitive(a[..|a| - 1], b[..|b| - 1], c');
      }
    }
  }

  lemma {:induction false} SubsequenceLength(a: seq<Data>, b: seq<Data>)
    requires Subsequence(a, b)
    ensures |a| <= |b|
  {
    if a != [] {
      if Subsequence(a, b[..|b| - 1]) {
        SubsequenceLength(a, b[..|b| - 1]);
      } else {
        SubsequenceLength(a[..|a| - 1], b[..|b| - 1]);
      }
    }
  }

  lemma {:induction false} SubsequenceConcat(a: seq<Data>, b: seq<Data>, x: seq<Data>, y: seq<Data>)
    requires Subsequence(a, b) && Subsequence(x, y)
    ensures Subsequence(a + x, b + y)
    decreases |y|
  {
    if y == [] {
      assert a + x == a && b + y == b;
    } else {
      var y' := y[..|y| - 1];
      assert (b + y)[..|b + y| - 1] == b + y';
      if Subsequence(x, y') {
        SubsequenceConcat(a, b, x, y');
      } else {
        assert (a + x)[..|a + x| - 1] == a + x[..|x| - 1];
        SubsequenceConcat(a, b, x[..|x| - 1], y');
      }
    }
  }

  // What the user of a side copies in an event.
  function CopiedBy(e: Event, side: Side): seq<Data> {
    if e.UserCopies? && e.side == side then [ReadForSync(e.data)] else []
  }

  // Fewer things waiting to be sent.
  lemma LessOutgoing(w: World, z: World, side: Side)
    requires z.sent.At(side) == w.sent.At(side)
    requires var before, after := PendingPart(w.peer.At(side)) + DirtyPart(w.peer.At(side)),
                                  PendingPart(z.peer.At(side)) + DirtyPart(z.peer.At(side));
      Subsequence(after, before)
    ensures Subsequence(Outgoing(z, side), Outgoing(w, side))
  {
    SubsequenceRefl(w.sent.At(side));
    SubsequenceConcat(w.sent.At(side), w.sent.At(side),
                      PendingPart(z.peer.At(side)) + DirtyPart(z.peer.At(side)),
                      PendingPart(w.peer.At(side)) + DirtyPart(w.peer.At(side)));
  }

  lemma PollSchedulesTheLatest(p: Peer)
    ensures Subsequence(PendingPart(Poll(p)) + DirtyPart(Poll(p)), PendingPart(p) + DirtyPart(p))
  {
    SubsequenceRefl(DirtyPart(p));
    SubsequenceRefl(PendingPart(p));
    SubsequenceConcat([], PendingPart(p), DirtyPart(p), DirtyPart(p));
    assert [] + DirtyPart(p) == DirtyPart(p) == DirtyPart(p) + [];
    SubsequenceConcat(PendingPart(p), PendingPart(p), [], DirtyPart(p));
  }

  // Nothing is dirty any more, and nothing new is pending.
  lemma CleanPeer(p: Peer, q: Peer)
    requires !Dirty(q) && (q.pending == p.pending || q.pending.None?)
    ensures Subsequence(PendingPart(q) + DirtyPart(q), PendingPart(p) + DirtyPart(p))
  {
    SubsequenceRefl(PendingPart(p));
    SubsequenceConcat(PendingPart(q), PendingPart(p), [], DirtyPart(p));
    assert PendingPart(q) + DirtyPart(q) == PendingPart(q) + [];
  }

  lemma TimerOutgoing(w: World, side: Side)
    ensures Outgoing(Apply(w, TimerFires(side)), side) == Outgoing(w, side)
  {
  }

  lemma CopyOutgoing(w: World, side: Side, data: Data)
    ensures Subsequence(Outgoing(Apply(w, UserCopies(side, data)), side), Outgoing(w, side) + [ReadForSync(data)])
  {
    var p, q := w.peer.At(side), Copy(w.peer.At(side), data);
    var kept := w.sent.At(side) + PendingPart(p);
    assert Outgoing(w, side) == kept + DirtyPart(p);
    assert Outgoing(Apply(w, UserCopies(side, data)), side) == kept + DirtyPart(q);
    DirtyPartIsCopied(q, data);
    LastReplaced(kept, DirtyPart(p), DirtyPart(q), [ReadForSync(data)]);
  }

  lemma DirtyPartIsCopied(q: Peer, data: Data)
    requires q.clip == data
    ensures Subsequence(DirtyPart(q), [ReadForSync(data)])
  {
    SubsequenceRefl([ReadForSync(data)]);
  }

  lemma LastReplaced(kept: seq<Data>, before: seq<Data>, after: seq<Data>, copied: seq<Data>)
    requires Subsequence(after, copied)
    ensures Subsequence(kept + after, kept + before + copied)
  {
    SubsequenceRefl(kept);
    SubsequenceConcat(kept, kept, [], before);
    assert kept + [] == kept;
    SubsequenceConcat(kept, kept + before, after, copied);
  }

  /** No event makes a side send more than it would have sent, except for what its user copies. */
  lemma OutgoingStep(w: World, e: Event, side: Side)
    ensures Subsequence(Outgoing(Apply(w, e), side), Outgoing(w, side) + CopiedBy(e, side))
    ensures Apply(w, e).copied.At(side) == w.copied.At(side) + CopiedBy(e, side)
  {
    if e.side != side {
      OtherSideOutgoing(w, e, side);
    } else if e.UserCopies? {
      CopyOutgoing(w, side, e.data);
    } else {
      OwnStepOutgoing(w, e, side);
    }
  }

  lemma OtherSideOutgoing(w: World, e: Event, side: Side)
    requires e.side != side
    ensures Subsequence(Outgoing(Apply(w, e), side), Outgoing(w, side) + CopiedBy(e, side))
    ensures Apply(w, e).copied.At(side) == w.copied.At(side) + CopiedBy(e, side)
  {
    OtherSideUntouched(w, e, side);
    assert Outgoing(w, side) + [] == Outgoing(w, side);
    assert w.copied.At(side) + [] == w.copied.At(side);
    SubsequenceRefl(Outgoing(w, side));
  }

  lemma OtherSideUntouched(w: World, e: Event, side: Side)
    requires e.side != side
    ensures var z := Apply(w, e);
      z.peer.At(side) == w.peer.At(side) && z.sent.At(side) == w.sent.At(side) && z.copied.At(side) == w.copied.At(side)
  {
  }

  lemma OwnStepOutgoing(w: World, e: Event, side: Side)
    requires e.side == side && !e.UserCopies?
    ensures Subsequence(Outgoing(Apply(w, e), side), Outgoing(w, side) + CopiedBy(e, side))
    ensures Apply(w, e).copied.At(side) == w.copied.At(side) + CopiedBy(e, side)
  {
    assert Outgoing(w, side) + [] == Outgoing(w, side);
    if e.TimerFires? {
      TimerOutgoing(w, side);
      SubsequenceRefl(Outgoing(w, side));
    } else {
      QuietStep(w, e, side);
      LessOutgoing(w, Apply(w, e), side);
    }
  }

  lemma QuietStep(w: World, e: Event, side: Side)
    requires e.side == side && (e.Polls? || e.Receives? || e.ChannelOpens? || e.ChannelCloses?)
    ensures var p, q := w.peer.At(side), Apply(w, e).peer.At(side);
      Subsequence(PendingPart(q) + DirtyPart(q), PendingPart(p) + DirtyPart(p))
  {
    var p, q := w.peer.At(side), Apply(w, e).peer.At(side);
    if e.Polls? {
      PollSchedulesTheLatest(p);
    } else if e.Receives? && (w.channel.At(side) == [] || !HasData(Sanitize(w.channel.At(side)[0], e.imageIsDataUrl))) {
      SubsequenceRefl(PendingPart(p) + DirtyPart(p));
    } else {
      CleanPeer(p, q);
    }
  }

  lemma {:induction false} OutgoingIsCopied(host: Data, viewer: Data, events: seq<Event>, side: Side)
    ensures var w := Run(Initial(host, viewer), events); Subsequence(Outgoing(w, side), w.copied.At(side))
  {
    if events != [] {
      var w := Run(Initial(host, viewer), events[..|events| - 1]);
      var e := events[|events| - 1];
      OutgoingIsCopied(host, viewer, events[..|events| - 1], side);
      OutgoingStep(w, e, side);
      SubsequenceRefl(CopiedBy(e, side));
      SubsequenceConcat(Outgoing(w, side), w.copied.At(side), CopiedBy(e, side), CopiedBy(e, side));
      SubsequenceTransitive(Outgoing(Apply(w, e), side), Outgoing(w, side) + CopiedBy(e, side),
                            w.copied.At(side) + CopiedBy(e, side));
    }
  }

  /** In every run, the messages a peer sends are contents its own user copied, each charged to a
      copy of its own, in order. So what a peer received is never sent back unless copied anew. */
  lemma NoEcho(host: Data, viewer: Data, events: seq<Event>, side: Side)
    ensures var w := Run(Initial(host, viewer), events);
      Subsequence(w.sent.At(side), w.copied.At(side)) && |w.sent.At(side)| <= |w.copied.At(side)|
  {
    var w := Run(Initial(host, viewer), events);
    var sent, later := w.sent.At(side), PendingPart(w.peer.At(side)) + DirtyPart(w.peer.At(side));
    OutgoingIsCopied(host, viewer, events, side);
    SubsequenceRefl(sent);
    SubsequenceConcat(sent, sent, [], later);
    assert sent + [] == sent;
    SubsequenceTransitive(sent, Outgoing(w, side), w.copied.At(side));
    SubsequenceLength(sent, w.copied.At(side));
  }

  /** From any state, once a user copies nothing more, that side sends at most two messages: the
      pending one and the contents not yet polled. */
  lemma {:induction false} Quiescence(w: World, events: seq<Event>, side: Side)
    requires forall i :: 0 <= i < |events| ==> CopiedBy(events[i], side) == []
    ensures Subsequence(Outgoing(Run(w, events), side), Outgoing(w, side))
    ensures |Run(w, events).sent.At(side)| <= |w.sent.At(side)| + 2
  {
    if events == [] {
      SubsequenceRefl(Outgoing(w, side));
    } else {
      var front, e := events[..|events| - 1], events[|events| - 1];
      Quiescence(w, front, side);
      OutgoingStep(Run(w, front), e, side);
      assert Outgoing(Run(w, front), side) + [] == Outgoing(Run(w, front), side);
      SubsequenceTransitive(Outgoing(Run(w, events), side), Outgoing(Run(w, front), side), Outgoing(w, side));
    }
    SubsequenceLength(Outgoing(Run(w, events), side), Outgoing(w, side));
  }

  // ----- closed channels

  lemma {:induction false} SentGrows(w: World, events: seq<Event>, side: Side)
    ensures w.sent.At(side) <= Run(w, events).sent.At(side)
  {
    if events != [] {
      SentGrows(w, events[..|events| - 1], side);
    }
  }

  /** When its channel opens, a side has nothing to send: what was copied before, or scheduled before the
      channel closed, is not sent, and neither is anything later unless its user copies it. */
  lemma OpeningSendsNothing(w: World, events: seq<Event>, side: Side)
    requires forall i :: 0 <= i < |events| ==> CopiedBy(events[i], side) == []
    ensures Run(Apply(w, ChannelOpens(side)), events).sent.At(side) == w.sent.At(side)
  {
    var z := Apply(w, ChannelOpens(side));
    Quiescence(z, events, side);
    SentGrows(z, events, side);
    assert Outgoing(z, side) == z.sent.At(side);
    SubsequenceLength(Outgoing(Run(z, events), side), Outgoing(z, side));
  }

  // Both channels are closed, with nothing scheduled and nothing under way.
  predicate Shut(w: World) {
    w.channel == Both([], []) && !w.peer.host.running && !w.peer.viewer.running
    && w.peer.host.pending.None? && w.peer.viewer.pending.None?
  }

  lemma {:induction false} ShutStays(w: World, events: seq<Event>)
    requires Shut(w) && forall i :: 0 <= i < |events| ==> !events[i].ChannelOpens?
    ensures var z := Run(w, events); Shut(z) && z.sent == w.sent
    ensures (forall i :: 0 <= i < |events| ==> !events[i].UserCopies?) ==>
              Run(w, events).peer.host.clip == w.peer.host.clip && Run(w, events).peer.viewer.clip == w.peer.viewer.clip
  {
    if events != [] {
      ShutStays(w, events[..|events| - 1]);
    }
  }

  /** Once both ends have closed, whatever was scheduled or under way is lost: until a channel opens again
      nothing is sent, and only the users change the clipboards. */
  lemma ClosedIsSilent(w: World, events: seq<Event>)
    requires forall i :: 0 <= i < |events| ==> !events[i].ChannelOpens?
    ensures var closed := Apply(Apply(w, ChannelCloses(Host)), ChannelCloses(Viewer));
      var z := Run(closed, events);
      z.sent == w.sent
      && ((forall i :: 0 <= i < |events| ==> !events[i].UserCopies?) ==>
            z.peer.host.clip == w.peer.host.clip && z.peer.viewer.clip == w.peer.viewer.clip)
  {
    ShutStays(Apply(Apply(w, ChannelCloses(Host)), ChannelCloses(Viewer)), events);
  }

  // ----- convergence

  // Contents that arrive as they were copied: text and markup of at most a mebibyte of characters,
  // an image of at most twelve, and not nothing.
  predicate Transferable(d: Data) {
    |d.text| <= 1048576 && |d.html| <= 1048576 && |d.image| <= 12582912 && (d.text != "" || d.html != "" || d.image != "")
  }

  /** The receiver's validator leaves exactly these as they are, if their image is a data URL. */
  lemma TransferableIsKept(d: Data, imageIsDataUrl: bool)
    requires d != NOTHING
    ensures Sanitize(d, imageIsDataUrl) == d <==> Transferable(d) && (d.image == "" || imageIsDataUrl)
  {
  }

  // Copies are transferable, and the open channel stays open.
  predicate Faithful(e: Event) {
    match e
    case UserCopies(_, data) => Transferable(data)
    case Receives(_, imageIsDataUrl) => imageIsDataUrl
    case ChannelOpens(_) => false
    case ChannelCloses(_) => false
    case _ => true
  }

  // Both started on the same contents.
  function Synchronised(clip: Data): World {
    Apply(Apply(Initial(clip, clip), ChannelOpens(Host)), ChannelOpens(Viewer))
  }

  // ----- one side copies

  // What the other side's clipboard will be when everything under way has arrived.
  function Latest(w: World, side: Side): Data {
    var p, way := w.peer.At(side), w.channel.At(Other(side));
    if p.pending.Some? then p.pending.value
    else if way != [] then way[|way| - 1]
    else w.peer.At(Other(side)).clip
  }

  predicate Following(w: World, side: Side) {
    var p, q := w.peer.At(side), w.peer.At(Other(side));
    && p.running && q.running && p.remote.None? && q.pending.None? && w.channel.At(side) == []
    && (Transferable(p.clip) || (p.clip == p.snapshot && p.clip == NOTHING))
    && q.snapshot == q.clip == ReadForSync(q.clip)
    && (p.pending.Some? ==> Transferable(p.pending.value))
    && (forall i :: 0 <= i < |w.channel.At(Other(side))| ==> Transferable(w.channel.At(Other(side))[i]))
    && Latest(w, side) == p.snapshot
  }

  lemma FollowingStep(w: World, e: Event, side: Side)
    requires Following(w, side) && Faithful(e) && (e.UserCopies? ==> e.side == side)
    ensures Following(Apply(w, e), side)
  {
  }

  lemma {:induction false} FollowingAlways(clip: Data, events: seq<Event>, side: Side)
    requires clip == NOTHING || Transferable(clip)
    requires forall i :: 0 <= i < |events| ==> Faithful(events[i]) && (events[i].UserCopies? ==> events[i].side == side)
    ensures Following(Run(Synchronised(clip), events), side)
  {
    if events != [] {
      FollowingAlways(clip, events[..|events| - 1], side);
      FollowingStep(Run(Synchronised(clip), events[..|events| - 1]), events[|events| - 1], side);
    }
  }

  /** While only one user copies, on either side, whenever nothing is under way the two clipboards
      are equal. */
  lemma OneSidedConvergence(clip: Data, events: seq<Event>, side: Side)
    requires clip == NOTHING || Transferable(clip)
    requires forall i :: 0 <= i < |events| ==> Faithful(events[i]) && (events[i].UserCopies? ==> events[i].side == side)
    ensures var w := Run(Synchronised(clip), events);
      !Dirty(w.peer.At(side)) && w.peer.At(side).pending.None? && w.channel.At(Other(side)) == []
      ==> w.peer.viewer.clip == w.peer.host.clip
  {
    FollowingAlways(clip, events, side);
  }

  // ----- both sides copy: where the contents of each clipboard come from

  // What a side last saw arrive in its clipboard: nothing since the start, a message, a copy that it
  // scheduled for sending, or a copy of what it had last received, which it does not send back.
  datatype Origin = Unchanged | Received | Sent | Returned

  function NextOrigin(w: World, e: Event, side: Side, origin: Origin): Origin {
    var p := w.peer.At(side);
    if e.side != side then origin
    else if e.Receives? && w.channel.At(side) != [] && HasData(Sanitize(w.channel.At(side)[0], e.imageIsDataUrl)) then Received
    else if e.Polls? && p.running && ReadForSync(p.clip) != p.snapshot then
      (if Some(ReadForSync(p.clip)) == p.remote then Returned else Sent)
    else origin
  }

  function OriginOf(start: World, events: seq<Event>, side: Side): Origin {
    if events == [] then Unchanged
    else
      var front := events[..|events| - 1];
      NextOrigin(Run(start, front), events[|events| - 1], side, OriginOf(start, front, side))
  }

  function LastOf(messages: seq<Data>): Option<Data> {
    if messages == [] then None else Some(messages[|messages| - 1])
  }

  // The last message scheduled, whether sent yet or not.
  function LastOut(w: World, side: Side): Option<Data> {
    if w.peer.At(side).pending.Some? then w.peer.At(side).pending else LastOf(w.sent.At(side))
  }

  predicate ProperClip(d: Data) { d == NOTHING || Transferable(d) }

  // Everything that moves is transferable, and the last message sent is the last one on its way to
  // the other side, or the last one received there.
  predicate Orderly(w: World, side: Side) {
    var p, way := w.peer.At(side), w.channel.At(Other(side));
    && p.running && ProperClip(p.clip) && ProperClip(p.snapshot)
    && (p.clip == NOTHING ==> p.snapshot == NOTHING)
    && (p.pending.Some? ==> Transferable(p.pending.value))
    && (forall i :: 0 <= i < |way| ==> Transferable(way[i]))
    && LastOf(w.sent.At(side)) == if way != [] then LastOf(way) else w.peer.At(Other(side)).remote
  }

  // What the origin says about the contents last seen.
  predicate Explained(w: World, side: Side, start: Data, origin: Origin) {
    var p := w.peer.At(side);
    match origin
    case Unchanged => p.snapshot == start && p.remote.None? && p.pending.None? && w.sent.At(side) == []
    case Received => Some(p.snapshot) == p.remote
    case Returned => Some(p.snapshot) == p.remote
    case Sent => Some(p.snapshot) == LastOut(w, side)
  }

  predicate UnderWay(w: World, side: Side) { w.peer.At(side).pending.Some? || w.channel.At(Other(side)) != [] }

  lemma OrderlyStep(w: World, e: Event, side: Side)
    requires Orderly(w, side) && Orderly(w, Other(side)) && Faithful(e)
    ensures Orderly(Apply(w, e), side)
  {
    if e.side == side {
      OwnOrderlyStep(w, e, side);
    } else {
      OtherOrderlyStep(w, e, side);
    }
  }

  lemma OwnOrderlyStep(w: World, e: Event, side: Side)
    requires Orderly(w, side) && Orderly(w, Other(side)) && Faithful(e) && e.side == side
    ensures Orderly(Apply(w, e), side)
  {
  }

  lemma OtherOrderlyStep(w: World, e: Event, side: Side)
    requires Orderly(w, side) && Faithful(e) && e.side != side
    ensures Orderly(Apply(w, e), side)
  {
  }

  lemma ExplainedStep(w: World, e: Event, side: Side, start: Data, origin: Origin)
    requires Orderly(w, side) && Orderly(w, Other(side)) && Faithful(e) && Explained(w, side, start, origin)
    ensures Explained(Apply(w, e), side, start, NextOrigin(w, e, side, origin))
  {
  }

  // When both sides' contents are copies of their own, one of them is still under way.
  lemma BothSentStep(w: World, e: Event, host: Origin, viewer: Origin)
    requires Orderly(w, Host) && Orderly(w, Viewer) && Faithful(e)
    requires host == Sent && viewer == Sent ==> UnderWay(w, Host) || UnderWay(w, Viewer)
    ensures var z := Apply(w, e);
      NextOrigin(w, e, Host, host) == Sent && NextOrigin(w, e, Viewer, viewer) == Sent ==> UnderWay(z, Host) || UnderWay(z, Viewer)
  {
  }

  lemma {:induction false} OriginsExplain(clip: Data, events: seq<Event>)
    requires ProperClip(clip) && forall i :: 0 <= i < |events| ==> Faithful(events[i])
    ensures var s, w := Synchronised(clip), Run(Synchronised(clip), events);
      && Orderly(w, Host) && Orderly(w, Viewer)
      && Explained(w, Host, clip, OriginOf(s, events, Host)) && Explained(w, Viewer, clip, OriginOf(s, events, Viewer))
      && (OriginOf(s, events, Host) == Sent && OriginOf(s, events, Viewer) == Sent ==> UnderWay(w, Host) || UnderWay(w, Viewer))
  {
    if events != [] {
      var front, e := events[..|events| - 1], events[|events| - 1];
      var s, w := Synchronised(clip), Run(Synchronised(clip), front);
      OriginsExplain(clip, front);
      OrderlyStep(w, e, Host);
      OrderlyStep(w, e, Viewer);
      ExplainedStep(w, e, Host, clip, OriginOf(s, front, Host));
      ExplainedStep(w, e, Viewer, clip, OriginOf(s, front, Viewer));
      BothSentStep(w, e, OriginOf(s, front, Host), OriginOf(s, front, Viewer));
    }
  }

  // Nothing is under way, and each side has seen what its clipboard holds.
  predicate AtRest(w: World) { w.channel == Both([], []) && Resting(w.peer.host) && Resting(w.peer.viewer) }

  predicate Resting(p: Peer) { p.running && p.pending.None? && p.snapshot == ReadForSync(p.clip) }

  /** Over whole runs from equal clipboards: at rest the clipboards are equal exactly when one side
      holds a copy of its own that it sent, or the two sides' last messages are the same. They
      differ exactly when each holds what it received, or a copy of that, and the last messages
      differ. */
  lemma ConvergenceAtRest(clip: Data, events: seq<Event>)
    requires ProperClip(clip) && forall i :: 0 <= i < |events| ==> Faithful(events[i])
    requires AtRest(Run(Synchronised(clip), events))
    ensures var s, w := Synchronised(clip), Run(Synchronised(clip), events);
      w.peer.host.clip == w.peer.viewer.clip
      <==> OriginOf(s, events, Host) == Sent || OriginOf(s, events, Viewer) == Sent
           || LastOf(w.sent.host) == LastOf(w.sent.viewer)
  {
    OriginsExplain(clip, events);
    var w := Run(Synchronised(clip), events);
    RestShows(w, Host);
    RestShows(w, Viewer);
  }

  lemma RestShows(w: World, side: Side)
    requires AtRest(w) && Orderly(w, side)
    ensures w.peer.At(side).clip == w.peer.At(side).snapshot && LastOf(w.sent.At(side)) == w.peer.At(Other(side)).remote
    ensures LastOut(w, side) == LastOf(w.sent.At(side)) && !UnderWay(w, side)
  {
  }

  // ----- a lone copy

  // Nobody copies; images that arrive are data URLs, or are not.
  predicate Quiet(e: Event, url: bool) { e.Polls? || e.TimerFires? || (e.Receives? && e.imageIsDataUrl == url) }

  // A poll after the copy would not send it.
  predicate Suppressed(p: Peer, d: Data) {
    ReadForSync(d) == p.snapshot || Some(ReadForSync(d)) == p.remote || !HasData(ReadForSync(d))
  }

  // How far the copy of d that `side` made in the world w at rest has come.
  predicate LoneStage(w: World, side: Side, d: Data, url: bool, z: World) {
    var x, other := ReadForSync(d), Other(side);
    var p, q := z.peer.At(side), z.peer.At(other);
    && p == w.peer.At(side).(clip := d, snapshot := p.snapshot, pending := p.pending)
    && z.channel.At(side) == [] && q.pending.None?
    && if Suppressed(w.peer.At(side), d) then
         p.snapshot in {w.peer.At(side).snapshot, x} && p.pending.None? && z.channel.At(other) == [] && q == w.peer.At(other)
       else if p.snapshot != x then
         p.snapshot == w.peer.At(side).snapshot && p.pending.None? && z.channel.At(other) == [] && q == w.peer.At(other)
       else if p.pending.Some? then p.pending == Some(x) && z.channel.At(other) == [] && q == w.peer.At(other)
       else if z.channel.At(other) != [] then z.channel.At(other) == [x] && q == w.peer.At(other)
       else q == ApplyRemote(w.peer.At(other), Sanitize(x, url))
  }

  lemma LoneStep(w: World, side: Side, d: Data, url: bool, z: World, e: Event)
    requires AtRest(w) && LoneStage(w, side, d, url, z) && Quiet(e, url)
    ensures LoneStage(w, side, d, url, Apply(z, e))
  {
  }

  lemma {:induction false} LoneAlways(w: World, side: Side, d: Data, url: bool, events: seq<Event>)
    requires AtRest(w) && forall i :: 0 <= i < |events| ==> Quiet(events[i], url)
    ensures LoneStage(w, side, d, url, Run(Apply(w, UserCopies(side, d)), events))
  {
    if events != [] {
      var front := events[..|events| - 1];
      LoneAlways(w, side, d, url, front);
      LoneStep(w, side, d, url, Run(Apply(w, UserCopies(side, d)), front), events[|events| - 1]);
    }
  }

  // The copy is news: after leaving out an image of more than twelve mebibytes of characters it is not
  // nothing, not what the side saw last, and not what it received last.
  predicate News(p: Peer, d: Data) {
    var x := if |d.image| > 12582912 then d.(image := "") else d;
    x != NOTHING && x != p.snapshot && p.remote != Some(x)
  }

  // Some field gets through.
  predicate SomeFieldArrives(d: Data, url: bool) {
    (d.text != "" && |d.text| <= 1048576) || (d.html != "" && |d.html| <= 1048576)
    || (d.image != "" && |d.image| <= 12582912 && url)
  }

  // Of z, every field is the one of d if that is not too long (and an image is a data URL), and else
  // empty. Only an image of the receiver's own that is too long to be seen stays, if `was` has the same
  // other fields.
  predicate FieldsArrived(z: Data, was: Data, d: Data, url: bool) {
    && z.text == (if |d.text| <= 1048576 then d.text else "")
    && z.html == (if |d.html| <= 1048576 then d.html else "")
    && z.image == (if |d.image| <= 12582912 && url && d.image != "" then d.image
                   else if |was.image| > 12582912 && was.text == z.text && was.html == z.html then was.image else "")
  }

  // What became of the receiver's clipboard, `was` before.
  predicate Arrived(z: Data, was: Data, d: Data, url: bool) {
    if SomeFieldArrives(d, url) then FieldsArrived(z, was, d, url) else z == was
  }

  lemma ReceiptArrives(q: Peer, d: Data, url: bool)
    ensures Arrived(ApplyRemote(q, Sanitize(ReadForSync(d), url)).clip, q.clip, d, url)
  {
  }

  lemma NewsIsSent(p: Peer, d: Data)
    ensures News(p, d) <==> !Suppressed(p, d)
  {
  }

  /** A lone copy of any contents, once both sides are at rest again: the other side holds its fields,
      each by its own limit, if the copy is news and some field gets through, and what it held before
      if not. The copier's own clipboard is as copied. */
  lemma LoneCopyArrives(w: World, side: Side, d: Data, url: bool, events: seq<Event>)
    requires AtRest(w) && forall i :: 0 <= i < |events| ==> Quiet(events[i], url)
    requires AtRest(Run(Apply(w, UserCopies(side, d)), events))
    ensures var z := Run(Apply(w, UserCopies(side, d)), events);
      z.peer.At(side).clip == d
      && if News(w.peer.At(side), d) then Arrived(z.peer.At(Other(side)).clip, w.peer.At(Other(side)).clip, d, url)
         else z.peer.At(Other(side)).clip == w.peer.At(Other(side)).clip
  {
    LoneAlways(w, side, d, url, events);
    ReceiptArrives(w.peer.At(Other(side)), d, url);
    NewsIsSent(w.peer.At(side), d);
    var z := Run(Apply(w, UserCopies(side, d)), events);
    assert z.peer.At(side).snapshot == ReadForSync(d);
  }

  /** One side copies new contents, of any kind, when both are at rest with equal clipboards c. Once
      both are at rest again their clipboards are equal exactly when the new contents are c, or are
      transferable (an image being a data URL) and neither what the side already sees in its clipboard
      nor what it last received. */
  lemma LoneCopyConverges(w: World, side: Side, d: Data, url: bool, events: seq<Event>)
    requires AtRest(w) && w.peer.host.clip == w.peer.viewer.clip
    requires forall i :: 0 <= i < |events| ==> Quiet(events[i], url)
    requires AtRest(Run(Apply(w, UserCopies(side, d)), events))
    ensures var c, z := w.peer.host.clip, Run(Apply(w, UserCopies(side, d)), events);
      z.peer.host.clip == z.peer.viewer.clip
      <==> d == c || (Transferable(d) && (d.image == "" || url) && d != w.peer.At(side).snapshot && Some(d) != w.peer.At(side).remote)
  {
    LoneAlways(w, side, d, url, events);
    var z := Run(Apply(w, UserCopies(side, d)), events);
    assert w.peer.At(side).clip == w.peer.At(Other(side)).clip;
    assert z.peer.At(side).snapshot == ReadForSync(d);
  }

  /** And both do come to rest: after a poll, the timer, and the receipt. */
  lemma LoneCopySettles(w: World, side: Side, d: Data, url: bool)
    requires AtRest(w)
    ensures AtRest(Run(Apply(w, UserCopies(side, d)), [Polls(side), TimerFires(side), Receives(Other(side), url)]))
  {
    RunThree(Apply(w, UserCopies(side, d)), Polls(side), TimerFires(side), Receives(Other(side), url));
  }

  // The clipboards hold these contents, and nothing is left to send.
  ghost predicate Settled(w: World, host: Data, viewer: Data) {
    w.peer.host.clip == host && w.peer.viewer.clip == viewer && w.channel == Both([], [])
    && forall side: Side :: Outgoing(w, side) == w.sent.At(side)
  }

  /** When both users copy, the clipboards can end up swapped, with nothing left to send. */
  lemma ClipboardsCanCross(x: Data, y: Data)
    requires Transferable(x) && Transferable(y) && x != y
    ensures exists events :: Settled(Run(Synchronised(NOTHING), events), y, x)
  {
    HostSends(x);
    ViewerSends(x, y);
    BothReceive(x, y);
    ThreePhases(x, y, [UserCopies(Host, x), Polls(Host), TimerFires(Host)],
                [UserCopies(Viewer, y), Polls(Viewer), TimerFires(Viewer)], [Receives(Host, true), Receives(Viewer, true)]);
  }

  lemma CrossedIsQuiet(x: Data, y: Data)
    requires Transferable(x) && Transferable(y)
    ensures Settled(Crossed(x, y), y, x)
  {
    TransferableIsRead(x);
    TransferableIsRead(y);
    forall side: Side ensures Outgoing(Crossed(x, y), side) == Crossed(x, y).sent.At(side) {
      var p := Crossed(x, y).peer.At(side);
      assert PendingPart(p) == [];
      assert Crossed(x, y).sent.At(side) + ([] + []) == Crossed(x, y).sent.At(side);
    }
  }

  lemma ThreePhases(x: Data, y: Data, sending: seq<Event>, answering: seq<Event>, receiving: seq<Event>)
    requires Transferable(x) && Transferable(y)
    requires Run(Synchronised(NOTHING), sending) == HalfWay(x)
    requires Run(HalfWay(x), answering) == Crossing(x, y) && Run(Crossing(x, y), receiving) == Crossed(x, y)
    ensures exists events :: Settled(Run(Synchronised(NOTHING), events), y, x)
  {
    var start := Synchronised(NOTHING);
    RunAppend(start, sending, answering);
    RunAppend(start, sending + answering, receiving);
    CrossedIsQuiet(x, y);
    assert Settled(Run(start, sending + answering + receiving), y, x);
  }

  function Synced(d: Data): Peer { Peer(d, d, None, None, true) }

  function HalfWay(x: Data): World {
    World(Both(Synced(x), Synced(NOTHING)), Both([], [x]), Both([x], []), Both([x], []))
  }

  function Crossing(x: Data, y: Data): World {
    World(Both(Synced(x), Synced(y)), Both([y], [x]), Both([x], [y]), Both([x], [y]))
  }

  function Crossed(x: Data, y: Data): World {
    World(Both(Peer(y, y, Some(y), None, true), Peer(x, x, Some(x), None, true)), Both([], []), Both([x], [y]), Both([x], [y]))
  }

  lemma HostSends(x: Data)
    requires Transferable(x)
    ensures Run(Synchronised(NOTHING), [UserCopies(Host, x), Polls(Host), TimerFires(Host)]) == HalfWay(x)
  {
    var start := Synchronised(NOTHING);
    TransferableIsRead(x);
    assert [] + [x] == [x];
    RunThree(start, UserCopies(Host, x), Polls(Host), TimerFires(Host));
    assert Apply(start, UserCopies(Host, x)).peer.host == Peer(x, NOTHING, None, None, true);
    assert Poll(Peer(x, NOTHING, None, None, true)) == Peer(x, x, None, Some(x), true);
  }

  lemma ViewerSends(x: Data, y: Data)
    requires Transferable(x) && Transferable(y)
    ensures Run(HalfWay(x), [UserCopies(Viewer, y), Polls(Viewer), TimerFires(Viewer)]) == Crossing(x, y)
  {
    TransferableIsRead(y);
    assert [] + [y] == [y];
    RunThree(HalfWay(x), UserCopies(Viewer, y), Polls(Viewer), TimerFires(Viewer));
    assert Apply(HalfWay(x), UserCopies(Viewer, y)).peer.viewer == Peer(y, NOTHING, None, None, true);
    assert Poll(Peer(y, NOTHING, None, None, true)) == Peer(y, y, None, Some(y), true);
  }

  lemma BothReceive(x: Data, y: Data)
    requires Transferable(x) && Transferable(y) && x != y
    ensures Run(Crossing(x, y), [Receives(Host, true), Receives(Viewer, true)]) == Crossed(x, y)
  {
    TransferableIsRead(x);
    TransferableIsRead(y);
    assert [x][1..] == [] && [y][1..] == [];
    RunTwo(Crossing(x, y), Receives(Host, true), Receives(Viewer, true));
  }

  lemma TransferableIsRead(d: Data)
    requires Transferable(d)
    ensures ReadForSync(d) == d && d != NOTHING
  {
    assert Sanitize(d, true).image == d.image;
  }

  lemma RunTwo(w: World, a: Event, b: Event)
    ensures Run(w, [a, b]) == Apply(Apply(w, a), b)
  {
    assert [a, b] == [a] + [b];
    RunOne(w, [], a);
    RunOne(w, [a], b);
  }

  lemma RunThree(w: World, a: Event, b: Event, c: Event)
    ensures Run(w, [a, b, c]) == Apply(Apply(Apply(w, a), b), c)
  {
    assert [a, b, c] == [a, b] + [c];
    RunTwo(w, a, b);
    RunOne(w, [a, b], c);
  }

  lemma RunOne(w: World, events: seq<Event>, e: Event)
    ensures Run(w, events + [e]) == Apply(Run(w, events), e)
  {
    assert (events + [e])[..|events|] == events;
  }

  lemma {:induction false} RunAppend(w: World, a: seq<Event>, b: seq<Event>)
    ensures Run(w, a + b) == Run(Run(w, a), b)
    decreases |b|
  {
    if b == [] {
      assert a + b == a;
    } else {
      assert (a + b)[..|a + b| - 1] == a + b[..|b| - 1];
      RunAppend(w, a, b[..|b| - 1]);
    }
  }

  // ----- taking turns

  // A copy that is sent and received before anything else happens.
  function Turn(side: Side, d: Data): seq<Event> {
    [UserCopies(side, d), Polls(side), TimerFires(side), Receives(Other(side), true)]
  }

  function Turned(w: World, side: Side, d: Data): World {
    var p, q := w.peer.At(side), w.peer.At(Other(side));
    World(w.peer.Put(side, p.(clip := d, snapshot := d)).Put(Other(side), ApplyRemote(q, d)),
          w.channel, w.sent.Put(side, w.sent.At(side) + [d]), w.copied.Put(side, w.copied.At(side) + [d]))
  }

  lemma TurnRuns(w: World, side: Side, d: Data)
    requires AtRest(w) && Transferable(d) && d != w.peer.At(side).snapshot && Some(d) != w.peer.At(side).remote
    ensures Run(w, Turn(side, d)) == Turned(w, side, d) && AtRest(Turned(w, side, d))
  {
    TransferableIsRead(d);
    var sent := World(w.peer.Put(side, w.peer.At(side).(clip := d, snapshot := d)), w.channel.Put(Other(side), [d]),
                      w.sent.Put(side, w.sent.At(side) + [d]), w.copied.Put(side, w.copied.At(side) + [d]));
    RunThree(w, UserCopies(side, d), Polls(side), TimerFires(side));
    assert [] + [d] == [d];
    assert Run(w, [UserCopies(side, d), Polls(side), TimerFires(side)]) == sent;
    RunOne(w, [UserCopies(side, d), Polls(side), TimerFires(side)], Receives(Other(side), true));
    assert [UserCopies(side, d), Polls(side), TimerFires(side)] + [Receives(Other(side), true)] == Turn(side, d);
    assert [d][1..] == [];
  }

  // Copying again what was received last: it is not sent.
  lemma ReturningRuns(w: World, side: Side, d: Data)
    requires AtRest(w) && Transferable(d) && Some(d) == w.peer.At(side).remote
    ensures Run(w, [UserCopies(side, d), Polls(side)])
            == w.(peer := w.peer.Put(side, w.peer.At(side).(clip := d, snapshot := d)),
                  copied := w.copied.Put(side, w.copied.At(side) + [d]))
  {
    TransferableIsRead(d);
    RunTwo(w, UserCopies(side, d), Polls(side));
  }

  function AfterTwoTurns(a: Data, b: Data): World {
    Turned(Turned(Synchronised(NOTHING), Viewer, a), Host, b)
  }

  lemma TwoTurns(a: Data, b: Data)
    requires Transferable(a) && Transferable(b) && a != b
    ensures Run(Synchronised(NOTHING), Turn(Viewer, a) + Turn(Host, b)) == AfterTwoTurns(a, b) && AtRest(AfterTwoTurns(a, b))
  {
    var start := Synchronised(NOTHING);
    TransferableIsRead(a);
    TransferableIsRead(b);
    TurnRuns(start, Viewer, a);
    TurnRuns(Turned(start, Viewer, a), Host, b);
    RunAppend(start, Turn(Viewer, a), Turn(Host, b));
  }

  /** Even without copying at the same time the clipboards can end up different: the viewer copies a,
      the host then copies b, and then a again, which it does not send since it last received a. */
  lemma TurnsCanDiverge(a: Data, b: Data)
    requires Transferable(a) && Transferable(b) && a != b
    ensures exists events :: Settled(Run(Synchronised(NOTHING), events), a, b)
  {
    var start, w := Synchronised(NOTHING), AfterTwoTurns(a, b);
    var turns, again := Turn(Viewer, a) + Turn(Host, b), [UserCopies(Host, a), Polls(Host)];
    TransferableIsRead(a);
    TransferableIsRead(b);
    TwoTurns(a, b);
    ReturningRuns(w, Host, a);
    RunAppend(start, turns, again);
    DivergedIsSettled(Run(w, again), a, b);
    assert Settled(Run(start, turns + again), a, b);
  }

  lemma DivergedIsSettled(w: World, a: Data, b: Data)
    requires AtRest(w) && w.peer.host.clip == a && w.peer.viewer.clip == b
    ensures Settled(w, a, b)
  {
    forall side: Side ensures Outgoing(w, side) == w.sent.At(side) {
      assert PendingPart(w.peer.At(side)) + DirtyPart(w.peer.At(side)) == [];
    }
  }

  // The synchronising part of a client over its mutable state.
  class ClipboardSync {
    var clipboard: Data
    var clipboardSnapshot: Data
    var remoteClipboardSnapshot: Option<Data>
    var pendingClipboardMessage: Option<Data>
    var running: bool

    ghost function View(): Peer
      reads this
    {
      Peer(clipboard, clipboardSnapshot, remoteClipboardSnapshot, pendingClipboardMessage, running)
    }

    constructor (contents: Data)
      ensures View() == Idle(contents)
    {
      clipboard, clipboardSnapshot, remoteClipboardSnapshot := contents, NOTHING, None;
      pendingClipboardMessage, running := None, false;
    }

    method StopClipboardSync()
      modifies this
      ensures View() == Stop(old(View()))
    {
      pendingClipboardMessage := None;
      running := false;
    }

    method StartClipboardSync()
      modifies this
      ensures View() == Start(old(View()))
    {
      StopClipboardSync();
      clipboardSnapshot := ReadForSync(clipboard);
      running := true;
    }

    method PollTimer()
      modifies this
      ensures View() == Poll(old(View()))
    {
      if !running {
        return;
      }
      var next := ReadForSync(clipboard);
      if next == clipboardSnapshot || Some(next) == remoteClipboardSnapshot {
        clipboardSnapshot := next;
        return;
      }
      if !HasData(next) {
        clipboardSnapshot := next;
        return;
      }
      clipboardSnapshot := next;
      pendingClipboardMessage := Some(next);
    }

    method SendTimer() returns (message: Option<Data>)
      modifies this
      ensures View() == Flush(old(View())) && message == old(View()).pending
    {
      message := pendingClipboardMessage;
      pendingClipboardMessage := None;
    }

    method ApplyRemoteClipboard(data: Data)
      modifies this
      ensures View() == ApplyRemote(old(View()), data)
    {
      if !HasData(data) {
        return;
      }
      remoteClipboardSnapshot := Some(data);
      if ReadForSync(clipboard) != data {
        clipboard := data;
      }
      clipboardSnapshot := data;
    }
  }
}
