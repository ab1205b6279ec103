/**
 One kind of object, its writers, and one list-then-watch client, as interleaved steps
 (poc/fleetshift-controller-runtime/store/store.go).

 A write commits under the store's lock and is broadcast later, outside it, so the broadcasts of two
 writers can reach the client in either order. The journal is read and the watch is registered under the lock.
 */
module WatchRuns {
  import opened Common
  import opened WatchStore

  datatype Op = Create(obj: Object, now: int) | Update(obj: Object) | Delete(key: Key, now: int)

  /** A client that listed at a version and then watches from it. */
  datatype Client =
    | Unlisted
    | Listed(objects: Objects, version: nat)
    | Watching(objects: Objects, version: nat, received: seq<Entry>)

  /** `history` is every entry ever committed; `pending` are those not yet broadcast. */
  datatype World = World(shelf: Shelf, rev: nat, history: seq<Entry>, pending: seq<Entry>, client: Client)

  datatype Step =
    | Write(op: Op)
    | WriteElsewhere              // another kind of object takes a revision
    | Compact(through: int)
    | Broadcast(i: nat)           // the writer of the i-th pending entry reaches the broadcaster
    | List
    | Watch

  const INITIAL := World(EMPTY_SHELF, 0, [], [], Unlisted)

  function Emitted(objects: Objects, rev: nat, op: Op): Option<Event> {
    match op
    case Create(obj, now) => (match CreateEvent(objects, rev, obj, now) case Ok(e) => Some(e) case Err(_) => None)
    case Update(obj) => (match UpdateEvent(objects, rev, obj) case Ok(e) => Some(e) case Err(_) => None)
    case Delete(key, now) => (match DeleteEvent(objects, rev, key, now) case Ok(e) => e case Err(_) => None)
  }

  function Committed(w: World, event: Event): World {
    var entry := Entry(w.rev + 1, event);
    w.(shelf := Commit(w.shelf, entry), rev := w.rev + 1, history := w.history + [entry],
      pending := w.pending + [entry])
  }

  function Sent(w: World, i: nat): World
    requires i < |w.pending|
  {
    w.(pending := w.pending[..i] + w.pending[i + 1..],
       client := if w.client.Watching? then w.client.(received := w.client.received + [w.pending[i]]) else w.client)
  }

  function Started(w: World): World
    requires w.client.Listed?
  {
    match WatchPrefix(w.shelf, w.rev, w.client.version)
    case Err(_) => w.(client := Unlisted)
    case Ok(prefix) => w.(client := Watching(w.client.objects, w.client.version, prefix))
  }

  /** One step; a step that is not enabled changes nothing. */
  function Next(w: World, step: Step): World {
    match step
    case Write(op) =>
      var event := Emitted(w.shelf.objects, w.rev + 1, op);
      if event.Some? then Committed(w, event.value) else w
    case WriteElsewhere => w.(rev := w.rev + 1)
    case Compact(through) => w.(shelf := Compacted(w.shelf, through))
    case Broadcast(i) => if i < |w.pending| then Sent(w, i) else w
    case List => w.(client := Listed(w.shelf.objects, w.rev))
    case Watch => if w.client.Listed? then Started(w) else w
  }

  function Run(steps: seq<Step>): World
    decreases |steps|
  {
    if steps == [] then INITIAL else Next(Run(steps[..|steps| - 1]), steps[|steps| - 1])
  }

  // ---------------------------------------------------------------- the invariant

  /** The journal is what is left of the history after dropping entries at or below the compaction horizon. */
  ghost predicate JournalIsTail(w: World, cut: nat) {
    && cut <= |w.history|
    && w.shelf.journal == w.history[cut..]
    && forall i | 0 <= i < cut :: w.history[i].rev <= w.shelf.compactedThrough
  }

  /** An event carries the version at which it was committed. */
  predicate Stamped(e: Entry) {
    e.event.obj.version == At(e.rev)
  }

  ghost predicate HistoryOk(w: World) {
    && Sorted(w.history)
    && (forall i | 0 <= i < |w.history| :: 0 < w.history[i].rev <= w.rev && Stamped(w.history[i]))
    && w.shelf.objects == ApplyAll(map[], w.history)
    && exists cut: nat :: JournalIsTail(w, cut)
  }

  /** Nothing committed after the listed version is lost: the client has it, or its broadcast is still to come. */
  ghost predicate NothingLost(w: World)
    requires w.client.Watching?
  {
    && (forall e | e in w.client.received :: e in w.history)
    && (forall e | e in After(w.history, w.client.version) :: e in w.client.received || e in w.pending)
  }

  ghost predicate ClientOk(w: World) {
    && (!w.client.Unlisted? ==>
          && w.client.version <= w.rev
          && ApplyAll(w.client.objects, After(w.history, w.client.version)) == w.shelf.objects)
    && (w.client.Watching? ==> NothingLost(w))
  }

  ghost predicate Inv(w: World) {
    HistoryOk(w) && (forall e | e in w.pending :: e in w.history) && ClientOk(w)
  }

  lemma {:induction false} AfterMembers(entries: seq<Entry>, version: int, e: Entry)
    ensures e in After(entries, version) <==> e in entries && e.rev > version
    decreases |entries|
  {
    if entries != [] {
      AfterMembers(entries[..|entries| - 1], version, e);
    }
  }

  lemma AfterAppend(entries: seq<Entry>, version: int, e: Entry)
    ensures After(entries + [e], version) == After(entries, version) + if e.rev > version then [e] else []
  {
    assert (entries + [e])[..|entries|] == entries;
  }

  lemma ApplyAppend(objects: Objects, entries: seq<Entry>, e: Entry)
    ensures ApplyAll(objects, entries + [e]) == Apply(ApplyAll(objects, entries), e.event)
  {
    assert (entries + [e])[..|entries|] == entries;
  }

  /** The journal answers for the whole history from any version at or above the horizon. */
  lemma JournalSuffices(w: World, version: int)
    requires HistoryOk(w) && version >= w.shelf.compactedThrough
    ensures After(w.shelf.journal, version) == After(w.history, version)
  {
    hide Sorted, ApplyAll, After;
    var cut: nat :| JournalIsTail(w, cut);
    AfterDropsEarlier(w.history[..cut], w.history[cut..], version);
    assert w.history == w.history[..cut] + w.history[cut..];
  }

  lemma {:induction false} AfterDropsEarlier(early: seq<Entry>, late: seq<Entry>, version: int)
    requires forall i | 0 <= i < |early| :: early[i].rev <= version
    ensures After(early + late, version) == After(late, version)
    decreases |late|
  {
    if late == [] {
      assert early + late == early;
      NoneAfter(early, version);
    } else {
      AfterDropsEarlier(early, late[..|late| - 1], version);
      assert early + late == early + late[..|late| - 1] + [late[|late| - 1]];
      AfterAppend(early + late[..|late| - 1], version, late[|late| - 1]);
    }
  }

  // ---------------------------------------------------------------- every step keeps it

  lemma CommitKeepsHistory(w: World, event: Event)
    requires HistoryOk(w) && event.obj.version == At(w.rev + 1)
    ensures HistoryOk(Committed(w, event))
  {
    hide ApplyAll, Apply;
    var after := Committed(w, event);
    ApplyAppend(map[], w.history, Entry(w.rev + 1, event));
    var cut: nat :| JournalIsTail(w, cut);
    assert after.history[cut..] == w.history[cut..] + [Entry(w.rev + 1, event)];
    assert JournalIsTail(after, cut);
  }

  lemma CommitKeepsClient(w: World, event: Event)
    requires HistoryOk(w) && ClientOk(w)
    ensures ClientOk(Committed(w, event))
  {
    hide HistoryOk, After, ApplyAll, Apply;
    if !w.client.Unlisted? {
      var entry, later := Entry(w.rev + 1, event), After(w.history, w.client.version);
      AfterAppend(w.history, w.client.version, entry);
      ApplyAppend(w.client.objects, later, entry);
      assert forall e | e in later + [entry] :: e in later || e == entry;
    }
  }

  lemma CompactKeeps(w: World, through: int)
    requires Inv(w)
    ensures Inv(Next(w, Compact(through)))
  {
    hide ApplyAll, After;
    var after := Next(w, Compact(through));
    var cut: nat :| JournalIsTail(w, cut);
    var journal := w.history[cut..];
    assert Sorted(journal);
    var drop := AfterIsSuffix(journal, through);
    assert journal[drop..] == w.history[cut + drop..];
    forall i | 0 <= i < cut + drop
      ensures w.history[i].rev <= after.shelf.compactedThrough
    {
      if i >= cut {
        assert journal[i - cut] == w.history[i];
      }
    }
    assert JournalIsTail(after, cut + drop);
  }

  lemma BroadcastKeeps(w: World, i: nat)
    requires Inv(w) && i < |w.pending|
    ensures Inv(Sent(w, i))
  {
    hide Sorted, After, ApplyAll;
    var after := Sent(w, i);
    var cut: nat :| JournalIsTail(w, cut);
    assert JournalIsTail(after, cut);
    assert forall e | e in w.pending :: e == w.pending[i] || e in after.pending;
    assert w.pending[i] in w.pending;
  }

  lemma WatchKeeps(w: World)
    requires Inv(w) && w.client.Listed?
    ensures Inv(Started(w))
  {
    var after := Started(w);
    var cut: nat :| JournalIsTail(w, cut);
    assert JournalIsTail(after, cut);
    if after.client.Watching? {
      WatchStarts(w);
      forall e | e in after.client.received
        ensures e in w.history
      {
        AfterMembers(w.history, w.client.version, e);
      }
    }
  }

  /**
   From a listed version, the store either reports that it has expired, or starts the watch with exactly
   the entries committed since, which turn the listed objects into the current ones.
   */
  lemma WatchStarts(w: World)
    requires Inv(w) && w.client.Listed?
    ensures var r := WatchPrefix(w.shelf, w.rev, w.client.version);
            || r == Err(Expired)
            || (&& r == Ok(After(w.history, w.client.version))
                && ApplyAll(w.client.objects, r.value) == w.shelf.objects)
  {
    var version := w.client.version;
    if version >= w.shelf.compactedThrough {
      JournalSuffices(w, version);
      if w.shelf.journal == [] {
        assert After(w.history, version) == [];
      }
    }
  }

  lemma ElsewhereKeeps(w: World)
    requires Inv(w)
    ensures Inv(Next(w, WriteElsewhere))
  {
    hide ApplyAll, After, Sorted;
    var cut: nat :| JournalIsTail(w, cut);
    assert JournalIsTail(Next(w, WriteElsewhere), cut);
  }

  lemma ListKeeps(w: World)
    requires Inv(w)
    ensures Inv(Next(w, List))
  {
    hide ApplyAll, After, Sorted;
    var cut: nat :| JournalIsTail(w, cut);
    assert JournalIsTail(Next(w, List), cut);
    NoneAfter(w.history, w.rev);
    NothingToApply(w.shelf.objects);
  }

  lemma StepKeeps(w: World, step: Step)
    requires Inv(w)
    ensures Inv(Next(w, step))
  {
    hide Sorted, ApplyAll, Commit, ClientOk, After;
    match step
    case Write(op) =>
      var event := Emitted(w.shelf.objects, w.rev + 1, op);
      if event.Some? {
        CommitKeepsHistory(w, event.value);
        CommitKeepsClient(w, event.value);
      }
    case WriteElsewhere => ElsewhereKeeps(w);
    case Compact(through) => CompactKeeps(w, through);
    case Broadcast(i) => if i < |w.pending| { BroadcastKeeps(w, i); }
    case List => ListKeeps(w);
    case Watch => if w.client.Listed? { WatchKeeps(w); }
  }

  lemma NothingToApply(objects: Objects)
    ensures ApplyAll(objects, []) == objects
  {
  }

  lemma {:induction false} RunKeeps(steps: seq<Step>)
    ensures Inv(Run(steps))
    decreases |steps|
  {
    if steps == [] {
      assert JournalIsTail(INITIAL, 0);
    } else {
      RunKeeps(steps[..|steps| - 1]);
      StepKeeps(Run(steps[..|steps| - 1]), steps[|steps| - 1]);
    }
  }

  // ---------------------------------------------------------------- results for any interleaving

  /** Over any run, no event after the listed version is lost to a watching client, and none is invented. */
  lemma NoEventLost(steps: seq<Step>)
    ensures Run(steps).client.Watching? ==> NothingLost(Run(steps))
  {
    RunKeeps(steps);
  }

  /** The entry of highest revision about one object, among those after a version. */
  function Newest(entries: seq<Entry>, version: int, key: Key): (newest: Option<Entry>)
    ensures newest.Some? ==>
              && newest.value in entries && newest.value.event.obj.key == key && newest.value.rev > version
    ensures forall e | e in entries && e.event.obj.key == key && e.rev > version ::
              newest.Some? && e.rev <= newest.value.rev
    decreases |entries|
  {
    if entries == [] then None
    else
      var rest, last := Newest(entries[..|entries| - 1], version, key), entries[|entries| - 1];
      if last.event.obj.key == key && last.rev > version && (rest.None? || last.rev > rest.value.rev)
        then Some(last) else rest
  }

  /** A client that keeps the newest version of each object and ignores what its list already covered. */
  function NewestView(client: Client, key: Key): Option<Object>
    requires client.Watching?
  {
    match Newest(client.received, client.version, key)
    case None => Get(client.objects, key)
    case Some(e) => Outcome(e.event)
  }

  lemma {:induction false} LatestIsNewest(entries: seq<Entry>, key: Key)
    requires Sorted(entries)
    ensures LatestOn(entries, key).Some? ==> LatestOn(entries, key).value in entries
    ensures forall e | e in entries && e.event.obj.key == key ::
              LatestOn(entries, key).Some? && e.rev <= LatestOn(entries, key).value.rev
    decreases |entries|
  {
    if entries != [] {
      var shorter, last := entries[..|entries| - 1], entries[|entries| - 1];
      LatestIsNewest(shorter, key);
      assert forall e | e in entries :: e in shorter || e == last;
      assert forall i | 0 <= i < |shorter| :: entries[i].rev < last.rev;
    }
  }

  /** A received set that covers one object's later history has the same newest entry as that history. */
  lemma SameNewest(history: seq<Entry>, received: seq<Entry>, version: int, key: Key)
    requires Sorted(history)
    requires forall e | e in received :: e in history
    requires forall e | e in After(history, version) && e.event.obj.key == key :: e in received
    ensures Newest(received, version, key) == LatestOn(After(history, version), key)
  {
    var later := After(history, version);
    var cut := AfterIsSuffix(history, version);
    assert Sorted(later);
    LatestIsNewest(later, key);
    var newest, latest := Newest(received, version, key), LatestOn(later, key);
    if newest.Some? {
      AfterMembers(history, version, newest.value);
    }
    if latest.Some? {
      AfterMembers(history, version, latest.value);
      SameRevSameEntry(history, latest.value, newest.value);
    }
  }

  lemma SameRevSameEntry(history: seq<Entry>, a: Entry, b: Entry)
    requires Sorted(history) && a in history && b in history && a.rev == b.rev
    ensures a == b
  {
    var i :| 0 <= i < |history| && history[i] == a;
    var j :| 0 <= j < |history| && history[j] == b;
    assert i == j;
  }

  /**
   Over any run, whatever the duplicates and the order of broadcasts: the newest-wins view of an object is
   the stored object as soon as no later broadcast about it is pending.
   */
  lemma NewestWinsAgrees(steps: seq<Step>, key: Key)
    requires Run(steps).client.Watching?
    requires forall e | e in Run(steps).pending :: e.event.obj.key == key ==> e.rev <= Run(steps).client.version
    ensures NewestView(Run(steps).client, key) == Get(Run(steps).shelf.objects, key)
  {
    RunKeeps(steps);
    var w := Run(steps);
    var version := w.client.version;
    forall e | e in After(w.history, version) && e.event.obj.key == key
      ensures e in w.client.received
    {
      AfterMembers(w.history, version, e);
    }
    SameNewest(w.history, w.client.received, version, key);
    LastEventDecides(w.client.objects, After(w.history, version), key);
  }

  // ---------------------------------------------------------------- applying events as they come

  /** A client that applies every event it receives, in order. */
  function NaiveView(client: Client): Objects
    requires client.Watching?
  {
    ApplyAll(client.objects, client.received)
  }

  /** Every broadcast is of the oldest pending entry: writers reach the broadcaster in commit order. */
  predicate InOrder(steps: seq<Step>) {
    forall i | 0 <= i < |steps| :: steps[i].Broadcast? ==> steps[i].i == 0
  }

  ghost predicate PendingIsTail(w: World, sent: nat) {
    sent <= |w.history| && w.pending == w.history[sent..]
  }

  /** The events received so far, followed by those still to come in order, lead to the current objects. */
  ghost predicate OnTrack(w: World) {
    && (exists sent: nat :: PendingIsTail(w, sent))
    && (w.client.Watching? ==> ApplyAll(w.client.objects, w.client.received + w.pending) == w.shelf.objects)
  }

  lemma CommitOnTrack(w: World, event: Event)
    requires OnTrack(w)
    ensures OnTrack(Committed(w, event))
  {
    var entry, after := Entry(w.rev + 1, event), Committed(w, event);
    var sent: nat :| PendingIsTail(w, sent);
    assert after.history[sent..] == w.history[sent..] + [entry];
    assert PendingIsTail(after, sent);
    if w.client.Watching? {
      ApplyAppend(w.client.objects, w.client.received + w.pending, entry);
      assert w.client.received + after.pending == w.client.received + w.pending + [entry];
    }
  }

  lemma MoveOver(received: seq<Entry>, next: Entry, rest: seq<Entry>)
    ensures received + [next] + rest == received + ([next] + rest)
  {
  }

  lemma BroadcastOnTrack(w: World)
    requires OnTrack(w) && w.pending != []
    ensures OnTrack(Sent(w, 0))
  {
    hide ApplyAll;
    var after := Sent(w, 0);
    var sent: nat :| PendingIsTail(w, sent);
    assert w.pending == [w.pending[0]] + w.pending[1..] && after.pending == w.pending[1..];
    assert PendingIsTail(after, sent + 1);
    if w.client.Watching? {
      MoveOver(w.client.received, w.pending[0], w.pending[1..]);
    }
  }

  lemma WatchOnTrack(w: World)
    requires OnTrack(w) && Inv(w) && w.client.Listed?
    ensures OnTrack(Started(w))
  {
    hide ApplyAll, After, Sorted, NothingLost, JournalIsTail;
    var after := Started(w);
    var sent: nat :| PendingIsTail(w, sent);
    assert PendingIsTail(after, sent);
    if after.client.Watching? {
      WatchStarts(w);
      ApplyConcat(w.client.objects, after.client.received, w.pending);
      assert w.history == w.history[..sent] + w.pending;
      ReplayTail(map[], w.history[..sent], w.pending);
    }
  }

  lemma StepOnTrack(w: World, step: Step)
    requires OnTrack(w) && Inv(w) && (step.Broadcast? ==> step.i == 0)
    ensures OnTrack(Next(w, step))
  {
    hide Inv, ApplyAll, Commit;
    match step
    case Write(op) =>
      var event := Emitted(w.shelf.objects, w.rev + 1, op);
      if event.Some? { CommitOnTrack(w, event.value); }
    case Broadcast(i) => if i < |w.pending| { BroadcastOnTrack(w); }
    case Watch => if w.client.Listed? { WatchOnTrack(w); }
    case _ =>
      var sent: nat :| PendingIsTail(w, sent);
      assert PendingIsTail(Next(w, step), sent);
  }

  lemma {:induction false} RunOnTrack(steps: seq<Step>)
    requires InOrder(steps)
    ensures OnTrack(Run(steps))
    decreases |steps|
  {
    if steps == [] {
      assert PendingIsTail(INITIAL, 0);
    } else {
      var earlier := steps[..|steps| - 1];
      RunOnTrack(earlier);
      RunKeeps(earlier);
      StepOnTrack(Run(earlier), steps[|steps| - 1]);
    }
  }

  /** With broadcasts in commit order, applying events as they come ends at the current objects. */
  lemma InOrderAgrees(steps: seq<Step>)
    requires InOrder(steps) && Run(steps).client.Watching? && Run(steps).pending == []
    ensures NaiveView(Run(steps).client) == Run(steps).shelf.objects
  {
    RunOnTrack(steps);
    assert Run(steps).client.received + [] == Run(steps).client.received;
  }

  /** What a client last received about an object is its newest event, or both are deletions. */
  ghost predicate NotOvertaken(w: World, key: Key)
    requires w.client.Watching?
  {
    var last, newest := LatestOn(w.client.received, key), LatestOn(w.history, key);
    last.Some? ==> last == newest || (newest.Some? && last.value.event.kind == newest.value.event.kind == Deleted)
  }

  lemma NaiveAgreesOn(w: World, key: Key)
    requires Inv(w) && w.client.Watching? && w.pending == []
    ensures Get(NaiveView(w.client), key) == Get(w.shelf.objects, key) <==> NotOvertaken(w, key)
  {
    var last, newest := LatestOn(w.client.received, key), LatestOn(w.history, key);
    LastEventDecides(w.client.objects, w.client.received, key);
    LastEventDecides(map[], w.history, key);
    if last.Some? {
      LatestOccurs(w.client.received, key);
      LatestIsNewest(w.history, key);
      if last != newest && last.value.rev == newest.value.rev {
        SameRevSameEntry(w.history, last.value, newest.value);
      }
    } else {
      LastEventDecides(w.client.objects, After(w.history, w.client.version), key);
      if LatestOn(After(w.history, w.client.version), key).Some? {
        LatestOccurs(After(w.history, w.client.version), key);
        NothingReceived(w.client.received, key);
      }
    }
  }

  lemma {:induction false} LatestOccurs(entries: seq<Entry>, key: Key)
    requires LatestOn(entries, key).Some?
    ensures LatestOn(entries, key).value in entries
    decreases |entries|
  {
    if entries[|entries| - 1].event.obj.key != key {
      LatestOccurs(entries[..|entries| - 1], key);
    }
  }

  lemma {:induction false} NothingReceived(entries: seq<Entry>, key: Key)
    requires LatestOn(entries, key).None?
    ensures forall e | e in entries :: e.event.obj.key != key
    decreases |entries|
  {
    if entries != [] {
      NothingReceived(entries[..|entries| - 1], key);
      assert forall e | e in entries :: e in entries[..|entries| - 1] || e == entries[|entries| - 1];
    }
  }

  /**
   Over any run, once nothing is pending, applying events as they come is right exactly when no object's last
   event was overtaken.
   */
  lemma NaiveAgreesExactly(steps: seq<Step>)
    requires Run(steps).client.Watching? && Run(steps).pending == []
    ensures NaiveView(Run(steps).client) == Run(steps).shelf.objects <==> forall key :: NotOvertaken(Run(steps), key)
  {
    RunKeeps(steps);
    var w := Run(steps);
    forall key
      ensures Get(NaiveView(w.client), key) == Get(w.shelf.objects, key) <==> NotOvertaken(w, key)
    {
      NaiveAgreesOn(w, key);
    }
    if forall key :: NotOvertaken(w, key) {
      ObjectsEqual(NaiveView(w.client), w.shelf.objects);
    }
  }

  const SAMPLE_KEY := Key("ns", "a")
  const SAMPLE := Object(SAMPLE_KEY, NoUid, None, Unset, 0, [], None, "")

  /** An object is created and deleted, and the broadcast of the creation comes last. */
  const OVERTAKING := [Write(Create(SAMPLE, 0)), Write(Delete(SAMPLE_KEY, 0)), Broadcast(1), List, Watch, Broadcast(0)]

  lemma RunOn(steps: seq<Step>, step: Step)
    ensures Run(steps + [step]) == Next(Run(steps), step)
  {
    assert (steps + [step])[..|steps|] == steps;
  }

  lemma OvertakingUnfolds()
    ensures Run(OVERTAKING) ==
            Next(Next(Next(Next(Next(Next(INITIAL, OVERTAKING[0]), OVERTAKING[1]), OVERTAKING[2]), OVERTAKING[3]),
              OVERTAKING[4]), OVERTAKING[5])
  {
    hide Next;
    forall i | 0 <= i < 6
      ensures Run(OVERTAKING[..i + 1]) == Next(Run(OVERTAKING[..i]), OVERTAKING[i])
    {
      assert OVERTAKING[..i + 1] == OVERTAKING[..i] + [OVERTAKING[i]];
      RunOn(OVERTAKING[..i], OVERTAKING[i]);
    }
    assert OVERTAKING[..6] == OVERTAKING;
  }

  const STORED := SAMPLE.(created := Some(0), uid := Minted("a", 1), version := At(1), generation := 1)
  const CREATION := Entry(1, Event(Added, STORED))
  const DELETION := Entry(2, Event(Deleted, STORED.(version := At(2))))
  const EMPTIED := Shelf(map[], [CREATION, DELETION], 0)

  lemma OvertakingWrites()
    ensures Next(Next(INITIAL, OVERTAKING[0]), OVERTAKING[1])
            == World(EMPTIED, 2, [CREATION, DELETION], [CREATION, DELETION], Unlisted)
  {
    assert Next(INITIAL, OVERTAKING[0])
           == World(Shelf(map[SAMPLE_KEY := STORED], [CREATION], 0), 1, [CREATION], [CREATION], Unlisted);
  }

  lemma OvertakingWatches(w: World)
    requires w == World(EMPTIED, 2, [CREATION, DELETION], [CREATION, DELETION], Unlisted)
    ensures Next(Next(Next(w, OVERTAKING[2]), OVERTAKING[3]), OVERTAKING[4])
            == World(EMPTIED, 2, [CREATION, DELETION], [CREATION], Watching(map[], 2, []))
  {
    var sent := World(EMPTIED, 2, [CREATION, DELETION], [CREATION], Unlisted);
    assert Next(w, OVERTAKING[2]) == sent;
    NoneAfter([CREATION, DELETION], 2);
  }

  /** Out of commit order, a client that applies events as they come can keep a deleted object for good. */
  lemma OvertakingResurrects()
    ensures var w := Run(OVERTAKING);
            && w.client.Watching? && w.pending == []
            && w.shelf.objects == map[]
            && SAMPLE_KEY in NaiveView(w.client)
            && NewestView(w.client, SAMPLE_KEY) == None
  {
    OvertakingUnfolds();
    OvertakingWrites();
    OvertakingWatches(World(EMPTIED, 2, [CREATION, DELETION], [CREATION, DELETION], Unlisted));
    var w := World(EMPTIED, 2, [CREATION, DELETION], [CREATION], Watching(map[], 2, []));
    assert w.pending[..0] + w.pending[1..] == [] && [] + [CREATION] == [CREATION];
    assert Next(w, OVERTAKING[5]) == World(EMPTIED, 2, [CREATION, DELETION], [], Watching(map[], 2, [CREATION]));
    ApplyAppend(map[], [], CREATION);
  }

  // ---------------------------------------------------------------- optimistic concurrency

  lemma {:induction false} HistoryGrows(steps: seq<Step>, more: seq<Step>)
    ensures IsPrefix(Run(steps).history, Run(steps + more).history)
    decreases |more|
  {
    if more == [] {
      assert steps + more == steps;
    } else {
      var mid := steps + more[..|more| - 1];
      HistoryGrows(steps, more[..|more| - 1]);
      assert steps + more == mid + [more[|more| - 1]];
      RunOn(mid, more[|more| - 1]);
      PrefixTransitive(Run(steps).history, Run(mid).history, Run(steps + more).history);
    }
  }

  /** A stored object is what the newest entry about it left, under that entry's version. */
  lemma StoredIsNewest(w: World, key: Key)
    requires HistoryOk(w) && key in w.shelf.objects
    ensures var newest := LatestOn(w.history, key);
            newest.Some? && newest.value in w.history && w.shelf.objects[key] == newest.value.event.obj
            && w.shelf.objects[key].version == At(newest.value.rev)
  {
    LastEventDecides(map[], w.history, key);
    LatestOccurs(w.history, key);
  }

  /**
   Versions are never reused: an update that carries the version at which its writer read the object succeeds
   only while that very object is still stored, whatever was written, deleted and created again in between.
   */
  lemma UpdateComparesAndSwaps(steps: seq<Step>, more: seq<Step>, obj: Object)
    requires obj.key in Run(steps).shelf.objects && obj.version == Run(steps).shelf.objects[obj.key].version
    requires UpdateEvent(Run(steps + more).shelf.objects, Run(steps + more).rev + 1, obj).Ok?
    ensures Run(steps + more).shelf.objects[obj.key] == Run(steps).shelf.objects[obj.key]
  {
    hide Run, ApplyAll, ClientOk, JournalIsTail;
    RunKeeps(steps);
    RunKeeps(steps + more);
    HistoryGrows(steps, more);
    var before, after := Run(steps), Run(steps + more);
    StoredIsNewest(before, obj.key);
    StoredIsNewest(after, obj.key);
    var a, b := LatestOn(before.history, obj.key).value, LatestOn(after.history, obj.key).value;
    assert a in after.history;
    SameRevSameEntry(after.history, a, b);
  }

  /** No single step changes the uid or creation time of an object, or removes one that has finalizers. */
  lemma StepKeepsIdentity(steps: seq<Step>, step: Step, key: Key)
    requires key in Run(steps).shelf.objects
    ensures var before, after := Run(steps).shelf.objects[key], Next(Run(steps), step).shelf.objects;
            if key in after then after[key].uid == before.uid && after[key].created == before.created
            else before.finalizers == []
  {
    hide Run;
    var w := Run(steps);
    if step.Write? {
      RunKeeps(steps);
      if step.op.Delete? && step.op.key in w.shelf.objects {
        KeyedByName(w, step.op.key);
      }
    }
  }

  lemma KeyedByName(w: World, key: Key)
    requires HistoryOk(w) && key in w.shelf.objects
    ensures w.shelf.objects[key].key == key
  {
    StoredIsNewest(w, key);
  }

  // ---------------------------------------------------------------- what a write leaves behind

  /** What a write asks for, in the terms of its caller: one event, or nothing. */
  ghost predicate Asks(before: Objects, rev: nat, op: Op, asked: Option<Event>) {
    match op
    case Create(obj, now) =>
      if obj.key in before then asked == None
      else asked == Some(Event(Added, Object(obj.key, if obj.uid == NoUid then Minted(obj.key.name, rev) else obj.uid,
        Some(if obj.created.None? then now else obj.created.value), At(rev),
        if obj.generation == 0 then 1 else obj.generation, obj.finalizers, obj.deletion, obj.body)))
    case Update(obj) =>
      if obj.key !in before || (obj.version != Unset && obj.version != before[obj.key].version) then asked == None
      else asked == Some(Event(Modified, Object(obj.key, before[obj.key].uid, before[obj.key].created, At(rev),
        if obj.generation == 0 then before[obj.key].generation else obj.generation,
        obj.finalizers, obj.deletion, obj.body)))
    case Delete(key, now) =>
      if key !in before || (before[key].finalizers != [] && before[key].deletion.Some?) then asked == None
      else
        var b := before[key];
        asked == Some(if b.finalizers == []
          then Event(Deleted, Object(key, b.uid, b.created, At(rev), b.generation, [], b.deletion, b.body))
          else Event(Modified, Object(key, b.uid, b.created, At(rev), b.generation, b.finalizers, Some(now), b.body)))
  }

  /**
   After any run, a write commits exactly the event its caller asked for, and a list at once returns what was
   stored with that object put in or taken out and every other object as it was. A write that asks for nothing
   takes no revision and leaves everything alone.
   */
  lemma WriteThenList(steps: seq<Step>, op: Op) returns (asked: Option<Event>)
    ensures var w, end := Run(steps), Run(steps + [Write(op)] + [List]);
            && Asks(w.shelf.objects, w.rev + 1, op, asked)
            && end.client == Listed(end.shelf.objects, end.rev)
            && (asked.None? ==> end == w.(client := end.client))
            && (asked.Some? ==>
                  var e := asked.value;
                  && end.rev == w.rev + 1 && end.history == w.history + [Entry(w.rev + 1, e)]
                  && e.obj.key == (if op.Delete? then op.key else op.obj.key)
                  && end.client.objects ==
                     if e.kind == Deleted then w.shelf.objects - {e.obj.key} else w.shelf.objects[e.obj.key := e.obj])
  {
    hide Run;
    RunOn(steps, Write(op));
    RunOn(steps + [Write(op)], List);
    RunKeeps(steps);
    var w := Run(steps);
    asked := Emitted(w.shelf.objects, w.rev + 1, op);
    if op.Delete? && op.key in w.shelf.objects {
      KeyedByName(w, op.key);
    }
  }

  // ---------------------------------------------------------------- when a watch expires

  /** The journal still holds an entry at or before a version. */
  ghost predicate Covers(journal: seq<Entry>, version: int) {
    exists i | 0 <= i < |journal| :: journal[i].rev <= version
  }

  /** A watch from the version goes on without a gap, as far as the store can tell. */
  ghost predicate Continuous(w: World, version: int) {
    && w.shelf.compactedThrough <= version
    && (version == w.rev || Covers(w.shelf.journal, version))
  }

  /**
   Over any run and for any version, what a watch is answered: it lies in the future, or it is continuous and
   starts with exactly the entries committed since, or it has expired.
   */
  lemma WatchAnswer(steps: seq<Step>, version: int)
    ensures var w := Run(steps);
            WatchPrefix(w.shelf, w.rev, version) ==
            if version > w.rev then Err(Future)
            else if Continuous(w, version) then Ok(After(w.history, version))
            else Err(Expired)
  {
    hide Run, ApplyAll, After, ClientOk;
    RunKeeps(steps);
    var w := Run(steps);
    var cut: nat :| JournalIsTail(w, cut);
    assert forall i | 0 <= i < |w.shelf.journal| :: w.shelf.journal[i] == w.history[cut + i];
    if version >= w.shelf.compactedThrough {
      JournalSuffices(w, version);
    }
  }

  /**
   Over any run, a client that has listed starts its watch exactly when its version is continuous, with the
   entries committed since, which turn the listed objects into the current ones; otherwise it has expired.
   */
  lemma ListThenWatch(steps: seq<Step>)
    requires Run(steps).client.Listed?
    ensures var w := Run(steps);
            var r := WatchPrefix(w.shelf, w.rev, w.client.version);
            if Continuous(w, w.client.version) then
              && r == Ok(After(w.history, w.client.version))
              && ApplyAll(w.client.objects, r.value) == w.shelf.objects
            else r == Err(Expired)
  {
    RunKeeps(steps);
    WatchAnswer(steps, Run(steps).client.version);
  }

  /** A watch expires although nothing was ever compacted: from the version of an empty list, after one write. */
  lemma UncompactedExpires()
    ensures var w := Run([List] + [Write(Create(SAMPLE, 0))]);
            && w.client == Listed(map[], 0) && w.shelf.compactedThrough == 0
            && WatchPrefix(w.shelf, w.rev, w.client.version) == Err(Expired)
  {
    assert [] + [List] == [List];
    RunOn([], List);
    RunOn([List], Write(Create(SAMPLE, 0)));
  }

  /** No compaction of the run went past the revision of its moment. */
  ghost predicate NeverAhead(steps: seq<Step>) {
    forall i | 0 <= i < |steps| && steps[i].Compact? :: steps[i].through <= Run(steps[..i]).rev
  }

  /** Everything in the journal lies beyond the horizon, which lies in the past. */
  ghost predicate HorizonBehind(w: World) {
    && w.shelf.compactedThrough <= w.rev
    && forall i | 0 <= i < |w.shelf.journal| :: w.shelf.journal[i].rev > w.shelf.compactedThrough
  }

  lemma {:induction false} AfterWithin(entries: seq<Entry>, version: int)
    ensures forall i | 0 <= i < |After(entries, version)| ::
              After(entries, version)[i].rev > version && After(entries, version)[i] in entries
    decreases |entries|
  {
    if entries != [] {
      AfterWithin(entries[..|entries| - 1], version);
    }
  }

  lemma {:induction false} HorizonStaysBehind(steps: seq<Step>)
    requires NeverAhead(steps)
    ensures HorizonBehind(Run(steps))
    decreases |steps|
  {
    if steps != [] {
      var earlier, step := steps[..|steps| - 1], steps[|steps| - 1];
      forall i | 0 <= i < |earlier| && earlier[i].Compact?
        ensures earlier[i].through <= Run(earlier[..i]).rev
      {
        assert earlier[..i] == steps[..i];
      }
      HorizonStaysBehind(earlier);
      if step.Compact? {
        AfterWithin(Run(earlier).shelf.journal, step.through);
      }
    }
  }

  /**
   Over any run, a watch from the horizon or before it expires, except from the horizon itself where that is
   still continuous.
   */
  lemma HorizonAnswer(steps: seq<Step>, version: int)
    requires var w := Run(steps); version <= w.shelf.compactedThrough <= w.rev
    ensures var w := Run(steps);
            WatchPrefix(w.shelf, w.rev, version).Ok? <==>
              version == w.shelf.compactedThrough && (version == w.rev || Covers(w.shelf.journal, version))
  {
    WatchAnswer(steps, version);
  }

  /**
   Where no compaction ran ahead, a watch from the horizon or before it expires unless nothing at all was
   written since.
   */
  lemma HorizonExpires(steps: seq<Step>, version: int)
    requires NeverAhead(steps) && version <= Run(steps).shelf.compactedThrough
    ensures var w := Run(steps);
            WatchPrefix(w.shelf, w.rev, version).Ok? <==> version == w.shelf.compactedThrough == w.rev
  {
    HorizonStaysBehind(steps);
    WatchAnswer(steps, version);
  }

  /** The horizon does not expire while it is the latest revision. */
  lemma LatestHorizonWatches()
    ensures var w := Run([Write(Create(SAMPLE, 0))] + [Compact(1)]);
            w.shelf.compactedThrough == 1 && WatchPrefix(w.shelf, w.rev, 1) == Ok([])
  {
    assert [] + [Write(Create(SAMPLE, 0))] == [Write(Create(SAMPLE, 0))];
    RunOn([], Write(Create(SAMPLE, 0)));
    RunOn([Write(Create(SAMPLE, 0))], Compact(1));
    NoneAfter(Run([Write(Create(SAMPLE, 0))]).shelf.journal, 1);
  }

  const OTHER := SAMPLE.(key := Key("ns", "b"))
  const THIRD := SAMPLE.(key := Key("ns", "c"))
  const AHEAD := [Compact(2)] + [Write(Create(SAMPLE, 0))] + [Write(Create(OTHER, 0))] + [Write(Create(THIRD, 0))]

  /** After a compaction into the future the horizon does not expire either, though more was written since. */
  lemma HorizonAheadWatches()
    ensures var w := Run(AHEAD); w.shelf.compactedThrough == 2 < w.rev && WatchPrefix(w.shelf, w.rev, 2).Ok?
  {
    var s1 := [Compact(2)];
    var s2 := s1 + [Write(Create(SAMPLE, 0))];
    var s3 := s2 + [Write(Create(OTHER, 0))];
    assert [] + s1 == s1;
    RunOn([], Compact(2));
    RunOn(s1, Write(Create(SAMPLE, 0)));
    RunOn(s2, Write(Create(OTHER, 0)));
    RunOn(s3, Write(Create(THIRD, 0)));
    assert OTHER.key != SAMPLE.key && THIRD.key != SAMPLE.key && THIRD.key != OTHER.key by {
      assert "b"[0] != "a"[0] && "c"[0] != "a"[0] && "c"[0] != "b"[0];
    }
  }

  /** Listing and watching at once works in every reachable state unless the store was compacted into the future. */
  lemma RelistRecovers(steps: seq<Step>)
    ensures var w := Run(steps + [List]);
            WatchPrefix(w.shelf, w.rev, w.rev).Ok? <==> w.shelf.compactedThrough <= w.rev
  {
    RunKeeps(steps + [List]);
    var w := Run(steps + [List]);
    var cut: nat :| JournalIsTail(w, cut);
    if w.shelf.journal != [] {
      assert w.shelf.journal[0] == w.history[cut];
    }
  }
}
