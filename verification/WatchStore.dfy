/**
 The in-memory object store with list/watch semantics: a resourceVersion journal per kind, compaction,
 and optimistic concurrency (poc/fleetshift-controller-runtime/store/store.go).
 */
module WatchStore {
  import opened Common

  datatype Key = Key(namespace: string, name: string)

  /** A resourceVersion as text: absent, the decimal of a sequence number, or anything else. */
  datatype Version = Unset | At(rev: nat) | Other(text: string)

  datatype Uid = NoUid | Given(text: string) | Minted(name: string, rev: nat)

  datatype Object = Object(key: Key, uid: Uid, created: Option<int>, version: Version, generation: int,
                           finalizers: seq<string>, deletion: Option<int>, body: string)

  datatype Kind = Added | Modified | Deleted
  datatype Event = Event(kind: Kind, obj: Object)
  datatype Entry = Entry(rev: nat, event: Event)

  type Objects = map<Key, Object>

  /** What the store keeps for one kind of object. */
  datatype Shelf = Shelf(objects: Objects, journal: seq<Entry>, compactedThrough: int)

  const EMPTY_SHELF := Shelf(map[], [], 0)

  datatype StoreError = NotFound | AlreadyExists | Conflict | Future | Expired

  // ---------------------------------------------------------------- what a write emits

  function CreateEvent(objects: Objects, rev: nat, obj: Object, now: int): Result<Event, StoreError> {
    if obj.key in objects then Err(AlreadyExists)
    else Ok(Event(Added, obj.(
      created := if obj.created.None? then Some(now) else obj.created,
      uid := if obj.uid.NoUid? then Minted(obj.key.name, rev) else obj.uid,
      version := At(rev),
      generation := if obj.generation == 0 then 1 else obj.generation)))
  }

  function UpdateEvent(objects: Objects, rev: nat, obj: Object): Result<Event, StoreError> {
    if obj.key !in objects then Err(NotFound)
    else
      var existing := objects[obj.key];
      if !obj.version.Unset? && obj.version != existing.version then Err(Conflict)
      else Ok(Event(Modified, obj.(
        uid := existing.uid, created := existing.created, version := At(rev),
        generation := if obj.generation == 0 then existing.generation else obj.generation)))
  }

  /** A deletion that waits for finalizers marks the object once, and then emits nothing. */
  function DeleteEvent(objects: Objects, rev: nat, key: Key, now: int): Result<Option<Event>, StoreError> {
    if key !in objects then Err(NotFound)
    else
      var existing := objects[key];
      if existing.finalizers == [] then Ok(Some(Event(Deleted, existing.(version := At(rev)))))
      else if existing.deletion.None? then Ok(Some(Event(Modified,
        existing.(deletion := Some(now), version := At(rev)))))
      else Ok(None)
  }

  /** What a caller writes, apart from what the store sets itself. */
  predicate SameContent(stored: Object, obj: Object) {
    && stored.key == obj.key && stored.finalizers == obj.finalizers
    && stored.deletion == obj.deletion && stored.body == obj.body
  }

  function Apply(objects: Objects, e: Event): Objects {
    if e.kind == Deleted then objects - {e.obj.key} else objects[e.obj.key := e.obj]
  }

  function Commit(shelf: Shelf, entry: Entry): Shelf {
    shelf.(objects := Apply(shelf.objects, entry.event), journal := shelf.journal + [entry])
  }

  /** The entries after a version. */
  function After(entries: seq<Entry>, version: int): (later: seq<Entry>)
    ensures |later| <= |entries|
    decreases |entries|
  {
    if entries == [] then []
    else
      var last := entries[|entries| - 1];
      After(entries[..|entries| - 1], version) + if last.rev > version then [last] else []
  }

  function Compacted(shelf: Shelf, through: int): Shelf {
    shelf.(journal := After(shelf.journal, through),
           compactedThrough := if through > shelf.compactedThrough then through else shelf.compactedThrough)
  }

  /** The events a watch from `version` starts with. */
  function WatchPrefix(shelf: Shelf, current: nat, version: int): Result<seq<Entry>, StoreError> {
    if version > current then Err(Future)
    else if version < shelf.compactedThrough then Err(Expired)
    else if shelf.journal == [] then (if version < current then Err(Expired) else Ok([]))
    else if version < shelf.journal[0].rev then Err(Expired)
    else Ok(After(shelf.journal, version))
  }

  // ---------------------------------------------------------------- the store

  datatype Journal = Journal(entries: seq<Entry>, compactedThrough: int)

  class Store {
    var objects: map<string, Objects>
    var seqNo: nat
    var watches: map<string, Journal>

    constructor ()
      ensures seqNo == 0 && forall gvk :: Of(gvk) == EMPTY_SHELF
    {
      objects, seqNo, watches := map[], 0, map[];
    }

    function ObjectsOf(gvk: string): Objects
      reads this
    {
      if gvk in objects then objects[gvk] else map[]
    }

    function WatchOf(gvk: string): Journal
      reads this
    {
      if gvk in watches then watches[gvk] else Journal([], 0)
    }

    function Of(gvk: string): Shelf
      reads this
    {
      Shelf(ObjectsOf(gvk), WatchOf(gvk).entries, WatchOf(gvk).compactedThrough)
    }

    /** Nothing but one kind's shelf changed. */
    twostate predicate OnlyChanges(gvk: string)
      reads this
    {
      forall g | g != gvk :: Of(g) == old(Of(g))
    }

    method Record(gvk: string, event: Event)
      modifies this
      ensures seqNo == old(seqNo) + 1 && OnlyChanges(gvk)
      ensures Of(gvk) == Commit(old(Of(gvk)), Entry(seqNo, event))
    {
      seqNo := seqNo + 1;
      objects := objects[gvk := Apply(ObjectsOf(gvk), event)];
      var w := WatchOf(gvk);
      watches := watches[gvk := w.(entries := w.entries + [Entry(seqNo, event)])];
    }

    method Create(gvk: string, obj: Object, now: int) returns (r: Result<Event, StoreError>)
      modifies this
      ensures r == CreateEvent(old(Of(gvk)).objects, old(seqNo) + 1, obj, now)
      ensures r == Err(AlreadyExists) <==> obj.key in old(Of(gvk)).objects
      ensures r.Err? <==> r == Err(AlreadyExists)
      ensures r.Ok? ==> Of(gvk).objects == old(Of(gvk)).objects[obj.key := r.value.obj] && r.value.kind == Added
      ensures r.Ok? ==> SameContent(r.value.obj, obj) && r.value.obj.version == At(seqNo)
      ensures r.Ok? ==> r.value.obj.created == Some(if obj.created.Some? then obj.created.value else now)
      ensures r.Ok? ==> r.value.obj.uid == if obj.uid != NoUid then obj.uid else Minted(obj.key.name, seqNo)
      ensures r.Ok? ==> r.value.obj.generation == if obj.generation != 0 then obj.generation else 1
      ensures OnlyChanges(gvk)
      ensures r.Ok? ==> seqNo == old(seqNo) + 1 && Of(gvk) == Commit(old(Of(gvk)), Entry(seqNo, r.value))
      ensures r.Err? ==> unchanged(this)
    {
      if obj.key in ObjectsOf(gvk) {
        return Err(AlreadyExists);
      }
      var stored := obj.(version := At(seqNo + 1));
      if stored.created.None? {
        stored := stored.(created := Some(now));
      }
      if stored.uid.NoUid? {
        stored := stored.(uid := Minted(obj.key.name, seqNo + 1));
      }
      if stored.generation == 0 {
        stored := stored.(generation := 1);
      }
      Record(gvk, Event(Added, stored));
      return Ok(Event(Added, stored));
    }

    method Update(gvk: string, obj: Object) returns (r: Result<Event, StoreError>)
      modifies this
      ensures r == UpdateEvent(old(Of(gvk)).objects, old(seqNo) + 1, obj)
      ensures r == Err(NotFound) <==> obj.key !in old(Of(gvk)).objects
      ensures r == Err(Conflict) <==>
                (&& obj.key in old(Of(gvk)).objects && obj.version != Unset
                 && obj.version != old(Of(gvk)).objects[obj.key].version)
      ensures r.Err? <==> r == Err(NotFound) || r == Err(Conflict)
      ensures r.Ok? ==> Of(gvk).objects == old(Of(gvk)).objects[obj.key := r.value.obj] && r.value.kind == Modified
      ensures r.Ok? ==> SameContent(r.value.obj, obj) && r.value.obj.version == At(seqNo)
      ensures r.Ok? ==>
                var existing := old(Of(gvk)).objects[obj.key];
                && r.value.obj.uid == existing.uid && r.value.obj.created == existing.created
                && r.value.obj.generation == if obj.generation != 0 then obj.generation else existing.generation
      ensures OnlyChanges(gvk)
      ensures r.Ok? ==> seqNo == old(seqNo) + 1 && Of(gvk) == Commit(old(Of(gvk)), Entry(seqNo, r.value))
      ensures r.Err? ==> unchanged(this)
    {
      var byKey := ObjectsOf(gvk);
      if obj.key !in byKey {
        return Err(NotFound);
      }
      var existing := byKey[obj.key];
      if obj.version != Unset && obj.version != existing.version {
        return Err(Conflict);
      }
      var stored := obj.(uid := existing.uid, created := existing.created, version := At(seqNo + 1));
      if stored.generation == 0 {
        stored := stored.(generation := existing.generation);
      }
      Record(gvk, Event(Modified, stored));
      return Ok(Event(Modified, stored));
    }

    method Delete(gvk: string, key: Key, now: int) returns (r: Result<Option<Event>, StoreError>)
      modifies this
      ensures r == DeleteEvent(old(Of(gvk)).objects, old(seqNo) + 1, key, now)
      ensures r == Err(NotFound) <==> key !in old(Of(gvk)).objects
      ensures r.Err? <==> r == Err(NotFound)
      ensures r.Ok? ==>
                var existing := old(Of(gvk)).objects[key];
                && (r.value.None? <==> existing.finalizers != [] && existing.deletion.Some?)
                && (existing.finalizers == [] ==>
                      r.value == Some(Event(Deleted, existing.(version := At(seqNo)))))
                && (existing.finalizers != [] && existing.deletion.None? ==>
                      r.value == Some(Event(Modified, existing.(deletion := Some(now), version := At(seqNo)))))
      ensures OnlyChanges(gvk)
      ensures r.Ok? && r.value.Some? ==>
                seqNo == old(seqNo) + 1 && Of(gvk) == Commit(old(Of(gvk)), Entry(seqNo, r.value.value))
      ensures r.Err? || r.value.None? ==> unchanged(this)
    {
      var byKey := ObjectsOf(gvk);
      if key !in byKey {
        return Err(NotFound);
      }
      var existing := byKey[key];
      var event := Event(Deleted, existing.(version := At(seqNo + 1)));
      if existing.finalizers != [] {
        if existing.deletion.Some? {
          return Ok(None);
        }
        event := Event(Modified, existing.(deletion := Some(now), version := At(seqNo + 1)));
      }
      Record(gvk, event);
      return Ok(Some(event));
    }

    /** The objects of one kind, in one namespace or all of them, and the version to watch from. */
    method List(gvk: string, namespace: string) returns (listed: Objects, version: nat)
      ensures listed == (map k | k in Of(gvk).objects && (namespace == "" || k.namespace == namespace) ::
                Of(gvk).objects[k])
      ensures namespace == "" ==> listed == Of(gvk).objects
      ensures version == seqNo
    {
      var byKey := ObjectsOf(gvk);
      listed := map[];
      var rest := byKey.Keys;
      while rest != {}
        invariant rest <= byKey.Keys
        invariant listed == map k | k in byKey && k !in rest && (namespace == "" || k.namespace == namespace) ::
                    byKey[k]
      {
        var k :| k in rest;
        if namespace == "" || k.namespace == namespace {
          listed := listed[k := byKey[k]];
        }
        rest := rest - {k};
      }
      return listed, seqNo;
    }

    method WatchMeta(gvk: string, version: int) returns (r: Result<seq<Entry>, StoreError>)
      ensures r == WatchPrefix(Of(gvk), seqNo, version)
    {
      var w := WatchOf(gvk);
      if version > seqNo {
        return Err(Future);
      }
      if version < w.compactedThrough {
        return Err(Expired);
      }
      if |w.entries| == 0 {
        if version < seqNo {
          return Err(Expired);
        }
        return Ok([]);
      }
      if version < w.entries[0].rev {
        return Err(Expired);
      }
      var prefix := Filter(w.entries, version);
      return Ok(prefix);
    }

    method Compact(gvk: string, through: int)
      modifies this
      ensures seqNo == old(seqNo) && OnlyChanges(gvk)
      ensures Of(gvk) == Compacted(old(Of(gvk)), through)
    {
      var w := WatchOf(gvk);
      if through > w.compactedThrough {
        w := w.(compactedThrough := through);
      }
      var kept := Filter(w.entries, through);
      watches := watches[gvk := w.(entries := kept)];
    }
  }

  /** One pass over a journal, keeping the entries after a version. */
  method Filter(journal: seq<Entry>, version: int) returns (kept: seq<Entry>)
    ensures kept == After(journal, version)
  {
    kept := [];
    var i := 0;
    while i < |journal|
      invariant 0 <= i <= |journal| && kept == After(journal[..i], version)
    {
      assert journal[..i + 1][..i] == journal[..i];
      if journal[i].rev > version {
        kept := kept + [journal[i]];
      }
      i := i + 1;
    }
    assert journal[..i] == journal;
  }

  // ---------------------------------------------------------------- replaying histories

  predicate Sorted(entries: seq<Entry>) {
    forall i, j | 0 <= i < j < |entries| :: entries[i].rev < entries[j].rev
  }

  function ApplyAll(objects: Objects, entries: seq<Entry>): Objects
    decreases |entries|
  {
    if entries == [] then objects
    else Apply(ApplyAll(objects, entries[..|entries| - 1]), entries[|entries| - 1].event)
  }

  lemma {:induction false} ApplyConcat(objects: Objects, a: seq<Entry>, b: seq<Entry>)
    ensures ApplyAll(objects, a + b) == ApplyAll(ApplyAll(objects, a), b)
    decreases |b|
  {
    if b == [] {
      assert a + b == a;
    } else {
      var shorter := b[..|b| - 1];
      assert (a + b)[..|a + b| - 1] == a + shorter;
      ApplyConcat(objects, a, shorter);
    }
  }

  lemma {:induction false} NoneAfter(entries: seq<Entry>, version: int)
    requires forall i | 0 <= i < |entries| :: entries[i].rev <= version
    ensures After(entries, version) == []
    decreases |entries|
  {
    if entries != [] {
      NoneAfter(entries[..|entries| - 1], version);
    }
  }

  /** In a sorted history the entries after a version are a suffix. */
  lemma {:induction false} AfterIsSuffix(entries: seq<Entry>, version: int) returns (cut: nat)
    requires Sorted(entries)
    ensures cut <= |entries| && After(entries, version) == entries[cut..]
    ensures forall i | 0 <= i < |entries| :: entries[i].rev > version <==> i >= cut
    decreases |entries|
  {
    if entries == [] {
      cut := 0;
    } else if entries[|entries| - 1].rev <= version {
      NoneAfter(entries, version);
      cut := |entries|;
    } else {
      var shorter, last := entries[..|entries| - 1], entries[|entries| - 1];
      cut := AfterIsSuffix(shorter, version);
      assert entries[cut..] == shorter[cut..] + [last];
      assert forall i | 0 <= i < |shorter| :: entries[i] == shorter[i];
    }
  }

  /** The last entry about one object. */
  function LatestOn(entries: seq<Entry>, key: Key): (e: Option<Entry>)
    ensures e.Some? ==> e.value.event.obj.key == key
    decreases |entries|
  {
    if entries == [] then None
    else if entries[|entries| - 1].event.obj.key == key then Some(entries[|entries| - 1])
    else LatestOn(entries[..|entries| - 1], key)
  }

  function Get(objects: Objects, key: Key): Option<Object> {
    if key in objects then Some(objects[key]) else None
  }

  /** The object that an event leaves behind. */
  function Outcome(e: Event): Option<Object> {
    if e.kind == Deleted then None else Some(e.obj)
  }

  /** After any sequence of events, each object is as its own last event left it. */
  lemma {:induction false} LastEventDecides(objects: Objects, entries: seq<Entry>, key: Key)
    ensures Get(ApplyAll(objects, entries), key) ==
            match LatestOn(entries, key) case None => Get(objects, key) case Some(e) => Outcome(e.event)
    decreases |entries|
  {
    if entries != [] {
      LastEventDecides(objects, entries[..|entries| - 1], key);
    }
  }

  lemma {:induction false} LatestOfConcat(a: seq<Entry>, b: seq<Entry>, key: Key)
    ensures LatestOn(a + b, key) == if LatestOn(b, key).Some? then LatestOn(b, key) else LatestOn(a, key)
    decreases |b|
  {
    if b == [] {
      assert a + b == a;
    } else {
      assert (a + b)[..|a + b| - 1] == a + b[..|b| - 1];
      LatestOfConcat(a, b[..|b| - 1], key);
    }
  }

  lemma ObjectsEqual(a: Objects, b: Objects)
    requires forall key :: Get(a, key) == Get(b, key)
    ensures a == b
  {
    assert forall key :: key in a <==> Get(a, key).Some?;
    assert forall key :: key in b <==> Get(b, key).Some?;
    assert forall key | key in a :: Get(a, key) == Some(a[key]) && Get(b, key) == Some(b[key]);
  }

  /** Applying the tail of a history again changes nothing. */
  lemma ReplayTail(objects: Objects, entries: seq<Entry>, tail: seq<Entry>)
    ensures ApplyAll(ApplyAll(objects, entries + tail), tail) == ApplyAll(objects, entries + tail)
  {
    var once := ApplyAll(objects, entries + tail);
    forall key
      ensures Get(ApplyAll(once, tail), key) == Get(once, key)
    {
      LastEventDecides(once, tail, key);
      LastEventDecides(objects, entries + tail, key);
      LatestOfConcat(entries, tail, key);
    }
    ObjectsEqual(ApplyAll(once, tail), once);
  }
}
