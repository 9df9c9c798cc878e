/** Watching one cluster's keys (dcs/etcd3/watch.go): a loop over watch responses
    that survives deadlines and compaction, and the replica a consumer keeps by
    applying its events. */
module Watch {
  import opened Text
  import opened Etcd
  import opened Txn
  import opened Cluster

  datatype WatchEvent =
    | PutEvent(revision: nat, entry: Entry)
    | DeleteEvent(revision: nat, entry: Entry)
    | ResyncEvent(revision: nat, snapshot: Snapshot)

  datatype WatchError = SnapshotFailed(kind: ErrorKind) | WatchCanceled | StreamClosed

  // ---- the consumer ----

  type Replica = map<string, Versioned>

  function FromEntries(entries: seq<Entry>): Replica {
    if entries == [] then map[]
    else
      var last := entries[|entries| - 1];
      FromEntries(entries[..|entries| - 1])[last.key := Versioned(last.value, last.modRevision)]
  }

  /** A put replaces an entry, a delete removes one, a resync replaces all. */
  function Consume(replica: Replica, event: WatchEvent): Replica {
    match event
    case PutEvent(_, entry) => replica[entry.key := Versioned(entry.value, entry.modRevision)]
    case DeleteEvent(_, entry) => replica - {entry.key}
    case ResyncEvent(_, snapshot) => FromEntries(snapshot.entries)
  }

  function ConsumeAll(replica: Replica, events: seq<WatchEvent>): Replica {
    if events == [] then replica
    else Consume(ConsumeAll(replica, events[..|events| - 1]), events[|events| - 1])
  }

  lemma {:induction false} ConsumeTwice(replica: Replica, a: seq<WatchEvent>, b: seq<WatchEvent>)
    ensures ConsumeAll(replica, a + b) == ConsumeAll(ConsumeAll(replica, a), b)
  {
    if b == [] {
      assert a + b == a;
    } else {
      assert (a + b)[..|a + b| - 1] == a + b[..|b| - 1];
      ConsumeTwice(replica, a, b[..|b| - 1]);
    }
  }

  // ---- what the store and the server promise ----

  /** The keys of the watched prefix; `root` ends in a slash. */
  function Under(store: Store, root: string): Replica {
    map key | key in store && root <= key :: store[key]
  }

  /** The length of the history at a revision. */
  function LengthAt(revision: int): nat { if revision >= 1 then revision - 1 else 0 }

  function EventEntry(prefix: string, key: string, value: Blob, revision: nat): Entry
    requires prefix + "/" <= key
  {
    var relative := key[|prefix| + 1..];
    Entry(key, relative, ClassifyRelativePath(relative), revision, value)
  }

  function DeletedKeys(store: Store, prefix: string, mutation: Mutation): seq<string> {
    match mutation
    case Put(_, _) => []
    case Delete(key) => if key in store && prefix + "/" <= key then [key] else []
    case DeletePrefix(gone) => SortedKeys(set key | key in store && gone <= key && prefix + "/" <= key)
  }

  lemma DeletedAreStored(store: Store, prefix: string, mutation: Mutation)
    ensures forall key :: key in DeletedKeys(store, prefix, mutation) ==> key in store && prefix + "/" <= key
  {
  }

  /** The events of commit number `i`, as a response with this header carries
      them; a delete shows the value it removed. */
  function CommitEvents(log: seq<Request>, prefix: string, i: nat, header: nat): seq<WatchEvent>
    requires i < |log|
  {
    match log[i].mutation
    case Put(key, value) =>
      if prefix + "/" <= key then [PutEvent(header, EventEntry(prefix, key, value, i + 2))] else []
    case _ =>
      var store := StoreAt(log[..i]);
      var keys := DeletedKeys(store, prefix, log[i].mutation);
      DeletedAreStored(store, prefix, log[i].mutation);
      seq(|keys|, k requires 0 <= k < |keys| =>
          assert keys[k] in keys; DeleteEvent(header, EventEntry(prefix, keys[k], store[keys[k]].value, i + 2)))
  }

  /** The events of the commits from..to, in order: what a complete response
      carries. */
  function EventsBetween(log: seq<Request>, prefix: string, start: nat, end: nat, header: nat): seq<WatchEvent>
    requires start <= end <= |log|
    decreases end
  {
    if start == end then [] else EventsBetween(log, prefix, start, end - 1, header) + CommitEvents(log, prefix,
         end - 1, header)
  }

  // ---- the replica follows the history ----

  function SetOf(keys: seq<string>): set<string> { set key | key in keys }

  lemma SetOfNext(keys: seq<string>)
    requires keys != []
    ensures SetOf(keys) == SetOf(keys[..|keys| - 1]) + {keys[|keys| - 1]}
  {
    assert keys == keys[..|keys| - 1] + [keys[|keys| - 1]];
  }

  lemma {:induction false} RemoveAll(replica: Replica, events: seq<WatchEvent>, keys: seq<string>)
    requires |events| == |keys| && forall k :: 0 <= k < |keys| ==>
               events[k].DeleteEvent? && events[k].entry.key == keys[k]
    ensures ConsumeAll(replica, events) == replica - SetOf(keys)
  {
    hide SetOf;
    if keys == [] {
      assert SetOf(keys) == {} by { NoKeys(); }
    } else {
      var n := |keys| - 1;
      RemoveAll(replica, events[..n], keys[..n]);
      SetOfNext(keys);
      assert ConsumeAll(replica, events) == ConsumeAll(replica, events[..n]) - {keys[n]};
      assert replica - SetOf(keys[..n]) - {keys[n]} == replica - SetOf(keys);
    }
  }

  lemma NoKeys()
    ensures SetOf([]) == {}
  {
  }

  lemma CommitFollowed(log: seq<Request>, prefix: string, i: nat, header: nat)
    requires i < |log|
    ensures ConsumeAll(Under(StoreAt(log[..i]), prefix + "/"), CommitEvents(log, prefix, i, header))
            == Under(StoreAt(log[..i + 1]), prefix + "/")
  {
    hide ClassifyRelativePath, StoreAt;
    var root := prefix + "/";
    var before, after := StoreAt(log[..i]), StoreAt(log[..i + 1]);
    NextStore(log, i);
    var events := CommitEvents(log, prefix, i, header);
    match log[i].mutation
    case Put(key, value) =>
      if root <= key {
        assert events[..0] == [];
        assert ConsumeAll(Under(before, root), events) == Under(before, root)[key := Versioned(value, i + 2)];
      }
    case _ =>
      var keys := DeletedKeys(before, prefix, log[i].mutation);
      DeletedAreStored(before, prefix, log[i].mutation);
      forall k | 0 <= k < |keys|
        ensures events[k].DeleteEvent? && events[k].entry.key == keys[k]
      {
        assert keys[k] in keys;
      }
      RemoveAll(Under(before, root), events, keys);
  }

  lemma NextStore(log: seq<Request>, i: nat)
    requires i < |log|
    ensures StoreAt(log[..i + 1]) == Apply(StoreAt(log[..i]), log[i].mutation, i + 2)
  {
    hide Apply;
    assert log[..i + 1][..i] == log[..i];
  }

  lemma {:induction false} EventsFollowed(log: seq<Request>, prefix: string, start: nat, end: nat, header: nat)
    requires start <= end <= |log|
    ensures ConsumeAll(Under(StoreAt(log[..start]), prefix + "/"), EventsBetween(log, prefix, start, end, header))
            == Under(StoreAt(log[..end]), prefix + "/")
    decreases end
  {
    hide StoreAt, CommitEvents, Under;
    if end != start {
      EventsFollowed(log, prefix, start, end - 1, header);
      ConsumeTwice(Under(StoreAt(log[..start]), prefix + "/"), EventsBetween(log, prefix, start, end - 1, header),
                   CommitEvents(log, prefix, end - 1, header));
      CommitFollowed(log, prefix, end - 1, header);
    }
  }

  lemma {:induction false} EntriesRebuild(entries: seq<Entry>, store: Store)
    requires forall e :: e in entries ==> e.key in store && store[e.key] == Versioned(e.value, e.modRevision)
    ensures forall key :: key in FromEntries(entries) <==> exists e :: e in entries && e.key == key
    ensures forall key :: key in FromEntries(entries) ==> key in store && FromEntries(entries)[key] == store[key]
  {
    if entries != [] {
      var front, last := entries[..|entries| - 1], entries[|entries| - 1];
      assert entries == front + [last];
      EntriesRebuild(front, store);
      forall key
        ensures key in FromEntries(entries) <==> exists e :: e in entries && e.key == key
      {
        if key == last.key {
          assert last in entries;
        }
      }
    }
  }

  lemma ResyncFollowed(log: seq<Request>, prefix: string, replica: Replica)
    ensures Consume(replica, ResyncEvent(HeaderRevision(log), SnapshotOf(log, prefix)))
            == Under(StoreAt(log), prefix + "/")
  {
    hide ClassifyRelativePath, StoreAt, DecodeCluster, EntriesUnder;
    var store := StoreAt(log);
    var entries := EntriesUnder(store, prefix);
    EntriesUnderMembers(store, prefix);
    EntriesRebuild(entries, store);
    var rebuilt := FromEntries(entries);
    forall key
      ensures key in rebuilt <==> key in Under(store, prefix + "/")
    {
      if key in Under(store, prefix + "/") {
        assert EntryAt(store, prefix, key) in entries && EntryAt(store, prefix, key).key == key;
      }
    }
    assert rebuilt.Keys == Under(store, prefix + "/").Keys;
  }

  // ---- the stream as consecutive spans ----

  /** One stretch of the history: reported commit by commit, or replaced by a
      snapshot taken at its end. */
  datatype Span = Reported(start: nat, end: nat, header: nat) | Replaced(start: nat, end: nat)

  /** The spans follow each other without gap or overlap, from one history
      length to another. */
  ghost predicate Chained(spans: seq<Span>, start: nat, end: nat) {
    if spans == [] then start == end
    else
      var last := spans[|spans| - 1];
      last.end == end && last.start <= last.end && Chained(spans[..|spans| - 1], start, last.start)
  }

  ghost function SpanEvents(log: seq<Request>, prefix: string, span: Span): seq<WatchEvent>
    requires span.start <= span.end <= |log|
  {
    match span
    case Reported(start, end, header) => EventsBetween(log, prefix, start, end, header)
    case Replaced(_, end) => [ResyncEvent(end + 1, SnapshotOf(log[..end], prefix))]
  }

  ghost function StreamOf(log: seq<Request>, prefix: string, spans: seq<Span>, start: nat, end: nat): seq<WatchEvent>
    requires Chained(spans, start, end) && end <= |log|
    decreases |spans|
  {
    if spans == [] then []
    else
      var last := spans[|spans| - 1];
      StreamOf(log, prefix, spans[..|spans| - 1], start, last.start) + SpanEvents(log, prefix, last)
  }

  lemma {:induction false} ChainedBounds(spans: seq<Span>, start: nat, end: nat)
    requires Chained(spans, start, end)
    ensures start <= end
    ensures forall i :: 0 <= i < |spans| ==> start <= spans[i].start <= spans[i].end <= end
    ensures forall i :: 0 < i < |spans| ==> spans[i].start == spans[i - 1].end
  {
    if spans != [] {
      var n := |spans| - 1;
      ChainedBounds(spans[..n], start, spans[n].start);
      if n > 0 {
        assert spans[..n][n - 1] == spans[n - 1];
        assert Chained(spans[..n], start, spans[n].start);
      }
      forall i | 0 < i < |spans|
        ensures spans[i].start == spans[i - 1].end
      {
        if i < n {
          assert spans[..n][i] == spans[i] && spans[..n][i - 1] == spans[i - 1];
        }
      }
      forall i | 0 <= i < |spans|
        ensures start <= spans[i].start <= spans[i].end <= end
      {
        if i < n {
          assert spans[..n][i] == spans[i];
        }
      }
    }
  }

  /** Consuming a chained stream takes the state at its start to the state at
      its end. */
  lemma {:induction false} StreamFollowed(log: seq<Request>, prefix: string, spans: seq<Span>, start: nat, end: nat)
    requires Chained(spans, start, end) && end <= |log|
    ensures start <= end
    ensures ConsumeAll(Under(StoreAt(log[..start]), prefix + "/"), StreamOf(log, prefix, spans, start, end))
            == Under(StoreAt(log[..end]), prefix + "/")
    decreases |spans|
  {
    hide StoreAt, Under, EventsBetween, SnapshotOf;
    ChainedBounds(spans, start, end);
    if spans != [] {
      var last := spans[|spans| - 1];
      var earlier := StreamOf(log, prefix, spans[..|spans| - 1], start, last.start);
      StreamFollowed(log, prefix, spans[..|spans| - 1], start, last.start);
      ConsumeTwice(Under(StoreAt(log[..start]), prefix + "/"), earlier, SpanEvents(log, prefix, last));
      match last
      case Reported(f, t, header) => EventsFollowed(log, prefix, f, t, header);
      case Replaced(f, t) =>
        ResyncFollowed(log[..t], prefix, Under(StoreAt(log[..f]), prefix + "/"));
        var resync := SpanEvents(log, prefix, last);
        assert resync[..0] == [] && resync[|resync| - 1] == ResyncEvent(HeaderRevision(log[..t]),
                 SnapshotOf(log[..t], prefix));
    }
  }

  lemma {:induction false} EventsStable(log: seq<Request>, longer: seq<Request>, prefix: string, start: nat, end: nat,
                                        header: nat)
    requires start <= end <= |log| && log <= longer
    ensures EventsBetween(longer, prefix, start, end, header) == EventsBetween(log, prefix, start, end, header)
    decreases end
  {
    hide ClassifyRelativePath, StoreAt, DeletedKeys;
    if end != start {
      EventsStable(log, longer, prefix, start, end - 1, header);
      assert longer[..end - 1] == log[..end - 1];
    }
  }

  lemma {:induction false} StreamStable(log: seq<Request>, longer: seq<Request>, prefix: string, spans: seq<Span>,
                                        start: nat, end: nat)
    requires Chained(spans, start, end) && end <= |log| && log <= longer
    ensures StreamOf(longer, prefix, spans, start, end) == StreamOf(log, prefix, spans, start, end)
    decreases |spans|
  {
    hide EventsBetween, SnapshotOf;
    if spans != [] {
      var last := spans[|spans| - 1];
      StreamStable(log, longer, prefix, spans[..|spans| - 1], start, last.start);
      match last
      case Reported(f, t, header) => EventsStable(log, longer, prefix, f, t, header);
      case Replaced(_, t) => assert longer[..t] == log[..t];
    }
  }

  lemma StreamGrows(log: seq<Request>, prefix: string, spans: seq<Span>, start: nat, end: nat, span: Span)
    requires Chained(spans, start, end) && span.start == end && end <= span.end <= |log|
    ensures Chained(spans + [span], start, span.end)
    ensures StreamOf(log, prefix, spans + [span], start, span.end) == StreamOf(log, prefix, spans, start, end)
            + SpanEvents(log, prefix, span)
  {
    hide EventsBetween, SnapshotOf;
    var longer := spans + [span];
    assert longer[..|longer| - 1] == spans;
  }

  // ---- the watch loop ----

  /** What the server sends next: a response that is complete up to its header, a
      cancellation because the watched revision is compacted, another cancellation,
      or nothing more. */
  datatype Message =
    | Response(header: nat)
    | Compacted(revision: nat)
    | CanceledByCaller
    | DeadlineReached
    | Broken
    | Closed

  datatype Ending = Running | Stopped | Cut | Errored(error: WatchError)

  /** The watch waits for a revision the store has not reached yet. */
  ghost predicate Ahead(log: seq<Request>, revision: int) { LengthAt(revision - 1) > |log| }

  /** The consumer got the spans up to `revision` - 1, or a cut-off beginning of them. */
  ghost predicate Delivered(log: seq<Request>, prefix: string, spans: seq<Span>, start: nat, revision: nat,
                            events: seq<WatchEvent>, cut: bool)
  {
    && revision >= 1 && LengthAt(revision - 1) <= |log| && Chained(spans, start, LengthAt(revision - 1))
    && var stream := StreamOf(log, prefix, spans, start, LengthAt(revision - 1));
       if cut then events <= stream else events == stream
  }

  /** One response with events up to its header. */
  method OnResponse(log: seq<Request>, prefix: string, header: nat, revision: nat, events: seq<WatchEvent>,
                    ghost spans: seq<Span>, ghost start: nat)
    returns (sent: seq<WatchEvent>, cut: bool)
    requires revision <= header <= HeaderRevision(log) && Delivered(log, prefix, spans, start, revision, events, false)
    ensures var span := Reported(LengthAt(revision - 1), LengthAt(header), header);
            Delivered(log, prefix, spans + [span], start, header + 1, sent, cut)
  {
    hide StoreAt, EventsBetween, StreamOf, Chained;
    var batch := EventsBetween(log, prefix, LengthAt(revision - 1), LengthAt(header), header);
    ghost var span := Reported(LengthAt(revision - 1), LengthAt(header), header);
    StreamGrows(log, prefix, spans, start, LengthAt(revision - 1), span);
    var n :| 0 <= n <= |batch|;
    sent, cut := events + batch[..n], n < |batch|;
  }

  /** A snapshot in place of compacted revisions. */
  method OnCompacted(log: seq<Request>, prefix: string, revision: nat, events: seq<WatchEvent>, ghost spans: seq<Span>,
                     ghost start: nat)
    returns (sent: seq<WatchEvent>, cut: bool)
    requires revision <= HeaderRevision(log) && Delivered(log, prefix, spans, start, revision, events, false)
    ensures var span := Replaced(LengthAt(revision - 1), |log|);
            Delivered(log, prefix, spans + [span], start, HeaderRevision(log) + 1, sent, cut)
  {
    hide StoreAt, SnapshotOf, StreamOf, Chained;
    var resync := ResyncEvent(HeaderRevision(log), SnapshotOf(log, prefix));
    ghost var span := Replaced(LengthAt(revision - 1), |log|);
    StreamGrows(log, prefix, spans, start, LengthAt(revision - 1), span);
    assert log[..|log|] == log;
    cut := *;
    sent := if cut then events else events + [resync];
  }

  lemma DeliveredStays(log: seq<Request>, longer: seq<Request>, prefix: string, spans: seq<Span>, start: nat,
                       revision: nat, events: seq<WatchEvent>)
    requires Delivered(log, prefix, spans, start, revision, events, false) && log <= longer
    ensures Delivered(longer, prefix, spans, start, revision, events, false)
  {
    hide StreamOf, Chained;
    StreamStable(log, longer, prefix, spans, start, LengthAt(revision - 1));
  }

  lemma DeliveredFollowed(log: seq<Request>, prefix: string, spans: seq<Span>, start: nat, revision: nat,
                          events: seq<WatchEvent>, cut: bool)
    requires Delivered(log, prefix, spans, start, revision, events, cut)
    ensures start <= LengthAt(revision - 1) <= |log|
    ensures !cut ==> ConsumeAll(Under(StoreAt(log[..start]), prefix + "/"), events)
                     == Under(StoreAt(log[..LengthAt(revision - 1)]), prefix + "/")
  {
    hide StoreAt, Under, StreamOf, Chained, ConsumeAll;
    StreamFollowed(log, prefix, spans, start, LengthAt(revision - 1));
  }

  /** runWatch for any number of messages.  `events` is what was sent to the
      consumer, `revision` the next revision to watch. */
  method RunWatch(w: World, me: nat, prefix: string, afterRevision: int, messages: nat)
    returns (events: seq<WatchEvent>, revision: nat, ending: Ending, ghost spans: seq<Span>)
    modifies w`now
    ensures Later(me, old(w.now), w.now)
    ensures revision >= 1 && revision > afterRevision
    // no revision is skipped or repeated, across deadlines and compaction
    ensures Chained(spans, LengthAt(afterRevision), LengthAt(revision - 1))
    // a start in the future is waited for, and nothing is reported before it
    ensures Ahead(w.now.log, revision) ==> revision == afterRevision + 1 && spans == [] && events == [] && ending != Cut
    // the consumer got exactly these spans, or a cut-off beginning of them when it went away
    ensures !Ahead(w.now.log, revision) ==>
              Delivered(w.now.log, prefix, spans, LengthAt(afterRevision), revision, events, ending == Cut)
    // so its replica is the state at revision - 1
    ensures !Ahead(w.now.log, revision) && ending != Cut ==>
              LengthAt(afterRevision) <= |w.now.log|
              && ConsumeAll(Under(StoreAt(w.now.log[..LengthAt(afterRevision)]), prefix + "/"), events)
                 == Under(StoreAt(w.now.log[..LengthAt(revision - 1)]), prefix + "/")
  {
    hide StoreAt, Under, Later, Delivered, Chained, ConsumeAll;
    ghost var start := LengthAt(afterRevision);
    events, ending, spans := [], Running, [];
    LaterReflexive(me, w.now);
    revision := if afterRevision + 1 < 1 then 1 else afterRevision + 1;
    NothingDelivered(w.now.log, prefix, start, revision);
    var count := 0;
    while count < messages && ending == Running
      invariant Later(me, old(w.now), w.now)
      invariant revision >= 1 && revision > afterRevision
      invariant Chained(spans, start, LengthAt(revision - 1))
      invariant Ahead(w.now.log, revision) ==>
                  revision == afterRevision + 1 && spans == [] && events == [] && ending != Cut
      invariant !Ahead(w.now.log, revision) ==>
                  Delivered(w.now.log, prefix, spans, start, revision, events, ending == Cut)
    {
      count := count + 1;
      ghost var earlier := w.now;
      w.Environment(me);
      LaterGrows(me, old(w.now), earlier, w.now);
      if Ahead(earlier.log, revision) {
        NothingDelivered(w.now.log, prefix, start, revision);
      } else {
        DeliveredStays(earlier.log, w.now.log, prefix, spans, start, revision, events);
      }
      var message: Message := *;
      var cut: bool;
      match message {
        case Response(header) =>
          if header <= HeaderRevision(w.now.log) && header >= revision {
            events, cut := OnResponse(w.now.log, prefix, header, revision, events, spans, start);
            spans := spans + [Reported(LengthAt(revision - 1), LengthAt(header), header)];
            revision := header + 1;
            ending := if cut then Cut else Running;
            DeliveredChained(w.now.log, prefix, spans, start, revision, events, cut);
          }
        case Compacted(compacted) =>
          if revision <= compacted <= HeaderRevision(w.now.log) {
            var failed: bool := *;
            if failed {
              var kind: ErrorKind := *;
              ending := Errored(SnapshotFailed(kind));
            } else {
              events, cut := OnCompacted(w.now.log, prefix, revision, events, spans, start);
              spans := spans + [Replaced(LengthAt(revision - 1), |w.now.log|)];
              revision := HeaderRevision(w.now.log) + 1;
              ending := if cut then Cut else Running;
              DeliveredChained(w.now.log, prefix, spans, start, revision, events, cut);
            }
          }
        case CanceledByCaller => ending := Stopped;
        case DeadlineReached =>
        case Broken => ending := Errored(WatchCanceled);
        case Closed => ending := Errored(StreamClosed);
      }
    }
    if !Ahead(w.now.log, revision) {
      DeliveredFollowed(w.now.log, prefix, spans, start, revision, events, ending == Cut);
    }
  }

  lemma NothingDelivered(log: seq<Request>, prefix: string, start: nat, revision: nat)
    requires revision >= 1 && LengthAt(revision - 1) == start
    ensures Chained([], start, start)
    ensures !Ahead(log, revision) ==> Delivered(log, prefix, [], start, revision, [], false)
  {
  }

  lemma DeliveredChained(log: seq<Request>, prefix: string, spans: seq<Span>, start: nat, revision: nat,
                         events: seq<WatchEvent>, cut: bool)
    requires Delivered(log, prefix, spans, start, revision, events, cut)
    ensures !Ahead(log, revision) && Chained(spans, start, LengthAt(revision - 1))
  {
    hide StreamOf;
  }

  lemma LaterGrows(me: nat, s: State, t: State, u: State)
    requires Later(me, s, t) && Later(me, t, u)
    ensures Later(me, s, u) && t.log <= u.log
  {
    LaterTransitive(me, s, t, u);
  }
}
