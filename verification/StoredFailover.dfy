/** Which failover event the commands see (dcs/decode.go together with
    control/failover.go and control/flush.go): the one under the failover key, unless
    another key that reads as the failover key is decoded after it. */
module StoredFailover {
  import opened Text
  import opened Json
  import opened Etcd
  import opened Txn
  import opened Cluster
  import opened Control
  import opened Flush

  /** The event recorded under the failover key itself. */
  function Recorded(store: Store, prefix: string): Option<Failover> {
    var key := FailoverKeyUnder(prefix);
    if key in store && prefix + "/" <= key then Some(DecodeFailover(EntryAt(store, prefix, key))) else None
  }

  predicate ReadsAsFailover(store: Store, prefix: string, key: string) {
    key in store && prefix + "/" <= key && ClassifyRelativePath(key[|prefix| + 1..]) == FailoverKey
  }

  /** A key that is shown instead of the failover key: it also reads as the failover
      key, and sorts after it unless that is absent. */
  predicate Masks(store: Store, prefix: string, key: string) {
    && ReadsAsFailover(store, prefix, key) && key != FailoverKeyUnder(prefix)
    && (FailoverKeyUnder(prefix) in store ==> Less(FailoverKeyUnder(prefix), key))
  }

  // ---- decoding ----

  /** The entry at j is the last failover entry. */
  ghost predicate LastFailover(entries: seq<Entry>, j: nat) {
    j < |entries| && entries[j].kind == FailoverKey && forall i :: j < i < |entries| ==> entries[i].kind != FailoverKey
  }

  lemma {:induction false} LastFailoverDecides(entries: seq<Entry>)
    ensures match DecodeAll(entries).cluster.failover
            case None => forall i :: 0 <= i < |entries| ==> entries[i].kind != FailoverKey
            case Some(f) => exists j: nat :: LastFailover(entries, j) && f == DecodeFailover(entries[j])
  {
    hide DecodeEntry, DecodeFailover;
    if entries != [] {
      var n := |entries| - 1;
      LastFailoverDecides(entries[..n]);
      EntryFailover(DecodeAll(entries[..n]), entries[n]);
      if entries[n].kind == FailoverKey {
        assert LastFailover(entries, n);
      } else if DecodeAll(entries[..n]).cluster.failover.Some? {
        var j: nat :| LastFailover(entries[..n], j)
                 && DecodeAll(entries[..n]).cluster.failover.value == DecodeFailover(entries[..n][j]);
        assert LastFailover(entries, j);
      }
    }
  }

  lemma FailoverItself(store: Store, prefix: string)
    requires FailoverKeyUnder(prefix) in store
    ensures ReadsAsFailover(store, prefix, FailoverKeyUnder(prefix))
  {
    FailoverKeyIsClassified(store, prefix);
  }

  /** The event shown is that of the last key that reads as the failover key. */
  lemma LastKeyIsSeen(log: seq<Request>, prefix: string) returns (last: string)
    ensures var store := StoreAt(log);
            match ClusterAt(log, prefix).failover
            case None => forall key :: !ReadsAsFailover(store, prefix, key)
            case Some(f) =>
              && ReadsAsFailover(store, prefix, last) && f == DecodeFailover(EntryAt(store, prefix, last))
              && forall key :: ReadsAsFailover(store, prefix, key) ==> !Less(last, key)
  {
    hide ClassifyRelativePath, DecodeFailover, DecodeAll, StoreAt, SortedKeys, Less, EntriesUnder;
    var store := StoreAt(log);
    var keys, entries := SortedKeys(Matching(store, prefix + "/")), EntriesUnder(store, prefix);
    EntriesUnderKeys(store, prefix);
    LastFailoverDecides(entries);
    assert ClusterAt(log, prefix).failover == DecodeAll(entries).cluster.failover;
    assert forall key :: ReadsAsFailover(store, prefix, key) ==> key in Matching(store, prefix + "/") && key in keys;
    last := "";
    if ClusterAt(log, prefix).failover.Some? {
      var j: nat :| LastFailover(entries, j) && ClusterAt(log, prefix).failover.value == DecodeFailover(entries[j]);
      last := keys[j];
      forall key | ReadsAsFailover(store, prefix, key)
        ensures !Less(last, key)
      {
        var i :| 0 <= i < |keys| && keys[i] == key;
        NotBehind(keys, i, j);
      }
    }
  }

  lemma NotBehind(keys: seq<string>, i: nat, j: nat)
    requires Ascending(keys) && i <= j < |keys|
    ensures !Less(keys[j], keys[i])
  {
    hide Less;
    if i == j {
      LessIrreflexive(keys[i]);
    } else {
      LessAsymmetric(keys[i], keys[j]);
    }
  }

  // ---- when the shown event is the recorded one ----

  /** For every history: the commands see the event under the failover key if and
      only if no key masks it. */
  lemma RecordedIsSeenIff(log: seq<Request>, prefix: string)
    ensures ClusterAt(log, prefix).failover == Recorded(StoreAt(log), prefix)
            <==> forall key :: !Masks(StoreAt(log), prefix, key)
  {
    hide ClassifyRelativePath, DecodeFailover, StoreAt, ClusterAt, Less;
    var store, own := StoreAt(log), FailoverKeyUnder(prefix);
    var last := LastKeyIsSeen(log, prefix);
    if own in store {
      FailoverItself(store, prefix);
    }
    if ClusterAt(log, prefix).failover.Some? {
      if last == own {
        assert forall key :: !Masks(store, prefix, key);
      } else {
        assert Masks(store, prefix, last) by {
          LessTotal(own, last);
        }
        if own in store {
          DecodedFailoverRevision(EntryAt(store, prefix, last));
          DecodedFailoverRevision(EntryAt(store, prefix, own));
          if store[last].modRevision == store[own].modRevision {
            RevisionIdentifiesKey(log, last, own);
          }
        }
      }
    }
  }

  /** A write of the failover key that is guarded with a masking event never
      commits: masking blocks the fallbacks instead of misdirecting them. */
  lemma MaskedGuardNeverHolds(log: seq<Request>, read: nat, i: nat, prefix: string)
    requires ValidLog(log) && read <= i < |log|
    requires log[i].mutation.Put? || log[i].mutation.Delete?
    requires log[i].mutation.key == FailoverKeyUnder(prefix)
    requires log[i].guard == Some(FailoverGuard(ClusterAt(log[..read], prefix)))
    ensures forall key :: !Masks(StoreAt(log[..read]), prefix, key)
  {
    hide ClassifyRelativePath, DecodeFailover, StoreAt, ClusterAt, Less, ValidLog;
    GuardFromSnapshot(log, read, i, prefix);
    RecordedIsSeenIff(log[..read], prefix);
    SameRecorded(StoreAt(log[..read]), StoreAt(log[..i]), prefix);
  }

  lemma SameRecorded(a: Store, b: Store, prefix: string)
    requires Lookup(a, FailoverKeyUnder(prefix)) == Lookup(b, FailoverKeyUnder(prefix))
    ensures Recorded(a, prefix) == Recorded(b, prefix)
    ensures FailoverKeyUnder(prefix) in a ==>
              prefix + "/" <= FailoverKeyUnder(prefix)
              && Recorded(a, prefix) == Some(DecodeFailover(EntryAt(b, prefix, FailoverKeyUnder(prefix))))
  {
    hide ClassifyRelativePath, DecodeFailover;
  }

  /** failover/ masks a recorded event, and //failover does not. */
  lemma MaskingNames(store: Store, prefix: string)
    ensures prefix + "/failover/" in store ==> Masks(store, prefix, prefix + "/failover/")
    ensures FailoverKeyUnder(prefix) in store ==> !Masks(store, prefix, prefix + "//failover")
    ensures prefix + "//failover" in store ==> ReadsAsFailover(store, prefix, prefix + "//failover")
  {
    hide Less;
    assert TrimBoth("failover/", '/') == "failover" by {
      assert "failover/"[..8] == "failover";
    }
    assert (prefix + "/failover/")[|prefix| + 1..] == "failover/";
    LessExtended(FailoverKeyUnder(prefix), "/");
    assert FailoverKeyUnder(prefix) + "/" == prefix + "/failover/";
    assert TrimBoth("/failover", '/') == "failover" by {
      assert "/failover"[1..] == "failover";
    }
    assert (prefix + "//failover")[|prefix| + 1..] == "/failover";
    SlashBefore(prefix);
    LessAsymmetric(prefix + "//failover", FailoverKeyUnder(prefix));
  }

  lemma SlashBefore(prefix: string)
    ensures Less(prefix + "//failover", FailoverKeyUnder(prefix))
  {
    hide Less;
    assert Less("/failover", "failover") by { SlashFirst(); }
    LessBehind(prefix + "/", "/failover", "failover");
    assert prefix + "//failover" == (prefix + "/") + "/failover";
    assert FailoverKeyUnder(prefix) == (prefix + "/") + "failover";
  }

  lemma SlashFirst()
    ensures Less("/failover", "failover")
  {
  }

  // ---- a flush that overlooks a scheduled event ----

  const RECORDED: Blob := Marshal(Object(map["leader" := String("a"), "scheduled_at" := String("at")]))
  const UNSCHEDULED: Blob := Marshal(Object(map["leader" := String("a")]))

  function MaskedHistory(prefix: string): seq<Request> {
    [Request(0, Put(FailoverKeyUnder(prefix), RECORDED), None),
     Request(0, Put(prefix + "/failover/", UNSCHEDULED), None)]
  }

  lemma MaskedStore(prefix: string)
    ensures var log := MaskedHistory(prefix);
            && ValidLog(log) && FailoverKeyUnder(prefix) != prefix + "/failover/"
            && StoreAt(log) == map[FailoverKeyUnder(prefix) := Versioned(RECORDED, 2),
                                   prefix + "/failover/" := Versioned(UNSCHEDULED, 3)]
  {
    var log := MaskedHistory(prefix);
    assert log[..1] == [log[0]] && log[..2] == log && log[..0] == [] && [log[0]][..0] == [];
    assert |prefix + "/failover/"| != |FailoverKeyUnder(prefix)|;
    StoreStep([log[0]]);
    StoreStep(log);
  }

  lemma RecordedEvent(store: Store, prefix: string)
    requires FailoverKeyUnder(prefix) in store && store[FailoverKeyUnder(prefix)].value == RECORDED
    ensures Recorded(store, prefix).Some? && Recorded(store, prefix).value.scheduledAt == "at"
  {
    hide ClassifyRelativePath;
    assert prefix + "/" <= FailoverKeyUnder(prefix);
  }

  lemma MaskingEvent(store: Store, prefix: string, key: string)
    requires key in store && prefix + "/" <= key && store[key].value == UNSCHEDULED
    ensures DecodeFailover(EntryAt(store, prefix, key)).scheduledAt == ""
  {
    hide ClassifyRelativePath;
  }

  /** For every cluster root there is such a history: the switchover recorded under
      the failover key is scheduled, every snapshot shows nothing scheduled, and so a
      flush sends nothing and reports success. */
  lemma FlushOverlooksEvent(prefix: string) returns (log: seq<Request>)
    ensures ValidLog(log) && Recorded(StoreAt(log), prefix).Some?
            && Recorded(StoreAt(log), prefix).value.scheduledAt != ""
    ensures !Scheduled(ClusterAt(log, prefix)) && Unscheduled(log, |log|, prefix)
  {
    hide ClassifyRelativePath, StoreAt, ValidLog, Less, DecodeFailover, EntryAt, ClusterAt, Recorded, SnapshotOf;
    hide MaskedHistory;
    log := MaskedHistory(prefix);
    MaskedStore(prefix);
    var store, key := StoreAt(log), prefix + "/failover/";
    RecordedEvent(store, prefix);
    MaskingNames(store, prefix);
    FailoverItself(store, prefix);
    var last := LastKeyIsSeen(log, prefix);
    assert ReadsAsFailover(store, prefix, key);
    assert last == key;
    MaskingEvent(store, prefix, key);
    ReadNow(log, |log|, prefix);
    ClusterOfSnapshot(log, prefix);
    UnscheduledBy(log, |log|, prefix, SnapshotOf(log, prefix));
  }

  lemma ClusterOfSnapshot(log: seq<Request>, prefix: string)
    ensures SnapshotOf(log, prefix).cluster == ClusterAt(log, prefix)
  {
    hide ReadStore;
  }
}
