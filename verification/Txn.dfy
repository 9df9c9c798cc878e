/** The store client (dcs/etcd3/txn.go, dcs/etcd3/store.go) on top of the shared
    etcd history.

    Each operation of the class is one atomic exchange with the server.  What
    other writers do between two exchanges is the method Environment. */
module Txn {
  import opened Text
  import opened Etcd

  datatype ErrorKind = Configuration | Authentication | Transport | Canceled | Deadline

  /** A failed exchange: the request never left, or its fate is open. */
  datatype Failure =
    | NotSent(kind: ErrorKind)
    | MaybeSent(kind: ErrorKind)
    | Conflict(expected: nat, observed: nat)

  datatype WriteResult = WriteResult(applied: bool, revision: nat, previous: Option<Versioned>,
                                     current: Option<Versioned>)

  datatype RemoveResult = RemoveResult(deleted: nat, revision: nat)

  const NO_RESULT := WriteResult(false, 0, None, None)

  /** A Patroni HTTP answer: status 0 means that no response arrived. */
  datatype HttpReply = HttpReply(status: nat, body: string, delivery: HttpDelivery)

  datatype HttpDelivery = HttpNotSent(kind: ErrorKind) | HttpMaybeSent(kind: ErrorKind) | HttpUntyped | HttpReceived

  /** The keys under an exact prefix. */
  function Matching(store: Store, prefix: string): set<string> {
    set key | key in store && prefix <= key
  }

  /** One Patroni REST write.  A status in `accepting` means the member took
      it; any other status means it did not; without a status it never left, or
      may take effect now, later, or never. */
  ghost predicate RestStep(s: State, t: State, call: RestCall, accepting: set<nat>, reply: HttpReply) {
    if reply.status != 0 then t == (if reply.status in accepting then s.(rest := s.rest + [call]) else s)
    else if reply.delivery.HttpNotSent? then t == s
    else t == s.(restFlight := s.restFlight + multiset{call}) || t == s.(rest := s.rest + [call]) || t == s
  }

  /** One write a run handed to the network and what it was told; `at` is the
      length of the history when the exchange ended. */
  datatype Exchange =
    | RestExchange(call: RestCall, reply: HttpReply, at: nat)
    | DcsExchange(request: Request, at: nat)

  /** `trace` lists the write exchanges made through this client, in order. */
  class World {
    var now: State
    ghost var trace: seq<Exchange>

    constructor (start: State)
      ensures now == start && trace == []
    {
      now, trace := start, [];
    }

    /** Everybody but `me` runs for a while. */
    method Environment(me: nat)
      modifies this`now
      ensures Later(me, old(now), now)
    {
      var steps: nat := *;
      while steps > 0
        invariant Later(me, old(now), now)
      {
        var action: Action := *;
        if Enabled(me, now, action) {
          PerformIsLater(me, now, action);
          LaterTransitive(me, old(now), now, Perform(now, action));
          now := Perform(now, action);
        }
        steps := steps - 1;
      }
    }

    /** put in txn.go: with an expected revision a transaction that compares
        ModRevision, otherwise a plain put. */
    method Put(me: nat, key: string, value: Blob, expected: Option<nat>)
      returns (result: WriteResult, error: Option<Failure>)
      modifies this
      ensures trace == old(trace) + [DcsExchange(Request(me, Mutation.Put(key, value), expected), |now.log|)]
      ensures var request := Request(me, Mutation.Put(key, value), expected);
              var before := StoreAt(old(now).log);
              match error
              case Some(NotSent(_)) => now == old(now) && result == NO_RESULT
              case Some(MaybeSent(_)) => now == old(now).(flight := old(now).flight + multiset{request})
              && result == NO_RESULT
              case Some(Conflict(wanted, observed)) =>
                && now == old(now)
                && expected == Some(wanted) && observed == ModRevision(before, key) && observed != wanted
                && result == WriteResult(false, HeaderRevision(now.log), None, Lookup(before, key))
              case None =>
                && now == old(now).(log := old(now).log + [request])
                && GuardHolds(before, request)
                && result == WriteResult(true, HeaderRevision(now.log), Lookup(before, key), None)
                && Lookup(StoreAt(now.log), key) == Some(Versioned(value, result.revision))
    {
      var kind: ErrorKind := *;
      var request := Request(me, Mutation.Put(key, value), expected);
      var store := StoreAt(now.log);
      var delivery: nat := *;
      if delivery == 0 {
        trace := trace + [DcsExchange(request, |now.log|)];
        return NO_RESULT, Some(NotSent(kind));
      }
      if delivery == 1 {
        now := now.(flight := now.flight + multiset{request});
        trace := trace + [DcsExchange(request, |now.log|)];
        return NO_RESULT, Some(MaybeSent(kind));
      }
      if GuardHolds(store, request) {
        ghost var log := now.log;
        now := Process(now, request);
        assert now.log[..|log|] == log;
        trace := trace + [DcsExchange(request, |now.log|)];
        return WriteResult(true, HeaderRevision(now.log), Lookup(store, key), None), None;
      }
      trace := trace + [DcsExchange(request, |now.log|)];
      return WriteResult(false, HeaderRevision(now.log), None, Lookup(store, key)),
             Some(Conflict(expected.value, ModRevision(store, key)));
    }

    /** DeleteFailover in txn.go: a guarded or plain delete of one key. */
    method Delete(me: nat, key: string, expected: Option<nat>)
      returns (result: WriteResult, error: Option<Failure>)
      modifies this
      ensures trace == old(trace) + [DcsExchange(Request(me, Mutation.Delete(key), expected), |now.log|)]
      ensures var request := Request(me, Mutation.Delete(key), expected);
              var before := StoreAt(old(now).log);
              match error
              case Some(NotSent(_)) => now == old(now) && result == NO_RESULT
              case Some(MaybeSent(_)) => now == old(now).(flight := old(now).flight + multiset{request})
              && result == NO_RESULT
              case Some(Conflict(wanted, observed)) =>
                && now == old(now)
                && expected == Some(wanted) && observed == ModRevision(before, key) && observed != wanted
                && result == WriteResult(false, HeaderRevision(now.log), None, Lookup(before, key))
              case None =>
                && GuardHolds(before, request)
                && now == (if key in before then old(now).(log := old(now).log + [request]) else old(now))
                && key !in StoreAt(now.log)
                && result == WriteResult(expected.Some? || key in before, HeaderRevision(now.log), Lookup(before, key),
                                         None)
    {
      var kind: ErrorKind := *;
      var request := Request(me, Mutation.Delete(key), expected);
      var store := StoreAt(now.log);
      var delivery: nat := *;
      if delivery == 0 {
        trace := trace + [DcsExchange(request, |now.log|)];
        return NO_RESULT, Some(NotSent(kind));
      }
      if delivery == 1 {
        now := now.(flight := now.flight + multiset{request});
        trace := trace + [DcsExchange(request, |now.log|)];
        return NO_RESULT, Some(MaybeSent(kind));
      }
      if GuardHolds(store, request) {
        ghost var log := now.log;
        now := Process(now, request);
        assert key in store ==> now.log[..|log|] == log;
        trace := trace + [DcsExchange(request, |now.log|)];
        return WriteResult(expected.Some? || key in store, HeaderRevision(now.log), Lookup(store, key), None), None;
      }
      trace := trace + [DcsExchange(request, |now.log|)];
      return WriteResult(false, HeaderRevision(now.log), None, Lookup(store, key)),
             Some(Conflict(expected.value, ModRevision(store, key)));
    }

    /** DeleteCluster in txn.go: the exact trailing-slash prefix. */
    method DeleteCluster(me: nat, prefix: string)
      returns (result: RemoveResult, error: Option<Failure>)
      modifies this
      ensures trace == old(trace) + [DcsExchange(Request(me, DeletePrefix(prefix), None), |now.log|)]
      ensures var request := Request(me, DeletePrefix(prefix), None);
              var before := StoreAt(old(now).log);
              match error
              case Some(NotSent(_)) => now == old(now)
              case Some(MaybeSent(_)) => now == old(now).(flight := old(now).flight + multiset{request})
              case Some(Conflict(_, _)) => false
              case None =>
                && now == (if Matching(before, prefix) != {} then old(now).(log := old(now).log + [request])
                           else old(now))
                && result == RemoveResult(|Matching(before, prefix)|, HeaderRevision(now.log))
                && Matching(StoreAt(now.log), prefix) == {}
                && (forall key :: key in before && !(prefix <= key) ==>
                    Lookup(StoreAt(now.log), key) == Lookup(before, key))
    {
      var kind: ErrorKind := *;
      var request := Request(me, DeletePrefix(prefix), None);
      var store := StoreAt(now.log);
      var delivery: nat := *;
      if delivery == 0 {
        trace := trace + [DcsExchange(request, |now.log|)];
        return RemoveResult(0, 0), Some(NotSent(kind));
      }
      if delivery == 1 {
        now := now.(flight := now.flight + multiset{request});
        trace := trace + [DcsExchange(request, |now.log|)];
        return RemoveResult(0, 0), Some(MaybeSent(kind));
      }
      ghost var log := now.log;
      assert Matching(store, prefix) == {} <==> !Changes(store, request.mutation) by {
        assert forall key :: key in Matching(store, prefix) <==> key in store && prefix <= key;
      }
      now := Process(now, request);
      assert now.log != log ==> now.log[..|log|] == log;
      trace := trace + [DcsExchange(request, |now.log|)];
      result, error := RemoveResult(|Matching(store, prefix)|, HeaderRevision(now.log)), None;
    }

    /** One Patroni REST write. */
    method Rest(me: nat, operation: string, member: string, accepting: set<nat>) returns (reply: HttpReply)
      modifies this
      ensures RestStep(old(now), now, RestCall(me, operation, member), accepting, reply)
      ensures reply.status != 0 ==> reply.delivery.HttpReceived?
      ensures trace == old(trace) + [RestExchange(RestCall(me, operation, member), reply, |now.log|)]
    {
      reply := *;
      var call := RestCall(me, operation, member);
      var outcome: nat := *;
      if reply.status != 0 {
        reply := reply.(delivery := HttpReceived);
        if reply.status in accepting {
          now := now.(rest := now.rest + [call]);
        }
      } else if !reply.delivery.HttpNotSent? {
        if outcome == 0 {
          now := now.(restFlight := now.restFlight + multiset{call});
        } else if outcome == 1 {
          now := now.(rest := now.rest + [call]);
        }
      }
      trace := trace + [RestExchange(call, reply, |now.log|)];
    }
  }
}
