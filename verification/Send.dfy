/**
 * The send core: one message to one user, with retries while the user is online and the offline store
 * as the last resort. What the result says is what happened.
 *
 * Answers of the environment (registry, cluster routing, replay gate, channels, offline store, retry
 * cancellation) are parameters; `log` records what actually became of the message.
 */
module Send {
  import opened Options

  datatype Error = RouteFailed | NoClientAccepted | UserOffline | StoreFailed | DeliveryAndStoreFailed | Cancelled

  /** What became of the message at some point. */
  datatype Event = Routed | Held | Accepted(clients: nat) | Stored

  /** What one attempt finds: the local registry, the cluster route, the gate, the clients' channels. */
  datatype Conditions = Conditions(localOnline: bool, routed: bool, routeError: bool, holding: bool, accepted: nat)

  /** The attempt gets the message somewhere. */
  predicate Reaches(w: Conditions) {
    (w.localOnline || !w.routeError) && (w.routed || (w.holding || w.accepted > 0))
  }

  /** Why an attempt that reaches nobody fails. */
  function Failure(w: Conditions): Error {
    if w.routeError && !w.localOnline then RouteFailed else NoClientAccepted
  }

  /** What the send core finds around the attempts, and each attempt when it is its turn. */
  datatype Environment = Environment(
    express: bool, localOnline: bool, indexedElsewhere: bool,
    offlineHandler: bool, storeSucceeds: bool, fromOfflineQueue: bool,
    maxRetries: int, attempts: nat -> Conditions, cancelledAfter: nat)

  /** After attempt i, if it fails, there is another one. */
  predicate MayRetry(env: Environment, retryable: Error -> bool, i: nat) {
    !env.express && i < env.maxRetries && i < env.cancelledAfter && retryable(Failure(env.attempts(i)))
  }

  /** Every attempt before i failed and may be retried. */
  ghost predicate Tried(env: Environment, retryable: Error -> bool, i: nat) {
    forall j: nat :: j < i ==> !Reaches(env.attempts(j)) && MayRetry(env, retryable, j)
  }

  /** One of the allowed attempts gets the message somewhere. */
  ghost predicate Deliverable(env: Environment, retryable: Error -> bool) {
    exists i: nat :: Tried(env, retryable, i) && Reaches(env.attempts(i))
  }

  /** The attempt comes to the local clients: not after a route error or a route without any of them. */
  predicate StaysHere(w: Conditions) {
    w.localOnline || (!w.routeError && !w.routed)
  }

  class SendResult {
    var success: bool
    var attempts: seq<bool>
    var totalRetries: int
    var finalError: Option<Error>
    var storedOffline: bool
    ghost var log: seq<Event>

    constructor ()
      ensures !success && attempts == [] && finalError == None && !storedOffline && log == []
    {
      success, attempts, totalRetries, finalError, storedOffline, log := false, [], 0, None, false, [];
    }

    /** sendToUser: succeeds exactly when the message was routed, held or accepted. */
    method SendToUser(w: Conditions) returns (err: Option<Error>)
      modifies this`log
      ensures err == if Reaches(w) then None else Some(Failure(w))
      ensures log == old(log) + (if w.routed then [Routed] else [])
                     + (if !StaysHere(w) then [] else if w.holding then [Held]
                        else if w.accepted > 0 then [Accepted(w.accepted)] else [])
      ensures err == None ==> |log| > |old(log)|
    {
      if w.routed {
        log := log + [Routed];
      }
      if w.routeError && !w.localOnline {
        return Some(RouteFailed);
      }
      if w.routed && !w.localOnline {
        return None;
      }
      if w.holding {
        log := log + [Held];
      } else {
        if w.accepted > 0 {
          log := log + [Accepted(w.accepted)];
        }
        if w.accepted == 0 && !w.routed {
          return Some(NoClientAccepted);
        }
      }
      return None;
    }

    method ExecuteSendAttempt(w: Conditions) returns (err: Option<Error>)
      modifies this`log, this`attempts
      ensures err == if Reaches(w) then None else Some(Failure(w))
      ensures attempts == old(attempts) + [Reaches(w)]
      ensures err == None ==> |log| > |old(log)|
      ensures old(log) <= log
    {
      err := SendToUser(w);
      attempts := attempts + [err == None];
    }

    /**
     * deliverOnlineWithPolicy: one attempt when express; otherwise attempts until one succeeds, the
     * error is not worth retrying, the attempts are used up or the retry is cancelled.
     */
    method DeliverOnline(env: Environment, retryable: Error -> bool) returns (err: Option<Error>)
      requires attempts == []
      modifies this`log, this`attempts
      ensures attempts != []
      ensures forall i :: 0 <= i < |attempts| ==> attempts[i] == Reaches(env.attempts(i))
      ensures forall i :: 0 <= i < |attempts| - 1 ==> !attempts[i] && MayRetry(env, retryable, i)
      ensures attempts[|attempts| - 1] || !MayRetry(env, retryable, |attempts| - 1)
      ensures err == if attempts[|attempts| - 1] then None else Some(Failure(env.attempts(|attempts| - 1)))
      ensures err == None ==> |log| > |old(log)|
      ensures old(log) <= log
    {
      if env.express {
        err := ExecuteSendAttempt(env.attempts(0));
        return;
      }
      var maxAttempts := env.maxRetries + 1;
      err := ExecuteSendAttempt(env.attempts(0));
      if err == None || |attempts| >= maxAttempts || !retryable(err.value) {
        return;
      }
      var n := 0;
      while err != None && |attempts| < maxAttempts && retryable(err.value) && n < env.cancelledAfter
        invariant 1 <= |attempts| == n + 1
        invariant forall i :: 0 <= i < |attempts| ==> attempts[i] == Reaches(env.attempts(i))
        invariant forall i :: 0 <= i < |attempts| - 1 ==> !attempts[i] && MayRetry(env, retryable, i)
        invariant err == if attempts[|attempts| - 1] then None else Some(Failure(env.attempts(|attempts| - 1)))
        invariant err == None ==> |log| > |old(log)|
        invariant old(log) <= log
        decreases maxAttempts - |attempts|
      {
        err := ExecuteSendAttempt(env.attempts(|attempts|));
        n := n + 1;
      }
    }

    /** The last attempt made is the first allowed one that reaches somebody, if there is one. */
    lemma LastDecides(env: Environment, retryable: Error -> bool, made: seq<bool>)
      requires made != []
      requires forall i :: 0 <= i < |made| ==> made[i] == Reaches(env.attempts(i))
      requires forall i :: 0 <= i < |made| - 1 ==> !made[i] && MayRetry(env, retryable, i)
      requires made[|made| - 1] || !MayRetry(env, retryable, |made| - 1)
      ensures made[|made| - 1] <==> Deliverable(env, retryable)
    {
      var last: nat := |made| - 1;
      if made[last] {
        assert Tried(env, retryable, last) && Reaches(env.attempts(last));
      } else {
        forall i: nat | Tried(env, retryable, i) ensures !Reaches(env.attempts(i)) {
        }
      }
    }

    /** The online half of the send core: delivery, then the offline store for what could not be delivered. */
    method DeliverOrStore(env: Environment, retryable: Error -> bool)
      requires attempts == [] && !storedOffline
      modifies this
      ensures success <==> finalError == None
      ensures attempts != [] && (attempts[|attempts| - 1] <==> Deliverable(env, retryable))
      ensures success <==> Deliverable(env, retryable) || CanStore(env)
      ensures storedOffline <==> !Deliverable(env, retryable) && CanStore(env)
      ensures success ==> |log| > |old(log)|
      ensures storedOffline ==> Stored in log
      ensures totalRetries == |attempts| - 1
      ensures old(log) <= log
    {
      var err := DeliverOnline(env, retryable);
      LastDecides(env, retryable, attempts);
      if err != None && !env.express && env.offlineHandler && !env.fromOfflineQueue {
        if env.storeSucceeds {
          log := log + [Stored];
          storedOffline := true;
          err := None;
        } else {
          err := Some(DeliveryAndStoreFailed);
        }
      }
      success := err == None;
      finalError := err;
      totalRetries := |attempts| - 1;
    }

    /**
     * sendToUserWithRetryCore. At every exit the result is a success exactly when it carries no error;
     * a reliable message that succeeds was routed, held, accepted or stored; and a message is reported
     * as stored exactly when it was.
     */
    method SendCore(env: Environment, retryable: Error -> bool)
      requires !success && attempts == [] && finalError == None && !storedOffline && log == []
      modifies this
      ensures success <==> finalError == None
      ensures success && !env.express ==> log != []
      ensures storedOffline ==> success && Stored in log
      ensures !Online(env) ==> attempts == [] && (success <==> env.express || (env.offlineHandler && env.storeSucceeds))
      ensures !Online(env) ==> (storedOffline <==> !env.express && env.offlineHandler && env.storeSucceeds)
      ensures Online(env) ==> attempts != [] && (success <==> Deliverable(env, retryable) || CanStore(env))
      ensures Online(env) ==> (storedOffline <==> !Deliverable(env, retryable) && CanStore(env))
    {
      var isOnline := env.localOnline;
      if !env.localOnline {
        isOnline := env.indexedElsewhere;
      }
      if !isOnline {
        if env.express {
          success := true;
          return;
        }
        if env.offlineHandler {
          if !env.storeSucceeds {
            finalError := Some(StoreFailed);
            return;
          }
          log := log + [Stored];
          success := true;
          storedOffline := true;
          return;
        }
        finalError := Some(UserOffline);
        return;
      }
      DeliverOrStore(env, retryable);
    }
  }

  predicate Online(env: Environment) {
    env.localOnline || env.indexedElsewhere
  }

  predicate CanStore(env: Environment) {
    !env.express && env.offlineHandler && !env.fromOfflineQueue && env.storeSucceeds
  }
}
