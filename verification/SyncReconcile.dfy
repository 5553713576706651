/** One reconcile of a TSecretSync from start to end, against an API server that stores the target. */
module SyncReconcile {
  import opened Common
  import opened Crypto
  import opened KeyResolver
  import opened Sync
  import opened Conditions
  import Inject

  /** The status of a TSecretSync. */
  datatype Status = Status(
    phase: string,
    conditions: seq<Condition>,
    lastSyncedAt: Option<int>,
    syncedGeneration: nat)

  const FRESH := Status("", [], None, 0)

  /** setSyncStatus: the phase and the Synced condition. */
  function Reported(s: Status, ok: bool, reason: string, time: int): Status {
    s.(phase := if ok then "Synced" else "SyncFailed",
       conditions := With(s.conditions, Condition("Synced", ok, reason, "", time)))
  }

  function Succeeded(s: Status, generation: nat, time: int): Status {
    Reported(s.(lastSyncedAt := Some(time), syncedGeneration := generation), true, "SyncComplete", time)
  }

  predicate ShowsSynced(s: Status) {
    var c := Lookup(s.conditions, "Synced");
    c.Some? && c.value.holds
  }

  lemma ReportedShows(s: Status, ok: bool, reason: string, time: int)
    ensures ShowsSynced(Reported(s, ok, reason, time)) <==> ok
    ensures Lookup(Reported(s, ok, reason, time).conditions, "Synced")
         == Some(Condition("Synced", ok, reason, "", time))
    ensures ShowsSynced(Succeeded(s, s.syncedGeneration, time))
    ensures Reported(s, ok, reason, time).phase == if ok then "Synced" else "SyncFailed"
    ensures Reported(s, ok, reason, time).phase == "Synced" <==> ok
    ensures Reported(s, ok, reason, time).lastSyncedAt == s.lastSyncedAt
    ensures Reported(s, ok, reason, time).syncedGeneration == s.syncedGeneration
    ensures forall kind :: kind != "Synced" ==>
              Lookup(Reported(s, ok, reason, time).conditions, kind) == Lookup(s.conditions, kind)
  {
    WithLookup(s.conditions, Condition("Synced", ok, reason, "", time), "Synced");
    WithLookup(s.conditions, Condition("Synced", true, "SyncComplete", "", time), "Synced");
    forall kind | kind != "Synced"
      ensures Lookup(Reported(s, ok, reason, time).conditions, kind) == Lookup(s.conditions, kind)
    {
      WithLookup(s.conditions, Condition("Synced", ok, reason, "", time), kind);
    }
  }

  // ----- Objects that are updated in place -----

  /** The target as the API server stores it. A refused call changes nothing; a lost one takes effect, but
      its caller is told that it failed. */
  class TargetStore {
    var stored: Option<Inject.TSecret>

    constructor ()
      ensures stored == None
    {
      stored := None;
    }

    method Create(t: Inject.TSecret, refused: bool, lost: bool) returns (ok: bool)
      modifies this
      ensures ok <==> old(stored).None? && !refused && !lost
      ensures stored == if old(stored).None? && !refused then Some(t) else old(stored)
    {
      if stored.Some? || refused {
        return false;
      }
      stored := Some(t);
      ok := !lost;
    }

    method Update(t: Inject.TSecret, refused: bool, lost: bool) returns (ok: bool)
      modifies this
      ensures ok <==> old(stored).Some? && !refused && !lost
      ensures stored == if old(stored).Some? && !refused then Some(t) else old(stored)
    {
      if stored.None? || refused {
        return false;
      }
      stored := Some(t);
      ok := !lost;
    }
  }

  class SyncStatus {
    var phase: string
    const conditions: ConditionList
    var lastSyncedAt: Option<int>
    var syncedGeneration: nat

    constructor ()
      ensures fresh(conditions) && Value() == FRESH
    {
      phase, lastSyncedAt, syncedGeneration := "", None, 0;
      conditions := new ConditionList();
    }

    ghost function Value(): Status
      reads this, conditions
    {
      Status(phase, conditions.items, lastSyncedAt, syncedGeneration)
    }

    method SetSyncStatus(status: string, reason: string, time: int)
      requires status == "Synced" || status == "SyncFailed"
      modifies this, conditions
      ensures Value() == Reported(old(Value()), status == "Synced", reason, time)
    {
      phase := status;
      conditions.SetCondition(Condition("Synced", status == "Synced", reason, "", time));
    }
  }

  /** What the surroundings do during one reconcile: a store, provider or authentication failure with its
      reason; the answers for the items; whether Get finds the target; whether the write is refused (a
      stale version, say); whether it takes effect and its answer is lost on the way. */
  datatype Surroundings = Surroundings(
    failure: Option<string>,
    answers: seq<Answer>,
    found: bool,
    refused: bool,
    lost: bool,
    time: int)

  datatype Effect = Effect(stored: Option<Inject.TSecret>, status: Status)

  /** Everything one reconcile may do to the target and the status. */
  function Reconciled(ciphers: Ciphers, spec: Spec, generation: nat, namespace: string,
                      stored: Option<Inject.TSecret>, status: Status, env: Surroundings): Effect
    requires |env.answers| == |spec.items|
  {
    if env.failure.Some? then Effect(stored, Reported(status, false, env.failure.value, env.time))
    else
      match Pull(ciphers, DefaultRef(spec), namespace, spec.items, env.answers)
      case Stopped(reason) => Effect(stored, Reported(status, false, reason, env.time))
      case Entries(data) =>
        var failed := Reported(status, false, if env.found then "UpdateFailed" else "CreateFailed", env.time);
        if env.refused || env.found != stored.Some? then Effect(stored, failed)
        else
          Effect(Some(Inject.TSecret(DefaultRef(spec), data)),
                 if env.lost then failed else Succeeded(status, generation, env.time))
  }

  method Reconcile(ciphers: Ciphers, spec: Spec, generation: nat, namespace: string,
                   target: TargetStore, status: SyncStatus, env: Surroundings)
    requires |env.answers| == |spec.items|
    modifies target, status, status.conditions
    ensures Effect(target.stored, status.Value())
         == Reconciled(ciphers, spec, generation, namespace, old(target.stored), old(status.Value()), env)
  {
    if env.failure.Some? {
      status.SetSyncStatus("SyncFailed", env.failure.value, env.time);
      return;
    }
    var ref := DefaultRef(spec);
    var pulled := PullAll(ciphers, ref, namespace, spec.items, env.answers);
    match pulled {
      case Stopped(reason) =>
        status.SetSyncStatus("SyncFailed", reason, env.time);
        return;
      case Entries(data) =>
        var written;
        if env.found {
          written := target.Update(Inject.TSecret(ref, data), env.refused, env.lost);
        } else {
          written := target.Create(Inject.TSecret(ref, data), env.refused, env.lost);
        }
        if !written {
          status.SetSyncStatus("SyncFailed", if env.found then "UpdateFailed" else "CreateFailed", env.time);
          return;
        }
        status.lastSyncedAt := Some(env.time);
        status.syncedGeneration := generation;
        status.SetSyncStatus("Synced", "SyncComplete", env.time);
    }
  }

  /** The write takes effect: nothing failed before it, every item was pulled, and the API server took it. */
  ghost predicate TakesEffect(ciphers: Ciphers, ref: EncryptionRef, namespace: string,
                              stored: Option<Inject.TSecret>, env: Surroundings)
  {
    && env.failure.None?
    && (forall a :: a in env.answers ==> PullOne(ciphers, ref, namespace, a).Ok?)
    && !env.refused && env.found == stored.Some?
  }

  /** What it was that failed first, or that nothing did. */
  ghost function ReasonFor(ciphers: Ciphers, ref: EncryptionRef, items: seq<Item>, namespace: string,
                           stored: Option<Inject.TSecret>, env: Surroundings): string
    requires |env.answers| == |items|
  {
    if env.failure.Some? then env.failure.value
    else if Pull(ciphers, ref, namespace, items, env.answers).Stopped? then
      Pull(ciphers, ref, namespace, items, env.answers).reason
    else if TakesEffect(ciphers, ref, namespace, stored, env) && !env.lost then "SyncComplete"
    else if env.found then "UpdateFailed"
    else "CreateFailed"
  }

  /** A reconcile stores all of one pull loop's output or nothing, exactly if its write takes effect; it
      reports Synced exactly if, besides, it hears of that. Otherwise the status keeps the last success. */
  lemma AllOrNothing(ciphers: Ciphers, spec: Spec, ref: EncryptionRef, generation: nat, namespace: string,
                     stored: Option<Inject.TSecret>, status: Status, env: Surroundings)
    requires |env.answers| == |spec.items| && AskedRef(spec, ref)
    ensures var r := Reconciled(ciphers, spec, generation, namespace, stored, status, env);
            var pulled := Pull(ciphers, ref, namespace, spec.items, env.answers);
            if TakesEffect(ciphers, ref, namespace, stored, env) then
              pulled.Entries? && r.stored == Some(Inject.TSecret(ref, pulled.data))
            else r.stored == stored
    ensures var r := Reconciled(ciphers, spec, generation, namespace, stored, status, env);
            r.status.phase == if TakesEffect(ciphers, ref, namespace, stored, env) && !env.lost then "Synced"
                              else "SyncFailed"
    ensures var r := Reconciled(ciphers, spec, generation, namespace, stored, status, env);
            Lookup(r.status.conditions, "Synced")
            == Some(Condition("Synced", TakesEffect(ciphers, ref, namespace, stored, env) && !env.lost,
                              ReasonFor(ciphers, ref, spec.items, namespace, stored, env), "", env.time))
    ensures var r := Reconciled(ciphers, spec, generation, namespace, stored, status, env);
            if TakesEffect(ciphers, ref, namespace, stored, env) && !env.lost then
              && ShowsSynced(r.status)
              && r.status.syncedGeneration == generation && r.status.lastSyncedAt == Some(env.time)
            else
              && !ShowsSynced(r.status)
              && r.status.syncedGeneration == status.syncedGeneration
              && r.status.lastSyncedAt == status.lastSyncedAt
    ensures var r := Reconciled(ciphers, spec, generation, namespace, stored, status, env);
            forall kind :: kind != "Synced" ==> Lookup(r.status.conditions, kind) == Lookup(status.conditions, kind)
  {
    hide PullOne, Reported, ShowsSynced;
    PullCompleteIff(ciphers, ref, namespace, spec.items, env.answers);
    var reason := if env.failure.Some? then env.failure.value
                  else
                    match Pull(ciphers, ref, namespace, spec.items, env.answers)
                    case Stopped(reason) => reason
                    case Entries(_) => if env.found then "UpdateFailed" else "CreateFailed";
    ReportedShows(status, false, reason, env.time);
    var success := status.(lastSyncedAt := Some(env.time), syncedGeneration := generation);
    ReportedShows(success, true, "SyncComplete", env.time);
  }
}
