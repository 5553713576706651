/** Many reconciles of many TSecretSyncs over one API server, interleaved at every client call. Objects
    carry versions: reads may return an earlier version, writes fail on a stale one, a created object
    must not exist, and the answer to a write may be lost after it took effect. */
module SyncProtocol {
  import opened Base64
  import opened Common
  import opened Crypto
  import opened KeyResolver
  import opened Sync
  import opened SyncReconcile
  import Inject

  // ----- The stored objects -----

  /** One version of a TSecretSync. */
  datatype SyncObject = SyncObject(spec: Spec, generation: nat, status: Status)

  /** A TSecretSync with all its versions, the current one last. */
  datatype Record = Record(namespace: string, history: seq<SyncObject>, deleted: bool)

  /** Who stored a TSecret: somebody else, or the reconcile with the given number. */
  datatype Origin = External | BySync(run: nat)

  datatype Target = Target(version: nat, body: Inject.TSecret, origin: Origin)

  /** A target write that took effect: the reconcile, the version of the sync it had read and the answers
      it was given, and what it stored where. */
  datatype Commit = Commit(
    run: nat,
    id: nat,
    version: nat,
    generation: nat,
    answers: seq<Answer>,
    at: ObjectKey,
    body: Inject.TSecret)

  // ----- Reconciles in flight -----

  /** Every phase names the sync and the version of it that was read. Each reconcile has a number of its
      own, which is not used again. */
  datatype Run =
    | Pulling(id: nat, version: nat, answers: seq<Answer>, data: map<string, Inject.Entry>)
    | Writing(id: nat, version: nat, answers: seq<Answer>, data: map<string, Inject.Entry>, held: Option<nat>)
    | Reporting(id: nat, version: nat, ok: bool, reason: string)
    | Ended(id: nat, version: nat)

  datatype State = State(
    syncs: map<nat, Record>,
    targets: map<ObjectKey, Target>,
    runs: map<nat, Run>,
    clock: nat,
    log: seq<Commit>)

  const INIT := State(map[], map[], map[], 0, [])

  datatype Action =
    // somebody else
    | CreateSync(id: nat, namespace: string, spec: Spec)
    | EditSync(id: nat, spec: Spec)
    | TouchSync(id: nat)
    | DeleteSync(id: nat)
    | StoreTarget(at: ObjectKey, body: Inject.TSecret)
    | TouchTarget(at: ObjectKey)
    | DeleteTarget(at: ObjectKey)
    // steps of reconcile `run`
    | Start(run: nat, id: nat, version: nat)
    | GiveUp(run: nat, reason: string)
    | PullItem(run: nat, answer: Answer)
    | GetTarget(run: nat, found: Option<nat>)
    | Write(run: nat, refused: bool, lost: bool)
    | Report(run: nat, refused: bool, time: int)
    | Crash(run: nat)

  function Read(s: State, id: nat, version: nat): Option<SyncObject> {
    if id in s.syncs && version < |s.syncs[id].history| then Some(s.syncs[id].history[version]) else None
  }

  function Append(s: State, id: nat, o: SyncObject): State
    requires id in s.syncs
  {
    s.(syncs := s.syncs[id := s.syncs[id].(history := s.syncs[id].history + [o])])
  }

  function Current(r: Record): SyncObject
    requires r.history != []
  {
    r.history[|r.history| - 1]
  }

  predicate Live(s: State, id: nat) {
    id in s.syncs && !s.syncs[id].deleted && s.syncs[id].history != []
  }

  function Fail(s: State, run: nat, r: Run, reason: string): State {
    s.(runs := s.runs[run := Reporting(r.id, r.version, false, reason)])
  }

  function End(s: State, run: nat, r: Run): State {
    s.(runs := s.runs[run := Ended(r.id, r.version)])
  }

  // ----- The pull loop, over any way to pull one item -----

  /** Pulling and encrypting one item: the reference, the namespace and the answers of the surroundings. */
  type PullItemOf = (EncryptionRef, string, Answer) -> Result<Inject.Entry>

  function Outcomes(one: PullItemOf, ref: EncryptionRef, namespace: string, answers: seq<Answer>):
      (rs: seq<Result<Inject.Entry>>)
    ensures |rs| == |answers|
    ensures forall i :: 0 <= i < |answers| ==> rs[i] == one(ref, namespace, answers[i])
  {
    seq(|answers|, i requires 0 <= i < |answers| => one(ref, namespace, answers[i]))
  }

  function Loop(one: PullItemOf, ref: EncryptionRef, namespace: string, items: seq<Item>, answers: seq<Answer>): Pulled
    requires |items| == |answers|
  {
    Gather(items, Outcomes(one, ref, namespace, answers))
  }

  /** One more item of a loop that has got so far. */
  lemma LoopSnoc(one: PullItemOf, ref: EncryptionRef, namespace: string, items: seq<Item>,
                 answers: seq<Answer>, answer: Answer)
    requires |answers| < |items|
    ensures Loop(one, ref, namespace, items[..|answers| + 1], answers + [answer])
         == match Loop(one, ref, namespace, items[..|answers|], answers)
            case Stopped(reason) => Stopped(reason)
            case Entries(data) =>
              match one(ref, namespace, answer)
              case Err(reason) => Stopped(reason)
              case Ok(e) => Entries(data[items[|answers|].secretKey := e])
  {
    var n := |answers|;
    var outcomes := Outcomes(one, ref, namespace, answers + [answer]);
    assert items[..n + 1][..n] == items[..n];
    assert outcomes[..n] == Outcomes(one, ref, namespace, answers);
  }

  /** With the reconciler's way to pull an item, this is the reconciler's loop. */
  function Puller(ciphers: Ciphers): PullItemOf {
    (ref, namespace, answer) => PullOne(ciphers, ref, namespace, answer)
  }

  lemma LoopIsPull(ciphers: Ciphers, ref: EncryptionRef, namespace: string, items: seq<Item>, answers: seq<Answer>)
    requires |items| == |answers|
    ensures Loop(Puller(ciphers), ref, namespace, items, answers) == Pull(ciphers, ref, namespace, items, answers)
  {
    assert Outcomes(Puller(ciphers), ref, namespace, answers) == Results(ciphers, ref, namespace, answers);
  }

  // ----- One step -----

  /** A step that is not possible leaves everything as it is. */
  function Do(one: PullItemOf, s: State, a: Action): State {
    match a
    case CreateSync(id, namespace, spec) =>
      if id in s.syncs then s
      else s.(syncs := s.syncs[id := Record(namespace, [SyncObject(spec, 1, FRESH)], false)])
    case EditSync(id, spec) =>
      if !Live(s, id) || Current(s.syncs[id]).spec == spec then s
      else
        var o := Current(s.syncs[id]);
        Append(s, id, o.(spec := spec, generation := o.generation + 1))
    case TouchSync(id) =>
      if !Live(s, id) then s else Append(s, id, Current(s.syncs[id]))
    case DeleteSync(id) =>
      if id !in s.syncs then s else s.(syncs := s.syncs[id := s.syncs[id].(deleted := true)])
    case StoreTarget(at, body) =>
      s.(targets := s.targets[at := Target(s.clock, body, External)], clock := s.clock + 1)
    case TouchTarget(at) =>
      if at !in s.targets then s
      else s.(targets := s.targets[at := s.targets[at].(version := s.clock)], clock := s.clock + 1)
    case DeleteTarget(at) =>
      s.(targets := s.targets - {at})
    case Start(run, id, version) =>
      if run in s.runs || Read(s, id, version).None? then s
      else s.(runs := s.runs[run := Pulling(id, version, [], map[])])
    case GiveUp(run, reason) =>
      if run in s.runs && s.runs[run].Pulling? && s.runs[run].answers == [] then Fail(s, run, s.runs[run], reason)
      else s
    case PullItem(run, answer) =>
      if run in s.runs && s.runs[run].Pulling? then DoPull(one, s, run, s.runs[run], answer) else s
    case GetTarget(run, found) =>
      if run in s.runs && s.runs[run].Pulling? then DoGet(s, run, s.runs[run], found) else s
    case Write(run, refused, lost) =>
      if run in s.runs && s.runs[run].Writing? then DoWrite(s, run, s.runs[run], refused, lost) else s
    case Report(run, refused, time) =>
      if run in s.runs && s.runs[run].Reporting? then DoReport(s, run, s.runs[run], refused, time) else s
    case Crash(run) =>
      if run in s.runs then End(s, run, s.runs[run]) else s
  }

  function DoPull(one: PullItemOf, s: State, run: nat, r: Run, answer: Answer): State
    requires r.Pulling?
  {
    match Read(s, r.id, r.version)
    case None => s
    case Some(o) =>
      var n := |r.answers|;
      if n >= |o.spec.items| then s
      else
        match one(DefaultRef(o.spec), s.syncs[r.id].namespace, answer)
        case Err(reason) => Fail(s, run, r, reason)
        case Ok(e) =>
          s.(runs := s.runs[run := Pulling(r.id, r.version, r.answers + [answer],
                                           r.data[o.spec.items[n].secretKey := e])])
  }

  /** When all items are pulled, the target is looked up; any version issued so far may be returned. */
  function DoGet(s: State, run: nat, r: Run, found: Option<nat>): State
    requires r.Pulling?
  {
    match Read(s, r.id, r.version)
    case None => s
    case Some(o) =>
      if |r.answers| == |o.spec.items| && (found.Some? ==> found.value < s.clock)
      then s.(runs := s.runs[run := Writing(r.id, r.version, r.answers, r.data, found)])
      else s
  }

  predicate Accepted(s: State, at: ObjectKey, held: Option<nat>) {
    match held
    case None => at !in s.targets
    case Some(v) => at in s.targets && s.targets[at].version == v
  }

  function DoWrite(s: State, run: nat, r: Run, refused: bool, lost: bool): State
    requires r.Writing?
  {
    match Read(s, r.id, r.version)
    case None => s
    case Some(o) =>
      var at := ObjectKey(s.syncs[r.id].namespace, o.spec.target);
      var body := Inject.TSecret(DefaultRef(o.spec), r.data);
      var reason := if r.held.None? then "CreateFailed" else "UpdateFailed";
      if refused || !Accepted(s, at, r.held) then Fail(s, run, r, reason)
      else
        s.(targets := s.targets[at := Target(s.clock, body, BySync(run))],
           clock := s.clock + 1,
           log := s.log + [Commit(run, r.id, r.version, o.generation, r.answers, at, body)],
           runs := s.runs[run := Reporting(r.id, r.version, !lost, if lost then reason else "SyncComplete")])
  }

  function NewStatus(r: Run, o: SyncObject, time: int): Status
    requires r.Reporting?
  {
    if r.ok then Succeeded(o.status, o.generation, time) else Reported(o.status, false, r.reason, time)
  }

  /** The status is stored only if the version that was read is still the current one. */
  function DoReport(s: State, run: nat, r: Run, refused: bool, time: int): State
    requires r.Reporting?
  {
    var s' := End(s, run, r);
    match Read(s, r.id, r.version)
    case None => s'
    case Some(o) =>
      if refused || s.syncs[r.id].deleted || r.version + 1 != |s.syncs[r.id].history| then s'
      else Append(s', r.id, o.(status := NewStatus(r, o, time)))
  }

  /** The state after a sequence of steps. */
  function After(one: PullItemOf, actions: seq<Action>): State {
    if actions == [] then INIT else Do(one, After(one, actions[..|actions| - 1]), actions[|actions| - 1])
  }

  /** The number of the reconcile that takes the step. */
  function RunOf(a: Action): Option<nat> {
    match a
    case Start(run, _, _) => Some(run)
    case GiveUp(run, _) => Some(run)
    case PullItem(run, _) => Some(run)
    case GetTarget(run, _) => Some(run)
    case Write(run, _, _) => Some(run)
    case Report(run, _, _) => Some(run)
    case Crash(run) => Some(run)
    case _ => None
  }

  // ----- What is claimed -----

  /** The body of a committed write is the complete output of the pull loop over the items of the spec
      that was read, run on the answers that were given, and it is stored where that spec says. */
  ghost predicate Output(one: PullItemOf, s: State, c: Commit) {
    && Read(s, c.id, c.version).Some?
    && var o := Read(s, c.id, c.version).value;
       && o.generation == c.generation
       && |c.answers| == |o.spec.items|
       && c.at == ObjectKey(s.syncs[c.id].namespace, o.spec.target)
       && c.body.encryptionRef == DefaultRef(o.spec)
       && Loop(one, DefaultRef(o.spec), s.syncs[c.id].namespace, o.spec.items, c.answers) == Entries(c.body.data)
  }

  ghost predicate Stored(s: State, at: ObjectKey, t: Target) {
    t.origin.BySync? ==> exists c :: c in s.log && c.run == t.origin.run && c.at == at && c.body == t.body
  }

  ghost predicate TargetsStored(s: State) {
    forall at :: at in s.targets ==> Stored(s, at, s.targets[at])
  }

  ghost predicate Committed(s: State, id: nat, generation: nat) {
    exists c :: c in s.log && c.id == id && c.generation == generation
  }

  /** The reconcile has written, or given up writing. */
  predicate Past(s: State, run: nat) {
    run in s.runs && (s.runs[run].Reporting? || s.runs[run].Ended?)
  }

  ghost predicate LogFits(one: PullItemOf, s: State) {
    && (forall c :: c in s.log ==> Output(one, s, c) && Past(s, c.run))
    && (forall i, j :: 0 <= i < j < |s.log| ==> s.log[i].run != s.log[j].run)
  }

  ghost predicate RunFits(one: PullItemOf, s: State, r: Run) {
    && Read(s, r.id, r.version).Some?
    && var o := Read(s, r.id, r.version).value;
       match r
       case Pulling(_, _, answers, data) =>
         && |answers| <= |o.spec.items|
         && Loop(one, DefaultRef(o.spec), s.syncs[r.id].namespace, o.spec.items[..|answers|], answers)
            == Entries(data)
       case Writing(_, _, answers, data, _) =>
         && |answers| == |o.spec.items|
         && Loop(one, DefaultRef(o.spec), s.syncs[r.id].namespace, o.spec.items, answers) == Entries(data)
       case Reporting(_, _, ok, _) =>
         ok ==> Committed(s, r.id, o.generation)
       case Ended(_, _) => true
  }

  /** How one version of a sync follows another. */
  ghost predicate Follows(o: SyncObject, o': SyncObject) {
    && o.generation <= o'.generation
    && (o.generation == o'.generation ==> o.spec == o'.spec)
    && o.status.syncedGeneration <= o'.status.syncedGeneration
    && (o'.status.syncedGeneration != o.status.syncedGeneration
        || o'.status.lastSyncedAt != o.status.lastSyncedAt ==>
          ShowsSynced(o'.status) && o'.status.syncedGeneration == o'.generation && o'.status.lastSyncedAt.Some?)
  }

  ghost predicate Honest(s: State, id: nat, o: SyncObject) {
    && o.status.syncedGeneration <= o.generation
    && (o.status.phase == "Synced" <==> ShowsSynced(o.status))
    && (ShowsSynced(o.status) ==> Committed(s, id, o.status.syncedGeneration))
  }

  ghost predicate HistoryFits(s: State, id: nat)
    requires id in s.syncs
  {
    && s.syncs[id].history != []
    && (forall k :: 0 <= k < |s.syncs[id].history| ==> Honest(s, id, s.syncs[id].history[k]))
    && (forall k :: 0 < k < |s.syncs[id].history| ==> Follows(s.syncs[id].history[k - 1], s.syncs[id].history[k]))
  }

  ghost predicate Inv(one: PullItemOf, s: State) {
    && TargetsStored(s)
    && LogFits(one, s)
    && (forall run :: run in s.runs ==> RunFits(one, s, s.runs[run]))
    && (forall id :: id in s.syncs ==> HistoryFits(s, id))
  }

  // ----- What is known stays known -----

  /** No version of a sync and no committed write is ever forgotten. */
  ghost predicate Grows(s: State, s': State) {
    && (forall id :: id in s.syncs ==>
          id in s'.syncs && s'.syncs[id].namespace == s.syncs[id].namespace
          && s.syncs[id].history <= s'.syncs[id].history)
    && s.log <= s'.log
  }

  lemma PhasesGrow(one: PullItemOf, s: State, run: nat, r: Run, a: Action)
    ensures r.Pulling? && a.PullItem? ==> Grows(s, DoPull(one, s, run, r, a.answer))
    ensures r.Pulling? && a.GetTarget? ==> Grows(s, DoGet(s, run, r, a.found))
    ensures r.Writing? && a.Write? ==> Grows(s, DoWrite(s, run, r, a.refused, a.lost))
    ensures r.Reporting? && a.Report? ==> Grows(s, DoReport(s, run, r, a.refused, a.time))
  {
    hide NewStatus, DefaultRef;
  }

  lemma DoGrows(one: PullItemOf, s: State, a: Action)
    ensures Grows(s, Do(one, s, a))
  {
    hide DoPull, DoGet, DoWrite, DoReport;
    if RunOf(a).Some? && RunOf(a).value in s.runs {
      PhasesGrow(one, s, RunOf(a).value, s.runs[RunOf(a).value], a);
    }
  }

  lemma ReadStays(s: State, s': State, id: nat, version: nat)
    requires Grows(s, s') && Read(s, id, version).Some?
    ensures Read(s', id, version) == Read(s, id, version)
    ensures s'.syncs[id].namespace == s.syncs[id].namespace
  {
  }

  lemma CommittedStays(s: State, s': State, id: nat, generation: nat)
    requires Grows(s, s') && Committed(s, id, generation)
    ensures Committed(s', id, generation)
  {
    var c :| c in s.log && c.id == id && c.generation == generation;
    assert c in s'.log;
  }

  lemma OutputStays(one: PullItemOf, s: State, s': State, c: Commit)
    requires Grows(s, s') && Output(one, s, c)
    ensures Output(one, s', c)
  {
    ReadStays(s, s', c.id, c.version);
  }

  lemma RunStays(one: PullItemOf, s: State, s': State, r: Run)
    requires Grows(s, s') && RunFits(one, s, r)
    ensures RunFits(one, s', r)
  {
    ReadStays(s, s', r.id, r.version);
    if r.Reporting? && r.ok {
      CommittedStays(s, s', r.id, Read(s, r.id, r.version).value.generation);
    }
  }

  // ----- Every step keeps the invariant -----

  /** One write took effect, and nothing else happened to targets and log. */
  ghost predicate Wrote(one: PullItemOf, s: State, s': State, c: Commit) {
    && s'.log == s.log + [c] && Output(one, s', c) && Past(s', c.run)
    && c.at in s'.targets && s'.targets[c.at].body == c.body && s'.targets[c.at].origin == BySync(c.run)
    && s'.targets == s.targets[c.at := s'.targets[c.at]]
  }

  /** The write of a run that got through the whole loop. */
  lemma WriteIsOutput(one: PullItemOf, s: State, run: nat, refused: bool, lost: bool)
    requires run in s.runs && s.runs[run].Writing? && RunFits(one, s, s.runs[run])
    ensures var s' := DoWrite(s, run, s.runs[run], refused, lost);
            || (s'.targets == s.targets && s'.log == s.log)
            || (exists c :: Wrote(one, s, s', c) && c.run == run && c.answers == s.runs[run].answers
                            && c.id == s.runs[run].id && c.version == s.runs[run].version)
  {
    hide Loop, DefaultRef;
    var r := s.runs[run];
    var s' := DoWrite(s, run, r, refused, lost);
    var o := Read(s, r.id, r.version).value;
    var at := ObjectKey(s.syncs[r.id].namespace, o.spec.target);
    if !refused && Accepted(s, at, r.held) {
      var c := Commit(run, r.id, r.version, o.generation, r.answers, at, Inject.TSecret(DefaultRef(o.spec), r.data));
      assert Wrote(one, s, s', c);
    }
  }

  /** Apart from that, targets change only by somebody else's hand, and the log not at all. */
  lemma OnlyWritesWrite(one: PullItemOf, s: State, a: Action)
    requires !(a.Write? && a.run in s.runs && s.runs[a.run].Writing?)
    ensures Do(one, s, a).log == s.log
    ensures forall at :: at in Do(one, s, a).targets && Do(one, s, a).targets[at].origin.BySync? ==>
              && at in s.targets && Do(one, s, a).targets[at].body == s.targets[at].body
              && Do(one, s, a).targets[at].origin == s.targets[at].origin
    ensures !a.StoreTarget? && !a.TouchTarget? && !a.DeleteTarget? ==> Do(one, s, a).targets == s.targets
  {
  }

  lemma PastStays(one: PullItemOf, s: State, a: Action, run: nat)
    requires Past(s, run)
    ensures Past(Do(one, s, a), run)
  {
  }

  lemma StoredStays(s: State, s': State, at: ObjectKey, t: Target, t': Target)
    requires Grows(s, s') && Stored(s, at, t) && t'.body == t.body && t'.origin == t.origin
    ensures Stored(s', at, t')
  {
    if t.origin.BySync? {
      var c :| c in s.log && c.run == t.origin.run && c.at == at && c.body == t.body;
      assert c in s'.log;
    }
  }

  lemma SameLog(one: PullItemOf, s: State, a: Action)
    requires LogFits(one, s) && Do(one, s, a).log == s.log
    ensures LogFits(one, Do(one, s, a))
  {
    hide Do, Output;
    DoGrows(one, s, a);
    forall c | c in s.log
      ensures Output(one, Do(one, s, a), c) && Past(Do(one, s, a), c.run)
    {
      OutputStays(one, s, Do(one, s, a), c);
      PastStays(one, s, a, c.run);
    }
  }

  lemma MoreLog(one: PullItemOf, s: State, a: Action, c: Commit)
    requires LogFits(one, s) && Wrote(one, s, Do(one, s, a), c) && !Past(s, c.run)
    ensures LogFits(one, Do(one, s, a))
  {
    hide Do, Output;
    var s' := Do(one, s, a);
    DoGrows(one, s, a);
    forall d | d in s'.log
      ensures Output(one, s', d) && Past(s', d.run)
      ensures d != c ==> d.run != c.run
    {
      if d in s.log {
        OutputStays(one, s, s', d);
        PastStays(one, s, a, d.run);
      }
    }
    forall i, j | 0 <= i < j < |s'.log|
      ensures s'.log[i].run != s'.log[j].run
    {
      assert s.log[i] in s.log;
    }
  }

  lemma StepTargets(one: PullItemOf, s: State, a: Action)
    requires Inv(one, s)
    ensures TargetsStored(Do(one, s, a)) && LogFits(one, Do(one, s, a))
  {
    hide Output, HistoryFits, RunFits, Do;
    var s' := Do(one, s, a);
    DoGrows(one, s, a);
    if a.Write? && a.run in s.runs && s.runs[a.run].Writing? {
      WriteTargets(one, s, a);
    } else {
      OnlyWritesWrite(one, s, a);
      SameLog(one, s, a);
      forall at | at in s'.targets
        ensures Stored(s', at, s'.targets[at])
      {
        if s'.targets[at].origin.BySync? {
          StoredStays(s, s', at, s.targets[at], s'.targets[at]);
        }
      }
    }
  }

  lemma WriteStep(one: PullItemOf, s: State, a: Action)
    requires a.Write? && a.run in s.runs && s.runs[a.run].Writing?
    ensures Do(one, s, a) == DoWrite(s, a.run, s.runs[a.run], a.refused, a.lost)
  {
  }

  lemma WriteTargets(one: PullItemOf, s: State, a: Action)
    requires Inv(one, s) && a.Write? && a.run in s.runs && s.runs[a.run].Writing?
    ensures TargetsStored(Do(one, s, a)) && LogFits(one, Do(one, s, a))
  {
    hide Output, HistoryFits, Do, DoWrite;
    var s' := Do(one, s, a);
    WriteStep(one, s, a);
    assert RunFits(one, s, s.runs[a.run]);
    WriteIsOutput(one, s, a.run, a.refused, a.lost);
    DoGrows(one, s, a);
    forall at | at in s.targets && at in s'.targets && s'.targets[at] == s.targets[at]
      ensures Stored(s', at, s'.targets[at])
    {
      StoredStays(s, s', at, s.targets[at], s.targets[at]);
    }
    if s'.log == s.log {
      SameLog(one, s, a);
    } else {
      var c :| Wrote(one, s, s', c) && c.run == a.run;
      MoreLog(one, s, a, c);
      assert s'.log[|s.log|] == c;
      assert Stored(s', c.at, s'.targets[c.at]);
    }
  }

  lemma PullRunFits(one: PullItemOf, s: State, run: nat, answer: Answer)
    requires run in s.runs && s.runs[run].Pulling? && RunFits(one, s, s.runs[run])
    ensures RunFits(one, s, DoPull(one, s, run, s.runs[run], answer).runs[run])
  {
    var r := s.runs[run];
    var o := Read(s, r.id, r.version).value;
    if |r.answers| < |o.spec.items| {
      LoopSnoc(one, DefaultRef(o.spec), s.syncs[r.id].namespace, o.spec.items, r.answers, answer);
    }
  }

  lemma GetRunFits(one: PullItemOf, s: State, run: nat, found: Option<nat>)
    requires run in s.runs && s.runs[run].Pulling? && RunFits(one, s, s.runs[run])
    ensures RunFits(one, s, DoGet(s, run, s.runs[run], found).runs[run])
  {
    var r := s.runs[run];
    var o := Read(s, r.id, r.version).value;
    if |r.answers| == |o.spec.items| {
      assert o.spec.items[..|r.answers|] == o.spec.items;
    }
  }

  lemma WriteRunFits(one: PullItemOf, s: State, run: nat, refused: bool, lost: bool)
    requires run in s.runs && s.runs[run].Writing? && RunFits(one, s, s.runs[run])
    ensures var s' := DoWrite(s, run, s.runs[run], refused, lost);
            run in s'.runs && RunFits(one, s', s'.runs[run])
  {
    var s' := DoWrite(s, run, s.runs[run], refused, lost);
    if s'.log != s.log {
      assert s'.log[|s'.log| - 1] in s'.log;
    }
  }

  lemma OtherRuns(one: PullItemOf, s: State, a: Action, run: nat)
    requires RunOf(a) != Some(run)
    ensures run in s.runs <==> run in Do(one, s, a).runs
    ensures run in s.runs ==> Do(one, s, a).runs[run] == s.runs[run]
  {
  }

  lemma StartRuns(one: PullItemOf, s: State, run: nat, id: nat, version: nat)
    requires Read(s, id, version).Some?
    ensures RunFits(one, s, Pulling(id, version, [], map[]))
  {
  }

  /** The run that takes the step: its new phase fits, seen from the state after the step. */
  lemma OwnRun(one: PullItemOf, s: State, a: Action, run: nat)
    requires Inv(one, s) && RunOf(a) == Some(run) && run in s.runs && run in Do(one, s, a).runs
    requires !a.Start?
    ensures RunFits(one, Do(one, s, a), Do(one, s, a).runs[run])
  {
    var s' := Do(one, s, a);
    assert RunFits(one, s, s.runs[run]);
    if a.Write? && s.runs[run].Writing? {
      WriteRunFits(one, s, run, a.refused, a.lost);
    } else {
      if a.PullItem? && s.runs[run].Pulling? {
        PullRunFits(one, s, run, a.answer);
      } else if a.GetTarget? && s.runs[run].Pulling? {
        GetRunFits(one, s, run, a.found);
      }
      assert RunFits(one, s, s'.runs[run]);
      DoGrows(one, s, a);
      RunStays(one, s, s', s'.runs[run]);
    }
  }

  lemma StepRuns(one: PullItemOf, s: State, a: Action, run: nat)
    requires Inv(one, s) && run in Do(one, s, a).runs
    ensures RunFits(one, Do(one, s, a), Do(one, s, a).runs[run])
  {
    var s' := Do(one, s, a);
    DoGrows(one, s, a);
    if RunOf(a) != Some(run) {
      OtherRuns(one, s, a, run);
      RunStays(one, s, s', s.runs[run]);
    } else if a.Start? {
      if run in s.runs {
        RunStays(one, s, s', s.runs[run]);
      } else {
        StartRuns(one, s, run, a.id, a.version);
        RunStays(one, s, s', s'.runs[run]);
      }
    } else if run in s.runs {
      OwnRun(one, s, a, run);
    }
  }

  /** A status update tells what the run did. */
  lemma ReportHonest(one: PullItemOf, s: State, r: Run, time: int)
    requires Inv(one, s) && r.Reporting? && RunFits(one, s, r)
    ensures var o := Read(s, r.id, r.version).value;
            var o' := o.(status := NewStatus(r, o, time));
            Honest(s, r.id, o') && Follows(o, o') && (ShowsSynced(o'.status) <==> r.ok)
  {
    var o := Read(s, r.id, r.version).value;
    assert Honest(s, r.id, s.syncs[r.id].history[r.version]);
    ReportedShows(o.status, false, r.reason, time);
    ReportedShows(o.status.(lastSyncedAt := Some(time), syncedGeneration := o.generation), true, "SyncComplete", time);
  }

  lemma AppendHistory(s: State, s': State, id: nat, o: SyncObject)
    requires Grows(s, s') && id in s.syncs && HistoryFits(s, id)
    requires s'.syncs[id].history == s.syncs[id].history + [o]
    requires Honest(s, id, o) && Follows(Current(s.syncs[id]), o)
    ensures HistoryFits(s', id)
  {
    var h := s'.syncs[id].history;
    forall k | 0 <= k < |h|
      ensures Honest(s', id, h[k])
    {
      assert Honest(s, id, h[k]);
      if ShowsSynced(h[k].status) {
        CommittedStays(s, s', id, h[k].status.syncedGeneration);
      }
    }
    forall k | 0 < k < |h|
      ensures Follows(h[k - 1], h[k])
    {
      if k < |s.syncs[id].history| {
        assert Follows(s.syncs[id].history[k - 1], s.syncs[id].history[k]);
      }
    }
  }

  lemma SameHistory(s: State, s': State, id: nat)
    requires Grows(s, s') && id in s.syncs && HistoryFits(s, id)
    requires s'.syncs[id].history == s.syncs[id].history
    ensures HistoryFits(s', id)
  {
    var h := s.syncs[id].history;
    forall k | 0 <= k < |h|
      ensures Honest(s', id, h[k])
    {
      assert Honest(s, id, h[k]);
      if ShowsSynced(h[k].status) {
        CommittedStays(s, s', id, h[k].status.syncedGeneration);
      }
    }
  }

  lemma OtherHistory(one: PullItemOf, s: State, a: Action, id: nat)
    requires id in s.syncs && !a.EditSync? && !a.TouchSync? && !a.Report?
    ensures id in Do(one, s, a).syncs && Do(one, s, a).syncs[id].history == s.syncs[id].history
  {
  }

  lemma UserHistory(one: PullItemOf, s: State, a: Action, id: nat)
    requires id in s.syncs && HistoryFits(s, id) && (a.EditSync? || a.TouchSync?)
    ensures HistoryFits(Do(one, s, a), id)
  {
    var s' := Do(one, s, a);
    DoGrows(one, s, a);
    if s'.syncs[id].history == s.syncs[id].history {
      SameHistory(s, s', id);
    } else {
      var last := Current(s.syncs[id]);
      assert Honest(s, id, last);
      AppendHistory(s, s', id, if a.EditSync? then last.(spec := a.spec, generation := last.generation + 1) else last);
    }
  }

  /** The version a report adds, if it adds one. */
  lemma ReportAppends(one: PullItemOf, s: State, a: Action, id: nat)
    requires a.Report? && id in s.syncs
    ensures id in Do(one, s, a).syncs
    ensures Do(one, s, a).syncs[id].history == s.syncs[id].history
            || (&& a.run in s.runs && s.runs[a.run].Reporting? && s.runs[a.run].id == id
                && s.runs[a.run].version + 1 == |s.syncs[id].history|
                && Do(one, s, a).syncs[id].history
                   == s.syncs[id].history
                      + [Current(s.syncs[id]).(status := NewStatus(s.runs[a.run], Current(s.syncs[id]), a.time))])
  {
  }

  lemma ReportHistory(one: PullItemOf, s: State, a: Action, id: nat)
    requires Inv(one, s) && id in s.syncs && a.Report?
    ensures HistoryFits(Do(one, s, a), id)
  {
    hide Do, TargetsStored, LogFits, RunFits, NewStatus, HistoryFits, Grows;
    var s' := Do(one, s, a);
    DoGrows(one, s, a);
    assert HistoryFits(s, id);
    ReportAppends(one, s, a, id);
    if s'.syncs[id].history == s.syncs[id].history {
      SameHistory(s, s', id);
    } else {
      var r := s.runs[a.run];
      assert RunFits(one, s, r);
      ReportHonest(one, s, r, a.time);
      AppendHistory(s, s', id, Current(s.syncs[id]).(status := NewStatus(r, Current(s.syncs[id]), a.time)));
    }
  }

  lemma StepHistory(one: PullItemOf, s: State, a: Action, id: nat)
    requires Inv(one, s) && id in Do(one, s, a).syncs
    ensures HistoryFits(Do(one, s, a), id)
  {
    hide Loop, DefaultRef, TargetsStored, LogFits, RunFits, NewStatus;
    var s' := Do(one, s, a);
    DoGrows(one, s, a);
    if id !in s.syncs {
      assert s'.syncs[id].history == [SyncObject(a.spec, 1, FRESH)];
      assert !ShowsSynced(FRESH);
    } else if a.Report? {
      ReportHistory(one, s, a, id);
    } else if a.EditSync? || a.TouchSync? {
      assert HistoryFits(s, id);
      UserHistory(one, s, a, id);
    } else {
      OtherHistory(one, s, a, id);
      SameHistory(s, s', id);
    }
  }

  lemma StepInv(one: PullItemOf, s: State, a: Action)
    requires Inv(one, s)
    ensures Inv(one, Do(one, s, a))
  {
    StepTargets(one, s, a);
    forall run | run in Do(one, s, a).runs
      ensures RunFits(one, Do(one, s, a), Do(one, s, a).runs[run])
    {
      StepRuns(one, s, a, run);
    }
    forall id | id in Do(one, s, a).syncs
      ensures HistoryFits(Do(one, s, a), id)
    {
      StepHistory(one, s, a, id);
    }
  }

  lemma {:induction false} AlwaysInv(one: PullItemOf, actions: seq<Action>)
    ensures Inv(one, After(one, actions))
    decreases |actions|
  {
    if actions != [] {
      AlwaysInv(one, actions[..|actions| - 1]);
      StepInv(one, After(one, actions[..|actions| - 1]), actions[|actions| - 1]);
    }
  }

  // ----- Honest status -----

  lemma {:induction false} Ordered(one: PullItemOf, s: State, id: nat, j: nat, k: nat)
    requires Inv(one, s) && id in s.syncs && j <= k < |s.syncs[id].history|
    ensures var h := s.syncs[id].history;
            h[j].generation <= h[k].generation && h[j].status.syncedGeneration <= h[k].status.syncedGeneration
    decreases k
  {
    if j < k {
      Ordered(one, s, id, j, k - 1);
      assert HistoryFits(s, id);
      assert Follows(s.syncs[id].history[k - 1], s.syncs[id].history[k]);
    }
  }

  /** Over all stored versions of a sync: the synced generation never decreases and never exceeds the
      generation; phase and condition agree; a version that shows Synced with generation g exists only if a
      target write with the complete output of a spec of generation g took effect. */
  lemma StatusHonest(one: PullItemOf, actions: seq<Action>, id: nat, j: nat, k: nat)
    requires id in After(one, actions).syncs && j <= k < |After(one, actions).syncs[id].history|
    ensures var s := After(one, actions);
            var h := s.syncs[id].history;
            && h[j].status.syncedGeneration <= h[k].status.syncedGeneration <= h[k].generation
            && (h[k].status.phase == "Synced" <==> ShowsSynced(h[k].status))
            && (ShowsSynced(h[k].status) ==>
                  exists c :: c in s.log && c.id == id && c.generation == h[k].status.syncedGeneration
                              && Output(one, s, c))
  {
    var s := After(one, actions);
    AlwaysInv(one, actions);
    Ordered(one, s, id, j, k);
    assert HistoryFits(s, id) && Honest(s, id, s.syncs[id].history[k]);
    if ShowsSynced(s.syncs[id].history[k].status) {
      var c :| c in s.log && c.id == id && c.generation == s.syncs[id].history[k].status.syncedGeneration;
      assert Output(one, s, c);
    }
  }

  /** The run is on its way to report a failure. */
  predicate Failed(s: State, run: nat) {
    run in s.runs && s.runs[run].Reporting? && !s.runs[run].ok
  }

  /** The current version tells of the same last success as before, and of a new one only if it did. */
  ghost predicate KeepsLastSync(r: Record, r': Record) {
    && r.history != [] && r'.history != []
    && var o, o' := Current(r), Current(r');
       && o'.status.lastSyncedAt == o.status.lastSyncedAt
       && o'.status.syncedGeneration == o.status.syncedGeneration
       && o'.spec == o.spec && o'.generation == o.generation
       && (r' != r ==> !ShowsSynced(o'.status))
  }

  /** A failed reconcile that still gets to store its status keeps when, and at which generation, the
      sync last succeeded; a report on a version that is no longer current is dropped. */
  lemma FailureKeepsLastSync(one: PullItemOf, s: State, run: nat, refused: bool, time: int)
    requires Inv(one, s) && Failed(s, run)
    ensures s.runs[run].id in s.syncs && s.runs[run].id in Do(one, s, Report(run, refused, time)).syncs
    ensures KeepsLastSync(s.syncs[s.runs[run].id], Do(one, s, Report(run, refused, time)).syncs[s.runs[run].id])
    ensures s.runs[run].version + 1 != |s.syncs[s.runs[run].id].history|
            ==> Do(one, s, Report(run, refused, time)).syncs == s.syncs
  {
    hide Reported, ShowsSynced, Loop;
    var r := s.runs[run];
    assert RunFits(one, s, r);
    ReportedShows(Read(s, r.id, r.version).value.status, false, r.reason, time);
    assert HistoryFits(s, r.id);
  }
}
