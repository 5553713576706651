/** Runs of the protocol as sequences of steps: what a reconcile was given is read off the steps, and what a
    target holds is compared with it. */
module SyncTrace {
  import opened Base64
  import opened Common
  import opened Crypto
  import opened KeyResolver
  import opened Sync
  import opened SyncProtocol
  import Conditions
  import Inject
  import SyncReconcile

  // ----- What the steps say about one reconcile -----

  ghost predicate Effective(one: PullItemOf, s: State, a: Action) {
    Do(one, s, a) != s
  }

  /** The answers a reconcile was given: its effective pulls, in order, the last of which may have failed. */
  ghost function Given(one: PullItemOf, actions: seq<Action>, run: nat): seq<Answer> {
    if actions == [] then []
    else
      var (front, a) := (Front(actions), Last(actions));
      Given(one, front, run)
      + (if a.PullItem? && a.run == run && Effective(one, After(one, front), a) then [a.answer] else [])
  }

  /** The sync a reconcile read when it started, and the version of it. */
  datatype Beginning = Begun(id: nat, version: nat)

  ghost function StartOf(one: PullItemOf, actions: seq<Action>, run: nat): Option<Beginning> {
    if actions == [] then None
    else
      var (front, a) := (Front(actions), Last(actions));
      if a.Start? && a.run == run && Effective(one, After(one, front), a) then Some(Begun(a.id, a.version))
      else StartOf(one, front, run)
  }

  /** Step k is a write of the reconcile that takes effect. */
  ghost predicate Writes(one: PullItemOf, actions: seq<Action>, k: nat, run: nat) {
    && k < |actions| && actions[k].Write? && actions[k].run == run
    && After(one, actions[..k + 1]).log != After(one, actions[..k]).log
  }

  /** What the reconcile read, as it stands in the state after the steps. */
  ghost function ReadBy(one: PullItemOf, actions: seq<Action>, run: nat): Option<SyncObject> {
    match StartOf(one, actions, run)
    case None => None
    case Some(start) => Read(After(one, actions), start.id, start.version)
  }

  ghost function NamespaceOf(one: PullItemOf, actions: seq<Action>, run: nat): string
    requires ReadBy(one, actions, run).Some?
  {
    After(one, actions).syncs[StartOf(one, actions, run).value.id].namespace
  }

  /** The body is the output of the pull loop over all items of the spec that the reconcile read, on
      exactly the answers it was given, and belongs where that spec says. */
  ghost predicate FromLoop(one: PullItemOf, actions: seq<Action>, run: nat, at: ObjectKey, body: Inject.TSecret) {
    && ReadBy(one, actions, run).Some?
    && var spec := ReadBy(one, actions, run).value.spec;
       && at == ObjectKey(NamespaceOf(one, actions, run), spec.target)
       && AskedRef(spec, body.encryptionRef)
       && |Given(one, actions, run)| == |spec.items|
       && Loop(one, body.encryptionRef, at.namespace, spec.items, Given(one, actions, run)) == Entries(body.data)
  }

  // ----- The state agrees with the steps -----

  ghost predicate RunTraced(one: PullItemOf, actions: seq<Action>, run: nat) {
    var s := After(one, actions);
    if run in s.runs then
      && StartOf(one, actions, run) == Some(Begun(s.runs[run].id, s.runs[run].version))
      && (s.runs[run].Pulling? || s.runs[run].Writing? ==> s.runs[run].answers == Given(one, actions, run))
    else Given(one, actions, run) == []
  }

  ghost predicate CommitTraced(one: PullItemOf, actions: seq<Action>, c: Commit) {
    && StartOf(one, actions, c.run) == Some(Begun(c.id, c.version))
    && Given(one, actions, c.run) == c.answers
  }

  ghost predicate Traced(one: PullItemOf, actions: seq<Action>) {
    && (forall run :: RunTraced(one, actions, run))
    && (forall c :: c in After(one, actions).log ==> CommitTraced(one, actions, c))
  }

  lemma OthersGiven(one: PullItemOf, actions: seq<Action>, run: nat)
    requires actions != [] && RunOf(Last(actions)) != Some(run)
    ensures Given(one, actions, run) == Given(one, Front(actions), run)
    ensures StartOf(one, actions, run) == StartOf(one, Front(actions), run)
  {
    assert Given(one, Front(actions), run) + [] == Given(one, Front(actions), run);
  }

  /** A reconcile that has written or given up is given nothing more. */
  lemma PastGiven(one: PullItemOf, actions: seq<Action>, run: nat)
    requires actions != [] && Past(After(one, Front(actions)), run)
    ensures Given(one, actions, run) == Given(one, Front(actions), run)
    ensures StartOf(one, actions, run) == StartOf(one, Front(actions), run)
  {
    var s := After(one, Front(actions));
    var a := Last(actions);
    assert RunOf(a) == Some(run) && (a.PullItem? || a.Start?) ==> Do(one, s, a) == s;
    assert Given(one, Front(actions), run) + [] == Given(one, Front(actions), run);
  }

  /** A reconcile in a phase in which it can still write keeps its answers, and one more if it pulls. */
  lemma OwnPhase(one: PullItemOf, s: State, a: Action, run: nat)
    requires RunOf(a) == Some(run) && run in s.runs && !Past(s, run)
    ensures a.Start? ==> !Effective(one, s, a)
    ensures var s' := Do(one, s, a);
            && run in s'.runs && s'.runs[run].id == s.runs[run].id && s'.runs[run].version == s.runs[run].version
            && (!Past(s', run) ==>
                  s'.runs[run].answers
                  == s.runs[run].answers + (if a.PullItem? && Effective(one, s, a) then [a.answer] else []))
  {
    hide Loop, DefaultRef, Accepted, NewStatus;
    assert s.runs[run].answers + [] == s.runs[run].answers;
  }

  lemma FirstPhase(one: PullItemOf, s: State, a: Action, run: nat)
    requires RunOf(a) == Some(run) && run !in s.runs
    ensures var s' := Do(one, s, a);
            if run in s'.runs then
              a.Start? && Effective(one, s, a) && s'.runs[run] == Pulling(a.id, a.version, [], map[])
            else !Effective(one, s, a)
  {
    hide NewStatus;
  }

  lemma OwnTraced(one: PullItemOf, actions: seq<Action>, run: nat)
    requires actions != [] && RunTraced(one, Front(actions), run) && RunOf(Last(actions)) == Some(run)
    requires !Past(After(one, Front(actions)), run)
    ensures RunTraced(one, actions, run)
  {
    hide Do;
    var s := After(one, Front(actions));
    var a := Last(actions);
    assert Given(one, Front(actions), run) + [] == Given(one, Front(actions), run);
    if run in s.runs {
      OwnPhase(one, s, a, run);
    } else {
      FirstPhase(one, s, a, run);
    }
  }

  lemma StepTraced(one: PullItemOf, actions: seq<Action>, run: nat)
    requires actions != [] && RunTraced(one, Front(actions), run)
    ensures RunTraced(one, actions, run)
  {
    hide Do;
    var s := After(one, Front(actions));
    var a := Last(actions);
    if RunOf(a) != Some(run) {
      OthersGiven(one, actions, run);
      OtherRuns(one, s, a, run);
    } else if Past(s, run) {
      PastGiven(one, actions, run);
      PastKeeps(one, s, a, run);
    } else {
      OwnTraced(one, actions, run);
    }
  }

  lemma PastKeeps(one: PullItemOf, s: State, a: Action, run: nat)
    requires Past(s, run)
    ensures Past(Do(one, s, a), run)
    ensures Do(one, s, a).runs[run].id == s.runs[run].id && Do(one, s, a).runs[run].version == s.runs[run].version
  {
  }

  /** The commit that the last step added, if it added one. */
  lemma NewCommit(one: PullItemOf, s: State, a: Action, c: Commit)
    requires Inv(one, s) && c in Do(one, s, a).log && c !in s.log
    ensures a.Write? && a.run == c.run && a.run in s.runs && s.runs[a.run].Writing?
    ensures c.answers == s.runs[c.run].answers && c.id == s.runs[c.run].id && c.version == s.runs[c.run].version
    ensures Wrote(one, s, Do(one, s, a), c)
  {
    hide Do, DoWrite, Output, HistoryFits;
    if !(a.Write? && a.run in s.runs && s.runs[a.run].Writing?) {
      OnlyWritesWrite(one, s, a);
    }
    WriteStep(one, s, a);
    assert RunFits(one, s, s.runs[a.run]);
    WriteIsOutput(one, s, a.run, a.refused, a.lost);
  }

  lemma CommitStays(one: PullItemOf, actions: seq<Action>, c: Commit)
    requires actions != [] && Traced(one, Front(actions)) && c in After(one, actions).log
    ensures CommitTraced(one, actions, c)
  {
    hide Do, DoWrite, Output;
    var s := After(one, Front(actions));
    AlwaysInv(one, Front(actions));
    if c in s.log {
      PastGiven(one, actions, c.run);
    } else {
      NewCommit(one, s, Last(actions), c);
      assert RunTraced(one, Front(actions), c.run);
      WriteGiven(one, actions);
    }
  }

  lemma WriteGiven(one: PullItemOf, actions: seq<Action>)
    requires actions != [] && Last(actions).Write?
    ensures forall run :: Given(one, actions, run) == Given(one, Front(actions), run)
    ensures forall run :: StartOf(one, actions, run) == StartOf(one, Front(actions), run)
  {
    forall run
      ensures Given(one, actions, run) == Given(one, Front(actions), run)
    {
      assert Given(one, Front(actions), run) + [] == Given(one, Front(actions), run);
    }
  }

  lemma {:induction false} AlwaysTraced(one: PullItemOf, actions: seq<Action>)
    ensures Traced(one, actions)
    decreases |actions|
  {
    if actions != [] {
      AlwaysTraced(one, Front(actions));
      forall run
        ensures RunTraced(one, actions, run)
      {
        StepTraced(one, actions, run);
      }
      forall c | c in After(one, actions).log
        ensures CommitTraced(one, actions, c)
      {
        CommitStays(one, actions, c);
      }
    }
  }

  // ----- Every commit has its step -----

  lemma AfterNext(one: PullItemOf, actions: seq<Action>, k: nat)
    requires k < |actions|
    ensures After(one, actions[..k + 1]) == Do(one, After(one, actions[..k]), actions[k])
  {
    assert actions[..k + 1][..k] == actions[..k];
  }

  lemma {:induction false} LogOnlyGrows(one: PullItemOf, actions: seq<Action>, k: nat)
    requires k <= |actions|
    ensures After(one, actions[..k]).log <= After(one, actions).log
    decreases |actions| - k
  {
    if k == |actions| {
      assert actions[..k] == actions;
    } else {
      AfterNext(one, actions, k);
      DoGrows(one, After(one, actions[..k]), actions[k]);
      LogOnlyGrows(one, actions, k + 1);
    }
  }

  /** Step k stored the commit: the write of its reconcile took effect there, and the target held the body. */
  ghost predicate StoredBy(one: PullItemOf, actions: seq<Action>, k: nat, c: Commit) {
    && Writes(one, actions, k, c.run)
    && Wrote(one, After(one, actions[..k]), After(one, actions[..k + 1]), c)
  }

  lemma {:induction false} CommitStep(one: PullItemOf, actions: seq<Action>, c: Commit) returns (k: nat)
    requires c in After(one, actions).log
    ensures StoredBy(one, actions, k, c)
    decreases |actions|
  {
    var n := |actions| - 1;
    var s := After(one, actions[..n]);
    if c in s.log {
      k := CommitStep(one, actions[..n], c);
      assert actions[..n][..k] == actions[..k] && actions[..n][..k + 1] == actions[..k + 1];
    } else {
      k := n;
      AlwaysInv(one, actions[..n]);
      NewCommit(one, s, actions[n], c);
      assert actions[..n + 1] == actions;
    }
  }

  /** Conversely, a write that takes effect leaves a commit of its reconcile. */
  lemma WriteCommits(one: PullItemOf, actions: seq<Action>, k: nat, run: nat) returns (c: Commit)
    requires Writes(one, actions, k, run)
    ensures c in After(one, actions).log && c.run == run
    ensures |After(one, actions[..k]).log| < |After(one, actions).log|
    ensures After(one, actions).log[|After(one, actions[..k]).log|] == c
    ensures |After(one, actions[..k + 1]).log| == |After(one, actions[..k]).log| + 1
  {
    hide Do, DoWrite, Output, HistoryFits;
    var s := After(one, actions[..k]);
    var s' := After(one, actions[..k + 1]);
    AlwaysInv(one, actions[..k]);
    AfterNext(one, actions, k);
    if !(run in s.runs && s.runs[run].Writing?) {
      OnlyWritesWrite(one, s, actions[k]);
    }
    WriteStep(one, s, actions[k]);
    assert RunFits(one, s, s.runs[run]);
    WriteIsOutput(one, s, run, actions[k].refused, actions[k].lost);
    c :| Wrote(one, s, s', c) && c.run == run;
    LogOnlyGrows(one, actions, k + 1);
    assert s'.log[|s.log|] == c;
  }

  lemma {:induction false} LogLengths(one: PullItemOf, actions: seq<Action>, j: nat, k: nat)
    requires j <= k <= |actions|
    ensures |After(one, actions[..j]).log| <= |After(one, actions[..k]).log|
  {
    LogOnlyGrows(one, actions[..k], j);
    assert actions[..k][..j] == actions[..j];
  }

  /** A reconcile writes at most once. */
  lemma WritesOnce(one: PullItemOf, actions: seq<Action>, j: nat, k: nat, run: nat)
    requires Writes(one, actions, j, run) && Writes(one, actions, k, run)
    ensures j == k
  {
    AlwaysInv(one, actions);
    var c := WriteCommits(one, actions, j, run);
    var d := WriteCommits(one, actions, k, run);
    if j < k {
      LogLengths(one, actions, j + 1, k);
    } else if k < j {
      LogLengths(one, actions, k + 1, j);
    }
  }

  // ----- Atomicity -----

  lemma CommitIsLoop(one: PullItemOf, actions: seq<Action>, c: Commit)
    requires c in After(one, actions).log
    ensures FromLoop(one, actions, c.run, c.at, c.body)
    ensures ReadBy(one, actions, c.run).value.generation == c.generation
  {
    AlwaysInv(one, actions);
    AlwaysTraced(one, actions);
    assert Output(one, After(one, actions), c) && CommitTraced(one, actions, c);
  }

  /** In every state that any interleaving can reach, a target stored by a sync was stored by one
      reconcile, in the one effective write that reconcile ever makes, and holds the complete output of
      its pull loop: all items of the spec it read, on exactly the answers it was given. */
  lemma Atomicity(one: PullItemOf, actions: seq<Action>, at: ObjectKey)
    requires at in After(one, actions).targets && After(one, actions).targets[at].origin.BySync?
    ensures var t := After(one, actions).targets[at];
            FromLoop(one, actions, t.origin.run, at, t.body)
    ensures var t := After(one, actions).targets[at];
            exists k, c :: StoredBy(one, actions, k, c) && c.run == t.origin.run && c.at == at && c.body == t.body
    ensures var run := After(one, actions).targets[at].origin.run;
            forall j, k :: Writes(one, actions, j, run) && Writes(one, actions, k, run) ==> j == k
  {
    var t := After(one, actions).targets[at];
    AlwaysInv(one, actions);
    assert Stored(After(one, actions), at, t);
    var c :| c in After(one, actions).log && c.run == t.origin.run && c.at == at && c.body == t.body;
    CommitIsLoop(one, actions, c);
    var k := CommitStep(one, actions, c);
    forall j, k | Writes(one, actions, j, c.run) && Writes(one, actions, k, c.run)
      ensures j == k
    {
      WritesOnce(one, actions, j, k, c.run);
    }
  }

  /** One of the answers a reconcile was given does not yield an entry. */
  ghost predicate ItemFailed(one: PullItemOf, actions: seq<Action>, run: nat) {
    && ReadBy(one, actions, run).Some?
    && exists ref, i ::
         && AskedRef(ReadBy(one, actions, run).value.spec, ref)
         && 0 <= i < |Given(one, actions, run)|
         && one(ref, NamespaceOf(one, actions, run), Given(one, actions, run)[i]).Err?
  }

  /** Over its whole life, a reconcile in which an item fails makes no effective write, no step of it
      changes any target, and no target is ever stored by it. */
  lemma FailedItemWritesNothing(one: PullItemOf, actions: seq<Action>, run: nat)
    requires ItemFailed(one, actions, run)
    ensures forall k :: !Writes(one, actions, k, run)
    ensures forall k :: 0 <= k < |actions| && RunOf(actions[k]) == Some(run) ==>
              After(one, actions[..k + 1]).targets == After(one, actions[..k]).targets
    ensures forall at :: at in After(one, actions).targets ==> After(one, actions).targets[at].origin != BySync(run)
  {
    forall c | c in After(one, actions).log
      ensures c.run != run
    {
      CommitIsLoop(one, actions, c);
      if c.run == run {
        LoopNeedsAll(one, actions, run, c);
      }
    }
    forall k | Writes(one, actions, k, run)
      ensures false
    {
      var c := WriteCommits(one, actions, k, run);
    }
    forall k | 0 <= k < |actions| && RunOf(actions[k]) == Some(run)
      ensures After(one, actions[..k + 1]).targets == After(one, actions[..k]).targets
    {
      NoWriteNoChange(one, actions, k, run);
    }
    forall at | at in After(one, actions).targets
      ensures After(one, actions).targets[at].origin != BySync(run)
    {
      AlwaysInv(one, actions);
      assert Stored(After(one, actions), at, After(one, actions).targets[at]);
    }
  }

  lemma LoopNeedsAll(one: PullItemOf, actions: seq<Action>, run: nat, c: Commit)
    requires c.run == run && FromLoop(one, actions, run, c.at, c.body)
    ensures !ItemFailed(one, actions, run)
  {
    var spec := ReadBy(one, actions, run).value.spec;
    var given := Given(one, actions, run);
    assert forall ref :: AskedRef(spec, ref) ==> ref == c.body.encryptionRef;
    var outcomes := Outcomes(one, c.body.encryptionRef, c.at.namespace, given);
    GatherCompleteIff(spec.items, outcomes);
    assert forall i :: 0 <= i < |given| ==> outcomes[i] in outcomes;
  }

  lemma NoWriteNoChange(one: PullItemOf, actions: seq<Action>, k: nat, run: nat)
    requires k < |actions| && RunOf(actions[k]) == Some(run) && !Writes(one, actions, k, run)
    ensures After(one, actions[..k + 1]).targets == After(one, actions[..k]).targets
  {
    hide Do, DoWrite, Output, HistoryFits;
    var s := After(one, actions[..k]);
    var a := actions[k];
    AlwaysInv(one, actions[..k]);
    AfterNext(one, actions, k);
    if a.Write? && run in s.runs && s.runs[run].Writing? {
      WriteStep(one, s, a);
      assert RunFits(one, s, s.runs[run]);
      WriteIsOutput(one, s, run, a.refused, a.lost);
    } else {
      OnlyWritesWrite(one, s, a);
    }
  }

  lemma AfterOne(one: PullItemOf, actions: seq<Action>, a: Action)
    ensures After(one, actions + [a]) == Do(one, After(one, actions), a)
  {
    assert (actions + [a])[..|actions|] == actions;
  }

  function JustBegun(namespace: string, spec: Spec): State {
    State(map[0 := Record(namespace, [SyncObject(spec, 1, SyncReconcile.FRESH)], false)], map[],
          map[0 := Pulling(0, 0, [], map[])], 0, [])
  }

  lemma BeginSteps(one: PullItemOf, namespace: string, spec: Spec)
    ensures Do(one, Do(one, INIT, CreateSync(0, namespace, spec)), Action.Start(0, 0, 0)) == JustBegun(namespace, spec)
  {
  }

  lemma PullSteps(one: PullItemOf, namespace: string, spec: Spec, ref: EncryptionRef, item: Item, answer: Answer)
    requires spec.items == [item] && AskedRef(spec, ref) && one(ref, namespace, answer).Ok?
    ensures var s := Do(one, Do(one, JustBegun(namespace, spec), PullItem(0, answer)), GetTarget(0, None));
            s == JustBegun(namespace, spec).(runs := s.runs) && 0 in s.runs && s.runs[0].Writing?
            && s.runs[0].id == 0 && s.runs[0].version == 0 && s.runs[0].held == None
  {
    var s1 := Do(one, JustBegun(namespace, spec), PullItem(0, answer));
    assert Read(JustBegun(namespace, spec), 0, 0) == Some(SyncObject(spec, 1, SyncReconcile.FRESH));
    assert s1.runs[0].Pulling? && s1.runs[0].answers == [answer];
  }

  /** Such targets exist: a lone reconcile of one item that can be pulled stores one. */
  lemma SomeTarget(one: PullItemOf, namespace: string, item: Item, target: string, own: Option<EncryptionRef>,
                   ref: EncryptionRef, answer: Answer) returns (actions: seq<Action>)
    requires AskedRef(Spec(target, [item], own), ref) && one(ref, namespace, answer).Ok?
    ensures ObjectKey(namespace, target) in After(one, actions).targets
    ensures After(one, actions).targets[ObjectKey(namespace, target)].origin == BySync(0)
  {
    hide Do, After;
    var spec := Spec(target, [item], own);
    var create, start := CreateSync(0, namespace, spec), Action.Start(0, 0, 0);
    var pull, get, write := PullItem(0, answer), GetTarget(0, None), Write(0, false, false);
    AfterNothing(one);
    AfterOne(one, [], create);
    AfterOne(one, [create], start);
    AfterOne(one, [create, start], pull);
    AfterOne(one, [create, start, pull], get);
    AfterOne(one, [create, start, pull, get], write);
    assert [] + [create] == [create] && [create] + [start] == [create, start];
    assert [create, start] + [pull] == [create, start, pull];
    assert [create, start, pull] + [get] == [create, start, pull, get];
    actions := [create, start, pull, get] + [write];
    BeginSteps(one, namespace, spec);
    PullSteps(one, namespace, spec, ref, item, answer);
    WriteStep(one, After(one, [create, start, pull, get]), write);
  }

  lemma AfterNothing(one: PullItemOf)
    ensures After(one, []) == INIT
  {
  }

  // ----- With the reconciler's own loop -----

  /** Whatever the interleaving, a target stored by a sync is what the reconciler's loop made of the answers
      one reconcile was given, all of it encrypted under the stored reference, and the TSecret reconciler
      finds every entry valid. */
  lemma SyncedTargets(ciphers: Ciphers, actions: seq<Action>, at: ObjectKey)
    requires ciphers.Lawful()
    requires at in After(Puller(ciphers), actions).targets
    requires After(Puller(ciphers), actions).targets[at].origin.BySync?
    ensures var t := After(Puller(ciphers), actions).targets[at];
            && FromLoop(Puller(ciphers), actions, t.origin.run, at, t.body)
            && Pull(ciphers, t.body.encryptionRef, at.namespace,
                    ReadBy(Puller(ciphers), actions, t.origin.run).value.spec.items,
                    Given(Puller(ciphers), actions, t.origin.run)) == Entries(t.body.data)
            && Conditions.AllValid(t.body.data)
  {
    hide Pull, Loop;
    var t := After(Puller(ciphers), actions).targets[at];
    Atomicity(Puller(ciphers), actions, at);
    var items := ReadBy(Puller(ciphers), actions, t.origin.run).value.spec.items;
    var given := Given(Puller(ciphers), actions, t.origin.run);
    LoopIsPull(ciphers, t.body.encryptionRef, at.namespace, items, given);
    SyncedIsValid(ciphers, t.body.encryptionRef, at.namespace, items, given);
  }

  /** An injector can read the stored TSecret, and what it writes is one file per distinct key, which holds
      the bytes pulled for the last item with that key. */
  ghost predicate Delivered(ciphers: Ciphers, cluster: Cluster, at: ObjectKey, body: Inject.TSecret,
                            items: seq<Item>, answers: seq<Answer>, prefix: string)
    requires |items| == |answers|
  {
    && Inject.Readable(ciphers, cluster, map[at := body], at.namespace, at.name)
    && var files := Inject.TSecretFiles(ciphers, cluster, body, at.namespace, prefix);
       && (forall f :: f in files ==> exists k :: Names(items, k) && f == prefix + k)
       && (forall k :: Names(items, k) ==>
             prefix + k in files && answers[LastWith(items, k)].value == Ok(files[prefix + k]))
  }

  /** The pipeline as a whole: whatever reconciles ran and however they were interleaved, a target stored
      by a sync was stored by one reconcile; if the key still resolves as it did for each of the answers
      that reconcile was given, an injector delivers exactly the values in those answers. */
  lemma Pipeline(ciphers: Ciphers, actions: seq<Action>, at: ObjectKey, cluster: Cluster, prefix: string)
    requires ciphers.Lawful()
    requires at in After(Puller(ciphers), actions).targets
    requires After(Puller(ciphers), actions).targets[at].origin.BySync?
    ensures var t := After(Puller(ciphers), actions).targets[at];
            FromLoop(Puller(ciphers), actions, t.origin.run, at, t.body)
    ensures var t := After(Puller(ciphers), actions).targets[at];
            var items := ReadBy(Puller(ciphers), actions, t.origin.run).value.spec.items;
            var given := Given(Puller(ciphers), actions, t.origin.run);
            (&& KeyStable(cluster, t.body.encryptionRef, at.namespace, given)
             && (items != [] || Resolve(cluster, t.body.encryptionRef, at.namespace).Ok?))
            ==> Delivered(ciphers, cluster, at, t.body, items, given, prefix)
  {
    hide Pull, Loop, Delivered, KeyStable, Resolve;
    var t := After(Puller(ciphers), actions).targets[at];
    SyncedTargets(ciphers, actions, at);
    var spec := ReadBy(Puller(ciphers), actions, t.origin.run).value.spec;
    PulledIsDelivered(ciphers, spec, Given(Puller(ciphers), actions, t.origin.run), at, t.body, cluster, prefix);
  }

  lemma PulledIsDelivered(ciphers: Ciphers, spec: Spec, answers: seq<Answer>, at: ObjectKey, body: Inject.TSecret,
                          cluster: Cluster, prefix: string)
    requires ciphers.Lawful() && |answers| == |spec.items|
    requires at == ObjectKey(at.namespace, spec.target) && AskedRef(spec, body.encryptionRef)
    requires Pull(ciphers, body.encryptionRef, at.namespace, spec.items, answers) == Entries(body.data)
    ensures (&& KeyStable(cluster, body.encryptionRef, at.namespace, answers)
             && (spec.items != [] || Resolve(cluster, body.encryptionRef, at.namespace).Ok?))
            ==> Delivered(ciphers, cluster, at, body, spec.items, answers, prefix)
  {
    hide Pull, Decrypt;
    if && KeyStable(cluster, body.encryptionRef, at.namespace, answers)
       && (spec.items != [] || Resolve(cluster, body.encryptionRef, at.namespace).Ok?)
    {
      assert body == Inject.TSecret(body.encryptionRef, body.data);
      EndToEnd(ciphers, cluster, spec, body.encryptionRef, at.namespace, answers, map[at := body], prefix);
    }
  }
}
