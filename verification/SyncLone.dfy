/** A reconcile that nobody disturbs, as steps of the protocol: whatever went on before, it does to the target
    and the status what one reconcile on its own does. */
module SyncLone {
  import opened Base64
  import opened Common
  import opened Crypto
  import opened KeyResolver
  import opened Sync
  import opened SyncProtocol
  import Inject
  import SyncReconcile

  // ----- Versions of targets lie in the past -----

  ghost predicate TargetsPast(s: State) {
    forall at :: at in s.targets ==> s.targets[at].version < s.clock
  }

  lemma StepPast(one: PullItemOf, s: State, a: Action)
    requires TargetsPast(s)
    ensures TargetsPast(Do(one, s, a))
  {
    hide DefaultRef, NewStatus, Accepted;
  }

  lemma {:induction false} AlwaysPast(one: PullItemOf, actions: seq<Action>)
    ensures TargetsPast(After(one, actions))
    decreases |actions|
  {
    if actions == [] {
    } else {
      AlwaysPast(one, actions[..|actions| - 1]);
      StepPast(one, After(one, actions[..|actions| - 1]), actions[|actions| - 1]);
    }
  }

  // ----- The steps -----

  function DoAll(one: PullItemOf, s: State, actions: seq<Action>): State
    decreases |actions|
  {
    if actions == [] then s else DoAll(one, Do(one, s, actions[0]), actions[1..])
  }

  lemma {:induction false} AfterConcat(one: PullItemOf, a: seq<Action>, b: seq<Action>)
    ensures After(one, a + b) == DoAll(one, After(one, a), b)
    decreases |b|
  {
    hide Do;
    if b == [] {
      assert a + b == a;
    } else {
      assert (a + [b[0]])[..|a|] == a;
      AfterConcat(one, a + [b[0]], b[1..]);
      assert a + b == (a + [b[0]]) + b[1..];
    }
  }

  lemma {:induction false} DoConcat(one: PullItemOf, s: State, a: seq<Action>, b: seq<Action>)
    ensures DoAll(one, s, a + b) == DoAll(one, DoAll(one, s, a), b)
    decreases |a|
  {
    hide Do;
    if a == [] {
      assert a + b == b;
    } else {
      DoConcat(one, Do(one, s, a[0]), a[1..], b);
      assert (a + b)[1..] == a[1..] + b;
    }
  }

  function Pulls(run: nat, answers: seq<Answer>): (actions: seq<Action>)
    ensures |actions| == |answers|
    ensures forall i :: 0 <= i < |answers| ==> actions[i] == PullItem(run, answers[i])
  {
    seq(|answers|, i requires 0 <= i < |answers| => PullItem(run, answers[i]))
  }

  function Held(s: State, at: ObjectKey): Option<nat> {
    if at in s.targets then Some(s.targets[at].version) else None
  }

  /** The steps of one reconcile of the current version; those it skips are not possible and change nothing. */
  function LoneSteps(s: State, run: nat, id: nat, env: SyncReconcile.Surroundings): seq<Action>
    requires Live(s, id)
  {
    var at := ObjectKey(s.syncs[id].namespace, Current(s.syncs[id]).spec.target);
    [Action.Start(run, id, |s.syncs[id].history| - 1)]
    + (if env.failure.Some? then [GiveUp(run, env.failure.value)] else Pulls(run, env.answers))
    + [GetTarget(run, Held(s, at)), Write(run, env.refused, env.lost), Report(run, false, env.time)]
  }

  // ----- Pulling -----

  /** The reconcile has got through some items, or has stopped at one of them. */
  ghost predicate Pulled(one: PullItemOf, s: State, s': State, run: nat, id: nat, answers: seq<Answer>)
    requires Live(s, id) && |answers| <= |Current(s.syncs[id]).spec.items|
  {
    var version := |s.syncs[id].history| - 1;
    var spec := Current(s.syncs[id]).spec;
    match Loop(one, DefaultRef(spec), s.syncs[id].namespace, spec.items[..|answers|], answers)
    case Entries(data) => s' == s.(runs := s.runs[run := Pulling(id, version, answers, data)])
    case Stopped(reason) => s' == s.(runs := s.runs[run := Reporting(id, version, false, reason)])
  }

  lemma OnePull(one: PullItemOf, s: State, s': State, run: nat, id: nat, answers: seq<Answer>, answer: Answer)
    requires Live(s, id) && |answers| < |Current(s.syncs[id]).spec.items|
    requires Pulled(one, s, s', run, id, answers)
    ensures Pulled(one, s, Do(one, s', PullItem(run, answer)), run, id, answers + [answer])
  {
    hide Loop, DefaultRef;
    var spec := Current(s.syncs[id]).spec;
    LoopSnoc(one, DefaultRef(spec), s.syncs[id].namespace, spec.items, answers, answer);
    assert Read(s', id, |s.syncs[id].history| - 1) == Some(Current(s.syncs[id]));
    PullEffect(one, s, s', run, id, answers, answer);
  }

  /** One step of the pull loop, in terms of the map of phases. */
  lemma PullEffect(one: PullItemOf, s: State, s': State, run: nat, id: nat, answers: seq<Answer>, answer: Answer)
    requires Live(s, id) && |answers| < |Current(s.syncs[id]).spec.items|
    requires Pulled(one, s, s', run, id, answers)
    ensures var spec, version := Current(s.syncs[id]).spec, |s.syncs[id].history| - 1;
            Do(one, s', PullItem(run, answer))
            == match Loop(one, DefaultRef(spec), s.syncs[id].namespace, spec.items[..|answers|], answers)
               case Stopped(_) => s'
               case Entries(data) =>
                 match one(DefaultRef(spec), s.syncs[id].namespace, answer)
                 case Err(reason) => s.(runs := s.runs[run := Reporting(id, version, false, reason)])
                 case Ok(e) =>
                   s.(runs := s.runs[run := Pulling(id, version, answers + [answer],
                                                    data[spec.items[|answers|].secretKey := e])])
  {
    hide Loop, DefaultRef;
    assert Read(s', id, |s.syncs[id].history| - 1) == Some(Current(s.syncs[id]));
  }

  lemma {:induction false} AllPulls(one: PullItemOf, s: State, s': State, run: nat, id: nat, done: seq<Answer>,
                                    rest: seq<Answer>)
    requires Live(s, id) && |done| + |rest| == |Current(s.syncs[id]).spec.items|
    requires Pulled(one, s, s', run, id, done)
    ensures Pulled(one, s, DoAll(one, s', Pulls(run, rest)), run, id, done + rest)
    decreases |rest|
  {
    hide Do, Pulled;
    if rest == [] {
      assert done + rest == done;
    } else {
      OnePull(one, s, s', run, id, done, rest[0]);
      AllPulls(one, s, Do(one, s', PullItem(run, rest[0])), run, id, done + [rest[0]], rest[1..]);
      assert Pulls(run, rest)[1..] == Pulls(run, rest[1..]);
      assert done + [rest[0]] + rest[1..] == done + rest;
    }
  }

  // ----- Writing and reporting -----

  lemma Three(one: PullItemOf, s: State, a: Action, b: Action, c: Action)
    ensures DoAll(one, s, [a, b, c]) == Do(one, Do(one, Do(one, s, a), b), c)
  {
    hide Do;
    assert [a, b, c][1..] == [b, c] && [b, c][1..] == [c] && [c][1..] == [];
    var s1 := Do(one, s, a);
    assert DoAll(one, s, [a, b, c]) == DoAll(one, s1, [b, c]);
    assert DoAll(one, s1, [b, c]) == DoAll(one, Do(one, s1, b), [c]);
    assert DoAll(one, Do(one, s1, b), [c]) == DoAll(one, Do(one, Do(one, s1, b), c), []);
  }

  /** What the target and the sync are in the end, and that nothing else has changed. */
  ghost predicate Outcome(s: State, s': State, run: nat, id: nat, stored: Option<Inject.TSecret>,
                          status: SyncReconcile.Status)
    requires Live(s, id)
  {
    var o, at := Current(s.syncs[id]), ObjectKey(s.syncs[id].namespace, Current(s.syncs[id]).spec.target);
    && s'.syncs == s.syncs[id := s.syncs[id].(history := s.syncs[id].history + [o.(status := status)])]
    && (if stored.Some? then at in s'.targets && s'.targets[at].body == stored.value else at !in s'.targets)
    && (forall other :: other != at ==>
          (other in s'.targets <==> other in s.targets)
          && (other in s.targets ==> s'.targets[other] == s.targets[other]))
    && run in s'.runs && s'.runs[run].Ended?
    && (forall other :: other != run && other in s.runs ==> other in s'.runs && s'.runs[other] == s.runs[other])
  }

  function StoredAt(s: State, at: ObjectKey): Option<Inject.TSecret> {
    if at in s.targets then Some(s.targets[at].body) else None
  }

  /** A report on the current version is stored. */
  lemma ReportLands(one: PullItemOf, s: State, run: nat, id: nat, ok: bool, reason: string, time: int)
    requires Live(s, id) && run in s.runs
    requires s.runs[run] == Reporting(id, |s.syncs[id].history| - 1, ok, reason)
    ensures var o := Current(s.syncs[id]);
            var status := if ok then SyncReconcile.Succeeded(o.status, o.generation, time)
                          else SyncReconcile.Reported(o.status, false, reason, time);
            Do(one, s, Report(run, false, time))
            == s.(syncs := s.syncs[id := s.syncs[id].(history := s.syncs[id].history + [o.(status := status)])],
                  runs := s.runs[run := Ended(id, |s.syncs[id].history| - 1)])
  {
    hide SyncReconcile.Reported, SyncReconcile.Succeeded;
    assert Read(s, id, |s.syncs[id].history| - 1) == Some(Current(s.syncs[id]));
  }

  /** A reconcile that has failed only reports. */
  lemma ReportsFailure(one: PullItemOf, s: State, s': State, run: nat, id: nat, reason: string, held: Option<nat>,
                       refused: bool, lost: bool, time: int)
    requires Live(s, id)
    requires s' == s.(runs := s.runs[run := Reporting(id, |s.syncs[id].history| - 1, false, reason)])
    ensures var at := ObjectKey(s.syncs[id].namespace, Current(s.syncs[id]).spec.target);
            Outcome(s, DoAll(one, s', [GetTarget(run, held), Write(run, refused, lost), Report(run, false, time)]),
                    run, id, StoredAt(s, at),
                    SyncReconcile.Reported(Current(s.syncs[id]).status, false, reason, time))
  {
    hide Do, SyncReconcile.Reported, SyncReconcile.Succeeded;
    Three(one, s', GetTarget(run, held), Write(run, refused, lost), Report(run, false, time));
    OnlyReports(one, s', run, held, refused, lost);
    ReportLands(one, s', run, id, false, reason, time);
  }

  lemma OnlyReports(one: PullItemOf, s: State, run: nat, held: Option<nat>, refused: bool, lost: bool)
    requires run in s.runs && s.runs[run].Reporting?
    ensures Do(one, Do(one, s, GetTarget(run, held)), Write(run, refused, lost)) == s
  {
  }

  /** One that has pulled everything writes. */
  lemma WriteLands(one: PullItemOf, s: State, run: nat, id: nat, answers: seq<Answer>,
                   data: map<string, Inject.Entry>, refused: bool, lost: bool)
    requires Live(s, id) && TargetsPast(s) && |answers| == |Current(s.syncs[id]).spec.items| && run in s.runs
    requires s.runs[run] == Pulling(id, |s.syncs[id].history| - 1, answers, data)
    ensures var o, at := Current(s.syncs[id]), ObjectKey(s.syncs[id].namespace, Current(s.syncs[id]).spec.target);
            var version := |s.syncs[id].history| - 1;
            var reason := if at in s.targets then "UpdateFailed" else "CreateFailed";
            var s' := Do(one, Do(one, s, GetTarget(run, Held(s, at))), Write(run, refused, lost));
            && s'.syncs == s.syncs
            && s'.runs == s.runs[run := if refused || lost then Reporting(id, version, false, reason)
                                        else Reporting(id, version, true, "SyncComplete")]
            && s'.targets == if refused then s.targets
                             else s.targets[at := Target(s.clock, Inject.TSecret(DefaultRef(o.spec), data),
                                                         BySync(run))]
  {
    hide DefaultRef;
    var o, at := Current(s.syncs[id]), ObjectKey(s.syncs[id].namespace, Current(s.syncs[id]).spec.target);
    var version := |s.syncs[id].history| - 1;
    assert Read(s, id, version) == Some(o);
    var s1 := Do(one, s, GetTarget(run, Held(s, at)));
    assert s1 == s.(runs := s.runs[run := Writing(id, version, answers, data, Held(s, at))]);
    assert Read(s1, id, version) == Some(o) && Accepted(s1, at, Held(s, at));
  }

  lemma WritesAndReports(one: PullItemOf, s: State, s': State, run: nat, id: nat, answers: seq<Answer>,
                         data: map<string, Inject.Entry>, env: SyncReconcile.Surroundings)
    requires Live(s, id) && TargetsPast(s) && |answers| == |Current(s.syncs[id]).spec.items|
    requires s' == s.(runs := s.runs[run := Pulling(id, |s.syncs[id].history| - 1, answers, data)])
    requires env.found == (ObjectKey(s.syncs[id].namespace, Current(s.syncs[id]).spec.target) in s.targets)
    ensures var o, at := Current(s.syncs[id]), ObjectKey(s.syncs[id].namespace, Current(s.syncs[id]).spec.target);
            var failed := SyncReconcile.Reported(o.status, false, if env.found then "UpdateFailed" else "CreateFailed",
                                                 env.time);
            Outcome(s, DoAll(one, s', [GetTarget(run, Held(s, at)), Write(run, env.refused, env.lost),
                                       Report(run, false, env.time)]),
                    run, id,
                    if env.refused then StoredAt(s, at) else Some(Inject.TSecret(DefaultRef(o.spec), data)),
                    if env.refused || env.lost then failed
                    else SyncReconcile.Succeeded(o.status, o.generation, env.time))
  {
    hide Do, SyncReconcile.Reported, SyncReconcile.Succeeded, DefaultRef;
    var o, at := Current(s.syncs[id]), ObjectKey(s.syncs[id].namespace, Current(s.syncs[id]).spec.target);
    var get, write := GetTarget(run, Held(s, at)), Write(run, env.refused, env.lost);
    Three(one, s', get, write, Report(run, false, env.time));
    WriteLands(one, s', run, id, answers, data, env.refused, env.lost);
    var s2 := Do(one, Do(one, s', get), write);
    var failed := env.refused || env.lost;
    ReportLands(one, s2, run, id, !failed,
                if failed then (if env.found then "UpdateFailed" else "CreateFailed") else "SyncComplete", env.time);
  }

  /** From any reachable state, a reconcile of the current version of a sync that is not deleted, with no
      other step in between, does to target and status what one reconcile does, refused writes and lost
      answers included, and touches nothing else. */
  lemma LoneReconcile(ciphers: Ciphers, before: seq<Action>, run: nat, id: nat, env: SyncReconcile.Surroundings)
    requires var s := After(Puller(ciphers), before);
             && Live(s, id) && run !in s.runs
             && |env.answers| == |Current(s.syncs[id]).spec.items|
             && env.found == (ObjectKey(s.syncs[id].namespace, Current(s.syncs[id]).spec.target) in s.targets)
    ensures var s := After(Puller(ciphers), before);
            var o, at := Current(s.syncs[id]), ObjectKey(s.syncs[id].namespace, Current(s.syncs[id]).spec.target);
            var e := SyncReconcile.Reconciled(ciphers, o.spec, o.generation, at.namespace, StoredAt(s, at),
                                              o.status, env);
            Outcome(s, After(Puller(ciphers), before + LoneSteps(s, run, id, env)), run, id, e.stored, e.status)
  {
    hide After, Do, DefaultRef, Pull, SyncReconcile.Reported, SyncReconcile.Succeeded, Outcome, Loop;
    var one := Puller(ciphers);
    var s := After(one, before);
    var o, at := Current(s.syncs[id]), ObjectKey(s.syncs[id].namespace, Current(s.syncs[id]).spec.target);
    var last := [GetTarget(run, Held(s, at)), Write(run, env.refused, env.lost), Report(run, false, env.time)];
    var mid := if env.failure.Some? then [GiveUp(run, env.failure.value)] else Pulls(run, env.answers);
    var start := Action.Start(run, id, |s.syncs[id].history| - 1);
    AlwaysPast(one, before);
    AfterConcat(one, before, LoneSteps(s, run, id, env));
    assert LoneSteps(s, run, id, env) == [start] + (mid + last);
    var s1 := Do(one, s, start);
    Begins(one, s, run, id);
    assert ([start] + (mid + last))[1..] == mid + last;
    DoConcat(one, s1, mid, last);
    if env.failure.Some? {
      GivesUp(one, s, run, id, env.failure.value);
      ReportsFailure(one, s, DoAll(one, s1, mid), run, id, env.failure.value, Held(s, at), env.refused, env.lost,
                     env.time);
    } else {
      AllPulls(one, s, s1, run, id, [], env.answers);
      assert [] + env.answers == env.answers && o.spec.items[..|env.answers|] == o.spec.items;
      LoopIsPull(ciphers, DefaultRef(o.spec), at.namespace, o.spec.items, env.answers);
      match Pull(ciphers, DefaultRef(o.spec), at.namespace, o.spec.items, env.answers) {
        case Stopped(reason) =>
          ReportsFailure(one, s, DoAll(one, s1, mid), run, id, reason, Held(s, at), env.refused, env.lost, env.time);
        case Entries(data) =>
          WritesAndReports(one, s, DoAll(one, s1, mid), run, id, env.answers, data, env);
      }
    }
  }

  lemma Begins(one: PullItemOf, s: State, run: nat, id: nat)
    requires Live(s, id) && run !in s.runs
    ensures Do(one, s, Action.Start(run, id, |s.syncs[id].history| - 1))
         == s.(runs := s.runs[run := Pulling(id, |s.syncs[id].history| - 1, [], map[])])
    ensures Pulled(one, s, Do(one, s, Action.Start(run, id, |s.syncs[id].history| - 1)), run, id, [])
  {
    assert Loop(one, DefaultRef(Current(s.syncs[id]).spec), s.syncs[id].namespace, [], []) == Entries(map[]);
  }

  lemma GivesUp(one: PullItemOf, s: State, run: nat, id: nat, reason: string)
    requires Live(s, id) && run !in s.runs
    ensures DoAll(one, Do(one, s, Action.Start(run, id, |s.syncs[id].history| - 1)), [GiveUp(run, reason)])
         == s.(runs := s.runs[run := Reporting(id, |s.syncs[id].history| - 1, false, reason)])
  {
    var s1 := Do(one, s, Action.Start(run, id, |s.syncs[id].history| - 1));
    assert [GiveUp(run, reason)][1..] == [];
    assert DoAll(one, s1, [GiveUp(run, reason)]) == DoAll(one, Do(one, s1, GiveUp(run, reason)), []);
  }
}
