/** What a run of EnsureCerts has done when it is through: the steps it made, read off any interleaving,
    and the whole effect of a run that nobody disturbs. */
module CertTrace {
  import opened Common
  import opened Certs
  import opened CertProtocol

  // ----- Versions -----

  /** Versions lie in the past and identify what was stored; a run that writes the configuration holds a
      patched copy of a version. Deleting the authority does not break this. */
  ghost predicate Versioned(s: State) {
    && (s.serving.Some? ==> s.serving.value.version < s.clock)
    && (s.hooks.Some? ==> s.hooks.value in s.pastHooks)
    && (forall h :: h in s.pastHooks ==> h.version < s.clock)
    && (forall h, h' :: h in s.pastHooks && h' in s.pastHooks && h.version == h'.version ==> h == h')
    && (forall run :: run in s.runs && s.runs[run].WritingHooks? ==> CopyFits(s, s.runs[run].ca, s.runs[run].copy))
  }

  ghost predicate CopyFits(s: State, ca: nat, copy: Hooks) {
    exists h :: h in s.pastHooks && h.version == copy.version && copy.bundles == Patched(h.bundles, ca)
  }

  /** Nothing but the phase of one run has changed, and perhaps what a run cannot hold a copy of. */
  lemma CopiesKept(s: State, s': State, run: nat)
    requires Versioned(s)
    requires s'.pastHooks == s.pastHooks && (s'.hooks == s.hooks || s'.hooks == None) && s.clock <= s'.clock
    requires s'.serving.Some? ==> s'.serving.value.version < s'.clock
    requires forall r :: r in s'.runs && r != run ==> r in s.runs && s'.runs[r] == s.runs[r]
    requires run in s'.runs && s'.runs[run].WritingHooks? ==> CopyFits(s, s'.runs[run].ca, s'.runs[run].copy)
    ensures Versioned(s')
  {
    hide Patched;
  }

  /** A new version of the configuration is stored. */
  lemma HooksAdded(s: State, s': State, h: Hooks, run: nat)
    requires Versioned(s)
    requires h.version == s.clock && s'.clock == s.clock + 1
    requires s'.hooks == Some(h) && s'.pastHooks == s.pastHooks + {h} && s'.serving == s.serving
    requires forall r :: r in s'.runs && r != run ==> r in s.runs && s'.runs[r] == s.runs[r]
    requires run in s'.runs && s'.runs[run].WritingHooks? ==> run in s.runs && s'.runs[run] == s.runs[run]
    ensures Versioned(s')
  {
    hide Patched;
    forall r | r in s'.runs && s'.runs[r].WritingHooks?
      ensures CopyFits(s', s'.runs[r].ca, s'.runs[r].copy)
    {
      var x :| x in s.pastHooks && x.version == s.runs[r].copy.version
               && s.runs[r].copy.bundles == Patched(x.bundles, s.runs[r].ca);
      assert x in s'.pastHooks;
    }
  }

  lemma StepVersioned(s: State, a: Action)
    requires Versioned(s)
    ensures Versioned(Do(s, a))
  {
    hide Versioned, CopyFits, Patched;
    var s' := Do(s, a);
    var run := StepOf(a);
    VersionsPast(s);
    if s' == s {
    } else if a.InstallHooks? || (a.WriteHooks? && s'.hooks != s.hooks) {
      HooksAdded(s, s', s'.hooks.value, run);
    } else {
      if a.GetHooks? {
        CopyRead(s, a);
      } else {
        NoCopy(s, a);
      }
      CopiesKept(s, s', run);
    }
  }

  function StepOf(a: Action): nat {
    match a
    case Start(run) => run
    case GetCa(run, _) => run
    case CreateCa(run, _, _) => run
    case CheckServing(run, _) => run
    case GetServing(run, _) => run
    case WriteServing(run, _, _) => run
    case GetHooks(run, _) => run
    case WriteHooks(run, _, _) => run
    case Abort(run) => run
    case _ => 0
  }

  lemma VersionsPast(s: State)
    requires Versioned(s)
    ensures s.serving.Some? ==> s.serving.value.version < s.clock
    ensures s.hooks.Some? ==> s.hooks.value.version < s.clock
  {
  }

  lemma NoCopy(s: State, a: Action)
    requires Versioned(s) && !a.GetHooks?
    ensures var s' := Do(s, a);
            StepOf(a) in s'.runs && s'.runs[StepOf(a)].WritingHooks? ==>
              CopyFits(s, s'.runs[StepOf(a)].ca, s'.runs[StepOf(a)].copy)
  {
    hide CopyFits;
  }

  lemma CopyRead(s: State, a: Action)
    requires Versioned(s) && a.GetHooks?
    ensures var s' := Do(s, a);
            StepOf(a) in s'.runs && s'.runs[StepOf(a)].WritingHooks? ==>
              CopyFits(s, s'.runs[StepOf(a)].ca, s'.runs[StepOf(a)].copy)
  {
    hide Patched;
  }

  lemma {:induction false} AlwaysVersioned(actions: seq<Action>)
    ensures Versioned(After(actions))
    decreases |actions|
  {
    if actions == [] {
    } else {
      AlwaysVersioned(actions[..|actions| - 1]);
      StepVersioned(After(actions[..|actions| - 1]), actions[|actions| - 1]);
    }
  }

  // ----- What a finished run has done -----

  predicate In(s: State, run: nat, p: Phase) {
    run in s.runs && s.runs[run] == p
  }

  ghost predicate TrustsOnly(h: Hooks, ca: nat) {
    forall b :: b in h.bundles ==> b == BundleOf(ca)
  }

  /** The step finds or stores the authority with which the run goes on. */
  predicate CaMove(s: State, a: Action, s': State, run: nat, ca: nat) {
    if a.GetCa? then a == GetCa(run, true) && In(s, run, Starting) && s.ca == Some(ca)
    else a.CreateCa? && a.run == run && In(s, run, CreatingCa(ca)) && s.ca == None && s'.ca == Some(ca)
  }

  /** The step sees that no renewal is due, or stores a certificate that the run's authority has signed. */
  predicate ServingMove(s: State, a: Action, s': State, run: nat, ca: nat) {
    if a.CheckServing? then a == CheckServing(run, false) && In(s, run, CheckingServing(ca))
    else
      && a.WriteServing? && a.run == run
      && s'.serving.Some? && s'.serving.value.issuer == ca && s'.serving != s.serving
  }

  /** The step finds no configuration, or reads one with the run's bundle everywhere, or stores it so: as many
      webhooks as before, each with that bundle. */
  ghost predicate HooksMove(s: State, a: Action, s': State, run: nat, ca: nat) {
    if a.GetHooks? then
      && a.run == run && In(s, run, GettingHooks(ca))
      && (a.copy.Some? ==> a.copy.value in s.pastHooks && TrustsOnly(a.copy.value, ca))
    else
      && a.WriteHooks? && a.run == run && s.hooks.Some? && s'.hooks.Some?
      && |s'.hooks.value.bundles| == |s.hooks.value.bundles| && TrustsOnly(s'.hooks.value, ca)
  }

  ghost predicate CaStep(actions: seq<Action>, k: nat, run: nat, ca: nat) {
    k < |actions| && CaMove(After(actions[..k]), actions[k], After(actions[..k + 1]), run, ca)
  }

  ghost predicate ServingStep(actions: seq<Action>, k: nat, run: nat, ca: nat) {
    k < |actions| && ServingMove(After(actions[..k]), actions[k], After(actions[..k + 1]), run, ca)
  }

  ghost predicate HooksStep(actions: seq<Action>, k: nat, run: nat, ca: nat) {
    k < |actions| && HooksMove(After(actions[..k]), actions[k], After(actions[..k + 1]), run, ca)
  }

  ghost predicate HasCa(actions: seq<Action>, n: nat, run: nat, ca: nat) {
    exists k :: 0 <= k < n && CaStep(actions, k, run, ca)
  }

  ghost predicate HasServing(actions: seq<Action>, n: nat, run: nat, ca: nat) {
    exists k :: 0 <= k < n && ServingStep(actions, k, run, ca) && HasCa(actions, k, run, ca)
  }

  ghost predicate HasHooks(actions: seq<Action>, n: nat, run: nat, ca: nat) {
    exists k :: 0 <= k < n && HooksStep(actions, k, run, ca) && HasServing(actions, k, run, ca)
  }

  /** What the phase of a run says about the steps so far. */
  ghost predicate Done(actions: seq<Action>, run: nat, p: Phase) {
    var n := |actions|;
    match p
    case CheckingServing(ca) => HasCa(actions, n, run, ca)
    case GettingServing(ca) => HasCa(actions, n, run, ca)
    case WritingServing(ca, _) => HasCa(actions, n, run, ca)
    case GettingHooks(ca) => HasServing(actions, n, run, ca)
    case WritingHooks(ca, _) => HasServing(actions, n, run, ca)
    case Finished => exists ca :: HasHooks(actions, n, run, ca)
    case _ => true
  }

  /** Later steps do not change what earlier ones were. */
  lemma Longer(actions: seq<Action>, a: Action, n: nat, run: nat)
    requires n <= |actions|
    ensures forall ca :: HasCa(actions, n, run, ca) ==> HasCa(actions + [a], n, run, ca)
    ensures forall ca :: HasServing(actions, n, run, ca) ==> HasServing(actions + [a], n, run, ca)
    ensures forall ca :: HasHooks(actions, n, run, ca) ==> HasHooks(actions + [a], n, run, ca)
  {
    hide After;
    var more := actions + [a];
    forall k, ca | 0 <= k < |actions|
      ensures CaStep(actions, k, run, ca) ==> CaStep(more, k, run, ca)
      ensures ServingStep(actions, k, run, ca) ==> ServingStep(more, k, run, ca)
      ensures HooksStep(actions, k, run, ca) ==> HooksStep(more, k, run, ca)
    {
      assert more[..k] == actions[..k] && more[..k + 1] == actions[..k + 1];
    }
    forall k, ca | 0 <= k < |actions|
      ensures HasCa(actions, k, run, ca) ==> HasCa(more, k, run, ca)
    {
    }
    forall k, ca | 0 <= k < |actions|
      ensures HasServing(actions, k, run, ca) ==> HasServing(more, k, run, ca)
    {
    }
  }

  lemma Further(actions: seq<Action>, run: nat, ca: nat)
    requires actions != []
    ensures var n := |actions|;
            && (HasCa(actions, n - 1, run, ca) ==> HasCa(actions, n, run, ca))
            && (HasServing(actions, n - 1, run, ca) ==> HasServing(actions, n, run, ca))
            && (HasHooks(actions, n - 1, run, ca) ==> HasHooks(actions, n, run, ca))
  {
    hide CaStep, ServingStep, HooksStep;
  }

  lemma AfterSnoc(actions: seq<Action>, a: Action)
    ensures (actions + [a])[..|actions|] == actions && (actions + [a])[..|actions| + 1] == actions + [a]
    ensures After(actions + [a]) == Do(After(actions), a)
  {
    assert (actions + [a])[..|actions|] == actions;
  }

  /** The steps of a run that lead on. */
  lemma NewCa(s: State, a: Action, run: nat)
    requires run in Do(s, a).runs && Do(s, a).runs[run].CheckingServing?
    requires !(run in s.runs && s.runs[run].CheckingServing?)
    ensures CaMove(s, a, Do(s, a), run, Do(s, a).runs[run].ca)
  {
  }

  lemma NewServing(s: State, a: Action, run: nat)
    requires Versioned(s) && run in Do(s, a).runs && Do(s, a).runs[run].GettingHooks?
    requires !(run in s.runs && s.runs[run].GettingHooks?)
    ensures run in s.runs && (s.runs[run].CheckingServing? || s.runs[run].WritingServing?)
    ensures s.runs[run].ca == Do(s, a).runs[run].ca && ServingMove(s, a, Do(s, a), run, s.runs[run].ca)
  {
    hide CopyFits;
  }

  lemma NewHooks(s: State, a: Action, run: nat)
    requires Versioned(s) && run in Do(s, a).runs && Do(s, a).runs[run].Finished?
    requires !(run in s.runs && s.runs[run].Finished?)
    ensures run in s.runs && (s.runs[run].GettingHooks? || s.runs[run].WritingHooks?)
    ensures HooksMove(s, a, Do(s, a), run, s.runs[run].ca)
  {
    hide Patched;
    if a.GetHooks? {
      if a.copy.Some? {
        PatchedIff(a.copy.value.bundles, s.runs[run].ca);
      }
    } else {
      CopyStored(s, a, run);
    }
  }

  lemma CopyStored(s: State, a: Action, run: nat)
    requires Versioned(s) && a.WriteHooks? && a.run == run && run in s.runs && s.runs[run].WritingHooks?
    requires Do(s, a).runs[run].Finished?
    ensures HooksMove(s, a, Do(s, a), run, s.runs[run].ca)
  {
    var ca, copy := s.runs[run].ca, s.runs[run].copy;
    assert CopyFits(s, ca, copy);
    var h :| h in s.pastHooks && h.version == copy.version && copy.bundles == Patched(h.bundles, ca);
    assert s.hooks == Some(h);
    PatchedBundles(h.bundles, ca);
  }

  /** A run whose phase another step leaves as it is, or that goes on with the same authority. */
  lemma SamePhase(s: State, a: Action, run: nat)
    requires run in Do(s, a).runs
    ensures var p' := Do(s, a).runs[run];
            || p'.Starting? || p'.CreatingCa? || p'.CheckingServing? || p'.GettingHooks? || p'.Finished? || p'.Aborted?
            || (run in s.runs && s.runs[run] == p')
            || (&& run in s.runs
                && (p'.GettingServing? ==> s.runs[run] == CheckingServing(p'.ca))
                && (p'.WritingServing? ==> s.runs[run] == GettingServing(p'.ca))
                && (p'.WritingHooks? ==> s.runs[run] == GettingHooks(p'.ca)))
  {
  }

  lemma StepDone(actions: seq<Action>, a: Action, run: nat)
    requires Versioned(After(actions))
    requires run in After(actions).runs ==> Done(actions, run, After(actions).runs[run])
    ensures run in After(actions + [a]).runs ==> Done(actions + [a], run, After(actions + [a]).runs[run])
  {
    hide After, Do, CaStep, ServingStep, HooksStep, HasCa, HasServing, HasHooks, Versioned;
    var s, more := After(actions), actions + [a];
    AfterSnoc(actions, a);
    if run in After(more).runs {
      var p' := After(more).runs[run];
      Longer(actions, a, |actions|, run);
      forall ca
        ensures HasCa(more, |actions|, run, ca) ==> HasCa(more, |more|, run, ca)
        ensures HasServing(more, |actions|, run, ca) ==> HasServing(more, |more|, run, ca)
        ensures HasHooks(more, |actions|, run, ca) ==> HasHooks(more, |more|, run, ca)
      {
        Further(more, run, ca);
      }
      if !(run in s.runs && s.runs[run] == p') {
        PhaseDone(actions, a, run);
      }
    }
  }

  /** The run has just reached its phase. */
  lemma PhaseDone(actions: seq<Action>, a: Action, run: nat)
    requires Versioned(After(actions))
    requires run in After(actions).runs ==> Done(actions, run, After(actions).runs[run])
    requires run in After(actions + [a]).runs
    requires !(run in After(actions).runs && After(actions).runs[run] == After(actions + [a]).runs[run])
    ensures Done(actions + [a], run, After(actions + [a]).runs[run])
  {
    hide After, Do, CaMove, ServingMove, HooksMove, Versioned;
    var s, more := After(actions), actions + [a];
    AfterSnoc(actions, a);
    var p' := After(more).runs[run];
    Longer(actions, a, |actions|, run);
    SamePhase(s, a, run);
    match p' {
      case CheckingServing(ca) =>
        FromStart(s, a, run);
        NewCa(s, a, run);
        assert CaStep(more, |actions|, run, ca);
      case GettingHooks(ca) =>
        FromServing(s, a, run);
        NewServing(s, a, run);
        assert ServingStep(more, |actions|, run, ca);
      case Finished =>
        FromHooks(s, a, run);
        NewHooks(s, a, run);
        assert HooksStep(more, |actions|, run, s.runs[run].ca);
        assert HasServing(more, |actions|, run, s.runs[run].ca);
        assert HasHooks(more, |more|, run, s.runs[run].ca);
      case _ =>
    }
  }

  lemma FromStart(s: State, a: Action, run: nat)
    requires run in Do(s, a).runs && Do(s, a).runs[run].CheckingServing?
    requires !(run in s.runs && s.runs[run] == Do(s, a).runs[run])
    ensures !(run in s.runs && s.runs[run].CheckingServing?)
  {
  }

  lemma FromServing(s: State, a: Action, run: nat)
    requires run in Do(s, a).runs && Do(s, a).runs[run].GettingHooks?
    requires !(run in s.runs && s.runs[run] == Do(s, a).runs[run])
    ensures !(run in s.runs && s.runs[run].GettingHooks?)
  {
  }

  lemma FromHooks(s: State, a: Action, run: nat)
    requires run in Do(s, a).runs && Do(s, a).runs[run].Finished?
    requires !(run in s.runs && s.runs[run] == Do(s, a).runs[run])
    ensures !(run in s.runs && s.runs[run].Finished?)
  {
  }

  lemma {:induction false} AlwaysDone(actions: seq<Action>, run: nat)
    ensures run in After(actions).runs ==> Done(actions, run, After(actions).runs[run])
    decreases |actions|
  {
    hide Done, Do;
    if actions == [] {
    } else {
      var front, a := actions[..|actions| - 1], actions[|actions| - 1];
      assert actions == front + [a];
      AlwaysVersioned(front);
      AlwaysDone(front, run);
      StepDone(front, a, run);
    }
  }

  /** Under any interleaving, a run that has finished has gone through its three stages with one authority:
      it found that authority or stored it; then it saw that no renewal was due, or stored a certificate
      signed by that authority; then it saw no webhook configuration, or read one with the authority's
      bundle in every webhook, or stored it so. While nobody deletes the authority's Secret, that authority is
      the stored one. */
  lemma FinishedRun(actions: seq<Action>, run: nat) returns (ca: nat, i: nat, j: nat, k: nat)
    requires run in After(actions).runs && After(actions).runs[run].Finished?
    ensures 0 <= i < j < k < |actions|
    ensures CaStep(actions, i, run, ca) && ServingStep(actions, j, run, ca) && HooksStep(actions, k, run, ca)
    ensures CaKept(actions) ==> After(actions).ca == Some(ca)
  {
    hide CaStep, ServingStep, HooksStep, After;
    AlwaysDone(actions, run);
    ca :| HasHooks(actions, |actions|, run, ca);
    k :| 0 <= k < |actions| && HooksStep(actions, k, run, ca) && HasServing(actions, k, run, ca);
    j :| 0 <= j < k && ServingStep(actions, j, run, ca) && HasCa(actions, j, run, ca);
    i :| 0 <= i < j && CaStep(actions, i, run, ca);
    if CaKept(actions) {
      CaStays(actions, i, run, ca);
    }
  }

  lemma CaStays(actions: seq<Action>, i: nat, run: nat, ca: nat)
    requires CaKept(actions) && CaStep(actions, i, run, ca)
    ensures After(actions).ca == Some(ca)
  {
    hide After;
    if actions[i].GetCa? {
      OneAuthority(actions, i);
    } else {
      OneAuthority(actions, i + 1);
    }
  }

  // ----- A run that nobody disturbs -----

  /** The objects of the protocol are those of module Certs, numbers standing for authorities. */
  ghost predicate Shows(s: State, stored: Stored) {
    && (if stored.ca.Some? then s.ca == Some(stored.ca.value.id) else s.ca == None)
    && (if stored.serving.Some? then s.serving.Some? && s.serving.value.issuer == stored.serving.value.issuer
        else s.serving == None)
    && (if stored.bundles.Some? then s.hooks.Some? && s.hooks.value.bundles == stored.bundles.value
        else s.hooks == None)
  }

  function Held(s: State): Option<nat> {
    if s.serving.Some? then Some(s.serving.value.version) else None
  }

  /** All steps of one run, with reads of what is stored and writes that succeed. Steps that the run skips
      are not possible and change nothing. */
  function LoneSteps(s: State, run: nat, renew: bool): seq<Action> {
    [Start(run), GetCa(run, s.ca.Some?), CreateCa(run, false, false), CheckServing(run, renew),
     GetServing(run, Held(s)), WriteServing(run, false, false), GetHooks(run, s.hooks), WriteHooks(run, false, false)]
  }

  function DoAll(s: State, actions: seq<Action>): State
    decreases |actions|
  {
    if actions == [] then s else DoAll(Do(s, actions[0]), actions[1..])
  }

  lemma {:induction false} AfterConcat(a: seq<Action>, b: seq<Action>)
    ensures After(a + b) == DoAll(After(a), b)
    decreases |b|
  {
    hide Do;
    if b == [] {
      assert a + b == a;
    } else {
      assert (a + [b[0]])[..|a|] == a;
      AfterConcat(a + [b[0]], b[1..]);
      assert a + b == (a + [b[0]]) + b[1..];
    }
  }

  /** The first three steps: the authority. */
  lemma LoneCa(s: State, run: nat)
    requires run !in s.runs
    ensures var ca := if s.ca.Some? then s.ca.value else s.nextCa;
            var s' := Do(Do(Do(s, Start(run)), GetCa(run, s.ca.Some?)), CreateCa(run, false, false));
            && s'.ca == Some(ca) && run in s'.runs && s'.runs[run] == CheckingServing(ca)
            && s'.serving == s.serving && s'.hooks == s.hooks && s'.pastHooks == s.pastHooks && s'.clock == s.clock
  {
  }

  /** The next three: the serving certificate. */
  lemma LoneServing(s: State, run: nat, renew: bool)
    requires Versioned(s) && run in s.runs && s.runs[run].CheckingServing?
    ensures var s' := Do(Do(Do(s, CheckServing(run, renew)), GetServing(run, Held(s))),
                         WriteServing(run, false, false));
            && s'.ca == s.ca && run in s'.runs && s'.runs[run] == GettingHooks(s.runs[run].ca)
            && (if renew then s'.serving.Some? && s'.serving.value.issuer == s.runs[run].ca
                else s'.serving == s.serving)
            && s'.hooks == s.hooks && s'.pastHooks == s.pastHooks
  {
    hide CopyFits;
  }

  /** The last two: the webhook configuration. */
  lemma LoneHooks(s: State, run: nat)
    requires s.hooks.Some? ==> s.hooks.value in s.pastHooks
    requires run in s.runs && s.runs[run].GettingHooks?
    ensures var s' := Do(Do(s, GetHooks(run, s.hooks)), WriteHooks(run, false, false));
            && s'.ca == s.ca && s'.serving == s.serving && run in s'.runs && s'.runs[run] == Finished
            && (if s.hooks.Some? then
                  s'.hooks.Some? && s'.hooks.value.bundles == Patched(s.hooks.value.bundles, s.runs[run].ca)
                else s'.hooks == None)
  {
    hide Patched;
  }

  /** From any reachable state, a run with fresh reads and no failures finishes and takes the stored objects
      to what EnsureCerts alone makes of them: authority, certificate and bundles. */
  lemma LoneRun(before: seq<Action>, run: nat, stored: Stored, t: Times)
    requires var s := After(before); run !in s.runs && Shows(s, stored)
    ensures var s := After(before);
            var s' := After(before + LoneSteps(s, run, NeedsRenewal(stored.serving, t.check)));
            && Shows(s', Ensured(stored, s.nextCa, t))
            && run in s'.runs && s'.runs[run] == Finished
  {
    hide After, Do, NeedsRenewal, Patched, NewCertificate, NewAuthority;
    var s := After(before);
    var renew := NeedsRenewal(stored.serving, t.check);
    var steps := LoneSteps(s, run, renew);
    AlwaysVersioned(before);
    AfterConcat(before, steps);
    LoneCa(s, run);
    var s3 := Do(Do(Do(s, Start(run)), GetCa(run, s.ca.Some?)), CreateCa(run, false, false));
    StepsVersioned(s, Start(run), GetCa(run, s.ca.Some?), CreateCa(run, false, false));
    LoneServing(s3, run, renew);
    var s6 := Do(Do(Do(s3, CheckServing(run, renew)), GetServing(run, Held(s))), WriteServing(run, false, false));
    StepsVersioned(s3, CheckServing(run, renew), GetServing(run, Held(s)), WriteServing(run, false, false));
    LoneHooks(s6, run);
    EightSteps(s, steps);
    NewIssuer(stored, s.nextCa, t);
  }

  lemma NewIssuer(stored: Stored, id: nat, t: Times)
    ensures var ca := EnsuredCa(stored, id, t);
            && NewCertificate(ca, t).issuer == ca.id
            && (stored.ca.None? ==> ca.id == id)
  {
  }

  lemma StepsVersioned(s: State, a: Action, b: Action, c: Action)
    requires Versioned(s)
    ensures Versioned(Do(Do(Do(s, a), b), c))
  {
    hide Do, Versioned;
    StepVersioned(s, a);
    StepVersioned(Do(s, a), b);
    StepVersioned(Do(Do(s, a), b), c);
  }

  lemma EightSteps(s: State, b: seq<Action>)
    requires |b| == 8
    ensures DoAll(s, b) == Do(Do(Do(Do(Do(Do(Do(Do(s, b[0]), b[1]), b[2]), b[3]), b[4]), b[5]), b[6]), b[7])
  {
    hide Do;
    var s2 := Do(Do(s, b[0]), b[1]);
    TwoSteps(s, b);
    TwoSteps(s2, b[2..]);
    var s4 := Do(Do(s2, b[2]), b[3]);
    assert b[2..][2..] == b[4..];
    TwoSteps(s4, b[4..]);
    var s6 := Do(Do(s4, b[4]), b[5]);
    assert b[4..][2..] == b[6..];
    TwoSteps(s6, b[6..]);
    assert b[6..][2..] == [];
  }

  lemma TwoSteps(s: State, b: seq<Action>)
    requires |b| >= 2
    ensures DoAll(s, b) == DoAll(Do(Do(s, b[0]), b[1]), b[2..])
  {
    hide Do;
    assert b[1..][1..] == b[2..];
  }
}
