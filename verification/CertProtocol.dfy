/** Any number of replicas run EnsureCerts over one API server, interleaved at every client call. Reads
    may be stale or fail, a create fails if the object exists, an update fails on a stale version, and
    the answer to a write may be lost after it took effect. */
module CertProtocol {
  import opened Common
  import opened Certs

  /** A stored serving certificate: the authority whose key signed it, and the object's version. */
  datatype Serving = Serving(version: nat, issuer: nat)

  datatype Hooks = Hooks(version: nat, bundles: seq<Bundle>)

  /** Where a run of EnsureCerts stands; numbers are those of authorities. */
  datatype Phase =
    | Starting
    | CreatingCa(ca: nat)
    | CheckingServing(ca: nat)
    | GettingServing(ca: nat)
    | WritingServing(ca: nat, held: Option<nat>)
    | GettingHooks(ca: nat)
    | WritingHooks(ca: nat, copy: Hooks)
    | Finished
    | Aborted(createFailed: bool)

  /** A serving certificate that was signed, whether or not it was then stored. */
  datatype Issue = Issue(run: nat, ca: nat)

  datatype State = State(
    ca: Option<nat>,
    serving: Option<Serving>,
    hooks: Option<Hooks>,
    pastHooks: set<Hooks>,
    runs: map<nat, Phase>,
    nextCa: nat,
    clock: nat,
    issued: seq<Issue>)

  const INIT := State(None, None, None, {}, map[], 0, 0, [])

  datatype Action =
    // somebody else
    | DeleteServing
    | TouchServing
    | InstallHooks(bundles: seq<string>)
    | DeleteHooks
    | DeleteCa
    // steps of a run
    | Start(run: nat)
    | GetCa(run: nat, seen: bool)
    | CreateCa(run: nat, refused: bool, lost: bool)
    | CheckServing(run: nat, renew: bool)
    | GetServing(run: nat, held: Option<nat>)
    | WriteServing(run: nat, refused: bool, lost: bool)
    | GetHooks(run: nat, copy: Option<Hooks>)
    | WriteHooks(run: nat, refused: bool, lost: bool)
    | Abort(run: nat)

  function Move(s: State, run: nat, p: Phase): State {
    s.(runs := s.runs[run := p])
  }

  function InitialBundles(texts: seq<string>): (bs: seq<Bundle>)
    ensures forall b :: b in bs ==> b.Initial?
  {
    seq(|texts|, i requires 0 <= i < |texts| => Initial(texts[i]))
  }

  /** A step that is not possible leaves everything as it is. */
  function Do(s: State, a: Action): State {
    match a
    case DeleteServing => s.(serving := None)
    case TouchServing =>
      if s.serving.None? then s
      else s.(serving := Some(s.serving.value.(version := s.clock)), clock := s.clock + 1)
    case InstallHooks(texts) =>
      var h := Hooks(s.clock, InitialBundles(texts));
      s.(hooks := Some(h), pastHooks := s.pastHooks + {h}, clock := s.clock + 1)
    case DeleteHooks => s.(hooks := None)
    case DeleteCa => s.(ca := None)
    case Start(run) => if run in s.runs then s else Move(s, run, Starting)
    case Abort(run) =>
      if run in s.runs then Move(s, run, Aborted(s.runs[run].Aborted? && s.runs[run].createFailed)) else s
    case GetCa(run, found) => if run in s.runs && s.runs[run].Starting? then DoGetCa(s, run, found) else s
    case CreateCa(run, refused, lost) =>
      if run in s.runs && s.runs[run].CreatingCa? then DoCreateCa(s, run, s.runs[run].ca, refused, lost) else s
    case CheckServing(run, renew) =>
      if run in s.runs && s.runs[run].CheckingServing? then DoCheck(s, run, s.runs[run].ca, renew) else s
    case GetServing(run, found) =>
      if run in s.runs && s.runs[run].GettingServing? && (found.Some? ==> found.value < s.clock)
      then Move(s, run, WritingServing(s.runs[run].ca, found)) else s
    case WriteServing(run, refused, lost) =>
      if run in s.runs && s.runs[run].WritingServing?
      then DoWriteServing(s, run, s.runs[run].ca, s.runs[run].held, refused, lost) else s
    case GetHooks(run, found) =>
      if run in s.runs && s.runs[run].GettingHooks? then DoGetHooks(s, run, s.runs[run].ca, found) else s
    case WriteHooks(run, refused, lost) =>
      if run in s.runs && s.runs[run].WritingHooks?
      then DoWriteHooks(s, run, s.runs[run].ca, s.runs[run].copy, refused, lost) else s
  }

  /** A stale read may miss the authority, but what is found is what is stored. */
  function DoGetCa(s: State, run: nat, found: bool): State {
    if found then
      if s.ca.Some? then Move(s, run, CheckingServing(s.ca.value)) else s
    else Move(s, run, CreatingCa(s.nextCa)).(nextCa := s.nextCa + 1)
  }

  function DoCreateCa(s: State, run: nat, ca: nat, refused: bool, lost: bool): State {
    if refused || s.ca.Some? then Move(s, run, Aborted(true))
    else Move(s, run, if lost then Aborted(true) else CheckingServing(ca)).(ca := Some(ca))
  }

  /** If the certificate needs renewal, or none is seen, a new one is signed at once. */
  function DoCheck(s: State, run: nat, ca: nat, renew: bool): State {
    if renew then Move(s, run, GettingServing(ca)).(issued := s.issued + [Issue(run, ca)])
    else Move(s, run, GettingHooks(ca))
  }

  function DoWriteServing(s: State, run: nat, ca: nat, held: Option<nat>, refused: bool, lost: bool): State {
    var accepted := if held.None? then s.serving.None? else s.serving.Some? && s.serving.value.version == held.value;
    if refused || !accepted then Move(s, run, Aborted(false))
    else
      Move(s, run, if lost then Aborted(false) else GettingHooks(ca))
      .(serving := Some(Serving(s.clock, ca)), clock := s.clock + 1)
  }

  /** Any version of the configuration there ever was may be read; the copy is patched, and written back
      only if a bundle changed. */
  function DoGetHooks(s: State, run: nat, ca: nat, found: Option<Hooks>): State {
    match found
    case None => Move(s, run, Finished)
    case Some(h) =>
      if h !in s.pastHooks then s
      else if Patched(h.bundles, ca) == h.bundles then Move(s, run, Finished)
      else Move(s, run, WritingHooks(ca, Hooks(h.version, Patched(h.bundles, ca))))
  }

  function DoWriteHooks(s: State, run: nat, ca: nat, copy: Hooks, refused: bool, lost: bool): State {
    if refused || s.hooks.None? || s.hooks.value.version != copy.version then Move(s, run, Aborted(false))
    else
      var h := Hooks(s.clock, copy.bundles);
      Move(s, run, if lost then Aborted(false) else Finished)
      .(hooks := Some(h), pastHooks := s.pastHooks + {h}, clock := s.clock + 1)
  }

  function After(actions: seq<Action>): State {
    if actions == [] then INIT else Do(After(actions[..|actions| - 1]), actions[|actions| - 1])
  }

  ghost predicate CaKept(actions: seq<Action>) {
    forall i :: 0 <= i < |actions| ==> !actions[i].DeleteCa?
  }

  // ----- The invariant -----

  /** Every bundle is an initial one or that of the stored authority. */
  predicate Trusts(ca: Option<nat>, h: Hooks) {
    forall b :: b in h.bundles ==> b.Initial? || ca == Some(b.id)
  }

  /** A run that has got past ensureCA proceeds with the stored authority. */
  predicate Proceeds(p: Phase) {
    !p.Starting? && !p.CreatingCa? && !p.Finished? && !p.Aborted?
  }

  ghost predicate RunFits(s: State, p: Phase) {
    && (Proceeds(p) ==> s.ca == Some(p.ca))
    && (p.CreatingCa? ==> p.ca < s.nextCa)
    && (p.WritingHooks? ==> forall b :: b in p.copy.bundles ==> b == BundleOf(p.ca))
  }

  ghost predicate Inv(s: State) {
    && (s.ca.Some? ==> s.ca.value < s.nextCa)
    && (s.serving.Some? ==> s.ca == Some(s.serving.value.issuer))
    && (forall h :: h in s.pastHooks ==> Trusts(s.ca, h))
    && (s.hooks.Some? ==> s.hooks.value in s.pastHooks)
    && (forall run :: run in s.runs ==> RunFits(s, s.runs[run]))
    && (forall i :: i in s.issued ==> s.ca == Some(i.ca))
    && (forall i :: i in s.issued ==> i.run in s.runs && s.runs[i.run] != Aborted(true)
                                      && !s.runs[i.run].Starting? && !s.runs[i.run].CreatingCa?)
  }

  lemma PatchedBundles(bs: seq<Bundle>, ca: nat)
    ensures forall b :: b in Patched(bs, ca) ==> b == BundleOf(ca)
  {
  }

  /** Creating the authority: only the first create succeeds, and nothing was signed before it. */
  lemma CreateKeeps(s: State, run: nat, refused: bool, lost: bool)
    requires Inv(s) && run in s.runs && s.runs[run].CreatingCa?
    ensures Inv(Do(s, CreateCa(run, refused, lost)))
  {
    forall h | h in s.pastHooks
      ensures Trusts(Do(s, CreateCa(run, refused, lost)).ca, h)
    {
      assert Trusts(s.ca, h);
    }
  }

  lemma GetHooksKeeps(s: State, run: nat, found: Option<Hooks>)
    requires Inv(s)
    ensures Inv(Do(s, GetHooks(run, found)))
  {
    if found.Some? && run in s.runs && s.runs[run].GettingHooks? {
      PatchedBundles(found.value.bundles, s.runs[run].ca);
    }
  }

  lemma WriteHooksKeeps(s: State, run: nat, refused: bool, lost: bool)
    requires Inv(s)
    ensures Inv(Do(s, WriteHooks(run, refused, lost)))
  {
    assert run in s.runs ==> RunFits(s, s.runs[run]);
  }

  lemma CheckKeeps(s: State, run: nat, renew: bool)
    requires Inv(s)
    ensures Inv(Do(s, CheckServing(run, renew)))
  {
    hide Trusts;
  }

  lemma WriteServingKeeps(s: State, run: nat, refused: bool, lost: bool)
    requires Inv(s)
    ensures Inv(Do(s, WriteServing(run, refused, lost)))
  {
    hide Trusts;
  }

  lemma ServingKeeps(s: State, a: Action)
    requires Inv(s) && (a.GetServing? || a.DeleteServing? || a.TouchServing?)
    ensures Inv(Do(s, a))
  {
    hide Trusts;
  }

  lemma OthersKeep(s: State, a: Action)
    requires Inv(s) && (a.InstallHooks? || a.DeleteHooks? || a.Start? || a.GetCa? || a.Abort?)
    ensures Inv(Do(s, a))
  {
  }

  lemma StepKeeps(s: State, a: Action)
    requires Inv(s) && !a.DeleteCa?
    ensures Inv(Do(s, a))
  {
    match a {
      case CreateCa(run, refused, lost) =>
        if run in s.runs && s.runs[run].CreatingCa? {
          CreateKeeps(s, run, refused, lost);
        }
      case GetHooks(run, found) =>
        GetHooksKeeps(s, run, found);
      case WriteHooks(run, refused, lost) =>
        WriteHooksKeeps(s, run, refused, lost);
      case CheckServing(run, renew) => CheckKeeps(s, run, renew);
      case GetServing(_, _) => ServingKeeps(s, a);
      case WriteServing(run, refused, lost) => WriteServingKeeps(s, run, refused, lost);
      case DeleteServing => ServingKeeps(s, a);
      case TouchServing => ServingKeeps(s, a);
      case _ => OthersKeep(s, a);
    }
  }

  lemma {:induction false} AlwaysInv(actions: seq<Action>)
    requires CaKept(actions)
    ensures Inv(After(actions))
    decreases |actions|
  {
    if actions != [] {
      AlwaysInv(actions[..|actions| - 1]);
      StepKeeps(After(actions[..|actions| - 1]), actions[|actions| - 1]);
    }
  }

  // ----- Safety -----

  /** Under any interleaving, as long as nobody deletes the authority's Secret: the stored serving
      certificate is signed by the stored authority, every bundle is an initial one or that authority's,
      and every certificate that was ever signed was signed by it. */
  lemma Safety(actions: seq<Action>)
    requires CaKept(actions)
    ensures var s := After(actions);
            && (s.serving.Some? ==> s.ca == Some(s.serving.value.issuer))
            && (s.hooks.Some? ==> forall b :: b in s.hooks.value.bundles ==> b.Initial? || s.ca == Some(b.id))
            && (forall i :: i in s.issued ==> s.ca == Some(i.ca))
  {
    AlwaysInv(actions);
    var s := After(actions);
    if s.hooks.Some? {
      assert Trusts(s.ca, s.hooks.value);
    }
  }

  /** A run whose create of the authority fails, for whatever reason, never signs anything. */
  lemma LosersIssueNothing(actions: seq<Action>, run: nat)
    requires CaKept(actions)
    requires run in After(actions).runs && After(actions).runs[run] == Aborted(true)
    ensures forall i :: i in After(actions).issued ==> i.run != run
  {
    AlwaysInv(actions);
  }

  /** Once there is an authority it stays the same one. */
  lemma {:induction false} OneAuthority(actions: seq<Action>, k: nat)
    requires CaKept(actions) && k <= |actions|
    requires After(actions[..k]).ca.Some?
    ensures After(actions).ca == After(actions[..k]).ca
    decreases |actions| - k
  {
    if k == |actions| {
      assert actions[..k] == actions;
    } else {
      assert actions[..k + 1][..k] == actions[..k];
      OneStepKeepsCa(After(actions[..k]), actions[k]);
      OneAuthority(actions, k + 1);
    }
  }

  lemma OneStepKeepsCa(s: State, a: Action)
    requires s.ca.Some? && !a.DeleteCa?
    ensures Do(s, a).ca == s.ca
  {
  }

  // ----- Why the authority must not be deleted -----

  lemma FirstRun()
    ensures Do(Do(Do(INIT, Start(0)), GetCa(0, false)), CreateCa(0, false, false))
         == State(Some(0), None, None, {}, map[0 := CheckingServing(0)], 1, 0, [])
    ensures Do(Do(Do(State(Some(0), None, None, {}, map[0 := CheckingServing(0)], 1, 0, []),
                     CheckServing(0, true)), GetServing(0, None)), WriteServing(0, false, false))
         == State(Some(0), Some(Serving(0, 0)), None, {}, map[0 := GettingHooks(0)], 1, 1, [Issue(0, 0)])
  {
  }

  lemma SecondRun(s: State)
    requires 1 !in s.runs
    ensures Do(Do(Do(Do(s, DeleteCa), Start(1)), GetCa(1, false)), CreateCa(1, false, false))
         == s.(ca := Some(s.nextCa), runs := s.runs[1 := CheckingServing(s.nextCa)], nextCa := s.nextCa + 1)
  {
    var s1 := Do(Do(s, DeleteCa), Start(1));
    assert s1 == s.(ca := None, runs := s.runs[1 := Starting]);
    var s2 := Do(s1, GetCa(1, false));
    assert s2 == s.(ca := None, runs := s.runs[1 := CreatingCa(s.nextCa)], nextCa := s.nextCa + 1);
  }

  /** If somebody does, a second authority appears beside a certificate that the first one signed. */
  lemma DeletedCaBreaks() returns (actions: seq<Action>)
    ensures !CaKept(actions)
    ensures After(actions).ca.Some? && After(actions).serving.Some?
    ensures After(actions).ca != Some(After(actions).serving.value.issuer)
  {
    hide Do, After;
    var first := [Start(0), GetCa(0, false), CreateCa(0, false, false), CheckServing(0, true),
                  GetServing(0, None), WriteServing(0, false, false)];
    var second := [DeleteCa, Start(1), GetCa(1, false), CreateCa(1, false, false)];
    actions := first + second;
    assert actions[6].DeleteCa?;
    var s1 := Do(INIT, first[0]);
    var s2 := Do(s1, first[1]);
    var s3 := Do(s2, first[2]);
    var s4 := Do(s3, first[3]);
    var s5 := Do(s4, first[4]);
    var s6 := Do(s5, first[5]);
    FirstRun();
    SecondRun(s6);
    var s7 := Do(s6, second[0]);
    var s8 := Do(s7, second[1]);
    var s9 := Do(s8, second[2]);
    var s10 := Do(s9, second[3]);
    Prefixes(actions, [INIT, s1, s2, s3, s4, s5, s6, s7, s8, s9, s10], 10);
  }

  lemma {:induction false} Prefixes(actions: seq<Action>, states: seq<State>, k: nat)
    requires |states| == |actions| + 1 && states[0] == INIT && k <= |actions|
    requires forall i :: 0 <= i < |actions| ==> states[i + 1] == Do(states[i], actions[i])
    ensures After(actions[..k]) == states[k]
    ensures k == |actions| ==> After(actions) == states[k]
  {
    if k > 0 {
      Prefixes(actions, states, k - 1);
      assert actions[..k][..k - 1] == actions[..k - 1];
    }
    assert k == |actions| ==> actions[..k] == actions;
  }
}
