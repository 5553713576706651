/** The environment theorem: how plans, injectors, mounts and wrapped entrypoints fit together, so that
    a rewritten container starts its own program in the environment its sources describe. */
module EnvPreserved {
  import opened Common
  import opened Pods
  import opened Mutate
  import opened MutateFrame
  import opened MutateClosed
  import opened MutatePlans
  import opened MutateCoverage
  import opened MutateConfluence
  import opened MutateLoaders
  import opened MutateWrap
  import opened Shell
  import opened ShellText
  import opened EnvMeaning
  import Base64
  import Crypto
  import Inject
  import InjectFlags
  import KeyResolver

  // ----- Plans that come from envFrom alone -----

  ghost predicate EnvPlan(plan: Plan) {
    plan.volume == VolumeName(plan.secret) && plan.mountPath == MountPath(plan.secret)
  }

  /** The plan of a secret, under the names that envFrom references give it. */
  function PlanFor(p: Pod, tsecrets: set<string>, s: string): Option<Plan> {
    var k := Key(VolumeName(s), s);
    if k in PodPlans(p, tsecrets) then Some(PodPlans(p, tsecrets)[k]) else None
  }

  /** A container reads a secret with a prefix. */
  ghost predicate ReadsSecret(c: Container, tsecrets: set<string>, s: string, prefix: string) {
    exists e :: e in c.envFrom && EnvFromTracked(e, tsecrets) && e.secret == s && e.prefix == prefix
  }

  lemma LoaderPathInjective(a: string, b: string)
    ensures LoaderPath(MountPath(a)) == LoaderPath(MountPath(b)) <==> a == b
  {
    var n := |MOUNT_ROOT + "/"|;
    assert LoaderPath(MountPath(a)) == (MOUNT_ROOT + "/") + (a + ("/" + LOADER));
    assert LoaderPath(MountPath(b)) == (MOUNT_ROOT + "/") + (b + ("/" + LOADER));
    CancelPrefix(MOUNT_ROOT + "/", a + ("/" + LOADER), b + ("/" + LOADER));
    CancelSuffix("/" + LOADER, a, b);
  }

  lemma CancelPrefix(x: string, a: string, b: string)
    ensures x + a == x + b <==> a == b
  {
    assert (x + a)[|x|..] == a && (x + b)[|x|..] == b;
  }

  lemma CancelSuffix(x: string, a: string, b: string)
    ensures a + x == b + x <==> a == b
  {
    if a + x == b + x {
      assert |a| == |b|;
      assert (a + x)[..|a|] == a && (b + x)[..|b|] == b;
    }
  }

  lemma EnvOnlyRef(p: Pod, tsecrets: set<string>, r: Ref)
    requires EnvFromOnly(p, tsecrets) && r in AllRefs(p, tsecrets)
    ensures exists c :: Scanned(p, c) && r == EnvRef(r.secret, r.prefix, c.name)
                        && ReadsSecret(c, tsecrets, r.secret, r.prefix)
  {
    InAllRefs(p, tsecrets, r);
    var c :| Scanned(p, c) && EnvReference(c, tsecrets, r);
    var e :| e in c.envFrom && EnvFromTracked(e, tsecrets) && r == EnvRef(e.secret, e.prefix, c.name);
    assert ReadsSecret(c, tsecrets, r.secret, r.prefix);
  }

  lemma SourceIsRef(p: Pod, tsecrets: set<string>, c: Container, s: string, prefix: string)
    requires Scanned(p, c) && ReadsSecret(c, tsecrets, s, prefix)
    ensures EnvRef(s, prefix, c.name) in AllRefs(p, tsecrets)
  {
    InAllRefs(p, tsecrets, EnvRef(s, prefix, c.name));
  }

  lemma PlanShape(p: Pod, tsecrets: set<string>, order: seq<Key>, plan: Plan)
    requires IsOrder(order, PodPlans(p, tsecrets)) && plan in OrderedPlans(p, tsecrets, order)
    requires EnvFromOnly(p, tsecrets)
    ensures EnvPlan(plan) && PlanFor(p, tsecrets, plan.secret) == Some(plan)
    ensures PlanFits(plan, Key(plan.volume, plan.secret), AllRefs(p, tsecrets))
    ensures exists r :: r in AllRefs(p, tsecrets) && r.secret == plan.secret && r.prefix == plan.prefix
  {
    var ps := OrderedPlans(p, tsecrets, order);
    var i :| 0 <= i < |ps| && ps[i] == plan;
    assert order[i] in order;
    PlanOf(p, tsecrets, order[i]);
    var r :| r in AllRefs(p, tsecrets) && KeyOf(r) == order[i] && plan.mountPath == r.mountPath;
    EnvOnlyRef(p, tsecrets, r);
    var r' :| r' in AllRefs(p, tsecrets) && KeyOf(r') == order[i] && plan.prefix == r'.prefix;
  }

  // ----- The secrets of one container, in loader order -----

  function UserSecrets(ps: seq<Plan>, name: string): seq<string> {
    if ps == [] then []
    else UserSecrets(ps[..|ps| - 1], name) + (if name in ps[|ps| - 1].users then [ps[|ps| - 1].secret] else [])
  }

  lemma {:induction false} InUserSecrets(ps: seq<Plan>, name: string)
    ensures forall s :: s in UserSecrets(ps, name) <==> exists p :: p in ps && name in p.users && p.secret == s
  {
    if ps != [] {
      var n := |ps| - 1;
      InUserSecrets(ps[..n], name);
      assert forall p :: p in ps <==> p in ps[..n] || p == ps[n];
    }
  }

  lemma LoaderPathsSnoc(ss: seq<string>, s: string)
    ensures LoaderPaths(ss + [s]) == LoaderPaths(ss) + [LoaderPath(MountPath(s))]
    ensures s !in ss ==> LoaderPath(MountPath(s)) !in LoaderPaths(ss)
  {
    forall i | 0 <= i < |ss|
      ensures LoaderPaths(ss)[i] == LoaderPath(MountPath(s)) <==> ss[i] == s
    {
      LoaderPathInjective(ss[i], s);
    }
  }

  lemma {:induction false} UserLoaders(ps: seq<Plan>, name: string)
    requires DistinctVolumes(ps) && forall p :: p in ps ==> EnvPlan(p)
    ensures NewLoaders(ps, name) == LoaderPaths(UserSecrets(ps, name))
  {
    if ps != [] {
      var n := |ps| - 1;
      var before := UserSecrets(ps[..n], name);
      UserLoaders(ps[..n], name);
      InUserSecrets(ps[..n], name);
      if name in ps[n].users {
        forall p | p in ps[..n]
          ensures p.secret != ps[n].secret
        {
          var i :| 0 <= i < n && ps[i] == p;
          assert p in ps && ps[n] in ps && p.volume != ps[n].volume;
        }
        LoaderPathsSnoc(before, ps[n].secret);
        assert UserSecrets(ps, name) == before + [ps[n].secret];
        assert EnvPlan(ps[n]);
      } else {
        assert before + [] == before;
      }
    }
  }

  // ----- The rewritten container -----

  lemma ContainerAfter(p: Pod, tsecrets: set<string>, image: string, namespace: string, order: seq<Key>, i: nat)
    requires IsOrder(order, PodPlans(p, tsecrets)) && NoVolumeClash(p, tsecrets)
    requires Handle(p, tsecrets, image, namespace, order).Allowed?
    requires UniqueContainers(p) && i < |p.containers| && LoadsEnv(p, p.containers[i])
    requires p.containers[i].name in AllUsers(OrderedPlans(p, tsecrets, order))
    ensures i < |Handle(p, tsecrets, image, namespace, order).pod.containers|
    ensures Wrapped(Handle(p, tsecrets, image, namespace, order).pod.containers[i], p.containers[i],
                    OrderedPlans(p, tsecrets, order))
  {
    hide NewMounts, NewLoaders, NoVolumeClash, ShellJoin, WrapText, Handle, Mentions, Asked, Given, AllUsers, Uses;
    var c := p.containers[i];
    var ps := OrderedPlans(p, tsecrets, order);
    assert IsFirst(p.containers, i);
    UsersOfPlans(p, tsecrets, order, c.name);
    UsesIff(p, tsecrets, c.name);
    AdmittedMounts(p, tsecrets, image, namespace, order);
    CommandLine(p, tsecrets, image, namespace, order, i);
    var c' := Handle(p, tsecrets, image, namespace, order).pod.containers[i];
    assert Loads(p, tsecrets, c.name);
    var e :| EntryOf(p.annotations, c, e) && c'.args == [WrapText(NewLoaders(ps, c.name), e)];
  }

  /** c' is c with the mounts of the plans and with an entrypoint that sources the plans' loaders. */
  ghost predicate Wrapped(c': Container, c: Container, ps: seq<Plan>) {
    && c'.command == SHELL_COMMAND
    && c'.args == [WrapText(NewLoaders(ps, c.name), ShellJoin(c.command + c.args))]
    && c'.mounts == c.mounts + NewMounts(ps, c.name, c.mounts)
  }

  // ----- What one injector leaves behind -----

  lemma FilledBy(p: Pod, tsecrets: set<string>, image: string, namespace: string, order: seq<Key>, plan: Plan,
                 secrets: Secrets, volumes: map<string, map<string, string>>)
    requires IsOrder(order, PodPlans(p, tsecrets)) && NamesFree(p, tsecrets)
    requires Handle(p, tsecrets, image, namespace, order).Allowed?
    requires Injected(Handle(p, tsecrets, image, namespace, order).pod, secrets, volumes)
    requires plan in OrderedPlans(p, tsecrets, order) && EnvFromOnly(p, tsecrets)
    requires PlainSecret(plan.secret) && namespace != ""
    ensures plan.volume in volumes && plan.secret in secrets
    ensures Inject.Gained(map[], volumes[plan.volume], SourceVars(secrets[plan.secret], plan.prefix),
                          plan.mountPath, PlanExports(p.annotations, plan))
  {
    hide Handle, Injected, Inject.Gained, SourceVars, PlanExports, EnvFromOnly, MountPath, VolumeName, PodPlans;
    hide WrapAll, Closed, HasContainer, Injector, Flagged, OneInjector;
    PlanShape(p, tsecrets, order, plan);
    LongerPath(plan.secret);
    InitNameFree(p, tsecrets, order, plan);
    AllowedClosed(p, tsecrets, image, namespace, order);
    InjectorServed(p, tsecrets, image, namespace, order, plan);
    FilledFrom(Handle(p, tsecrets, image, namespace, order).pod, p.annotations, plan, image, namespace,
               secrets, volumes);
  }

  lemma InitNameFree(p: Pod, tsecrets: set<string>, order: seq<Key>, plan: Plan)
    requires IsOrder(order, PodPlans(p, tsecrets)) && NamesFree(p, tsecrets)
    requires plan in OrderedPlans(p, tsecrets, order) && EnvFromOnly(p, tsecrets)
    ensures !HasContainer(p.inits, InitName(plan.volume))
  {
    hide HasContainer, InitName, AllRefs, PodPlans, MountPath, VolumeName, EnvFromOnly, NoVolumeClash;
    PlanShape(p, tsecrets, order, plan);
    var r :| r in AllRefs(p, tsecrets) && r.secret == plan.secret && r.prefix == plan.prefix;
    EnvOnlyRef(p, tsecrets, r);
  }

  lemma LongerPath(s: string)
    ensures MountPath(s) != ""
  {
    assert |MountPath(s)| > |s|;
  }

  lemma FilledFrom(q: Pod, annotations: map<string, string>, plan: Plan, image: string, namespace: string,
                   secrets: Secrets, volumes: map<string, map<string, string>>)
    requires plan.secret != "" && plan.mountPath != "" && namespace != "" && !plan.exportEnv
    requires Injected(q, secrets, volumes) && Injector(Flagged(annotations, plan), image, namespace) in q.inits
    ensures plan.volume in volumes && plan.secret in secrets
    ensures Inject.Gained(map[], volumes[plan.volume], SourceVars(secrets[plan.secret], plan.prefix),
                          plan.mountPath, PlanExports(annotations, plan))
  {
    hide Inject.Gained, InjectFlags.Parse, SourceVars, PlanExports, Injector, Flagged;
    var c := Injector(Flagged(annotations, plan), image, namespace);
    var j :| 0 <= j < |q.inits| && q.inits[j] == c;
    InjectorReads(annotations, plan, image, namespace);
    assert q.inits[j].command == INJECT_COMMAND && |q.inits[j].mounts| == 1;
    assert Filled(volumes[plan.volume], c, secrets);
  }

  lemma InjectorReads(annotations: map<string, string>, plan: Plan, image: string, namespace: string)
    requires plan.secret != "" && plan.mountPath != "" && namespace != "" && !plan.exportEnv
    ensures var c := Injector(Flagged(annotations, plan), image, namespace);
            && c.command == INJECT_COMMAND && c.mounts == [Mount(plan.volume, plan.mountPath, false)]
            && InjectFlags.Parse(c.args, "")
               == Some(InjectFlags.Flags(plan.secret, plan.mountPath, namespace, plan.prefix,
                                         PlanExports(annotations, plan)))
  {
    InjectFlags.FlagsRoundTrip(Flagged(annotations, plan), namespace, "");
  }

  lemma SeenAt(files: Files, dir: map<string, string>, vars: Env, mp: string, volume: string,
               mounts: seq<Mount>, volumes: map<string, map<string, string>>)
    requires Shows(files, mounts, volumes) && volume in volumes && volumes[volume] == dir
    requires Mount(volume, mp, true) in mounts
    requires Inject.Gained(map[], dir, vars, mp, true)
    requires forall n :: n in vars ==> IsName(n)
    ensures SeesSecret(files, vars, mp)
  {
    var names :| NoDup(names) && (forall f :: f in names <==> f in vars)
                 && dir == (map[] + vars)[Inject.LOADER_NAME := LoaderText(mp, Inject.SortStrings(names))];
    forall n | n in vars
      ensures mp + "/" + n in files && files[mp + "/" + n] == vars[n]
    {
      NamesArePlain(n);
      assert n in dir && dir[n] == vars[n];
    }
    assert Inject.LOADER_NAME in dir;
    assert LoaderPath(mp) == mp + "/" + Inject.LOADER_NAME;
  }

  // ----- Mounts -----

  lemma FreshMount(p: Pod, tsecrets: set<string>, i: nat, r: Ref)
    requires NamesFree(p, tsecrets) && WellFormed(p) && EnvFromOnly(p, tsecrets)
    requires i < |p.containers| && r in AllRefs(p, tsecrets)
    ensures !HasMount(p.containers[i].mounts, r.volume)
  {
    var ms := p.containers[i].mounts;
    forall j | 0 <= j < |ms|
      ensures ms[j].name != r.volume
    {
      assert HasVolume(p.volumes, ms[j].name);
      var k :| 0 <= k < |p.volumes| && p.volumes[k].name == ms[j].name;
      assert p.volumes[k] in p.volumes;
    }
  }

  // ----- What the plans make of a container's secrets -----

  /** The variables of each secret, with the prefix its plan has. */
  function PlanVars(p: Pod, tsecrets: set<string>, secrets: Secrets, ss: set<string>): map<string, Env> {
    map s | s in ss && s in secrets && PlanFor(p, tsecrets, s).Some? ::
      SourceVars(secrets[s], PlanFor(p, tsecrets, s).value.prefix)
  }

  /** The texts of the entries that decrypt. */
  function Texts(ciphers: Crypto.Ciphers, data: map<string, Inject.Entry>, key: Base64.Bytes): map<string, string> {
    map n | n in data && Inject.TextOf(ciphers, data, key, n).Some? :: Inject.TextOf(ciphers, data, key, n).value
  }

  /** What a successful injector run does to an empty volume is what the theorem below expects of it. */
  lemma WriteFills(ciphers: Crypto.Ciphers, cluster: KeyResolver.Cluster, t: Inject.TSecret, namespace: string,
                   c: Container, after: map<string, string>, secrets: Secrets, flags: InjectFlags.Flags)
    requires InjectFlags.Parse(c.args, "") == Some(flags)
    requires KeyResolver.Resolve(cluster, t.encryptionRef, namespace).Ok?
    requires Inject.AllDecrypt(ciphers, t.data, KeyResolver.Resolve(cluster, t.encryptionRef, namespace).value)
    requires flags.secret in secrets
    requires secrets[flags.secret]
          == Texts(ciphers, t.data, KeyResolver.Resolve(cluster, t.encryptionRef, namespace).value)
    requires Inject.Gained(map[], after, Inject.TSecretFiles(ciphers, cluster, t, namespace, flags.prefix),
                           flags.mount, flags.exportEnv)
    ensures Filled(after, c, secrets)
  {
    var key := KeyResolver.Resolve(cluster, t.encryptionRef, namespace).value;
    Inject.AllNames(ciphers, t.data, key, flags.prefix);
    assert Texts(ciphers, t.data, key).Keys == t.data.Keys;
    assert Inject.TSecretFiles(ciphers, cluster, t, namespace, flags.prefix)
        == SourceVars(secrets[flags.secret], flags.prefix);
  }

  // ----- One container's secrets, in the two views -----

  lemma UserIsContainer(p: Pod, tsecrets: set<string>, order: seq<Key>, i: nat, plan: Plan)
    requires IsOrder(order, PodPlans(p, tsecrets)) && plan in OrderedPlans(p, tsecrets, order)
    requires EnvFromOnly(p, tsecrets)
    requires UniqueContainers(p) && i < |p.containers|
    ensures p.containers[i].name in plan.users
       <==> exists e :: e in p.containers[i].envFrom && EnvFromTracked(e, tsecrets) && e.secret == plan.secret
  {
    var c := p.containers[i];
    PlanShape(p, tsecrets, order, plan);
    if c.name in plan.users {
      var r :| r in AllRefs(p, tsecrets) && KeyOf(r) == Key(plan.volume, plan.secret) && c.name in r.users;
      EnvOnlyRef(p, tsecrets, r);
      var c' :| Scanned(p, c') && r == EnvRef(r.secret, r.prefix, c'.name)
                && ReadsSecret(c', tsecrets, r.secret, r.prefix);
      SameContainer(p, i, c');
    }
    if e :| e in c.envFrom && EnvFromTracked(e, tsecrets) && e.secret == plan.secret {
      assert ReadsSecret(c, tsecrets, e.secret, e.prefix);
      SourceIsRef(p, tsecrets, c, e.secret, e.prefix);
      assert KeyOf(EnvRef(e.secret, e.prefix, c.name)) == Key(plan.volume, plan.secret);
    }
  }

  lemma SameContainer(p: Pod, i: nat, c: Container)
    requires UniqueContainers(p) && i < |p.containers| && Scanned(p, c) && c.name == p.containers[i].name
    ensures c == p.containers[i]
  {
    assert HasContainer(p.containers, c.name);
    forall j | 0 <= j < |p.inits|
      ensures p.inits[j].name != c.name
    {
      assert IsFirst(p.inits, j);
    }
    var j :| 0 <= j < |p.containers| && p.containers[j] == c;
    assert IsFirst(p.containers, i) && IsFirst(p.containers, j);
  }

  lemma SourcePlan(p: Pod, tsecrets: set<string>, order: seq<Key>, i: nat, e: EnvFrom)
    requires IsOrder(order, PodPlans(p, tsecrets)) && EnvFromOnly(p, tsecrets)
    requires i < |p.containers| && e in p.containers[i].envFrom && EnvFromTracked(e, tsecrets)
    ensures PlanFor(p, tsecrets, e.secret).Some?
    ensures PlanFor(p, tsecrets, e.secret).value in OrderedPlans(p, tsecrets, order)
    ensures PlanFor(p, tsecrets, e.secret).value.secret == e.secret
    ensures p.containers[i].name in PlanFor(p, tsecrets, e.secret).value.users
    ensures exists r :: r in AllRefs(p, tsecrets) && r.secret == e.secret
                        && r.prefix == PlanFor(p, tsecrets, e.secret).value.prefix
  {
    var c := p.containers[i];
    var r := EnvRef(e.secret, e.prefix, c.name);
    assert ReadsSecret(c, tsecrets, e.secret, e.prefix);
    SourceIsRef(p, tsecrets, c, e.secret, e.prefix);
    RefHasPlan(p, tsecrets, r);
    var plan := PodPlans(p, tsecrets)[KeyOf(r)];
    PlanOf(p, tsecrets, KeyOf(r));
    OrderedMembers(p, tsecrets, order, plan);
    PlanShape(p, tsecrets, order, plan);
  }

  /** The secrets whose loaders a container sources are those it reads. */
  lemma SecretsAgree(p: Pod, tsecrets: set<string>, order: seq<Key>, i: nat, s: string)
    requires IsOrder(order, PodPlans(p, tsecrets)) && EnvFromOnly(p, tsecrets) && UniqueContainers(p)
    requires i < |p.containers|
    ensures s in UserSecrets(OrderedPlans(p, tsecrets, order), p.containers[i].name)
       <==> exists e :: e in p.containers[i].envFrom && EnvFromTracked(e, tsecrets) && e.secret == s
  {
    var c := p.containers[i];
    var ps := OrderedPlans(p, tsecrets, order);
    InUserSecrets(ps, c.name);
    if s in UserSecrets(ps, c.name) {
      var plan :| plan in ps && c.name in plan.users && plan.secret == s;
      UserIsContainer(p, tsecrets, order, i, plan);
    }
    if e :| e in c.envFrom && EnvFromTracked(e, tsecrets) && e.secret == s {
      SourcePlan(p, tsecrets, order, i, e);
    }
  }

  function LoadedSecrets(p: Pod, tsecrets: set<string>, order: seq<Key>, i: nat): seq<string>
    requires forall k :: k in order ==> k in PodPlans(p, tsecrets)
    requires i < |p.containers|
  {
    UserSecrets(OrderedPlans(p, tsecrets, order), p.containers[i].name)
  }

  function LoadedVars(p: Pod, tsecrets: set<string>, order: seq<Key>, i: nat, secrets: Secrets): map<string, Env>
    requires forall k :: k in order ==> k in PodPlans(p, tsecrets)
    requires i < |p.containers|
  {
    PlanVars(p, tsecrets, secrets, set s | s in LoadedSecrets(p, tsecrets, order, i))
  }

  /** The lines that the container's loaders run, in the order in which it sources them. */
  ghost function LoadedLines(p: Pod, tsecrets: set<string>, order: seq<Key>, i: nat, secrets: Secrets): seq<Line>
    requires forall k :: k in order ==> k in PodPlans(p, tsecrets)
    requires i < |p.containers|
  {
    AllLines(LoadedSecrets(p, tsecrets, order, i), LoadedVars(p, tsecrets, order, i, secrets))
  }

  // ----- The theorem -----

  /** The container's TSecrets exist, and with every prefix that the pod has for them each of their variables
      has a name that a shell can use. */
  ghost predicate GoodNames(p: Pod, c: Container, tsecrets: set<string>, secrets: Secrets) {
    && (forall e :: e in c.envFrom && EnvFromTracked(e, tsecrets) ==> PlainSecret(e.secret) && e.secret in secrets)
    && (forall e, r, n :: (e in c.envFrom && EnvFromTracked(e, tsecrets) && r in AllRefs(p, tsecrets)
                           && r.secret == e.secret && n in SourceVars(secrets[e.secret], r.prefix)) ==> IsName(n))
  }

  /** A container that loads its environment: it reads TSecrets through envFrom alone, with good names, and
      asks for its environment; no generated name is taken. */
  ghost predicate Loading(p: Pod, i: nat, tsecrets: set<string>, secrets: Secrets) {
    && UniqueContainers(p) && WellFormed(p) && NamesFree(p, tsecrets) && EnvFromOnly(p, tsecrets)
    && i < |p.containers|
    && LoadsEnv(p, p.containers[i])
    && GoodNames(p, p.containers[i], tsecrets, secrets)
    && exists e :: e in p.containers[i].envFrom && EnvFromTracked(e, tsecrets)
  }

  /** The pod was admitted, its injectors have run, and the container sees the volumes they filled. */
  ghost predicate Prepared(p: Pod, i: nat, tsecrets: set<string>, injector: string, namespace: string,
                           order: seq<Key>, secrets: Secrets, volumes: map<string, map<string, string>>, files: Files)
  {
    && IsOrder(order, PodPlans(p, tsecrets)) && namespace != ""
    && Handle(p, tsecrets, injector, namespace, order).Allowed?
    && var q := Handle(p, tsecrets, injector, namespace, order).pod;
       && Injected(q, secrets, volumes)
       && i < |q.containers| && Shows(files, q.containers[i].mounts, volumes)
  }

  lemma LoadedPlan(p: Pod, tsecrets: set<string>, order: seq<Key>, i: nat, secrets: Secrets, s: string)
    requires IsOrder(order, PodPlans(p, tsecrets)) && Loading(p, i, tsecrets, secrets)
    requires s in LoadedSecrets(p, tsecrets, order, i)
    ensures PlanFor(p, tsecrets, s).Some? && s in secrets && PlainSecret(s)
    ensures var plan := PlanFor(p, tsecrets, s).value;
            && plan in OrderedPlans(p, tsecrets, order) && p.containers[i].name in plan.users
            && plan.secret == s && EnvPlan(plan)
            && !HasMount(p.containers[i].mounts, plan.volume)
            && (forall n :: n in SourceVars(secrets[s], plan.prefix) ==> IsName(n))
  {
    hide LoadsEnv, UniqueContainers, WellFormed, NamesFree, HasMount, SourceVars;
    SecretsAgree(p, tsecrets, order, i, s);
    var e :| e in p.containers[i].envFrom && EnvFromTracked(e, tsecrets) && e.secret == s;
    SourcePlan(p, tsecrets, order, i, e);
    var plan := PlanFor(p, tsecrets, s).value;
    PlanShape(p, tsecrets, order, plan);
    var r :| r in AllRefs(p, tsecrets) && r.secret == s && r.prefix == plan.prefix;
    EnvOnlyRef(p, tsecrets, r);
    FreshMount(p, tsecrets, i, r);
  }

  lemma SecretSeen(p: Pod, i: nat, tsecrets: set<string>, injector: string, namespace: string, order: seq<Key>,
                   secrets: Secrets, volumes: map<string, map<string, string>>, files: Files, s: string)
    requires Loading(p, i, tsecrets, secrets)
    requires Prepared(p, i, tsecrets, injector, namespace, order, secrets, volumes, files)
    requires Wrapped(Handle(p, tsecrets, injector, namespace, order).pod.containers[i], p.containers[i],
                     OrderedPlans(p, tsecrets, order))
    requires s in LoadedSecrets(p, tsecrets, order, i)
    ensures s in LoadedVars(p, tsecrets, order, i, secrets) && PlainSecret(s)
    ensures SeesSecret(files, LoadedVars(p, tsecrets, order, i, secrets)[s], MountPath(s))
    ensures forall n :: n in LoadedVars(p, tsecrets, order, i, secrets)[s] ==> IsName(n)
  {
    hide Injected, Shows, SeesSecret, NamesFree, EnvFromOnly, GoodNames, Handle;
    var c := p.containers[i];
    LoadedPlan(p, tsecrets, order, i, secrets, s);
    var plan := PlanFor(p, tsecrets, s).value;
    FilledBy(p, tsecrets, injector, namespace, order, plan, secrets, volumes);
    MountAdded(OrderedPlans(p, tsecrets, order), c, plan);
    LoadsEnvMeans(p, c);
    assert PlanExports(p.annotations, plan);
    SeenAt(files, volumes[plan.volume], SourceVars(secrets[s], plan.prefix), MountPath(s), plan.volume,
           c.mounts + NewMounts(OrderedPlans(p, tsecrets, order), c.name, c.mounts), volumes);
  }

  lemma MountAdded(ps: seq<Plan>, c: Container, plan: Plan)
    requires plan in ps && c.name in plan.users && !HasMount(c.mounts, plan.volume)
    ensures Mount(plan.volume, plan.mountPath, true) in c.mounts + NewMounts(ps, c.name, c.mounts)
  {
    InNewMounts(ps, c.name, c.mounts);
  }

  /** What the handler makes of such a container, apart from its mounts. */
  lemma RewrittenContainer(p: Pod, i: nat, tsecrets: set<string>, injector: string, namespace: string,
                           order: seq<Key>, secrets: Secrets)
    requires IsOrder(order, PodPlans(p, tsecrets)) && Loading(p, i, tsecrets, secrets)
    requires Handle(p, tsecrets, injector, namespace, order).Allowed?
    ensures i < |Handle(p, tsecrets, injector, namespace, order).pod.containers|
    ensures var c, c' := p.containers[i], Handle(p, tsecrets, injector, namespace, order).pod.containers[i];
            && Wrapped(c', c, OrderedPlans(p, tsecrets, order))
            && c'.args[0] == WrapText(LoaderPaths(LoadedSecrets(p, tsecrets, order, i)), ShellJoin(c.command + c.args))
            && c'.envFrom == KeepEnvFrom(c.envFrom, tsecrets) && c'.env == c.env
  {
    hide ShellJoin, WrapText, GoodNames, NoVolumeClash, LoadsEnv, Handle;
    var c := p.containers[i];
    var ps := OrderedPlans(p, tsecrets, order);
    var e :| e in c.envFrom && EnvFromTracked(e, tsecrets);
    SourcePlan(p, tsecrets, order, i, e);
    ContainerAfter(p, tsecrets, injector, namespace, order, i);
    KeptParts(p, i, tsecrets, injector, namespace, order);
    forall plan | plan in ps
      ensures EnvPlan(plan)
    {
      PlanShape(p, tsecrets, order, plan);
    }
    OrderedDistinct(p, tsecrets, order);
    UserLoaders(ps, c.name);
  }

  lemma KeptParts(p: Pod, i: nat, tsecrets: set<string>, injector: string, namespace: string, order: seq<Key>)
    requires IsOrder(order, PodPlans(p, tsecrets)) && EnvFromOnly(p, tsecrets) && i < |p.containers|
    requires Handle(p, tsecrets, injector, namespace, order).Allowed?
    ensures i < |Handle(p, tsecrets, injector, namespace, order).pod.containers|
    ensures var c, c' := p.containers[i], Handle(p, tsecrets, injector, namespace, order).pod.containers[i];
            c'.envFrom == KeepEnvFrom(c.envFrom, tsecrets) && c'.env == c.env
  {
    hide Handle;
    Frame(p, tsecrets, injector, namespace, order);
    assert Framed(p.containers[i], Handle(p, tsecrets, injector, namespace, order).pod.containers[i], false,
                  p.annotations, tsecrets);
    KeepEnvClean(p.containers[i].env, tsecrets);
    assert Scanned(p, p.containers[i]);
  }

  /** Whatever the order of the maps: after the injectors have run, the rewritten container starts the
      command and args it had, in the environment in which its shell starts, overridden by the lines of its
      loaders. */
  lemma EnvFromPreserved(p: Pod, i: nat, tsecrets: set<string>, injector: string, namespace: string, order: seq<Key>,
                         secrets: Secrets, volumes: map<string, map<string, string>>, files: Files,
                         image: Image, w: World)
    requires Loading(p, i, tsecrets, secrets)
    requires Prepared(p, i, tsecrets, injector, namespace, order, secrets, volumes, files)
    ensures var c, c' := p.containers[i], Handle(p, tsecrets, injector, namespace, order).pod.containers[i];
            RunContainer(c', files, image, tsecrets, secrets, w)
            == Some(Process(c.command + c.args,
                            LoadLines(StartEnv(NativeEnv(c', image, tsecrets, secrets, w), image.user),
                                      LoadedLines(p, tsecrets, order, i, secrets), image.user)))
  {
    hide Handle, RunScript, WrapText, NativeEnv, LoadLines, StartEnv, GoodNames, NamesFree, Injected, Shows;
    hide Loadable, LoadedSecrets, LoadedVars, AllLines, UniqueContainers, WellFormed, EnvFromOnly;
    var c := p.containers[i];
    RewrittenContainer(p, i, tsecrets, injector, namespace, order, secrets);
    LoadersSeen(p, i, tsecrets, injector, namespace, order, secrets, volumes, files);
    var c' := Handle(p, tsecrets, injector, namespace, order).pod.containers[i];
    WrapperRuns(LoadedSecrets(p, tsecrets, order, i), LoadedVars(p, tsecrets, order, i, secrets), c.command + c.args,
                Machine(files, image.user), NativeEnv(c', image, tsecrets, secrets, w));
  }

  lemma LoadersSeen(p: Pod, i: nat, tsecrets: set<string>, injector: string, namespace: string, order: seq<Key>,
                    secrets: Secrets, volumes: map<string, map<string, string>>, files: Files)
    requires Loading(p, i, tsecrets, secrets)
    requires Prepared(p, i, tsecrets, injector, namespace, order, secrets, volumes, files)
    ensures Loadable(LoadedSecrets(p, tsecrets, order, i), LoadedVars(p, tsecrets, order, i, secrets), files)
  {
    hide SeesSecret, PlainSecret, IsName, LoadedVars, Wrapped, Handle, Injected, Shows, GoodNames, LoadsEnv;
    hide UniqueContainers, WellFormed, NamesFree, EnvFromOnly, LoadedSecrets, LoaderPath, MountPath;
    RewrittenContainer(p, i, tsecrets, injector, namespace, order, secrets);
    var ss := LoadedSecrets(p, tsecrets, order, i);
    var vars := LoadedVars(p, tsecrets, order, i, secrets);
    forall s | s in ss
      ensures s in vars && PlainSecret(s) && SeesSecret(files, vars[s], MountPath(s))
      ensures forall n :: n in vars[s] ==> IsName(n)
    {
      SecretSeen(p, i, tsecrets, injector, namespace, order, secrets, volumes, files, s);
    }
  }

  /** A container that cannot read the loader of one of its TSecrets, whatever else it sees, does not start
      its program at all. Loaders and files are readable by the injector's user only. */
  lemma UnreadableStops(p: Pod, i: nat, tsecrets: set<string>, injector: string, namespace: string, order: seq<Key>,
                        secrets: Secrets, files: Files, image: Image, w: World, e: EnvFrom)
    requires IsOrder(order, PodPlans(p, tsecrets)) && Loading(p, i, tsecrets, secrets)
    requires Handle(p, tsecrets, injector, namespace, order).Allowed?
    requires e in p.containers[i].envFrom && EnvFromTracked(e, tsecrets)
    requires LoaderPath(MountPath(e.secret)) !in files
    ensures i < |Handle(p, tsecrets, injector, namespace, order).pod.containers|
    ensures RunContainer(Handle(p, tsecrets, injector, namespace, order).pod.containers[i], files,
                         image, tsecrets, secrets, w) == None
  {
    hide Handle, RunScript, WrapText, NativeEnv, PlainSecret, ShellJoin, MountPath, LoadedSecrets;
    RewrittenContainer(p, i, tsecrets, injector, namespace, order, secrets);
    var c := p.containers[i];
    var c' := Handle(p, tsecrets, injector, namespace, order).pod.containers[i];
    var ss := LoadedSecrets(p, tsecrets, order, i);
    SecretLoaded(p, tsecrets, order, i, e.secret);
    forall s | s in ss
      ensures PlainSecret(s)
    {
      LoadedPlan(p, tsecrets, order, i, secrets, s);
    }
    WrapperStops(ss, c.command + c.args, Machine(files, image.user), NativeEnv(c', image, tsecrets, secrets, w),
                 e.secret);
  }

  lemma SecretLoaded(p: Pod, tsecrets: set<string>, order: seq<Key>, i: nat, s: string)
    requires IsOrder(order, PodPlans(p, tsecrets)) && EnvFromOnly(p, tsecrets) && UniqueContainers(p)
    requires i < |p.containers|
    ensures s in LoadedSecrets(p, tsecrets, order, i)
       <==> exists e :: e in p.containers[i].envFrom && EnvFromTracked(e, tsecrets) && e.secret == s
  {
    SecretsAgree(p, tsecrets, order, i, s);
  }
}
