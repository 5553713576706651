/** Pods on which the environment theorem can be seen at work: one on which the rewritten container starts
    what Kubernetes would have started, and one for each way in which it does not. */
module EnvCases {
  import opened Common
  import opened Pods
  import opened Mutate
  import opened MutateClosed
  import opened MutatePlans
  import opened MutateCoverage
  import opened MutateWrap
  import opened Shell
  import opened EnvMeaning
  import opened EnvPreserved
  import opened EnvNative
  import opened EnvRuns
  import Inject

  /** A container with the given command line, sources and literals. */
  function Sample(command: seq<string>, args: seq<string>, sources: seq<EnvFrom>, env: seq<EnvVar>): Container {
    Container("app", "image", command, args, sources, env, [], "")
  }

  /** One TSecret, db. */
  function Db(data: map<string, string>): Secrets {
    map["db" := data]
  }

  const FROM_DB := SecretEnvFrom("db", "")
  const USER := "USER"
  const ROOT := map[USER := "root"]

  // ----- Names and texts -----

  lemma Upper(n: string)
    requires n != "" && forall ch :: ch in n ==> ch == '_' || 'A' <= ch <= 'Z'
    ensures IsName(n)
  {
    assert n[0] in n;
  }

  lemma Lower(s: string)
    requires s != "" && forall ch :: ch in s ==> 'a' <= ch <= 'z'
    ensures PlainSecret(s)
  {
    assert s[0] in s;
  }

  lemma Names()
    ensures PlainSecret("db") && PlainSecret("a") && PlainSecret("b") && !IsInjectorName("app")
    ensures IsName(USER) && IsName(PATH) && IsName("A_USER") && IsName("B_USER") && !IsName("app.mode")
    ensures USER != PATH && "a" != "b" && "A_USER" != "B_USER" && "app.mode" != USER
  {
    hide IsName, PlainSecret;
    Lower("db");
    Lower("a");
    Lower("b");
    Upper(USER);
    Upper(PATH);
    Upper("A_USER");
    Upper("B_USER");
    Dotted("app.mode", 3);
    assert "app"[0] == 'a' && INIT_PREFIX[0] == 't';
    assert "A_USER"[0] == 'A' && "B_USER"[0] == 'B' && USER[0] == 'U' && PATH[0] == 'P' && "app.mode"[0] == 'a';
    assert "a"[0] == 'a' && "b"[0] == 'b';
  }

  lemma Dotted(n: string, i: nat)
    requires i < |n| && n[i] == '.'
    ensures !IsName(n)
  {
    assert n[i] in n;
  }

  lemma Texts()
    ensures Trimmed("root") == "root" && !EndsInNewline("root") && EndsInNewline("root\n")
    ensures "guest" != "root" && "root" != "" && "guest" != ""
    ensures Trimmed("alice") == "alice" && Trimmed("bob") == "bob" && Trimmed("/nowhere") == "/nowhere"
  {
    assert "guest"[0] == 'g' && "root"[0] == 'r';
  }

  /** Without a colon, a search path is one directory. */
  lemma {:induction false} OneDirectory(path: string)
    requires ':' !in path
    ensures Directories(path) == [path]
  {
    if path == "" {
    } else {
      assert path[0] in path;
      OneDirectory(path[1..]);
      assert [path[0]] + path[1..] == path;
    }
  }

  lemma NoCatThere(path: string, user: Userland)
    requires ':' !in path && path !in user.cats
    ensures !HasCat(path, user)
  {
    OneDirectory(path);
  }

  lemma Unprefixed(data: map<string, string>)
    ensures SourceVars(data, "") == data
  {
    forall n
      ensures Inject.Unprefixed("", n) == n && "" + n == n
    {
      assert n[0..] == n;
    }
    assert Inject.FileNames("", data.Keys) == data.Keys;
  }

  lemma Prefixed(prefix: string, n: string, v: string)
    ensures SourceVars(map[n := v], prefix) == map[prefix + n := v]
  {
    var data := map[n := v];
    assert (prefix + n)[|prefix|..] == n;
    assert data.Keys == {n};
    assert Inject.FileNames(prefix, {n}) == {prefix + n};
  }

  // ----- Containers that read db alone, without a prefix -----

  /** The sources are db and perhaps one more, and the literals are no references. */
  ghost predicate Plain(c: Container) {
    && c.name == "app" && c.mounts == [] && (c.command != [] || c.args != [])
    && (c.args != [] ==> |c.args[0]| < |LOADER|)
    && (forall e :: e in c.env ==> e.PlainEnv?)
    && (c.envFrom == [FROM_DB] || exists text :: c.envFrom == [FROM_DB, OtherEnvFrom(text)])
  }

  lemma PlainSupported(c: Container, data: map<string, string>)
    requires Plain(c) && forall n :: n in data ==> IsName(n)
    ensures Simple(c, {"db"}, Db(data)) && Supported(OnePod(c), 0, {"db"}, Db(data))
  {
    hide PlainSecret, IsInjectorName, IsName, SourceVars, Loading;
    Names();
    Unprefixed(data);
    assert FROM_DB in c.envFrom && EnvFromTracked(FROM_DB, {"db"});
    SimpleLoading(c, {"db"}, Db(data));
    forall r | r in AllRefs(OnePod(c), {"db"})
      ensures r.prefix == ""
    {
      SimpleRef(c, {"db"}, Db(data), r);
    }
  }

  lemma FirstSource(data: map<string, string>, w: World)
    ensures SecretEnv([FROM_DB], {"db"}, Db(data)) == data
    ensures KeepEnvFrom([FROM_DB], {"db"}) == [] && SourcesEnv([], {"db"}, Db(data), w) == map[]
    ensures forall n :: n in data ==> LaterKept([FROM_DB], n, {"db"}, Db(data), w) == None
  {
    hide SourceVars;
    Unprefixed(data);
    assert [FROM_DB][..0] == [];
    assert map[] + data == data;
  }

  lemma SecondSource(e: EnvFrom, data: map<string, string>, w: World)
    requires e.OtherEnvFrom?
    ensures var es := [FROM_DB, e];
            && SecretEnv(es, {"db"}, Db(data)) == data
            && KeepEnvFrom(es, {"db"}) == [e] && SourcesEnv([e], {"db"}, Db(data), w) == w.source(e)
            && forall n :: n in data ==>
                 LaterKept(es, n, {"db"}, Db(data), w) == if n in w.source(e) then Some(w.source(e)[n]) else None
  {
    hide SourceVars;
    var es := [FROM_DB, e];
    FirstSource(data, w);
    assert es[..1] == [FROM_DB] && [e][..0] == [];
    assert data + map[] == data && map[] + w.source(e) == w.source(e);
  }

  /** What the condition of the theorem is about, for such a container. */
  ghost predicate Views(c: Container, data: map<string, string>, later: Env, image: Image, w: World) {
    && SecretEnv(c.envFrom, {"db"}, Db(data)) == data
    && KeptEnv(c, image, {"db"}, Db(data), w) == image.env + later + LiteralsEnv(c.env, w)
    && forall n :: n in data ==>
         LaterKept(c.envFrom, n, {"db"}, Db(data), w) == if n in later then Some(later[n]) else None
  }

  lemma PlainViews(c: Container, data: map<string, string>, image: Image, w: World)
    ensures c.envFrom == [FROM_DB] ==> Views(c, data, map[], image, w)
    ensures forall text :: c.envFrom == [FROM_DB, OtherEnvFrom(text)] ==>
              Views(c, data, w.source(OtherEnvFrom(text)), image, w)
  {
    hide LiteralsEnv, SourcesEnv, SecretEnv, LaterKept, KeepEnvFrom;
    if c.envFrom == [FROM_DB] {
      FirstSource(data, w);
    }
    forall text | c.envFrom == [FROM_DB, OtherEnvFrom(text)]
      ensures Views(c, data, w.source(OtherEnvFrom(text)), image, w)
    {
      SecondSource(OtherEnvFrom(text), data, w);
    }
  }

  lemma OneLiteral(n: string, v: string, w: World)
    ensures LiteralsEnv([], w) == map[] && LiteralsEnv([PlainEnv(n, v)], w) == map[n := v]
  {
    assert [PlainEnv(n, v)][..0] == [];
  }

  // ----- One source and one variable -----

  /** The condition, for a container that reads USER from db. */
  ghost predicate RootSafe(c: Container, value: string, image: Image, w: World)
  {
    var kept := image.env + LiteralsEnv(c.env, w);
    && ProgramSafe(c, image)
    && (image.user.oddNames || forall n :: n in kept ==> IsName(n))
    && ValueSafe(if USER in LiteralsEnv(c.env, w) then Some(LiteralsEnv(c.env, w)[USER]) else None, value,
                 HasCat(SearchPath(kept, image.user), image.user))
  }

  lemma RootDecided(c: Container, value: string, image: Image, w: World)
    requires Plain(c) && c.envFrom == [FROM_DB]
    ensures Works(c, {"db"}, Db(map[USER := value]), image, w) <==> RootSafe(c, value, image, w)
    ensures Fails(c, {"db"}, Db(map[USER := value]), image, w) <==> !RootSafe(c, value, image, w)
  {
    hide LiteralsEnv, SecretEnv, KeptEnv, HasCat, IsName, Simple, Works, Fails, Supported, PodPlans;
    hide ProgramSafe, ValueSafe, LoadedNames;
    var data := map[USER := value];
    Names();
    PlainSupported(c, data);
    PlainViews(c, data, image, w);
    Decided(c, {"db"}, Db(data), image, w);
    assert image.env + map[] == image.env;
    assert data[USER] == value && PATH !in data;
    SomeList(PodPlans(OnePod(c), {"db"}).Keys);
    var some :| NoDup(some) && forall k :: k in some <==> k in PodPlans(OnePod(c), {"db"}).Keys;
    assert IsOrder(some, PodPlans(OnePod(c), {"db"}));
    forall order | IsOrder(order, PodPlans(OnePod(c), {"db"}))
      ensures Safe(c, {"db"}, Db(data), order, image, w) <==> RootSafe(c, value, image, w)
    {
      assert forall n :: n in data <==> n == USER;
    }
  }

  /** Where nothing interferes, the rewritten container starts what Kubernetes would have started: the image
      has a cat, and no variable of it needs an odd name. */
  lemma NothingInterferes(image: Image, w: World)
    requires HasCat(SearchPath(image.env, image.user), image.user)
    requires image.user.oddNames || forall n :: n in image.env ==> IsName(n)
    ensures Works(Sample(["run"], [], [FROM_DB], []), {"db"}, Db(ROOT), image, w)
  {
    hide Works, HasCat, IsName, EndsInNewline;
    RootDecided(Sample(["run"], [], [FROM_DB], []), "root", image, w);
    OneLiteral("", "", w);
    Texts();
    assert image.env + map[] == image.env;
  }

  /** A literal with the name of a TSecret variable wins natively, but loses against the loader. */
  lemma LiteralLoses(image: Image, w: World)
    ensures Fails(Sample(["run"], [], [FROM_DB], [PlainEnv(USER, "guest")]), {"db"}, Db(ROOT), image, w)
  {
    hide Fails, HasCat, IsName, EndsInNewline, Trimmed;
    RootDecided(Sample(["run"], [], [FROM_DB], [PlainEnv(USER, "guest")]), "root", image, w);
    OneLiteral(USER, "guest", w);
    Texts();
  }

  /** A container with args but no command natively runs its image's entrypoint on them; the rewritten one
      runs the args alone. */
  lemma EntrypointLost(image: Image, w: World)
    requires image.entrypoint == ["init"]
    ensures Fails(Sample([], ["serve"], [FROM_DB], []), {"db"}, Db(ROOT), image, w)
  {
    hide Fails, HasCat, IsName, ValueSafe;
    RootDecided(Sample([], ["serve"], [FROM_DB], []), "root", image, w);
  }

  /** A value that ends in a line end loses it. */
  lemma LineEndLost(image: Image, w: World)
    ensures Fails(Sample(["run"], [], [FROM_DB], []), {"db"}, Db(map[USER := "root\n"]), image, w)
  {
    hide Fails, HasCat, IsName, EndsInNewline, Trimmed;
    RootDecided(Sample(["run"], [], [FROM_DB], []), "root\n", image, w);
    OneLiteral("", "", w);
    Texts();
  }

  /** A variable whose name is none for a shell gets lost, where the shell drops such variables. */
  lemma OddNameLost(image: Image, w: World)
    requires !image.user.oddNames
    ensures Fails(Sample(["run"], [], [FROM_DB], [PlainEnv("app.mode", "x")]), {"db"}, Db(ROOT), image, w)
  {
    hide Fails, HasCat, IsName, ValueSafe;
    RootDecided(Sample(["run"], [], [FROM_DB], [PlainEnv("app.mode", "x")]), "root", image, w);
    OneLiteral("app.mode", "x", w);
    Names();
    assert "app.mode" in image.env + map["app.mode" := "x"];
  }

  /** With a literal PATH that leads to no cat, every TSecret variable ends up empty. */
  lemma NoCatFound(image: Image, w: World)
    requires "/opt" !in image.user.cats
    ensures Fails(Sample(["run"], [], [FROM_DB], [PlainEnv(PATH, "/opt")]), {"db"}, Db(ROOT), image, w)
  {
    hide Fails, HasCat, IsName, EndsInNewline, Trimmed;
    RootDecided(Sample(["run"], [], [FROM_DB], [PlainEnv(PATH, "/opt")]), "root", image, w);
    OneLiteral(PATH, "/opt", w);
    Names();
    Texts();
    NoCatThere("/opt", image.user);
    assert (image.env + map[PATH := "/opt"])[PATH] == "/opt";
  }

  // ----- A second source -----

  /** A source that comes after the TSecret wins natively, but loses against the loader. */
  lemma LaterSourceLoses(image: Image, w: World)
    requires w.source(OtherEnvFrom("settings")) == map[USER := "guest"]
    ensures Fails(Sample(["run"], [], [FROM_DB, OtherEnvFrom("settings")], []), {"db"}, Db(ROOT), image, w)
  {
    hide Fails, HasCat, IsName, EndsInNewline, Trimmed, KeptEnv, SecretEnv, LaterKept, Simple, Supported, PodPlans;
    var c := Sample(["run"], [], [FROM_DB, OtherEnvFrom("settings")], []);
    Names();
    Texts();
    OneLiteral("", "", w);
    PlainSupported(c, ROOT);
    PlainViews(c, ROOT, image, w);
    Decided(c, {"db"}, Db(ROOT), image, w);
    assert USER in ROOT;
    forall order | IsOrder(order, PodPlans(OnePod(c), {"db"}))
      ensures !Safe(c, {"db"}, Db(ROOT), order, image, w)
    {
      assert Override(c, USER, {"db"}, Db(ROOT), w) == Some("guest");
    }
  }

  // ----- A TSecret variable PATH -----

  const LOST := map[PATH := "/nowhere", USER := "root"]

  lemma OnlyMember(ss: seq<string>, s: string)
    requires NoDup(ss) && forall x :: x in ss <==> x == s
    ensures ss == [s]
  {
    SameMembersPermute(ss, [s]);
    assert |ss| == |multiset(ss)| == 1;
    assert ss[0] in ss;
  }

  /** A container that reads db alone runs the lines of one loader. */
  lemma PlainLines(c: Container, data: map<string, string>, order: seq<Key>)
    requires Plain(c) && forall n :: n in data ==> IsName(n)
    requires IsOrder(order, PodPlans(OnePod(c), {"db"}))
    ensures LinesIn(c, {"db"}, Db(data), order) == LinesOf(data)
  {
    hide SourceVars, IsName, Simple, OrderedPlans, PodPlans, PlanVars;
    var p := OnePod(c);
    PlainSupported(c, data);
    LoadedAlone(c, {"db"}, Db(data), order, "db");
    SecretVars(p, {"db"}, order, 0, Db(data), "db");
    var e :| e in c.envFrom && EnvFromTracked(e, {"db"}) && e.secret == "db"
             && LoadedVars(p, {"db"}, order, 0, Db(data))["db"] == SourceVars(data, e.prefix);
    assert e == FROM_DB;
    Unprefixed(data);
    AloneLines("db", LoadedVars(p, {"db"}, order, 0, Db(data)));
  }

  lemma AloneLines(s: string, vars: map<string, Env>)
    requires s in vars
    ensures AllLines([s], vars) == LinesOf(vars[s])
  {
    assert [s][1..] == [];
    assert AllLines([], vars) == [];
  }

  /** All TSecret sources of the container are of one TSecret. */
  lemma LoadedAlone(c: Container, tsecrets: set<string>, secrets: Secrets, order: seq<Key>, s: string)
    requires Simple(c, tsecrets, secrets) && IsOrder(order, PodPlans(OnePod(c), tsecrets))
    requires forall e :: e in c.envFrom && EnvFromTracked(e, tsecrets) ==> e.secret == s
    ensures LoadedSecrets(OnePod(c), tsecrets, order, 0) == [s]
  {
    hide NamedSource, IsInjectorName, Mentions, UserSecrets, VolumeName, MountPath, PlainSecret, SourceVars;
    var p := OnePod(c);
    var ps := OrderedPlans(p, tsecrets, order);
    SimpleNamesFree(c, tsecrets, secrets);
    OrderedDistinct(p, tsecrets, order);
    forall plan | plan in ps
      ensures EnvPlan(plan)
    {
      SimplePlan(c, tsecrets, secrets, order, plan);
    }
    SecretsDistinct(ps, c.name);
    forall x
      ensures x in LoadedSecrets(p, tsecrets, order, 0) <==> x == s
    {
      SecretsAgree(p, tsecrets, order, 0, x);
    }
    OnlyMember(LoadedSecrets(p, tsecrets, order, 0), s);
  }

  lemma PathComesFirst()
    ensures After(SortedNames(LOST), PATH, USER) && !After(SortedNames(LOST), PATH, PATH)
  {
    hide SortedNames;
    Names();
    assert PATH in LOST && USER in LOST;
    AfterInLoader(LOST, PATH, USER);
    AfterInLoader(LOST, PATH, PATH);
    assert PATH[0] == 'P' && USER[0] == 'U';
    assert Inject.AtMost(PATH, USER);
  }

  /** Neither PATH itself nor, after it, USER gets its value, whether or not the loader finds its first cat. */
  lemma PathUnsafe(c: Container, names: seq<string>, image: Image, w: World)
    requires c == Sample(["run"], [], [FROM_DB], []) && "/nowhere" !in image.user.cats
    requires After(names, PATH, USER) && !After(names, PATH, PATH)
    ensures !VarsSafe(c, image, {"db"}, Db(LOST), w, names)
  {
    hide HasCat, IsName, EndsInNewline, Trimmed, KeptEnv, SecretEnv, After, LaterKept, NamesSafe;
    Texts();
    OneLiteral("", "", w);
    PlainViews(c, LOST, image, w);
    NoCatThere("/nowhere", image.user);
    assert USER[0] == 'U' && PATH[0] == 'P';
    assert PATH in LOST && USER in LOST && LOST[USER] == "root" && LOST[PATH] == "/nowhere";
  }

  /** A TSecret variable PATH that leads to no cat empties the variables after it. */
  lemma PathGiven(image: Image, w: World)
    requires "/nowhere" !in image.user.cats
    ensures Fails(Sample(["run"], [], [FROM_DB], []), {"db"}, Db(LOST), image, w)
  {
    hide Fails, IsName, VarsSafe, ProgramSafe, Simple, Supported, PodPlans, LinesOf, SortedNames, After, LoadedLines;
    var c := Sample(["run"], [], [FROM_DB], []);
    Names();
    PlainSupported(c, LOST);
    Decided(c, {"db"}, Db(LOST), image, w);
    PathComesFirst();
    forall order | IsOrder(order, PodPlans(OnePod(c), {"db"}))
      ensures !Safe(c, {"db"}, Db(LOST), order, image, w)
    {
      PlainLines(c, LOST, order);
      NamesOfLines(LOST);
      PathUnsafe(c, SortedNames(LOST), image, w);
    }
  }

  lemma NamesOfLines(vars: Env)
    ensures NamesOf(LinesOf(vars)) == SortedNames(vars)
  {
  }

  // ----- Two prefixes for one TSecret -----

  const TWICE := [SecretEnvFrom("db", "A_"), SecretEnvFrom("db", "B_")]

  lemma OneLine(n: string, v: string)
    ensures LinesOf(map[n := v]) == [Line(n, v)]
  {
    OnlyMember(SortedNames(map[n := v]), n);
  }

  lemma TwiceRefs(c: Container)
    requires c.envFrom == TWICE && c.env == []
    ensures AllRefs(OnePod(c), {"db"}) == [EnvRef("db", "A_", c.name), EnvRef("db", "B_", c.name)]
  {
    hide EnvRef;
    var tracked := {"db"};
    assert TWICE[..1] == [SecretEnvFrom("db", "A_")] && TWICE[..1][..0] == [];
    assert EnvFromRefs(TWICE[..1], c.name, tracked) == [] + [EnvRef("db", "A_", c.name)];
    assert EnvFromRefs(TWICE, c.name, tracked) == [EnvRef("db", "A_", c.name)] + [EnvRef("db", "B_", c.name)];
    assert ContainerRefs(c, tracked) == EnvFromRefs(TWICE, c.name, tracked) + [];
    assert [c][..0] == [];
    assert ContainersRefs([c], false, tracked) == [] + ContainerRefs(c, tracked);
  }

  lemma TwiceSimple(c: Container)
    requires c == Sample(["run"], [], TWICE, [])
    ensures Simple(c, {"db"}, Db(ROOT))
  {
    hide PlainSecret, IsInjectorName, IsName, SourceVars;
    Names();
    Prefixed("A_", USER, "root");
    Prefixed("B_", USER, "root");
    assert TWICE[0] in c.envFrom && EnvFromTracked(TWICE[0], {"db"});
    assert "A_" + USER == "A_USER" && "B_" + USER == "B_USER";
  }

  /** The first of two prefixes is the plan's. */
  lemma TwiceLines(c: Container, order: seq<Key>)
    requires c == Sample(["run"], [], TWICE, []) && IsOrder(order, PodPlans(OnePod(c), {"db"}))
    ensures LinesIn(c, {"db"}, Db(ROOT), order) == [Line("A_USER", "root")]
  {
    hide SourceVars, IsName, Simple, OrderedPlans, VolumeName, MountPath, AllRefs, LinesOf, Collect;
    var p := OnePod(c);
    var k := Key(VolumeName("db"), "db");
    TwiceRefs(c);
    TwiceSimple(c);
    LoadedAlone(c, {"db"}, Db(ROOT), order, "db");
    RefHasPlan(p, {"db"}, EnvRef("db", "A_", c.name));
    FirstOfTwo(EnvRef("db", "A_", c.name), EnvRef("db", "B_", c.name));
    Prefixed("A_", USER, "root");
    assert "A_" + USER == "A_USER";
    var vars := LoadedVars(p, {"db"}, order, 0, Db(ROOT));
    assert "db" in vars && vars["db"] == SourceVars(ROOT, "A_");
    AloneLines("db", vars);
    OneLine("A_USER", "root");
  }

  lemma FirstOfTwo(r: Ref, r': Ref)
    requires KeyOf(r) == KeyOf(r') && r.prefix != ""
    ensures Collect([r, r'])[KeyOf(r)].prefix == r.prefix
  {
    assert [r, r'][..1] == [r] && [r][..0] == [];
    assert Collect([r]) == AddRef(Collect([]), r);
  }

  lemma TwiceNative(c: Container, image: Image, w: World)
    requires c == Sample(["run"], [], TWICE, [])
    ensures KeptEnv(c, image, {"db"}, Db(ROOT), w) == image.env
    ensures NativeEnv(c, image, {"db"}, Db(ROOT), w) == image.env["A_USER" := "root"]["B_USER" := "root"]
  {
    hide SourceVars, SourcesEnv, KeepEnvFrom;
    Prefixed("A_", USER, "root");
    Prefixed("B_", USER, "root");
    assert "A_" + USER == "A_USER" && "B_" + USER == "B_USER";
    TwoTracked(TWICE[0], TWICE[1], {"db"}, Db(ROOT), w);
    OneLiteral("", "", w);
    assert image.env + map[] + map[] == image.env;
    assert image.env + (map["A_USER" := "root"] + map["B_USER" := "root"]) + map[]
        == image.env["A_USER" := "root"]["B_USER" := "root"];
  }

  lemma TwoTracked(e: EnvFrom, e': EnvFrom, tsecrets: set<string>, secrets: Secrets, w: World)
    requires EnvFromTracked(e, tsecrets) && e.secret in secrets
    requires EnvFromTracked(e', tsecrets) && e'.secret in secrets
    ensures KeepEnvFrom([e, e'], tsecrets) == [] && SourcesEnv([], tsecrets, secrets, w) == map[]
    ensures SourcesEnv([e, e'], tsecrets, secrets, w)
         == SourceVars(secrets[e.secret], e.prefix) + SourceVars(secrets[e'.secret], e'.prefix)
  {
    hide SourceVars;
    var vars := SourceVars(secrets[e.secret], e.prefix);
    assert [e, e'][..1] == [e] && [e][..0] == [];
    assert KeepEnvFrom([e], tsecrets) == [];
    assert SourcesEnv([e], tsecrets, secrets, w) == map[] + vars;
    assert map[] + vars == vars;
  }

  /** With a second prefix for the same TSecret, the variables under it are missing. */
  lemma PrefixLost(image: Image, w: World)
    requires "B_USER" !in image.env
    ensures var c := Sample(["run"], [], TWICE, []);
            && Fails(c, {"db"}, Db(ROOT), image, w)
            && NativeProcess(c, image, {"db"}, Db(ROOT), w)
               == Process(["run"], image.env["A_USER" := "root"]["B_USER" := "root"])
            && forall order, x :: Runs(c, {"db"}, Db(ROOT), order, image, w, x) ==> "B_USER" !in x.env
  {
    hide Runs, Simple, KeptEnv, NativeEnv, PodPlans, LinesIn, HasCat, IsName;
    var c := Sample(["run"], [], TWICE, []);
    Names();
    TwiceSimple(c);
    TwiceNative(c, image, w);
    forall order, x | Runs(c, {"db"}, Db(ROOT), order, image, w, x)
      ensures "B_USER" !in x.env
    {
      RunsInOrder(c, {"db"}, Db(ROOT), order, image, w, x);
      SimpleRuns(c, {"db"}, Db(ROOT), order, image, w, x);
      TwiceLines(c, order);
    }
    SomeRun(c, {"db"}, Db(ROOT), image, w);
    assert ["run"] + [] == ["run"];
  }

  lemma SomeRun(c: Container, tsecrets: set<string>, secrets: Secrets, image: Image, w: World)
    requires Simple(c, tsecrets, secrets)
    ensures exists order, x :: Runs(c, tsecrets, secrets, order, image, w, x)
  {
    hide Runs, Simple, PodPlans;
    SomeList(PodPlans(OnePod(c), tsecrets).Keys);
    var some :| NoDup(some) && forall k :: k in some <==> k in PodPlans(OnePod(c), tsecrets).Keys;
    assert IsOrder(some, PodPlans(OnePod(c), tsecrets));
    OneOutcome(c, tsecrets, secrets, some, image, w);
  }

  // ----- Two TSecrets with a variable in common -----

  const SHARED := [SecretEnvFrom("a", ""), SecretEnvFrom("b", "")]
  const PEOPLE: Secrets := map["a" := map[USER := "alice"], "b" := map[USER := "bob"]]

  function KeyFor(s: string): Key {
    Key(VolumeName(s), s)
  }

  lemma SharedSimple(c: Container)
    requires c == Sample(["run"], [], SHARED, [])
    ensures Simple(c, {"a", "b"}, PEOPLE)
  {
    hide PlainSecret, IsInjectorName, IsName, SourceVars;
    Names();
    Unprefixed(PEOPLE["a"]);
    Unprefixed(PEOPLE["b"]);
    assert SHARED[0] in c.envFrom && EnvFromTracked(SHARED[0], {"a", "b"});
  }

  /** One plan for each of the two, in either order. */
  lemma SharedKeys(c: Container, first: string, second: string)
    requires c == Sample(["run"], [], SHARED, []) && {first, second} == {"a", "b"} && first != second
    ensures IsOrder([KeyFor(first), KeyFor(second)], PodPlans(OnePod(c), {"a", "b"}))
  {
    hide Simple, VolumeName, MountPath, Collect;
    var p := OnePod(c);
    SharedSimple(c);
    CollectFits(AllRefs(p, {"a", "b"}));
    forall k
      ensures k in PodPlans(p, {"a", "b"}) <==> k == KeyFor("a") || k == KeyFor("b")
    {
      SharedRefs(c, k);
    }
    assert first in {"a", "b"} && second in {"a", "b"};
    assert "a" in {first, second} && "b" in {first, second};
  }

  lemma SharedRefs(c: Container, k: Key)
    requires c == Sample(["run"], [], SHARED, [])
    ensures (exists r :: r in AllRefs(OnePod(c), {"a", "b"}) && KeyOf(r) == k)
       <==> k == KeyFor("a") || k == KeyFor("b")
  {
    hide Simple, VolumeName, MountPath, AllRefs;
    SharedSimple(c);
    SimpleRef(c, {"a", "b"}, PEOPLE, EnvRef("a", "", c.name));
    SimpleRef(c, {"a", "b"}, PEOPLE, EnvRef("b", "", c.name));
    assert SHARED[0] in c.envFrom && SHARED[1] in c.envFrom;
    assert KeyOf(EnvRef("a", "", c.name)) == KeyFor("a") && KeyOf(EnvRef("b", "", c.name)) == KeyFor("b");
    forall r | r in AllRefs(OnePod(c), {"a", "b"})
      ensures KeyOf(r) == KeyFor("a") || KeyOf(r) == KeyFor("b")
    {
      SimpleRef(c, {"a", "b"}, PEOPLE, r);
    }
  }

  /** The loaders run in the order of the plans. */
  lemma SharedLines(c: Container, first: string, second: string)
    requires c == Sample(["run"], [], SHARED, []) && {first, second} == {"a", "b"} && first != second
    requires IsOrder([KeyFor(first), KeyFor(second)], PodPlans(OnePod(c), {"a", "b"}))
    ensures first in PEOPLE && second in PEOPLE && USER in PEOPLE[first] && USER in PEOPLE[second]
    ensures LinesIn(c, {"a", "b"}, PEOPLE, [KeyFor(first), KeyFor(second)])
         == [Line(USER, PEOPLE[first][USER]), Line(USER, PEOPLE[second][USER])]
  {
    hide Simple, VolumeName, MountPath, PodPlans, SourceVars, LinesOf, PlanVars;
    var order := [KeyFor(first), KeyFor(second)];
    assert first in {"a", "b"} && second in {"a", "b"};
    SharedSecrets(c, first, second);
    var vars := LoadedVars(OnePod(c), {"a", "b"}, order, 0, PEOPLE);
    SharedVars(c, order, first);
    SharedVars(c, order, second);
    var ss := [first, second];
    assert ss[1..] == [second];
    AloneLines(second, vars);
    OneLine(USER, PEOPLE[first][USER]);
    OneLine(USER, PEOPLE[second][USER]);
    assert AllLines(ss, vars) == LinesOf(vars[first]) + AllLines([second], vars);
  }

  lemma SharedSecrets(c: Container, first: string, second: string)
    requires c == Sample(["run"], [], SHARED, [])
    requires IsOrder([KeyFor(first), KeyFor(second)], PodPlans(OnePod(c), {"a", "b"}))
    ensures LoadedSecrets(OnePod(c), {"a", "b"}, [KeyFor(first), KeyFor(second)], 0) == [first, second]
  {
    hide Simple, VolumeName, MountPath, PodPlans, SourceVars;
    var p := OnePod(c);
    var order := [KeyFor(first), KeyFor(second)];
    var ps := OrderedPlans(p, {"a", "b"}, order);
    SharedSimple(c);
    assert order[0] in order && order[1] in order;
    PlanOf(p, {"a", "b"}, order[0]);
    PlanOf(p, {"a", "b"}, order[1]);
    assert ps[0] in ps && ps[1] in ps;
    SimplePlan(c, {"a", "b"}, PEOPLE, order, ps[0]);
    SimplePlan(c, {"a", "b"}, PEOPLE, order, ps[1]);
    TwoSecrets(ps, c.name);
  }

  lemma TwoSecrets(ps: seq<Plan>, name: string)
    requires |ps| == 2 && name in ps[0].users && name in ps[1].users
    ensures UserSecrets(ps, name) == [ps[0].secret, ps[1].secret]
  {
    assert ps[..1] == [ps[0]] && ps[..1][..0] == [];
    assert UserSecrets(ps[..1], name) == [] + [ps[0].secret];
  }

  lemma SharedVars(c: Container, order: seq<Key>, s: string)
    requires c == Sample(["run"], [], SHARED, []) && IsOrder(order, PodPlans(OnePod(c), {"a", "b"}))
    requires s in {"a", "b"}
    ensures var vars := LoadedVars(OnePod(c), {"a", "b"}, order, 0, PEOPLE);
            s in PEOPLE && s in vars && vars[s] == PEOPLE[s]
  {
    hide Simple, VolumeName, MountPath, PodPlans, SourceVars, AllRefs, UserSecrets, PlanFor, OrderedPlans, IsOrder;
    hide NamesFree, UniqueContainers, WellFormed, LoadsEnv, GoodNames;
    var p := OnePod(c);
    SharedSimple(c);
    SimpleNamesFree(c, {"a", "b"}, PEOPLE);
    SimpleLoading(c, {"a", "b"}, PEOPLE);
    var e := SecretEnvFrom(s, "");
    assert e == SHARED[if s == "a" then 0 else 1];
    assert e in c.envFrom && EnvFromTracked(e, {"a", "b"});
    SecretsAgree(p, {"a", "b"}, order, 0, s);
    SourcePlan(p, {"a", "b"}, order, 0, e);
    var r :| r in AllRefs(p, {"a", "b"}) && r.secret == s && r.prefix == PlanFor(p, {"a", "b"}, s).value.prefix;
    SimpleRef(c, {"a", "b"}, PEOPLE, r);
    Unprefixed(PEOPLE[s]);
  }

  lemma SharedNative(c: Container, image: Image, w: World)
    requires c == Sample(["run"], [], SHARED, [])
    ensures KeptEnv(c, image, {"a", "b"}, PEOPLE, w) == image.env
    ensures NativeEnv(c, image, {"a", "b"}, PEOPLE, w) == image.env[USER := "bob"]
  {
    hide SourceVars, SourcesEnv, KeepEnvFrom;
    Unprefixed(PEOPLE["a"]);
    Unprefixed(PEOPLE["b"]);
    TwoTracked(SHARED[0], SHARED[1], {"a", "b"}, PEOPLE, w);
    OneLiteral("", "", w);
    assert image.env + map[] + map[] == image.env;
    assert image.env + (map[USER := "alice"] + map[USER := "bob"]) + map[] == image.env[USER := "bob"];
  }

  /** Of two TSecrets with a variable in common, natively the later source wins; in the rewritten container
      the plan that happens to come last. */
  lemma WinnerVaries(image: Image, w: World)
    requires HasCat(SearchPath(image.env, image.user), image.user)
    ensures var c, kept := Sample(["run"], [], SHARED, []), StartEnv(image.env, image.user);
            && NativeProcess(c, image, {"a", "b"}, PEOPLE, w) == Process(["run"], image.env[USER := "bob"])
            && Runs(c, {"a", "b"}, PEOPLE, [KeyFor("a"), KeyFor("b")], image, w,
                    Process(["run"], kept[USER := "bob"]))
            && Runs(c, {"a", "b"}, PEOPLE, [KeyFor("b"), KeyFor("a")], image, w,
                    Process(["run"], kept[USER := "alice"]))
  {
    hide Runs, Simple, KeptEnv, NativeEnv, PodPlans, LinesIn, HasCat, IsName, StartEnv, SearchPath;
    var c := Sample(["run"], [], SHARED, []);
    Names();
    SharedSimple(c);
    SharedNative(c, image, w);
    StartSearch(image.env, image.user);
    SharedRun(c, "a", "b", image, w);
    SharedRun(c, "b", "a", image, w);
    Texts();
    assert ["run"] + [] == ["run"];
  }

  lemma SharedRun(c: Container, first: string, second: string, image: Image, w: World)
    requires c == Sample(["run"], [], SHARED, []) && {first, second} == {"a", "b"} && first != second
    requires HasCat(SearchPath(image.env, image.user), image.user)
    ensures second in PEOPLE && USER in PEOPLE[second]
    ensures Runs(c, {"a", "b"}, PEOPLE, [KeyFor(first), KeyFor(second)], image, w,
                 Process(["run"], StartEnv(image.env, image.user)[USER := Trimmed(PEOPLE[second][USER])]))
  {
    hide Runs, Simple, KeptEnv, PodPlans, LinesIn, HasCat, IsName, StartEnv, Trimmed;
    var order := [KeyFor(first), KeyFor(second)];
    var start := StartEnv(image.env, image.user);
    Names();
    SharedSimple(c);
    SharedNative(c, image, w);
    SharedKeys(c, first, second);
    SharedLines(c, first, second);
    StartSearch(image.env, image.user);
    var one, two := Line(USER, PEOPLE[first][USER]), Line(USER, PEOPLE[second][USER]);
    TwoLines(start, one, two, image.user);
    assert ["run"] + [] == ["run"];
    SimpleRuns(c, {"a", "b"}, PEOPLE, order, image, w,
               Process(["run"], start[USER := Trimmed(PEOPLE[second][USER])]));
  }

  lemma TwoLines(env: Env, one: Line, two: Line, user: Userland)
    requires one.name == two.name != PATH && HasCat(SearchPath(env, user), user)
    ensures LoadLines(env, [one, two], user) == env[two.name := Trimmed(two.value)]
  {
    hide HasCat, Trimmed;
    var ls := [one, two];
    assert ls[1..] == [two] && [two][1..] == [];
    var mid := LoadLine(env, one, user);
    assert LoadLines(env, ls, user) == LoadLines(mid, [two], user);
    assert LoadLines(mid, [two], user) == LoadLines(LoadLine(mid, two, user), [], user);
  }
}
