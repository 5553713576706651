/** One admission from end to end, in plain text: the pod as it comes in and the pod as it goes out. */
module MutateExample {
  import opened Common
  import opened Pods
  import opened Mutate
  import opened MutatePlans
  import ShellText

  function Before(): Pod {
    Pod(map["tsecret.io/export-env" := "True"], None, [],
        [Container("app", "image", ["run"], ["it's"], [SecretEnvFrom("db", "DB_"), OtherEnvFrom("settings")],
                   [PlainEnv("MODE", "x")], [], "ports")],
        [])
  }

  function After(): Pod {
    Pod(map["tsecret.io/export-env" := "True"], Some(65532),
        [Volume("tsecret-db", MemoryDir)],
        [Container("app", "image", ["/bin/sh", "-c"],
                   ["set -a; " + (". /var/run/tsecret/db/load-env.sh; " + "set +a; exec 'run' 'it'\"'\"'s'")],
                   [OtherEnvFrom("settings")], [PlainEnv("MODE", "x")],
                   [Mount("tsecret-db", "/var/run/tsecret/db", true)], "ports")],
        [Container("tsecret-init-tsecret-db", "injector", ["/tsecret-inject"],
                   ["--secret=db", "--mount=/var/run/tsecret/db", "--namespace=prod", "--prefix=DB_", "--export-env"],
                   [], [], [Mount("tsecret-db", "/var/run/tsecret/db", false)],
                   "IfNotPresent,noEscalation,readOnlyRoot,nonRoot,dropALL")])
  }

  const DB := Key("tsecret-db", "db")
  const PLAN := Plan("db", "tsecret-db", "/var/run/tsecret/db", "DB_", false, {"app"})

  lemma Texts()
    ensures VolumeName("db") == "tsecret-db" && MountPath("db") == "/var/run/tsecret/db"
    ensures InitName("tsecret-db") == "tsecret-init-tsecret-db"
    ensures LoaderPath("/var/run/tsecret/db") == "/var/run/tsecret/db/load-env.sh"
  {
    assert MOUNT_ROOT + "/" + "db" == "/var/run/tsecret/db";
    assert "/var/run/tsecret/db" + "/" + LOADER == "/var/run/tsecret/db/load-env.sh";
  }

  const REF := Ref("tsecret-db", "db", "/var/run/tsecret/db", "DB_", {"app"})

  lemma EnvReferences()
    ensures EnvFromRefs(Before().containers[0].envFrom, "app", {"db"}) == [REF]
    ensures EnvRefs(Before().containers[0].env, "app", {"db"}) == []
  {
    Texts();
    var c := Before().containers[0];
    assert c.envFrom[..1] == [SecretEnvFrom("db", "DB_")] && c.envFrom[..1][..0] == [] && c.env[..0] == [];
    assert EnvFromRefs(c.envFrom[..1], "app", {"db"}) == [] + [REF];
    assert EnvFromRefs(c.envFrom, "app", {"db"}) == [REF] + [];
    assert EnvRefs(c.env, "app", {"db"}) == [] + [];
  }

  lemma References()
    ensures AllRefs(Before(), {"db"}) == [REF]
  {
    hide EnvFromRefs, EnvRefs;
    EnvReferences();
    var c := Before().containers[0];
    assert ContainerRefs(c, {"db"}) == [REF] + [];
    assert [c][..0] == [];
    assert ContainersRefs([c], false, {"db"}) == [] + [REF];
    assert ([] + [REF]) + [] == [REF];
  }

  lemma Plans()
    ensures PodPlans(Before(), {"db"}) == map[DB := PLAN] && IsOrder([DB], PodPlans(Before(), {"db"}))
  {
    hide AllRefs;
    References();
    assert [REF][..0] == [];
    assert Collect([]) == map[];
    assert Collect([REF]) == AddRef(map[], REF);
    assert {} + {"app"} == {"app"};
    assert KeyOf(REF) == DB && AddRef(map[], REF) == map[DB := PLAN];
  }

  /** What is left of the container when its reference is gone. */
  lemma Stripped()
    ensures Strip(Before(), {"db"})
         == Before().(containers := [Before().containers[0].(envFrom := [OtherEnvFrom("settings")])])
  {
    var c := Before().containers[0];
    assert c.envFrom[..1] == [SecretEnvFrom("db", "DB_")] && c.envFrom[..1][..0] == [] && c.env[..0] == [];
    assert KeepEnvFrom(c.envFrom[..1], {"db"}) == [];
    assert KeepEnvFrom(c.envFrom, {"db"}) == [] + [OtherEnvFrom("settings")];
    assert KeepEnv(c.env, {"db"}) == [] + [PlainEnv("MODE", "x")];
    assert StripContainer(c, {"db"}) == c.(envFrom := [OtherEnvFrom("settings")]);
  }

  lemma Exports()
    ensures ExportEnabled(Before().annotations, "app") && PlanExports(Before().annotations, PLAN)
    ensures "tsecret.io/entrypoint.app" !in Before().annotations && "tsecret.io/entrypoint" !in Before().annotations
  {
    assert |EXPORT_ENV + "." + "app"| > |EXPORT_ENV|;
    assert ExportEnabled(Before().annotations, "app");
    assert EXPORT_ENV[12] == 'x' && "tsecret.io/entrypoint.app"[12] == 'n' && "tsecret.io/entrypoint"[12] == 'n';
  }

  lemma Args()
    ensures InjectorArgs(PLAN.(exportEnv := true), "prod")
         == ["--secret=db", "--mount=/var/run/tsecret/db", "--namespace=prod", "--prefix=DB_", "--export-env"]
  {
    assert "--mount=" + "/var/run/tsecret/db" == "--mount=/var/run/tsecret/db";
    assert "--secret=" + "db" == "--secret=db" && "--namespace=" + "prod" == "--namespace=prod";
    assert "--prefix=" + "DB_" == "--prefix=DB_";
  }

  /** The pod after the plan, before wrapping. */
  function Replayed(): Pod {
    var c := Before().containers[0];
    After().(containers := [c.(envFrom := [OtherEnvFrom("settings")],
                               mounts := [Mount("tsecret-db", "/var/run/tsecret/db", true)])])
  }

  /** The pod with volume and injector. */
  function Prepared(): Pod {
    Replayed().(containers := [Before().containers[0].(envFrom := [OtherEnvFrom("settings")])])
  }

  lemma Ensured()
    ensures EnsureInit(EnsureVolume(EnsureFsGroup(Strip(Before(), {"db"})), "tsecret-db"),
                       PLAN.(exportEnv := true), "injector", "prod") == Prepared()
  {
    hide InjectorArgs;
    Texts();
    Stripped();
    Args();
  }

  lemma Mounted()
    ensures MountAll(Prepared(), {"app"}, "tsecret-db", "/var/run/tsecret/db") == Replayed()
  {
    var p := Prepared();
    var cs := MountContainers(p.containers, [], {"app"}, "tsecret-db", "/var/run/tsecret/db");
    assert IsFirst(p.containers, 0) && p.containers[0].name == "app";
    assert cs[0] == Replayed().containers[0];
    assert p.inits[0].name[0] == 't' && "app"[0] == 'a';
    assert MountContainers(p.inits, p.containers, {"app"}, "tsecret-db", "/var/run/tsecret/db")[0] == p.inits[0];
  }

  lemma Stepped()
    ensures Step(Progress(Strip(Before(), {"db"}), map[]), PLAN, "injector", "prod")
         == Progress(Replayed(), map["app" := ["/var/run/tsecret/db/load-env.sh"]])
  {
    hide EnsureInit, EnsureVolume, EnsureFsGroup, MountAll, Strip, ExportEnabled, PlanExports;
    Texts();
    Exports();
    Ensured();
    Mounted();
    assert Strip(Before(), {"db"}).annotations == Before().annotations by {
      Stripped();
    }
    assert Flagged(Before().annotations, PLAN) == PLAN.(exportEnv := true);
    FirstLoader(Before().annotations, "app", LoaderPath("/var/run/tsecret/db"));
  }

  lemma FirstLoader(annotations: map<string, string>, name: string, path: string)
    requires ExportEnabled(annotations, name)
    ensures AddLoaders(map[], annotations, {name}, path) == map[name := [path]]
  {
    var loaders := AddLoaders(map[], annotations, {name}, path);
    assert [] + [path] == [path];
    assert name in loaders && loaders[name] == [path];
    assert forall n :: n in loaders ==> n == name;
  }

  lemma Quoted()
    ensures ShellText.ShellJoin(["run", "it's"]) == "'run' 'it'\"'\"'s'"
  {
    assert ShellText.Escape("un") == "un" by {
      assert "un"[1..] == "n" && "n"[1..] == "";
    }
    assert "run"[1..] == "un";
    assert "it's"[1..] == "t's" && "t's"[1..] == "'s" && "'s"[1..] == "s" && "s"[1..] == "";
    assert ShellText.Escape("s") == "s";
    assert ShellText.Escape("'s") == "'\"'\"'" + "s";
    assert ShellText.Escape("t's") == "t" + ("'\"'\"'" + "s");
    var q := ShellText.QuoteAll(["run", "it's"]);
    assert q[1..] == [ShellText.Quote("it's")];
  }

  lemma Script()
    ensures ShellText.WrapText(["/var/run/tsecret/db/load-env.sh"], "'run' 'it'\"'\"'s'")
         == "set -a; " + (". /var/run/tsecret/db/load-env.sh; " + "set +a; exec 'run' 'it'\"'\"'s'")
  {
    assert ["/var/run/tsecret/db/load-env.sh"][1..] == [];
    assert ShellText.Sources([]) == "";
    assert ". " + ("/var/run/tsecret/db/load-env.sh" + ("; " + "")) == ". /var/run/tsecret/db/load-env.sh; ";
    assert "set +a; exec " + "'run' 'it'\"'\"'s'" == "set +a; exec 'run' 'it'\"'\"'s'";
  }

  lemma Entrypoint(c: Container)
    requires c.name == "app" && c.command == ["run"] && c.args == ["it's"]
    ensures ResolveEntrypoint(Before().annotations, c) == Some("'run' 'it'\"'\"'s'") && !AlreadyWrapped(c)
  {
    Exports();
    Quoted();
    assert ENTRYPOINT + "." + "app" == "tsecret.io/entrypoint.app";
    assert ["run"] + ["it's"] == ["run", "it's"];
    assert forall i :: 0 <= i <= |"it's"| ==> |"it's"[i..]| < |LOADER|;
  }

  lemma WrappedUp()
    ensures Finish(Progress(Replayed(), map["app" := ["/var/run/tsecret/db/load-env.sh"]])) == Allowed(After())
  {
    hide ResolveEntrypoint, AlreadyWrapped;
    var p, loaders := Replayed(), map["app" := ["/var/run/tsecret/db/load-env.sh"]];
    var c := p.containers[0];
    Entrypoint(c);
    Script();
    assert p.inits[0].name[0] == 't' && "app"[0] == 'a';
    assert !LacksEntrypoint(p, "app");
    assert IsFirst(p.containers, 0);
    assert WrapContainers(p.containers, [], loaders, p.annotations)[0] == After().containers[0];
    assert WrapContainers(p.inits, p.containers, loaders, p.annotations)[0] == p.inits[0];
    assert WrapAll(p, loaders) == After();
  }

  /** The admission. */
  lemma Admission()
    ensures IsOrder([DB], PodPlans(Before(), {"db"}))
    ensures Handle(Before(), {"db"}, "injector", "prod", [DB]) == Allowed(After())
  {
    hide Step, Finish, Strip, PodPlans;
    Plans();
    Stepped();
    WrappedUp();
    var plans := PodPlans(Before(), {"db"});
    assert DB in plans && plans != map[];
    assert PlansInOrder(plans, [DB]) == [PLAN];
    var s0 := Progress(Strip(Before(), {"db"}), map[]);
    assert [PLAN][..0] == [];
    assert Run(s0, [], "injector", "prod") == s0;
    assert Run(s0, [PLAN], "injector", "prod") == Step(s0, PLAN, "injector", "prod");
  }
}
