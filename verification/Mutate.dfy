/** pkg/webhook/mutate.go as functions on pod values. The methods in module MutateMethods are
    proved against these; the properties are proved about these. */
module Mutate {
  import opened Common
  import opened Pods
  import ShellText

  const MOUNT_ROOT := "/var/run/tsecret"
  const INIT_PREFIX := "tsecret-init-"
  const EXPORT_ENV := "tsecret.io/export-env"
  const ENTRYPOINT := "tsecret.io/entrypoint"
  const LOADER := "load-env.sh"
  const FS_GROUP := 65532

  function VolumeName(secret: string): string {
    "tsecret-" + secret
  }

  function MountPath(secret: string): string {
    MOUNT_ROOT + "/" + secret
  }

  function InitName(volume: string): string {
    INIT_PREFIX + volume
  }

  predicate IsInjectorName(name: string) {
    INIT_PREFIX <= name
  }

  // ----- References and plans -----

  /** One use of a TSecret found in the pod: what the collector passes to getPlan, and the
      containers it then adds to the plan. */
  datatype Ref = Ref(volume: string, secret: string, mountPath: string, prefix: string, users: set<string>)

  datatype Key = Key(volume: string, secret: string)

  datatype Plan = Plan(
    secret: string,
    volume: string,
    mountPath: string,
    prefix: string,
    exportEnv: bool,
    users: set<string>)

  type Plans = map<Key, Plan>

  function KeyOf(r: Ref): Key {
    Key(r.volume, r.secret)
  }

  /** getPlan followed by adding the users. */
  function AddRef(plans: Plans, r: Ref): Plans {
    var plan := if KeyOf(r) in plans then plans[KeyOf(r)]
                else Plan(r.secret, r.volume, r.mountPath, r.prefix, false, {});
    plans[KeyOf(r) := plan.(
            prefix := if r.prefix != "" && plan.prefix == "" then r.prefix else plan.prefix,
            mountPath := if plan.mountPath == "" then r.mountPath else plan.mountPath,
            users := plan.users + r.users)]
  }

  function Collect(refs: seq<Ref>): Plans {
    if refs == [] then map[]
    else AddRef(Collect(refs[..|refs| - 1]), refs[|refs| - 1])
  }

  /** The path of the first usable mount of the volume in one container. */
  function FirstMountPath(ms: seq<Mount>, volume: string): Option<string> {
    if ms == [] then None
    else if ms[0].name == volume && ms[0].mountPath != "" then Some(ms[0].mountPath)
    else FirstMountPath(ms[1..], volume)
  }

  /** The last container that mounts the volume decides. */
  function VolumePath(cs: seq<Container>, volume: string, default: string): string {
    if cs == [] then default
    else
      match FirstMountPath(cs[|cs| - 1].mounts, volume)
      case Some(path) => path
      case None => VolumePath(cs[..|cs| - 1], volume, default)
  }

  function MountUsers(cs: seq<Container>, volume: string): set<string> {
    set i | 0 <= i < |cs| && HasMount(cs[i].mounts, volume) :: cs[i].name
  }

  predicate VolumeTracked(v: Volume, tsecrets: set<string>) {
    v.source.SecretSource? && v.source.secretName in tsecrets
  }

  function VolumeRef(v: Volume, cs: seq<Container>): Ref
    requires v.source.SecretSource?
  {
    var secret := v.source.secretName;
    Ref(v.name, secret, VolumePath(cs, v.name, MountPath(secret)), "", MountUsers(cs, v.name))
  }

  function VolumeRefs(vs: seq<Volume>, cs: seq<Container>, tsecrets: set<string>): seq<Ref> {
    if vs == [] then []
    else
      var v := vs[|vs| - 1];
      VolumeRefs(vs[..|vs| - 1], cs, tsecrets)
      + (if VolumeTracked(v, tsecrets) then [VolumeRef(v, cs)] else [])
  }

  function EnvRef(secret: string, prefix: string, user: string): Ref {
    Ref(VolumeName(secret), secret, MountPath(secret), prefix, {user})
  }

  predicate EnvFromTracked(e: EnvFrom, tsecrets: set<string>) {
    e.SecretEnvFrom? && e.secret in tsecrets
  }

  predicate EnvTracked(e: EnvVar, tsecrets: set<string>) {
    e.SecretKeyEnv? && e.secret in tsecrets
  }

  function EnvFromRefs(es: seq<EnvFrom>, user: string, tsecrets: set<string>): seq<Ref> {
    if es == [] then []
    else
      var e := es[|es| - 1];
      EnvFromRefs(es[..|es| - 1], user, tsecrets)
      + (if EnvFromTracked(e, tsecrets) then [EnvRef(e.secret, e.prefix, user)] else [])
  }

  function EnvRefs(es: seq<EnvVar>, user: string, tsecrets: set<string>): seq<Ref> {
    if es == [] then []
    else
      var e := es[|es| - 1];
      EnvRefs(es[..|es| - 1], user, tsecrets)
      + (if EnvTracked(e, tsecrets) then [EnvRef(e.secret, "", user)] else [])
  }

  function ContainerRefs(c: Container, tsecrets: set<string>): seq<Ref> {
    EnvFromRefs(c.envFrom, c.name, tsecrets) + EnvRefs(c.env, c.name, tsecrets)
  }

  /** With skip, containers with the injector's name prefix are passed over. */
  function ContainersRefs(cs: seq<Container>, skip: bool, tsecrets: set<string>): seq<Ref> {
    if cs == [] then []
    else
      var c := cs[|cs| - 1];
      ContainersRefs(cs[..|cs| - 1], skip, tsecrets)
      + (if skip && IsInjectorName(c.name) then [] else ContainerRefs(c, tsecrets))
  }

  function AllRefs(p: Pod, tsecrets: set<string>): seq<Ref> {
    VolumeRefs(p.volumes, p.containers, tsecrets)
    + ContainersRefs(p.containers, false, tsecrets)
    + ContainersRefs(p.inits, true, tsecrets)
  }

  // ----- Taking the references out of the pod -----

  function StripVolume(v: Volume, tsecrets: set<string>): Volume {
    if VolumeTracked(v, tsecrets) then v.(source := MemoryDir) else v
  }

  function StripVolumes(vs: seq<Volume>, tsecrets: set<string>): (r: seq<Volume>)
    ensures |r| == |vs|
    ensures forall i :: 0 <= i < |vs| ==> r[i] == StripVolume(vs[i], tsecrets)
  {
    seq(|vs|, i requires 0 <= i < |vs| => StripVolume(vs[i], tsecrets))
  }

  function KeepEnvFrom(es: seq<EnvFrom>, tsecrets: set<string>): seq<EnvFrom> {
    if es == [] then []
    else
      var e := es[|es| - 1];
      KeepEnvFrom(es[..|es| - 1], tsecrets) + (if EnvFromTracked(e, tsecrets) then [] else [e])
  }

  function KeepEnv(es: seq<EnvVar>, tsecrets: set<string>): seq<EnvVar> {
    if es == [] then []
    else
      var e := es[|es| - 1];
      KeepEnv(es[..|es| - 1], tsecrets) + (if EnvTracked(e, tsecrets) then [] else [e])
  }

  function StripContainer(c: Container, tsecrets: set<string>): Container {
    c.(envFrom := KeepEnvFrom(c.envFrom, tsecrets), env := KeepEnv(c.env, tsecrets))
  }

  function StripOne(c: Container, skip: bool, tsecrets: set<string>): Container {
    if skip && IsInjectorName(c.name) then c else StripContainer(c, tsecrets)
  }

  function StripContainers(cs: seq<Container>, skip: bool, tsecrets: set<string>): (r: seq<Container>)
    ensures |r| == |cs|
    ensures forall i :: 0 <= i < |cs| ==> r[i] == StripOne(cs[i], skip, tsecrets)
  {
    seq(|cs|, i requires 0 <= i < |cs| => StripOne(cs[i], skip, tsecrets))
  }

  function Strip(p: Pod, tsecrets: set<string>): Pod {
    p.(volumes := StripVolumes(p.volumes, tsecrets),
       containers := StripContainers(p.containers, false, tsecrets),
       inits := StripContainers(p.inits, true, tsecrets))
  }

  // ----- Replaying one plan -----

  function EnsureFsGroup(p: Pod): Pod {
    if p.fsGroup.None? then p.(fsGroup := Some(FS_GROUP)) else p
  }

  function EnsureVolume(p: Pod, volume: string): Pod {
    if HasVolume(p.volumes, volume) then p
    else p.(volumes := p.volumes + [Volume(volume, MemoryDir)])
  }

  function InjectorArgs(plan: Plan, namespace: string): seq<string> {
    ["--secret=" + plan.secret, "--mount=" + plan.mountPath, "--namespace=" + namespace]
    + (if plan.prefix != "" then ["--prefix=" + plan.prefix] else [])
    + (if plan.exportEnv then ["--export-env"] else [])
  }

  /** The remaining fields of an injector: pull policy IfNotPresent, no privilege escalation,
      read-only root, non-root user, all capabilities dropped. */
  const INJECTOR_REST := "IfNotPresent,noEscalation,readOnlyRoot,nonRoot,dropALL"

  const INJECT_COMMAND := ["/tsecret-inject"]

  function Injector(plan: Plan, image: string, namespace: string): (c: Container)
    ensures c.name == InitName(plan.volume)
  {
    Container(InitName(plan.volume), image, INJECT_COMMAND, InjectorArgs(plan, namespace), [], [],
              [Mount(plan.volume, plan.mountPath, false)], INJECTOR_REST)
  }

  function EnsureInit(p: Pod, plan: Plan, image: string, namespace: string): Pod {
    if HasContainer(p.inits, InitName(plan.volume)) then p
    else p.(inits := p.inits + [Injector(plan, image, namespace)])
  }

  function AddMount(c: Container, volume: string, path: string): Container {
    if HasMount(c.mounts, volume) then c
    else c.(mounts := c.mounts + [Mount(volume, path, true)])
  }

  /** Containers are searched before init containers, and the first match is changed. */
  function MountContainers(cs: seq<Container>, shadow: seq<Container>, users: set<string>,
                           volume: string, path: string): (r: seq<Container>)
    ensures |r| == |cs|
    ensures forall i :: 0 <= i < |cs| ==>
              r[i] == if cs[i].name in users && IsFirst(cs, i) && !HasContainer(shadow, cs[i].name)
                      then AddMount(cs[i], volume, path) else cs[i]
  {
    seq(|cs|, i requires 0 <= i < |cs| =>
          if cs[i].name in users && IsFirst(cs, i) && !HasContainer(shadow, cs[i].name)
          then AddMount(cs[i], volume, path) else cs[i])
  }

  function MountAll(p: Pod, users: set<string>, volume: string, path: string): Pod {
    p.(containers := MountContainers(p.containers, [], users, volume, path),
       inits := MountContainers(p.inits, p.containers, users, volume, path))
  }

  // ----- Which containers load their environment -----

  /** strings.EqualFold(v, "true"). */
  predicate IsTrue(v: string) {
    && |v| == 4
    && (v[0] == 't' || v[0] == 'T')
    && (v[1] == 'r' || v[1] == 'R')
    && (v[2] == 'u' || v[2] == 'U')
    && (v[3] == 'e' || v[3] == 'E')
  }

  predicate ExportEnabled(annotations: map<string, string>, container: string) {
    var own := EXPORT_ENV + "." + container;
    if own in annotations then IsTrue(annotations[own])
    else EXPORT_ENV in annotations && IsTrue(annotations[EXPORT_ENV])
  }

  predicate PlanExports(annotations: map<string, string>, plan: Plan) {
    exists n :: n in plan.users && ExportEnabled(annotations, n)
  }

  function AppendUnique(items: seq<string>, value: string): seq<string> {
    if value in items then items else items + [value]
  }

  type Loaders = map<string, seq<string>>

  function LoaderPath(mountPath: string): string {
    mountPath + "/" + LOADER
  }

  function LoadersOf(loaders: Loaders, container: string): seq<string> {
    if container in loaders then loaders[container] else []
  }

  function AddLoaders(loaders: Loaders, annotations: map<string, string>, users: set<string>, path: string): Loaders {
    map n | n in loaders.Keys + users && (n in loaders || ExportEnabled(annotations, n)) ::
      if n in users && ExportEnabled(annotations, n) then AppendUnique(LoadersOf(loaders, n), path)
      else LoadersOf(loaders, n)
  }

  // ----- The loop over the plans -----

  /** The plan as the loop uses it, with the export flag set if a user has the annotation. */
  function Flagged(annotations: map<string, string>, plan: Plan): Plan {
    plan.(exportEnv := plan.exportEnv || PlanExports(annotations, plan))
  }

  datatype Progress = Progress(pod: Pod, loaders: Loaders)

  function Step(s: Progress, plan: Plan, image: string, namespace: string): Progress {
    var annotations := s.pod.annotations;
    var pod := EnsureInit(EnsureVolume(EnsureFsGroup(s.pod), plan.volume),
                          Flagged(annotations, plan), image, namespace);
    Progress(MountAll(pod, plan.users, plan.volume, plan.mountPath),
             AddLoaders(s.loaders, annotations, plan.users, LoaderPath(plan.mountPath)))
  }

  function Run(s: Progress, plans: seq<Plan>, image: string, namespace: string): Progress {
    if plans == [] then s
    else Step(Run(s, plans[..|plans| - 1], image, namespace), plans[|plans| - 1], image, namespace)
  }

  // ----- Wrapping the entrypoints -----

  /** unicode.IsSpace. */
  predicate IsSpace(c: char) {
    var i := c as int;
    || 0x09 <= i <= 0x0d || i == 0x20 || i == 0x85 || i == 0xa0 || i == 0x1680
    || 0x2000 <= i <= 0x200a || i == 0x2028 || i == 0x2029 || i == 0x202f || i == 0x205f || i == 0x3000
  }

  predicate IsBlankText(v: string) {
    forall c :: c in v ==> IsSpace(c)
  }

  function Annotated(annotations: map<string, string>, key: string): Option<string> {
    if key in annotations && !IsBlankText(annotations[key]) then Some(annotations[key]) else None
  }

  function ResolveEntrypoint(annotations: map<string, string>, c: Container): Option<string> {
    match (Annotated(annotations, ENTRYPOINT + "." + c.name), Annotated(annotations, ENTRYPOINT))
    case (Some(v), _) => Some(v)
    case (None, Some(v)) => Some(v)
    case (None, None) =>
      if |c.command| > 0 || |c.args| > 0 then Some(ShellText.ShellJoin(c.command + c.args)) else None
  }

  predicate Contains(s: string, sub: string) {
    exists i :: 0 <= i <= |s| && sub <= s[i..]
  }

  predicate AlreadyWrapped(c: Container) {
    |c.args| > 0 && Contains(c.args[0], LOADER)
  }

  const SHELL_COMMAND := ["/bin/sh", "-c"]

  function Wrap(c: Container, loaders: seq<string>, entrypoint: string): Container {
    if AlreadyWrapped(c) then c
    else c.(command := SHELL_COMMAND, args := [ShellText.WrapText(loaders, entrypoint)])
  }

  function WrapFound(c: Container, loaders: Loaders, annotations: map<string, string>): Container
    requires c.name in loaders
  {
    match ResolveEntrypoint(annotations, c)
    case Some(e) => Wrap(c, loaders[c.name], e)
    case None => c
  }

  function WrapContainers(cs: seq<Container>, shadow: seq<Container>, loaders: Loaders,
                          annotations: map<string, string>): (r: seq<Container>)
    ensures |r| == |cs|
    ensures forall i :: 0 <= i < |cs| ==>
              r[i] == if cs[i].name in loaders && IsFirst(cs, i) && !HasContainer(shadow, cs[i].name)
                      then WrapFound(cs[i], loaders, annotations) else cs[i]
  {
    seq(|cs|, i requires 0 <= i < |cs| =>
          if cs[i].name in loaders && IsFirst(cs, i) && !HasContainer(shadow, cs[i].name)
          then WrapFound(cs[i], loaders, annotations) else cs[i])
  }

  function WrapAll(p: Pod, loaders: Loaders): Pod {
    p.(containers := WrapContainers(p.containers, [], loaders, p.annotations),
       inits := WrapContainers(p.inits, p.containers, loaders, p.annotations))
  }

  /** True if the named container is found and has no entrypoint. */
  predicate LacksEntrypoint(p: Pod, name: string) {
    || (exists i :: 0 <= i < |p.containers| && p.containers[i].name == name && IsFirst(p.containers, i)
                    && ResolveEntrypoint(p.annotations, p.containers[i]).None?)
    || (!HasContainer(p.containers, name)
        && exists i :: 0 <= i < |p.inits| && p.inits[i].name == name && IsFirst(p.inits, i)
                       && ResolveEntrypoint(p.annotations, p.inits[i]).None?)
  }

  datatype Verdict = Denied | Allowed(pod: Pod)

  function Finish(s: Progress): Verdict {
    if exists n :: n in s.loaders && LacksEntrypoint(s.pod, n) then Denied
    else Allowed(WrapAll(s.pod, s.loaders))
  }

  // ----- The whole handler -----

  /** An order in which the map of plans may be iterated. */
  ghost predicate IsOrder(order: seq<Key>, plans: Plans) {
    NoDup(order) && forall k :: k in order <==> k in plans
  }

  function PlansInOrder(plans: Plans, order: seq<Key>): (r: seq<Plan>)
    requires forall k :: k in order ==> k in plans
    ensures |r| == |order|
    ensures forall i :: 0 <= i < |r| ==> r[i] == plans[order[i]]
  {
    seq(|order|, i requires 0 <= i < |order| => plans[order[i]])
  }

  function PodPlans(p: Pod, tsecrets: set<string>): Plans {
    Collect(AllRefs(p, tsecrets))
  }

  function Replay(p: Pod, tsecrets: set<string>, plans: seq<Plan>, image: string, namespace: string): Progress {
    Run(Progress(Strip(p, tsecrets), map[]), plans, image, namespace)
  }

  ghost function Handle(p: Pod, tsecrets: set<string>, image: string, namespace: string, order: seq<Key>): Verdict
    requires IsOrder(order, PodPlans(p, tsecrets))
  {
    var plans := PodPlans(p, tsecrets);
    if plans == map[] then Allowed(p)
    else Finish(Replay(p, tsecrets, PlansInOrder(plans, order), image, namespace))
  }
}
