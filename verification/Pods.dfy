/** The parts of a pod that the webhook reads or writes. Everything else a container carries is
    one opaque text that only has to stay as it is. */
module Pods {
  import opened Common

  datatype VolumeSource = SecretSource(secretName: string) | MemoryDir | OtherSource(text: string)

  datatype Volume = Volume(name: string, source: VolumeSource)

  datatype Mount = Mount(name: string, mountPath: string, readOnly: bool)

  datatype EnvFrom = SecretEnvFrom(secret: string, prefix: string) | OtherEnvFrom(text: string)

  datatype EnvVar =
    | PlainEnv(name: string, value: string)
    | SecretKeyEnv(name: string, secret: string, key: string)
    | OtherEnv(name: string, text: string)

  datatype Container = Container(
    name: string,
    image: string,
    command: seq<string>,
    args: seq<string>,
    envFrom: seq<EnvFrom>,
    env: seq<EnvVar>,
    mounts: seq<Mount>,
    rest: string)

  datatype Pod = Pod(
    annotations: map<string, string>,
    fsGroup: Option<int>,
    volumes: seq<Volume>,
    containers: seq<Container>,
    inits: seq<Container>)

  /** True if no earlier element has the name of element i: the one a search by name finds. */
  predicate IsFirst(cs: seq<Container>, i: nat)
    requires i < |cs|
  {
    forall j :: 0 <= j < i ==> cs[j].name != cs[i].name
  }

  predicate HasContainer(cs: seq<Container>, name: string) {
    exists i :: 0 <= i < |cs| && cs[i].name == name
  }

  predicate HasVolume(vs: seq<Volume>, name: string) {
    exists i :: 0 <= i < |vs| && vs[i].name == name
  }

  predicate HasMount(ms: seq<Mount>, volume: string) {
    exists i :: 0 <= i < |ms| && ms[i].name == volume
  }

  ghost predicate UniqueVolumes(p: Pod) {
    forall i, j :: 0 <= i < j < |p.volumes| ==> p.volumes[i].name != p.volumes[j].name
  }

  /** Kubernetes demands that names are unique over containers and init containers together. */
  ghost predicate UniqueContainers(p: Pod) {
    && (forall i :: 0 <= i < |p.containers| ==> IsFirst(p.containers, i))
    && (forall i :: 0 <= i < |p.inits| ==>
          IsFirst(p.inits, i) && !HasContainer(p.containers, p.inits[i].name))
  }

  ghost predicate MountsDeclared(cs: seq<Container>, vs: seq<Volume>) {
    forall i, j :: 0 <= i < |cs| && 0 <= j < |cs[i].mounts| ==> HasVolume(vs, cs[i].mounts[j].name)
  }

  /** What the API server requires of a pod: distinct volumes, and mounts of declared volumes only. */
  ghost predicate WellFormed(p: Pod) {
    && UniqueVolumes(p)
    && MountsDeclared(p.containers, p.volumes)
    && MountsDeclared(p.inits, p.volumes)
  }
}
