# TSecret, verified

A Dafny model of the parts of TSecret in which a mistake would be hard to see: the admission webhook that
rewrites pods, the shell text it and the injector print, the encrypted wire format, the pipeline from a
secret provider to files in a pod, and the protocol by which operator replicas share one certificate
authority. `dafny verify dfyconfig.toml` checks everything.

## How the model is laid out

The pod rewrite. `Pods` holds the pod, `Mutate` the handler as functions on pod values, `MutateMethods` the
handler as the program has it: a class whose methods change a pod object in place while they walk maps in an
arbitrary order, proved against those functions. The order in which the map of plans is walked is a parameter
of `Handle`; the orders inside one plan and among the wrapped containers are shown not to matter by the
methods themselves. The other `Mutate...` modules prove what holds for every pod and every order: what stays
(`MutateFrame`, `MutateKept`, `MutateRenamed`), what appears (`MutateClosed`, `MutateAppend`, `MutatePlans`,
`MutateCoverage`, `MutateLoaders`), what is run (`MutateWrap`), when the order is invisible (`MutateConfluence`, and
`MutateDivergence` for the converse), and what a second admission does (`MutateStaged`). `MutateExample` has one
admission in full.

Shell text. `Shell` reads and runs the fragment of the POSIX shell language that occurs, after sections 2.2.2,
2.2.3, 2.3 and 2.6.3 of the Shell Command Language volume of POSIX.1-2017; `ShellText` prints it and proves that
reading undoes printing. `EnvMeaning` and `EnvPreserved` put rewrite, injector and shell together and say in what
environment a rewritten container starts its program; `EnvNative` compares that with what Kubernetes would have
started from the container as it was written; `EnvRuns` shows that pods can get that far, and `EnvCases` has an
admitted pod for each way to differ.

The pipeline. `Base64` and `Crypto` make the wire format concrete, down to the characters; only the two ciphers
are abstract, with the law that opening undoes sealing (`Lawful`, after section 2.8 of RFC 8439); `Crypto.LawsCanBeMet`
has ciphers that obey it. `KeyResolver`, `Inject` and `InjectFlags` model key lookup and the injector; `Sync`,
`SyncReconcile` and `SyncProtocol` the sync reconciler, alone and as many interleaved reconciles over versioned
objects; `SyncTrace` reads off the steps what each reconcile was given and compares stored targets with that, and
`SyncLone` ties a reconcile made of steps to one on its own; `Conditions` has the condition list and the validation.

Certificates. `Certs` models one run with its clock readings; `CertProtocol` any number of runs interleaved at
every client call, and `CertTrace` says what finished runs have done.

## What the code needs, and where it falls short

Some properties hold only under conditions, and the conditions are proved exact where they could be.

- Confluence needs different TSecrets to use different volumes: plans are keyed by volume and secret, but
  injectors by volume alone (`MutateDivergence.ConfluentIff`).
- The loader path is spliced into the script without quotes, so it must be a plain word (`Shell.UnquotedIff`).
- One secret has one prefix across the pod; a second one is lost (`MutatePlans.FirstWins`, `EnvCases.PrefixLost`).
  The name of a `secretKeyRef` variable is lost (`MutateRenamed.VariableNameForgotten`). Of two TSecrets with a variable
  in common, the one whose plan comes last wins, and that is left to chance (`EnvCases.WinnerVaries`).
- A wrapped container needs `/bin/sh` and `cat` in its image, the latter along the PATH that the container has, and
  that its TSecrets give it. Where it is not found, TSecret variables end up empty (`EnvCases.NoCatFound`,
  `EnvCases.PathGiven`). Its shell must be able to read the loaders, which only the injector's user (or root) is
  allowed to; otherwise the program does not start (`EnvPreserved.UnreadableStops`).
- A shell need not pass on variables whose names it cannot use, such as `app.mode`; dash and busybox drop them
  (`EnvCases.OddNameLost`).
- A loader overrides everything: a literal variable with the name of a TSecret variable, or a later source that has
  it, wins without the webhook and loses with it. A container with args but no command loses its image's entrypoint.
  Values lose final line ends.
- Apart from these cases, program and environment are those without the webhook, within what "Left out" says about
  variables with a meaning of their own. `EnvNative.SameAsNativeIff` has the exact condition, `EnvCases` a pod for each
  case.
- Containers that share a TSecret volume must mount it at one path (`MutateLoaders.LoaderVisibleIff`,
  `MutateLoaders.PathsDisagree`).
- No container may have the name of an injector (`MutateAppend.UniqueNamesIff`).
- An injector that is run again on its volume fails, because its files are read-only (`Inject.RestartFailsIff`).
- A wrapped container is never wrapped again, so loaders of a second admission are not added
  (`MutateLoaders.WrapTwice`); staged admission is therefore stated for pods without export-env.
- A container whose first argument contains the text `load-env.sh` for any reason is taken for wrapped: its TSecret
  sources are taken out, and nothing loads them (`MutateWrap.CommandLine`).
- The format check accepts values whose decryption panics (`Crypto.PanicsIff`).
- The package comment of `pkg/certs/certs.go` speaks of rotation; the serving certificate is rotated, the
  authority is not (`Certs.AuthorityNeverRenewed`, `Certs.IssuedByExpired`).
- Certificate safety needs the authority's Secret not to be deleted (`CertProtocol.DeletedCaBreaks`).

## Model

| member | source | states |
|---|---|---|
| MutateMethods.TSecretInjector.HandleRequest | pkg/webhook/mutate.go:52-132 | the handler, changing the pod in place while it walks its maps in an arbitrary order, ends in the verdict and the pod that `Handle` gives for the order in which the plans happened to be visited; the inner orders (users, containers to wrap) never matter; a refusal names a container that uses a TSecret, asks for its environment and has no entrypoint |
| MutateMethods.TSecretInjector.CollectInjections | pkg/webhook/mutate.go:134-250 | the collector returns the plans of all references in the pod and leaves a pod in which exactly these references are gone |
| MutateMethods.TSecretInjector.CollectVolumes | pkg/webhook/mutate.go:163-196 | the volume loop turns exactly the TSecret volumes into memory volumes and adds one reference for each, with the users and the path found in the containers |
| MutateMethods.TSecretInjector.CollectFromContainer | pkg/webhook/mutate.go:198-237 | both loops over one container keep every other source in order and add one reference per TSecret source |
| MutateMethods.TSecretInjector.ReplayPlans | pkg/webhook/mutate.go:73-107 | iterating the map of plans gives the pod and the loaders of some enumeration of its keys, each visited once |
| MutateMethods.TSecretInjector.ReplayPlan | pkg/webhook/mutate.go:75-99 | one plan changes pod and loaders the same way whatever the order of its users |
| MutateMethods.TSecretInjector.EnsureRuntimeInitContainer | pkg/webhook/mutate.go:279-324 | appends the injector of the plan unless an init container has its name |
| MutateMethods.TSecretInjector.WrapEntrypoints | pkg/webhook/mutate.go:109-123 | wraps every listed container, or stops at one without an entrypoint; which verdict results does not depend on the order |
| MutateFrame.Frame | pkg/webhook/mutate.go:163-247 | for every pod and order: old volumes, containers and init containers keep their places, untracked references and literal variables stay in order, mounts are only added at the end, and only a container with the export annotation gets another command line; appended volumes are in memory, appended init containers have an injector's name and no environment |
| MutateAppend.Appended | pkg/webhook/mutate.go:262-338 | for every pod and order, what is appended is called for by a plan: its memory volume, its injector with all fields, and its read-only mount in a user that did not mount the volume |
| MutateAppend.UniqueNamesIff | pkg/webhook/mutate.go:279-303 | container names are unique in the admitted pod exactly if they were before and no container has the name of an injector |
| MutateExample.Admission | pkg/webhook/mutate.go:52-443 | one admission written out: the whole pod before, the whole pod after, with every name, path, argument and flag in plain text |
| MutateKept.Kept | pkg/webhook/mutate.go:163-247 | for every pod and order: exactly the volumes that stand for TSecrets become memory volumes; every container keeps its name, image, other fields and mounts, and in order all sources and literals that are not TSecrets; an init container with an injector's name keeps even those |
| MutateWrap.CommandLine | pkg/webhook/mutate.go:109-428 | for every pod and order: a container that uses a TSecret, asks for its environment and is the first of its name keeps its command line exactly if its first argument contains the text `load-env.sh`; otherwise it becomes `/bin/sh -c` with the text that sources its loaders and runs its entrypoint; every other container keeps its command line. Asking: the container's own annotation decides, and only without it the pod's. Entrypoint: the container's own annotation unless blank, or else the pod's unless blank, or else command and args |
| MutateWrap.CommandLineOfInit | pkg/webhook/mutate.go:365-428 | the same for init containers, which are found only under names that no container has |
| MutateWrap.UsesIff | pkg/webhook/mutate.go:163-237 | the users of the collected references are the containers that mount a volume of a TSecret, and the containers and init containers, other than injectors, that refer to one in their environment |
| MutateWrap.DeniedWhen | pkg/webhook/mutate.go:109-404 | a request is denied exactly if a container that uses a TSecret and asks for its environment has no entrypoint annotation that is not blank, no command and no args |
| MutateWrap.ExportFlagIff | pkg/webhook/mutate.go:79-378 | an injector is told to write a loader exactly if a user of its plan asks for its environment |
| MutateFrame.GroupSet | pkg/webhook/mutate.go:252-260 | a pod with a TSecret reference gets group 65532 unless it has one of its own; a pod without any keeps what it has |
| MutateFrame.KeepsWellFormed | pkg/webhook/mutate.go:262-338 | volume names stay unique and every mount keeps naming a declared volume |
| MutateFrame.Untracked | pkg/webhook/mutate.go:163-247 | the collector finds nothing exactly if no scanned place of the pod refers to a TSecret |
| MutateFrame.Idempotent | pkg/webhook/mutate.go:64-71 | for every pod and order, handling the handler's own output collects no plan and changes nothing |
| MutateClosed.RunClosed | pkg/webhook/mutate.go:75-107 | the loop over plans with distinct volumes equals a closed form: what each list gains, judged against the pod before the loop |
| MutatePlans.InAllRefs | pkg/webhook/mutate.go:163-247 | the collector finds exactly the references of the pod, spelled out place by place |
| MutatePlans.CollectFits | pkg/webhook/mutate.go:141-161 | one plan per pair of volume and secret; its users are the users of all references with that pair |
| MutatePlans.FirstWins | pkg/webhook/mutate.go:154-159 | for every key the first non-empty prefix and the first non-empty path win, so a second prefix for one secret is lost |
| MutateRenamed.VariableNameForgotten | pkg/webhook/mutate.go:218-236 | verdict and admitted pod are the same whatever the names of secretKeyRef variables of TSecrets are, so these names cannot be restored |
| MutatePlans.AllowedClosed | pkg/webhook/mutate.go:73-131 | without volume clashes an allowed request has the closed form as its result |
| MutateCoverage.Coverage | pkg/webhook/mutate.go:134-338 | after an allowed request every reference of the input has a memory volume, exactly one injector with its secret that mounts that volume at its own `--mount` path, and a mount of the volume in each container that used it |
| MutateCoverage.InjectorServed | pkg/webhook/mutate.go:279-324 | every plan ends up with exactly one init container of the injector's name, and that is the plan's injector, unwrapped |
| MutateConfluence.DeniedIff | pkg/webhook/mutate.go:109-117 | a request is denied exactly if some container that uses a TSecret and asks for its environment has no entrypoint; no order of iteration has a say |
| MutateConfluence.Confluent | pkg/webhook/mutate.go:73-123 | without volume clashes any two orders give the same verdict, and pods that differ only in the order of appended volumes, injectors and mounts and of the loaders that a container sources: each container keeps its command line in both, or wraps its own entrypoint in both, with the loaders that the plans of each order have for it, which are permutations of each other |
| MutateDivergence.ConfluentIff | pkg/webhook/mutate.go:142-289 | with the injectors' names free, all orders agree exactly if no two references demand one volume for different secrets, or the request is denied anyway |
| MutateDivergence.Divergent | pkg/webhook/mutate.go:284-289 | two plans with one volume: two orders whose pods differ in which secret the injector gets |
| MutateStaged.TwoStages | pkg/webhook/mutate.go:75-107 | without export-env and volume clashes, handling with fewer TSecrets and then with more equals handling once with more in the joined order, and so agrees with every other order up to the order of appended elements |
| MutateStaged.LeftOver | pkg/webhook/mutate.go:163-247 | what the first stage leaves for the second are exactly the references to the TSecrets that were missing |
| MutateStaged.PlansSplit | pkg/webhook/mutate.go:141-161 | the plans of the larger set are those of the smaller set and those of the rest, unchanged and without overlap |
| MutateLoaders.WrapTwice | pkg/webhook/mutate.go:406-428 | wrapping a container that sources at least one loader again changes nothing, whatever the new loaders and entrypoint |
| MutateLoaders.LoaderWritten | pkg/webhook/mutate.go:79-91 | every sourced loader is one that exactly one injector, run with `--export-env`, writes at that path |
| MutateLoaders.LoaderVisibleIff | pkg/webhook/mutate.go:326-338 | in the admitted pod a user of a plan has a mount of the volume at the path where the injector fills it exactly if it did not mount the volume before, or had a mount of it at that path |
| MutateLoaders.VolumePlanPath | pkg/webhook/mutate.go:173-183 | the plan of a TSecret volume has the path that the containers give it, even if an envFrom reference has the same key |
| MutateLoaders.LastPathWins | pkg/webhook/mutate.go:173-181 | the path of a volume's plan is that of the last container that mounts the volume, or the default if none does |
| MutateLoaders.PathsDisagree | pkg/webhook/mutate.go:173-195 | for any pod: a container that mounts a TSecret volume, but not at the path that the last mounting container gives it, does not see what the injector writes in the admitted pod, although it is a user of the plan and its list of loaders has the loader there |
| ShellText.ShellJoinReads | pkg/webhook/mutate.go:430-443 | for every list of strings, splitting the joined text into words and removing quotes (sections 2.2.2, 2.2.3 and 2.3 of the Shell Command Language volume of POSIX.1-2017) gives back exactly the list and leaves the text after it alone |
| ShellText.JoinQuoted | pkg/webhook/mutate.go:430-439 | the loop over the parts builds the joined text |
| ShellText.SourceLoaders | pkg/webhook/mutate.go:411-414 | the loop over the loaders builds the text that sources them in order |
| ShellText.WrapReads | pkg/webhook/mutate.go:416-420 | the wrapped script is read as `set -a`, one dot command per loader in order, `set +a`, and `exec` of the original words, if every loader path is a plain word |
| Shell.UnquotedIff | pkg/webhook/mutate.go:411-414 | a text spliced into a script without quotes is read back as one word equal to itself exactly if it is a plain word (with pkg/inject/writer.go lines 77-79) |
| ShellText.LoaderReads | pkg/inject/writer.go:72-86 | the loader script is read as one export command per name, in sorted order, each with its command substitution (section 2.6.3 of the same standard) |
| ShellText.RunExportCommands | pkg/inject/writer.go:75-79 | running the loader succeeds exactly if every file name may be a variable name; it then sets the variables one after the other, each to the contents of its file without final line ends, or to nothing where the search path that the lines before it leave has no `cat` |
| EnvMeaning.LoaderAdds | pkg/inject/writer.go:48-86 | sourcing a secret's loader runs one such line for each of that secret's variables, in byte order, and nothing else |
| EnvMeaning.WrapperRuns | pkg/webhook/mutate.go:406-421 | the wrapped script ends in the original program; its environment is the one the shell takes over at its start (without variables whose names are none for it, if it drops these), changed by the lines of all loaders in order |
| EnvPreserved.EnvFromPreserved | pkg/webhook/mutate.go:52-132 | for a container that reads TSecrets through envFrom alone and asks for its environment: once the injectors have filled their volumes, the rewritten container starts its own command and args in the environment that its shell takes over from image, remaining sources and literals, changed by the lines of its loaders, whatever the order of the plans (with pkg/inject/writer.go lines 26-86) |
| EnvNative.SameAsNativeIff | pkg/webhook/mutate.go:198-420 | with one prefix for each TSecret and no variable from two, that is the program and environment Kubernetes would have started without the webhook exactly if: the container has a command or its image no entrypoint; the shell passes on every variable the container has otherwise; and for every TSecret variable its loader, finding `cat` or not along the search path that the container and the TSecret variables before it leave, prints the value of the literal or later source that natively overrides it, or else its own value to the last line end |
| EnvRuns.SimplePrepared | pkg/webhook/mutate.go:52-132 | every pod with one container that reads existing TSecrets through envFrom, in every order of its plans, is admitted, and there are volumes filled by its injectors and files seen through its mounts: what the theorems about running containers suppose is possible (with pkg/inject/writer.go lines 26-86) |
| EnvRuns.Decided | pkg/webhook/mutate.go:52-132 | such a pod starts what Kubernetes would have started in all orders exactly if the condition holds in all of them, and in none exactly if it holds in none |
| EnvCases.NothingInterferes | pkg/webhook/mutate.go:52-132 | an admitted pod on which it is what Kubernetes would have started, for every image with a `cat` in its search path and without odd variable names |
| EnvCases.LiteralLoses | pkg/webhook/mutate.go:218-236 | an admitted pod on which a literal of the same name wins natively and loses against the loader |
| EnvCases.LaterSourceLoses | pkg/webhook/mutate.go:198-216 | the same with a source that comes after the TSecret |
| EnvCases.EntrypointLost | pkg/webhook/mutate.go:397-398 | an admitted pod whose container has args only: the image's entrypoint is lost |
| EnvCases.LineEndLost | pkg/inject/writer.go:77-79 | an admitted pod on which a value loses its final line end |
| EnvCases.OddNameLost | pkg/webhook/mutate.go:416-420 | an admitted pod that loses its literal `app.mode` where the shell drops such names |
| EnvCases.NoCatFound | pkg/inject/writer.go:77-79 | an admitted pod whose literal PATH has no `cat`: its TSecret variable is lost |
| EnvCases.PathGiven | pkg/inject/writer.go:73-79 | an admitted pod whose TSecret has the key PATH, without `cat` there: the variables after it are lost |
| EnvCases.PrefixLost | pkg/webhook/mutate.go:154-156 | an admitted pod with two prefixes for one TSecret: natively it has the variables of both, rewritten only those of the first |
| EnvCases.WinnerVaries | pkg/webhook/mutate.go:73-216 | an admitted pod with two TSecrets that share a variable: natively the later source wins, rewritten the plan that happens to be visited last, and both outcomes occur |
| EnvPreserved.WriteFills | pkg/inject/writer.go:26-69 | a successful injector run on an empty volume leaves what the environment theorem expects of it |
| EnvNative.LinesAreVars | pkg/webhook/mutate.go:198-216 | the lines that a container's loaders run are exactly the variables of its tracked sources, each once (with pkg/inject/writer.go lines 72-86) |
| EnvNative.SafeWithCat | pkg/inject/writer.go:77-79 | where `cat` is found at the start and along a TSecret variable PATH, the condition speaks of names and values alone, and the order of the loaders has no say |
| EnvNative.OrderIrrelevant | pkg/webhook/mutate.go:73-107 | nor does it without a TSecret variable PATH |
| EnvPreserved.UnreadableStops | pkg/inject/writer.go:57-82 | a container that cannot read the loader of one of its TSecrets does not start its program |
| InjectFlags.FlagsRoundTrip | pkg/webhook/mutate.go:291-301 | the injector reads from its arguments exactly the plan that the webhook wrote down, with the namespace of its own pod if none was written, and refuses to start exactly without a secret, a mount or a namespace (with cmd/inject/main.go lines 40-58) |
| Base64.RoundTrip | pkg/crypto/encrypt.go:75-167 | decoding undoes encoding (section 4 of RFC 4648) for byte strings of every length, padded or not |
| Base64.Vectors | pkg/crypto/encrypt.go:72-79 | the encodings of section 10 of RFC 4648 |
| Base64.Table | pkg/crypto/encrypt.go:72-79 | the alphabet of table 1 of RFC 4648 |
| Base64.SplitKeepsBits | pkg/crypto/encrypt.go:72-79 | a group of characters stands for the bits of its bytes in order, filled up with zeros |
| Base64.EncodedText | pkg/crypto/encrypt.go:72-79 | encoded text has no colon and no line break |
| Base64.LengthOfEncoding | pkg/crypto/encrypt.go:72-79 | the length of an encoding depends on the length of the input alone |
| Crypto.ParsePrint | pkg/crypto/encrypt.go:71-173 | every triple whose algorithm name has no colon survives printing and parsing |
| Crypto.DecryptEncrypt | pkg/crypto/encrypt.go:56-101 | encryption succeeds exactly on a key of 32 bytes, a supported algorithm and enough randomness; decrypting gives the text back, and the value passes the format check |
| Crypto.EncryptedParts | pkg/crypto/encrypt.go:56-80 | an encrypted value parses into the algorithm's name, the first 24 or 12 bytes of the random source as nonce, and the text that the cipher of that name seals with key and nonce |
| Crypto.FreshValues | pkg/crypto/encrypt.go:62-69 | values made with different random bytes differ, whatever the texts and keys |
| Crypto.DecryptIff | pkg/crypto/encrypt.go:84-101 | decryption gives a text exactly if the value parses, the key has 32 bytes, the algorithm is supported, the nonce has its size, and the algorithm's cipher opens the sealed text to it |
| Crypto.PrintInjective | pkg/crypto/encrypt.go:71-79 | two different triples never print alike |
| Crypto.EncryptLength | pkg/crypto/encrypt.go:56-80 | the length of a value depends on nothing but the algorithm and the length of the text |
| Crypto.ValidIff | pkg/crypto/encrypt.go:105-173 | the format check accepts exactly the prefix, a supported algorithm and two unpadded base64 parts, separated by colons, inside an outer base64 layer |
| Crypto.Canonical | pkg/crypto/encrypt.go:144-173 | printing a parsed value in canonical form and parsing it again gives the same triple |
| Crypto.PanicsIff | pkg/crypto/encrypt.go:95-162 | decrypting stops the program exactly if the value passes the format check and its nonce does not fit its algorithm |
| Crypto.PanicExample | pkg/crypto/encrypt.go:105-111 | such a value exists |
| KeyResolver.ResolvedSize | pkg/webhook/keyresolver.go:92-117 | a resolved key has 32 bytes, whichever branch it came from |
| KeyResolver.SealedIff | pkg/webhook/keyresolver.go:29-118 | a sealed-secret key is found exactly if the Secret in the reference's namespace, or else the caller's, has a field of 32 bytes |
| KeyResolver.TransitIff | pkg/webhook/keyresolver.go:49-96 | a vault-transit key is found exactly if the reference has a name and transit data, the Secret in the wrapped key's own namespace, or else the caller's, has the named field, and the Vault of the given store, asked from the caller's namespace for the named transit key, unwraps that field to these 32 bytes |
| KeyResolver.OtherProviders | pkg/webhook/keyresolver.go:41-45 | no other provider gives a key |
| KeyResolver.NamespaceDefaults | pkg/webhook/keyresolver.go:32-35 | naming the caller's namespace in a reference changes nothing |
| Inject.Write | pkg/inject/writer.go:26-69 | succeeds exactly if the TSecret exists, its key resolves, every entry decrypts, and every file it writes can be created: its name is one for a file, it does not exist, and it is not written twice (files have mode 0400 and the injector is not root); the directory then gains one file per entry and, on demand, the loader over their names, whatever the order of the entries |
| Inject.RestartFailsIff | pkg/inject/writer.go:56-60 | an injector that runs again on the volume it has filled fails exactly if there was anything to write |
| Inject.WriteEntries | pkg/inject/writer.go:47-60 | at every stop, also after a failed entry, the directory holds exactly the files of the entries visited so far on top of what it had |
| Inject.Directory.WriteEnvLoader | pkg/inject/writer.go:72-86 | writes the loader over the sorted names and no other file, unless a loader exists |
| Inject.FilesAre | pkg/inject/writer.go:48-60 | the files are prefix + key for each entry, holding its decrypted text, and nothing else |
| Inject.Sorts | pkg/inject/writer.go:73 | sorting yields an ordered permutation in byte order |
| Inject.AtMostIff | pkg/inject/writer.go:73 | one name comes before another if it is a beginning of it or has the smaller byte where they first differ |
| Inject.LoaderUnique | pkg/inject/writer.go:72-79 | the loader script does not depend on the order in which the entries were visited |
| Sync.PullAll | pkg/controller/sync_controller.go:65-92 | the loop fills the map item by item and returns what `Pull` says: all entries, or the first failure |
| Sync.PullOneIff | pkg/controller/sync_controller.go:67-91 | an item succeeds exactly if the provider answers, the key resolves and there is enough randomness for a nonce |
| Sync.PullOneReason | pkg/controller/sync_controller.go:67-85 | the reason reported for an item is that of the provider, or else of its key, or else of the encryption |
| Sync.PullCompleteIff | pkg/controller/sync_controller.go:66-92 | the loop ends well exactly if every item is pulled, its key resolved and its value encrypted |
| Sync.PullStopsAtFirst | pkg/controller/sync_controller.go:68-85 | otherwise the reported reason is that of the first item that failed |
| Sync.PullGives | pkg/controller/sync_controller.go:87-91 | one entry per distinct key, made from the last item with that key |
| Sync.SyncedIsValid | pkg/controller/sync_controller.go:81-91 | every TSecret the sync reconciler stores passes the TSecret reconciler's validation (with pkg/controller/tsecret_controller.go lines 38-49) |
| Sync.FilesAreValues | pkg/controller/sync_controller.go:64-130 | the stored reference leads the injector to the key the sync used, so the files hold exactly the pulled values (with pkg/inject/writer.go lines 26-69) |
| Sync.EndToEnd | pkg/controller/sync_controller.go:63-130 | with a stable key, an injector run on the synced TSecret succeeds and gains one file per distinct key, prefix + key, holding the bytes pulled for the last item with that key (with pkg/webhook/keyresolver.go lines 29-118) (with pkg/inject/writer.go lines 26-69) |
| Sync.EmptySyncMayBeUnreadable | pkg/controller/sync_controller.go:66-92 | without items a sync succeeds although its key may not exist; the injector then fails |
| Sync.RequeueAfter | pkg/controller/sync_controller.go:139-225 | the interval is the admissible one (30 seconds to 24 hours) nearest to the wish, or one hour without a readable wish |
| SyncReconcile.Reconcile | pkg/controller/sync_controller.go:31-137 | one reconcile, updating target and status in place, has the outcome `Reconciled` describes, also if a write is refused or takes effect without an answer |
| SyncReconcile.AllOrNothing | pkg/controller/sync_controller.go:63-235 | with the spec's own encryption reference, or else the sealed-secret key `tsecret-master-key` of the sync's namespace: one reconcile stores all of one loop's output under that reference exactly if nothing fails before its write takes effect, and otherwise nothing; phase and Synced condition say so exactly if it hears of that, with the reason of what failed first; other conditions stay, and so does the last success on a failure |
| SyncReconcile.SyncStatus.SetSyncStatus | pkg/controller/sync_controller.go:185-207 | sets the phase and the Synced condition, and leaves generation and time of the last success alone |
| SyncProtocol.StepInv | pkg/controller/sync_controller.go:31-207 | every step of any reconcile or of anybody else keeps the invariant of the whole system |
| SyncProtocol.OnlyWritesWrite | pkg/controller/sync_controller.go:118-130 | apart from the write of a run that finished its loop, no step of a reconcile changes a target |
| SyncTrace.Atomicity | pkg/controller/sync_controller.go:63-130 | after every sequence of steps, a target stored by a sync was stored by one reconcile, in the only effective write that reconcile ever makes, and holds the output of the pull loop over all items of the spec it read, on exactly the answers it was given, with the encryption reference that spec asks for (its own, or else the master key) |
| SyncTrace.WritesOnce | pkg/controller/sync_controller.go:118-130 | a reconcile makes at most one effective write |
| SyncTrace.FailedItemWritesNothing | pkg/controller/sync_controller.go:66-85 | over its whole life a reconcile in which an item fails makes no effective write, no step of it changes a target, and no target is ever stored by it |
| SyncTrace.SyncedTargets | pkg/controller/sync_controller.go:63-130 | with the reconciler's own loop: all of it encrypted under the stored reference, and every entry valid |
| SyncTrace.Pipeline | pkg/controller/sync_controller.go:63-130 | after every sequence of steps, for a target stored by a sync: if the key still resolves as it did for the answers that the storing reconcile was given, an injector delivers exactly the values in those answers, one file per distinct key (with pkg/inject/writer.go lines 26-69) |
| SyncTrace.SomeTarget | pkg/controller/sync_controller.go:101-121 | such targets exist: a lone reconcile of one item that can be pulled stores one |
| SyncLone.LoneReconcile | pkg/controller/sync_controller.go:29-151 | from any reachable state, the steps of one reconcile of the current version, with nothing in between, do to target and status exactly what one reconcile on its own does, refused writes and lost answers included, and touch nothing else |
| SyncProtocol.StatusHonest | pkg/controller/sync_controller.go:132-207 | over all stored versions the synced generation never decreases and never exceeds the generation; phase and Synced condition agree; Synced is shown with a generation only after a target write made from that generation's spec took effect |
| SyncProtocol.FailureKeepsLastSync | pkg/controller/sync_controller.go:185-207 | a failed reconcile keeps time and generation of the last success, and a report on an outdated version is dropped |
| Conditions.ConditionList.SetCondition | pkg/controller/tsecret_controller.go:86-94 | overwrites the first condition of the type in place, or appends |
| Conditions.WithLookup | pkg/controller/tsecret_controller.go:86-94 | one update changes what its own type shows and nothing else, and keeps every place in the list |
| Conditions.RunOfUpdates | pkg/controller/tsecret_controller.go:86-94 | over any run of updates types stay unique, keep their places, and each shows its last update or what it showed before |
| Conditions.Validate | pkg/controller/tsecret_controller.go:38-49 | whatever the map order, the flag is set exactly if every entry is in the wire format with a supported algorithm |
| Conditions.ReadyIff | pkg/controller/tsecret_controller.go:51-68 | after a reconcile Ready is True exactly in that case |
| Certs.CertManager.PatchWebhookCaBundle | pkg/certs/certs.go:298-329 | replaces every bundle that differs, and writes the configuration exactly if one did |
| Certs.CertManager.EnsureCerts | pkg/certs/certs.go:63-84 | one run without interference has the outcome, and makes the number of writes, that `Ensured` and `Writes` describe |
| Certs.NoWritesIff | pkg/certs/certs.go:87-326 | a run makes no writes exactly if the authority exists, the certificate has 30 days left, and all bundles are the authority's |
| Certs.RepeatMakesNoWrites | pkg/certs/certs.go:63-84 | a run repeated at once makes no writes and changes nothing |
| Certs.AlwaysValid | pkg/certs/certs.go:43-241 | if runs succeed and each stores its certificate within 30 days of the check before, the stored certificate is valid at every instant from the first store on |
| Certs.GapIsSharp | pkg/certs/certs.go:113-114 | the 30 days are sharp |
| Certs.AcceptedFrom | pkg/certs/certs.go:228-229 | a certificate is accepted by clients whose clocks are up to an hour behind, and for a year, to within a second |
| Certs.AuthoritySpan | pkg/certs/certs.go:147-148 | an authority is valid from an hour before its making, for ten years, to within a second |
| Certs.WithinAuthorityIff | pkg/certs/certs.go:141-241 | a certificate lies within its authority's validity exactly if it ends in time: always in the first nine years, never from one second later |
| Certs.AuthorityNeverRenewed | pkg/certs/certs.go:121-125 | the authority is never renewed, whatever the time |
| Certs.IssuedByExpired | pkg/certs/certs.go:121-243 | so after its end certificates are issued under an expired authority |
| CertProtocol.StepKeeps | pkg/certs/certs.go:117-329 | every step of any replica or of anybody else, except deleting the authority, keeps the invariant |
| CertProtocol.Safety | pkg/certs/certs.go:63-329 | under any interleaving of any number of runs, with stale reads and failed or unanswered writes: the stored serving certificate is signed by the stored authority, every bundle is an initial one or that authority's, and so is every certificate ever signed |
| CertProtocol.LosersIssueNothing | pkg/certs/certs.go:189-191 | a run whose create of the authority fails never signs anything |
| CertProtocol.OneAuthority | pkg/certs/certs.go:117-191 | once stored, the authority stays the same one |
| CertTrace.FinishedRun | pkg/certs/certs.go:63-329 | under any interleaving, a run that finished found or stored an authority, then saw that no renewal was due or stored a certificate signed by that authority, then saw no webhook configuration, or read one with that authority's bundle in every webhook, or stored it so with as many webhooks as before; without deletions that authority is the stored one |
| CertTrace.LoneRun | pkg/certs/certs.go:63-329 | from any reachable state, a run with fresh reads and no failures finishes and takes authority, certificate and bundles to what `Ensured` says |
| CertProtocol.DeletedCaBreaks | pkg/certs/certs.go:121-131 | if the authority's Secret is deleted, a reachable state has a certificate that the stored authority did not sign |

## Left out

- HTTP providers, token acquisition and JSON decoding: a provider is a value or a failure (`Sync.Answer`), and the store, provider and authentication failures before the pull loop are one failure with a reason.
- ChaCha20, Poly1305, ECDSA, X.509 and PEM: library code. Ciphers obey `Lawful`; a certificate carries the number of the authority that signed it; an unreadable serving certificate counts as absent.
- Decoding of admission requests, the JSON patch and request errors: `Handle` starts from a decoded pod and ends in a pod.
- The TSecret lookup of the webhook is a set of names that does not change during one request; a lookup error counts as an absent name, as in the code.
- Raw entrypoint annotations: arbitrary shell text. `ShellText.WrapReads` and `EnvPreserved.EnvFromPreserved` are about the branch that joins command and arguments; the annotations themselves are modelled in `Mutate.ResolveEntrypoint`.
- Pod fields that the webhook never touches are one text per container; of the pod security context only the group is modelled. Sub-path mounts, optional sources and mounts hidden by other mounts are not.
- EnvPreserved.EnvFromPreserved: assumes that the injectors have run before the container starts. That holds for containers but not for the user's own init containers, because injectors are appended last (`MutateFrame.Frame`).
- EnvPreserved.EnvFromPreserved: assumes that the container can read the volumes it mounts; users, file owners and modes are not modelled, `EnvPreserved.UnreadableStops` says what happens otherwise.
- EnvPreserved.EnvFromPreserved: `set -a` is read and has no further effect, because every variable in play is exported. Variables with a meaning of their own to the shell, the dynamic loader or `cat` are variables like all others here, apart from PATH: those a shell sets by itself or lets nobody set (PWD, OPTIND, IFS and PPID, and UID in bash), LD_PRELOAD and the like, locales. The program itself is not searched for, the shell is taken to be there, and it has no `cat` of its own.
- EnvNative.SameAsNativeIff: literal values are taken after Kubernetes has expanded `$(NAME)` in them, and commands and args have none; a `$(NAME)` that names a TSecret variable expands without the webhook and no longer with it.
- MutateLoaders.LoaderVisibleIff: paths are compared as text, so `/a` and `/a/` count as different mounts although they denote one directory.
- Inject.Write: the cleaning of paths, data keys with slashes and full volumes are not modelled; a directory maps names to contents, and every file in it was written by an injector.
- Inject.Write: all-or-nothing writing is not claimed, because the code does not do it; `Inject.WriteEntries` says what a failed run leaves.
- SyncTrace.Atomicity: reconciles and objects are identified by numbers that are never used again, so a TSecretSync deleted and created anew under its old name is another object; labels of the target and the text of messages are left out.
- CertProtocol.Safety: the moment at which a certificate needs renewal is left to chance there; `Certs` has the times.
- Shell.UnquotedIff: the reader covers words, both kinds of quotes, blanks, separators, comments and one form of command substitution; other expansions and operators are rejected, never misread.
- Leader election, manager start-up, Helm charts, store and provider dispatch, deep-copy code: configuration and wiring that would only add easy members.
