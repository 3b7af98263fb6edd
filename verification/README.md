# tearenv, verified

tearenv gives developers named TCP access to private services and starts and stops the workloads behind them. This project models the parts of it where order, concurrency and naming decide correctness, and proves what they promise.

Five parts are modelled.

- **The lifecycle gateway.** `Lifecycle` has one function per critical section of a service runtime. A run is any sequence of lookups, opens, closes, timer expiries, idle callbacks, per-runtime shutdowns and clock ticks by any number of clients. Looking a runtime up and locking it are two steps, and a timer that has expired can no longer be stopped, so late `Stop` calls arise by interleaving. Scaler and dial answers are arbitrary, and so are the services a policy resolves. `LifecycleProofs`, `LifecycleRuns` and `LifecycleTheorems` hold the invariant and the theorems, `LifecycleSteps`, `LifecycleTraces` and `LifecycleGrants` what single steps do and which grant they go by, `LifecycleExamples` concrete runs that show the theorems' limits; `LifecycleGateway` is the mutable object, each method proved against its section.
- **Names, templates and blueprints.** `Names`, `Templates`, `Slugs`, `Blueprint` and `BlueprintMeaning` cover resource names, placeholder replacement in either map order, slugs, shortening with digests, validation and rendering, down to an exact account of when two identities get one name. `Environment`, `EnvironmentRuns` and `Reconciler` cover provisioning by any number of interleaved calls, publication and the combined catalog.
- **Registrations.** `Registration`, `RegistrationRuns` and `RegistrationStore` model putting a registration as anybody, and the key scan; `TokenExchange` adds certificates and runs that mix both.
- **The credential file.** `Credentials`, `CredentialMeaning`, `CredentialRuns` and `CredentialStore`: one parser, three writers, and every run of them, with reading and writing as one step or as two steps of several processes.
- **Authorized keys.** `AuthorizedKeys` is a state machine of clients that read, change and write one Secret with conflict retry against a server that rejects stale updates and duplicate creates.

`Runs`, `Sums`, `Indexes`, `Listing`, `Text`, `Policy` and `Prelude` are shared groundwork. `dafny verify dfyconfig.toml` checks everything.

## Assumptions

- SHA-256 is an arbitrary function to 64 lower-case hexadecimal digits, and the Unicode lower-case mapping is arbitrary outside ASCII. Key parsing, URL checks, REST mapping and duration parsing are arbitrary functions; only the credential and key modules assume that printing is undone by parsing.
- A file is a value that is replaced as a whole or left alone. Reads, writes, random identifiers, signing and applies may fail at any time.
- Freshly generated invites hash to nothing issued before.
- Of a policy, `LifecycleTheorems.NothingForgotten` assumes that a grant without a workload never has the key of the workload in question, and `LifecycleTheorems.CallsAlternate` that whoever looks the workload up asks for at least one replica. `Admissibility.GrantsAreAdmissible` and `Admissibility.PublishedIsAdmissible` prove both of every service the two policies resolve. The other theorems about runs of the gateway assume nothing of a policy.
- `CredentialRuns.InvitesAreSingleUse` takes each operation as one step, the single writer docs/operator-guide.md:267 asks for. For processes that overlap, `CredentialRuns.SingleUseExactly` says exactly which interleavings keep invites single-use.
- Strings are sequences of characters; lengths that the program takes in bytes are taken after everything outside ASCII is gone, or of tokens, which are ASCII.

Where the code and its words disagree, the code is followed: a blueprint service may leave its local port at 0 although the error text asks for 1 to 65535 (internal/blueprint/blueprint.go:425-427), and an idle callback does not check that it is still the current timer although the idle timeout is documented as a full idle period (internal/server/lifecycle.go:196). A valid identity such as `a..b` has a resource name that validation then refuses, so it can never be registered (api/v1alpha1/userregistration.go:171-180).

## Model

| member | source | states |
|---|---|---|
| `LifecycleTheorems.NeverDownWhileConnected` | internal/server/lifecycle.go:119-209 | In every run without a Shutdown of the runtime, whatever the policy resolves and late Stops included: an open connection to a managed workload means scaled; no step makes a scale-down call while anybody is connected, or sets replicas to zero under a managed connection; a scale-up asks for the granted replicas |
| `LifecycleTheorems.NothingForgotten` | internal/server/lifecycle.go:82-209 | In every run, Shutdown included, a scaled runtime with no connection has a pending idle callback, or its last scaler call was a failed scale-down; assumed only: no grant without a workload has this runtime's key if it is a workload's |
| `LifecycleExamples.SharedKeyForgets` | internal/server/lifecycle.go:126-157 | That assumption is needed: a run of five steps in which a failed dial without a workload cancels the only callback and leaves the workload up |
| `LifecycleTheorems.CallsAlternate` | internal/server/lifecycle.go:130-206 | In every run in which whoever looks the runtime up asks for at least one replica, its successful calls alternate positive, zero, positive, …, and the backend is positive iff scaled |
| `LifecycleTheorems.CallsGoHome` | internal/server/lifecycle.go:88-206 | In every run every call goes to a target with the key of its runtime and never through a nil scaler; a runtime whose key a NUL-free target has calls that target alone |
| `LifecycleTheorems.RuntimesAreForever` | internal/server/lifecycle.go:166-179 | The runtime found under a key stays for the whole run: its history is only extended and no connection or timer number returns |
| `LifecycleRuns.TargetKeyIsUnique` | internal/server/lifecycle.go:168-170 | A key belongs to one scaler target alone iff none of its parts holds a NUL |
| `LifecycleRuns.AliasKeyIsUnique` | internal/server/lifecycle.go:167 | The same for the key of an alias among aliases |
| `LifecycleRuns.CleanIsApart` | internal/server/lifecycle.go:166-170 | A NUL-free alias never has the key of a workload |
| `LifecycleTheorems.GaugesAgree` | internal/server/metrics.go:191-201 | In every run the workload gauge counts the scaled runtimes, each connection gauge counts the open connections of its type, and together they sum to the active connections of all runtimes |
| `LifecycleTheorems.ConnectionsConserved` | internal/server/lifecycle.go:158-187 | In every run active is the number of open tracked connections, the underflow guard of release holds, active connections exclude a stored timer, and closing twice is closing once |
| `LifecycleTheorems.IdlePeriodHonoured` | internal/server/lifecycle.go:188-209 | If on this runtime every Stop beats its callback, the only pending callback is the stored one, fires only idle and scaled, and every idle scale-down follows its release by the full idle timeout of the grant opened last before, with no Open between |
| `LifecycleTheorems.RestedExactlyWhenStored` | internal/server/lifecycle.go:193-208 | Without a Shutdown of the runtime and whatever the Stops do: a callback about to scale down ends an uninterrupted idle period iff it is still the stored timer |
| `LifecycleTheorems.StoredMeansRested` | internal/server/lifecycle.go:193-208 | In every run, Shutdown included, a stored callback that scales down ends an uninterrupted idle period of the timeout of the grant opened last before it began |
| `LifecycleGrants.RunsAreGranted` | internal/server/lifecycle.go:122-125 | In every run a runtime remembers the workload of the last Open that had one, and every idle timer it armed was for the idle timeout remembered then |
| `LifecycleTraces.LookupTrace` | internal/server/lifecycle.go:166-179 | A lookup hands out the grant, leaves every runtime, and adds an idle one under a new key |
| `LifecycleTraces.OpenTrace` | internal/server/lifecycle.go:119-164 | In every reachable state an Open connects iff its workload is or comes up and the dial succeeds, names the first obstacle otherwise, makes exactly the scaler calls it should, records the grant, and leaves every other runtime |
| `LifecycleTraces.CloseTrace` | internal/server/lifecycle.go:181-209 | In every reachable state a close takes the connection out of the open ones and arms and stores a timer for the remembered idle timeout iff it was the last one of a running workload |
| `LifecycleTraces.ExpireTrace` | internal/server/lifecycle.go:193 | A callback starts to wait once its time has passed and not before |
| `LifecycleTraces.FireTrace` | internal/server/lifecycle.go:193-209 | A started callback scales an idle, running workload down and does nothing else |
| `LifecycleTraces.ShutdownTrace` | internal/server/lifecycle.go:82-97 | Shutdown stops the stored timer of a runtime and scales it down iff it runs |
| `LifecycleTraces.SharedKeyExactly` | internal/server/lifecycle.go:166-170 | Two NUL-free grants share a runtime iff they scale one target, or are one alias of one identity without a workload |
| `LifecycleExamples.LateStopCutsIdleShort` | internal/server/lifecycle.go:126-129 | A concrete run with one late Stop in which an old callback ends a new idle period at its first moment |
| `LifecycleRuns.EveryRunKeeps` | internal/server/lifecycle.go:101-210 | The inductive invariant behind these: every interleaving of lookups, sections, timer expiries and clock ticks keeps it, whatever the policy resolves |
| `LifecycleProofs.ActKeeps` | internal/server/lifecycle.go:82-209 | Every critical section keeps the invariant of its runtime and moves the gauges by exactly what it moved of the runtime |
| `LifecycleGateway.Gateway.Find` | internal/server/lifecycle.go:166-179 | Finds or creates the runtime of a key and leaves every other entry |
| `LifecycleGateway.Gateway.Open` | internal/server/lifecycle.go:119-164 | The locked part of Open as statements computes the specified section |
| `LifecycleGateway.Gateway.Release` | internal/server/lifecycle.go:181-194 | release as statements computes the specified section |
| `LifecycleGateway.Gateway.Close` | internal/server/lifecycle.go:264-268 | Close releases through sync.Once |
| `LifecycleGateway.Gateway.IdleCallback` | internal/server/lifecycle.go:193-209 | The idle callback as statements computes the specified section |
| `LifecycleGateway.Gateway.Slice` | internal/server/lifecycle.go:75-80 | The slice Shutdown walks holds every runtime exactly once |
| `LifecycleGateway.Gateway.Shutdown` | internal/server/lifecycle.go:81-98 | Every runtime of the slice is shut down even after failures, the first failure is the one reported, and the workload gauge drops by the number taken down |
| `Templates.OrderDoesNotMatter` | internal/blueprint/blueprint.go:249-254 | A template whose sample rendering has no brace renders to the same text in either map order: the text with its holes filled |
| `Templates.SampledIsClean` | internal/blueprint/blueprint.go:344-370 | Such a template is clean text and placeholders only; sample words cannot complete a placeholder |
| `Templates.RenderingInjective` | internal/blueprint/blueprint.go:345-347 | With exactly one slug placeholder the slug can be read back from the rendering |
| `Slugs.SlugIdentity` | internal/blueprint/blueprint.go:224-247 | The loop accepts exactly the valid identities and computes the specified slug |
| `Slugs.SlugIsLabel` | internal/blueprint/blueprint.go:224-247 | The slug of every valid identity is a DNS-1123 label of at most 63 characters |
| `Slugs.SlugMeans` | internal/blueprint/blueprint.go:224-271 | A slug is the identity if that is its lower-case words joined by single hyphens and fits a label, else the start of those, up to 54 characters, and eight digits of the digest of the identity |
| `Slugs.ShortLabelMeans` | internal/blueprint/blueprint.go:256-271 | A namespace of at most 63 characters is kept, of a longer one the start and a digest of the whole |
| `Slugs.SlugCollision` | internal/blueprint/blueprint.go:224-271 | Two identities share a slug iff one spells the other's hashed slug or two truncated digests collide under one stem |
| `Slugs.SlugIsItsOwnSlug` | internal/blueprint/blueprint.go:224-247 | Every slug is a valid identity and its own slug; an identity is its own slug iff it is already in normal form and short enough |
| `Slugs.CapitalIsNotPlain` | internal/blueprint/blueprint.go:240-245 | A valid identity that is not its own slug: A |
| `Slugs.ShortLabelCollision` | internal/blueprint/blueprint.go:256-271 | The same for shortened namespaces |
| `Slugs.ShortValueIsLabelValue` | internal/blueprint/blueprint.go:273-278 | A shortened label value is a label value |
| `Slugs.ShortValueMeans` | internal/blueprint/blueprint.go:273-278 | A label value of at most 63 characters is kept, of a longer one the first 54 without punctuation at their ends and a digest of the whole |
| `Blueprint.ValidateResources` | internal/blueprint/blueprint.go:372-389 | The loop accepts iff every resource is valid and keys are distinct, and builds exactly their index |
| `Blueprint.ValidateServices` | internal/blueprint/blueprint.go:408-465 | The loop accepts iff every service is well-formed, names a Service exposing its port and a workload declared at zero, and names are distinct |
| `Blueprint.Validate` | internal/blueprint/blueprint.go:322-340 | Accepts exactly the valid documents |
| `BlueprintMeaning.ValidMeans` | internal/blueprint/blueprint.go:322-465 | A document free of NUL is valid iff header and namespace template are in order, resources are named, unplaced and pairwise different, and every service is in range, reaches a declared Service on an exposed port, and scales a declared workload at zero |
| `Blueprint.NamespaceRenders` | internal/blueprint/blueprint.go:177-185 | For a validated document and any label as slug, either order gives the filled template and the shortened result is a label |
| `Blueprint.LabelRenders` | internal/blueprint/blueprint.go:187-197 | The same for every namespace label value |
| `Blueprint.Instantiate` | internal/blueprint/blueprint.go:169-222 | A validated document renders for every valid identity to one instance whatever the map orders, with both render-error branches unreachable: the filled and shortened namespace, the filled labels with the three owned ones, and every declared resource in order with only that namespace filled in |
| `Blueprint.InstanceIsWellFormed` | internal/blueprint/blueprint.go:187-211 | Namespace and slug are labels, all label values valid, the identity label is the slug, every resource is in the namespace |
| `Blueprint.NamespaceCollision` | internal/blueprint/blueprint.go:181-182 | Two identities share a namespace iff one spells the other's hashed slug, or one rendered name the other's shortened form, or two truncated digests collide under one stem |
| `Blueprint.SpelledIdentityShares` | internal/blueprint/blueprint.go:181-182 | Isolation fails for every identity that is not its own slug: under every blueprint the identity that spells the slug has the same namespace |
| `Environment.SharedRuntimeMeansSharedNamespace` | internal/environment/manager.go:119-127 | For every validated blueprint, two identities' published services share a lifecycle runtime iff they share the namespace and the workload reference |
| `Environment.SpelledIdentitySharesRuntimes` | internal/environment/manager.go:119-127 | Such a pair of identities shares the runtime of every service of every validated blueprint |
| `Environment.PublishedPassesScaler` | internal/kube/scaler.go:44-63 | Every service published from a validated blueprint passes the scaler's checks: kind, names, replicas, timeouts |
| `Environment.PublishedIsDeclared` | internal/blueprint/blueprint.go:442-452 | In every validated blueprint a published workload is a declared resource at zero replicas iff the name of its reference is free of NUL |
| `Environment.PublishedIsExposed` | internal/blueprint/blueprint.go:428-434 | It is reached through a declared Service exposing its port iff the name given for that Service is free of NUL |
| `Environment.NulMisleadsReferences` | internal/blueprint/blueprint.go:501-503 | From every validated blueprint one can be made that validates although its service names a workload nothing declares |
| `Environment.InstanceServices` | internal/environment/manager.go:108-135 | Succeeds iff all timeouts parse, and then maps the declared services under their names, the later of two with one name |
| `Environment.PublishesExactly` | internal/environment/manager.go:108-135 | From a validated blueprint that is exactly the declared services, each under its name |
| `Environment.PublishedMeans` | internal/environment/manager.go:108-135 | Each carries its name, its in-cluster address and port, its local port, and its workload in the identity's namespace with the declared replicas and parsed timeouts |
| `Environment.DecimalReads` | internal/environment/manager.go:123 | The port is written in decimal without leading zeros and reads back |
| `Indexes.IndexOfLast` | internal/environment/manager.go:109-133 | Under a key the last element with it is found |
| `Environment.Manager.Provision` | internal/environment/manager.go:53-70 | Succeeds iff identity, mapping and every apply do; then everything was applied namespace first and only this identity's services changed; a failure publishes nothing |
| `EnvironmentRuns.PublishedMeansApplied` | internal/environment/manager.go:53-70 | In every interleaving of any number of calls, whoever has published services has exactly the blueprint's, and the cluster applied the namespace with its labels and, after it and in order, every declared resource with only that namespace filled in |
| `EnvironmentRuns.AloneIsProvision` | internal/environment/manager.go:53-70 | The steps of an uninterrupted call do what Provision promises |
| `EnvironmentRuns.RefusedIsProvision` | internal/kube/blueprint.go:84-94 | And so do those of a call one of whose applies is refused |
| `Environment.Manager.Services` | internal/environment/manager.go:74-95 | Strictly sorted by name, and holds a service iff ResolveService returns it |
| `Environment.Manager.ResolveService` | internal/environment/manager.go:98-106 | A published service first, then a direct grant |
| `Environment.NewManager` | internal/environment/manager.go:35-49 | Refuses exactly an invalid blueprint, a missing reconciler or a missing base policy |
| `Reconciler.Operations` | internal/kube/blueprint.go:97-138 | Succeeds iff every resource maps and is namespaced; the namespace comes first, then every resource in order |
| `Reconciler.Cluster.Reconcile` | internal/kube/blueprint.go:78-95 | Nothing is applied unless everything maps; success applied all operations in order, failure a proper prefix |
| `Listing.List` | internal/authorization/credentials.go:310-316 | Collecting a grant map in any order and sorting gives its services strictly sorted, each exactly once |
| `Names.KeyNameIsLabel` | api/v1alpha1/userregistration.go:113-121 | For every string the key name is a DNS-1123 label of at most 63 characters |
| `Names.KeyNameFixedPoint` | api/v1alpha1/userregistration.go:113-121 | A text is its own key name iff it is a DNS-1123 label |
| `Names.KeyNameMeans` | api/v1alpha1/userregistration.go:113-121 | The resource name with hyphens for dots if that fits a label, else up to 50 characters of it and twelve digits of the digest |
| `Names.UndottedMeans` | api/v1alpha1/userregistration.go:114 | Hyphens for dots and nothing else |
| `Names.ResourceNameShape` | api/v1alpha1/userregistration.go:92-110 | For every string the resource name has at most 253 characters of [a-z0-9.-] with alphanumeric ends |
| `Names.ResourceNameMeans` | api/v1alpha1/userregistration.go:92-110 | The normalised text if the text needed no change and that is a subdomain, else up to 240 characters of it and twelve digits of the digest of the text as given |
| `Names.NormalizedMeans` | api/v1alpha1/userregistration.go:93-99 | Normalising trims dots and hyphens off the collapsed lower-case text, with a stand-in for nothing |
| `Names.CollapseReads` | api/v1alpha1/userregistration.go:96 | Collapsing keeps every name character and one hyphen for a run of others |
| `Names.ResourceNameFixedPoint` | api/v1alpha1/userregistration.go:92-102 | A resource name that is a subdomain names itself |
| `Names.ResourceNameCollision` | api/v1alpha1/userregistration.go:92-110 | Two identities share a resource name iff one spells the other's hashed name or two digests collide under one stem |
| `Names.ResourceNameNotInjective` | api/v1alpha1/userregistration.go:103-109 | For every digest function some identity does spell another's hashed name |
| `Names.SubdomainByStem` | api/v1alpha1/userregistration.go:92-110 | For every string the resource name is a subdomain iff every inner dot of its stem stands between letters or digits |
| `Names.SubdomainExactly` | api/v1alpha1/userregistration.go:92-110 | For every identity iff, after dropping the punctuation at its end, each of its own dots stands between letters or digits |
| `Names.DoubleDotIsNotRegistrable` | api/v1alpha1/userregistration.go:100-109 | The valid identity a..b does not meet that condition |
| `Registration.ValidatePublicKeys` | api/v1alpha1/userregistration.go:208-237 | The loop accepts iff there is a key, all are valid, and names and keys are distinct |
| `Registration.Validate` | api/v1alpha1/userregistration.go:163-188 | Accepts exactly the valid registrations |
| `Registration.ValidMeans` | api/v1alpha1/userregistration.go:163-237 | A registration is valid iff its envelope is the expected one, it is named after a registrable identity, an owner is an OIDC issuer and subject, and its keys parse alone and differ in name and content |
| `Registration.RegistrableExactly` | api/v1alpha1/userregistration.go:163-188 | With valid keys and a namespace, some document for an identity is valid iff the identity meets that condition |
| `RegistrationStore.Store.PutAs` | internal/registration/store.go:76-152 | PutAs as statements computes the specified effect, keeps the store invariant and only lets entries gain an owner |
| `RegistrationRuns.PutRefuses` | internal/registration/store.go:76-152 | A put is refused with the reason of the first demand it fails, of eight in order, and then changes nothing |
| `RegistrationRuns.PutAccepts` | internal/registration/store.go:90-152 | Otherwise it creates what was not there, with the random identifier, the time of the call, acceptance and its OIDC owner; an OIDC caller adopts what nobody owns; everything else is answered with the entry as it is |
| `RegistrationRuns.EntriesAreWriteOnce` | internal/registration/store.go:76-152 | Over every run an entry keeps its spec, UID, generation, creation time and acceptance, and an entry with an owner never changes again |
| `RegistrationRuns.OwnersAreJustified` | internal/registration/store.go:191-220 | Over every run the owner of an entry put that very spec earlier, authenticated by OIDC as spec.identity |
| `RegistrationRuns.RepeatChangesNothing` | internal/registration/store.go:90-105 | Over every run, once a put succeeded, a repeat at any later time by the same principal or by a caller without OIDC leaves the store unchanged and is answered with the stored entry |
| `RegistrationRuns.StoredEntryRefuses` | internal/registration/store.go:90-103 | A stored entry conflicts iff the spec differs, and forbids iff the spec is the same and another principal owns it |
| `RegistrationRuns.OneRegistrationPerIdentity` | api/v1alpha1/userregistration.go:178-187 | Over every run a namespace holds at most one registration per identity, at its resource name |
| `RegistrationRuns.OnlyRegistrable` | internal/registration/store.go:76-79 | Over every run only identities that meet it are ever registered |
| `RegistrationStore.Store.Authenticate` | internal/registration/store.go:231-254 | The scan accepts iff the one entry at the identity's resource name holds the identity and lists the key; it errs iff something in the namespace cannot be read |
| `RegistrationStore.AuthenticatesMeans` | internal/registration/store.go:238-253 | That is: some entry of the namespace holds the identity and a key that parses to the one presented |
| `RegistrationStore.Store.List` | internal/registration/store.go:256-283 | Exactly the entries of the namespace, or an error iff its directory or one of its files cannot be read |
| `RegistrationStore.Store.PublicKey` | internal/registration/store.go:155-189 | A failing read, ownership, acceptance and the first key of the name, as specified |
| `RegistrationStore.SearchFinds` | internal/registration/store.go:175-188 | With distinct names the key found is the only one of that name, and none is missed |
| `TokenExchange.NewIssuer` | internal/sshcert/issuer.go:35-49 | Accepts iff there is a signer and TTL and skew are within bounds; keeps both, a zero TTL as ten minutes |
| `TokenExchange.Handle` | internal/registration/token_exchange.go:66-132 | The handler answers as the decision chain specifies |
| `TokenExchange.IssuedExactlyWhen` | internal/registration/token_exchange.go:66-131 | A certificate is issued iff the request is form-encoded and parses, has the grant type, subject token, requested type, audience, scope and key id it must, its OIDC principal has an identity and owns the registration listing the key, the store can be read, and signing works |
| `TokenExchange.RefusedExactly` | internal/registration/token_exchange.go:66-123 | A refused request is answered with the refusal of the first of twelve demands that fails |
| `TokenExchange.CertificatesAreBacked` | internal/registration/token_exchange.go:66-131 | Over every run each certificate answers a proper request, certifies the only key of the requested name in an accepted registration owned by the principal then and ever after, names that identity alone, and is identified by issuer, subject and key name |
| `TokenExchange.CertificatesAreTimely` | internal/sshcert/issuer.go:93-101 | Over every run each certificate ends within the last second of now+ttl, begins within the second that ends at now minus the skew, and expires_in is off by under a second |
| `TokenExchange.CertifiedIdentity` | internal/registration/token_exchange.go:107-108 | The certified identity differs from the registered one only where two identities share a resource name |
| `TokenExchange.ChangedIdentityIsCertified` | internal/registration/token_exchange.go:97-118 | A run in which this happens: one issuer and subject registers A and later stands for the identity that spells the resource name of A |
| `TokenExchange.CertifiedIsRegistered` | internal/registration/token_exchange.go:107-118 | Over every run, if its issuer and subject always stood for one identity, a certificate names the registered identity itself |
| `CredentialStore.ParseCredentials` | internal/authorization/credentials.go:351-415 | The loops compute the meaning of a file, or refuse it, in any map order |
| `CredentialStore.WithoutInvites` | internal/authorization/credentials.go:149-153 | Deleting while walking drops exactly the identity's invites |
| `CredentialStore.Store.CreateInvite` | internal/authorization/credentials.go:121-164 | As specified, from an absent or existing file |
| `CredentialStore.Store.GrantService` | internal/authorization/credentials.go:167-208 | As specified, from an absent or existing file |
| `CredentialStore.Store.Enroll` | internal/authorization/credentials.go:247-284 | As specified; the new token is loaded at once |
| `CredentialStore.Store.AuthenticateToken` | internal/authorization/credentials.go:211-217 | Accepts iff the token hashes to the one last loaded for the identity |
| `CredentialStore.Store.ListServices` | internal/authorization/credentials.go:302-317 | Succeeds iff the file can be read and parses; strictly sorted, and exactly the services ResolveService returns |
| `CredentialStore.Store.ResolveService` | internal/authorization/credentials.go:320-330 | The grant in the file as it is now |
| `CredentialRuns.GrantRoundTrip` | internal/authorization/credentials.go:167-208 | A granted file parses; the service resolves as given with zeros filled in, and everything else means what it meant |
| `CredentialMeaning.GrantExactly` | internal/authorization/credentials.go:167-208 | A grant succeeds iff identity and service are in order, the file parses or is absent and the disk plays along; it answers the service as given, with the target's port, one replica and two minutes for zeros, and a zero idle timeout kept |
| `CredentialMeaning.RecordMeans` | internal/authorization/credentials.go:386-411 | A record is loaded iff what it describes can be granted, a blank ready timeout meaning two minutes and a blank idle timeout ten |
| `CredentialMeaning.ParsesMeans` | internal/authorization/credentials.go:351-415 | A file parses iff it says something, its identities are valid, its users have hashes or tokens of sixteen characters, its invites are hashes, and its services can be granted |
| `CredentialMeaning.LoadedUserAuthenticates` | internal/authorization/credentials.go:211-217 | A loaded user presents a legacy token itself, or a token with the stored hash in either case |
| `CredentialRuns.RecordRoundTrip` | internal/authorization/credentials.go:391-411 | A normalised service survives its record; zero idle timeout stays zero |
| `CredentialRuns.NormalTwice` | internal/authorization/credentials.go:477-518 | Normalising is idempotent, gives at least one replica and a local port, and keeps the idle timeout |
| `CredentialRuns.UsersSurvive` | internal/authorization/credentials.go:450-455 | Rewriting users as hashes keeps every identity and token valid, legacy plaintext included |
| `CredentialRuns.GrantKeepsTokens` | internal/authorization/credentials.go:167-217 | A grant leaves every token of everybody valid or invalid as it was |
| `CredentialRuns.InviteKeepsTokens` | internal/authorization/credentials.go:121-217 | So does an invite |
| `CredentialRuns.EnrollKeepsTokens` | internal/authorization/credentials.go:247-279 | An enrolment does for everybody else, and makes the new token the identity's only one |
| `CredentialRuns.InviteMeaning` | internal/authorization/credentials.go:149-159 | An invite replaces the identity's outstanding ones and changes nothing else |
| `CredentialRuns.EnrollMeaning` | internal/authorization/credentials.go:270-279 | Enrolling replaces exactly that identity's token and consumes exactly that invite |
| `CredentialRuns.InviteExactly` | internal/authorization/credentials.go:121-164 | An invite is made iff the identity is valid, the file parses or is absent, a token can be generated and the disk plays along; the token answered is the one outstanding |
| `CredentialRuns.EnrollExactly` | internal/authorization/credentials.go:247-284 | An enrolment succeeds iff the file parses, the invite is outstanding for the identity, a token can be generated and the disk plays along; the token answered authenticates |
| `CredentialRuns.InvitesAreSingleUse` | internal/authorization/credentials.go:121-284 | Over every run of whole operations with fresh tokens the file parses, each identity has at most one outstanding invite, each invite is redeemed at most once and by its identity |
| `CredentialRuns.HarmlessExactly` | internal/authorization/credentials.go:149-279 | One stale write keeps the invariant iff no redeemed invite is among those its draft saw and carries |
| `CredentialRuns.SingleUseExactly` | internal/authorization/credentials.go:121-284 | The same in every interleaving of processes that read and later write, throughout the run iff no successful write carries an invite redeemed since it was read |
| `CredentialRuns.OneWriterIsEnough` | internal/authorization/credentials.go:121-284 | In particular when each write finds the file it read |
| `CredentialRuns.OverlapRun` | internal/authorization/credentials.go:253-274 | A run from an absent file, for every identity and token: two overlapping enrolments redeem one invite twice |
| `CredentialRuns.RevivalRun` | internal/authorization/credentials.go:175-207 | Another: a grant written over an enrolment it did not see brings the invite back, and it is redeemed again |
| `Admissibility.GrantsAreAdmissible` | internal/authorization/credentials.go:477-518 | Every direct grant meets the lifecycle's assumptions of a policy |
| `Admissibility.PublishedIsAdmissible` | internal/environment/manager.go:119-132 | So does every service published from a validated blueprint |
| `Admissibility.GrantsAreNamed` | internal/authorization/credentials.go:390-411 | Every grant is kept under its own name |
| `AuthorizedKeys.UpsertPublicKey` | internal/authorization/public_keys.go:56-81 | The loop computes the specified upsert |
| `AuthorizedKeys.UpsertExactly` | internal/authorization/public_keys.go:56-81 | An upsert succeeds iff the identity is valid, the document parses and its lines can be read up to the key; it changes no other identity, and adds one line with the key iff it was missing |
| `AuthorizedKeys.UpsertGrows` | internal/authorization/public_keys.go:63-80 | An upsert keeps every line in place, has the key afterwards, and adds no duplicate |
| `AuthorizedKeys.NoKeyIsLost` | internal/kube/authorized_keys.go:64-108 | In every interleaving, lost answers and other edits included, no stored line disappears or moves |
| `AuthorizedKeys.NothingElseIsWritten` | internal/kube/authorized_keys.go:64-108 | In every interleaving a line that was not there at the start has a key that some client began to register, under that client's identity |
| `AuthorizedKeys.CommitTrace` | internal/kube/authorized_keys.go:69-104 | In every interleaving a commit stores only what was computed from the current Secret, keeps every other value, and tries a stale update again, five times in all |
| `AuthorizedKeys.GetTrace` | internal/kube/authorized_keys.go:66-87 | A client reads the Secret as it is, or gives up |
| `AuthorizedKeys.SuccessIsDurable` | internal/kube/authorized_keys.go:64-108 | A client that returned success has its key in every later document, exactly once if there were no duplicates |

## Left out

- SSH transport, channels, byte proxying and the readiness dial loop: a dial is one answer.
- A denied service, before any runtime is looked up: it changes nothing.
- Labels and durations in metrics, logs and the counters other than the three gauges.
- Several gateway replicas: the documentation says they are not coordinated.
- LifecycleTheorems.NeverDownWhileConnected: does not cover runs with a Shutdown of the runtime, which scales down whatever is connected.
- LifecycleTheorems.RestedExactlyWhenStored: the converse of StoredMeansRested does not cover runs with a Shutdown of the runtime, which forgets a stored timer without ending its idle period.
- LifecycleGateway.Gateway.Shutdown: takes the slice of runtimes as an argument, because the order of a map walk is arbitrary and other sections run between its iterations.
- JSON and YAML encoding, file permissions and temporary files; a stored timestamp is rounded to the second as its YAML form is.
- A registration or credential file damaged by hand: the stores start empty and only their own operations write.
- A public-key document that is the JSON value null, and public keys loaded from a local file.
- The retry of key registration as a loop in one process: `AuthorizedKeys` has its steps, at most five attempts, as transitions, because other clients act between them.
- OIDC discovery and token verification, the certificate check at login, certificate extensions and serial numbers.
- Resource bodies other than the fields validation reads; copying a resource cannot fail here.
- The command line, profiles, host keys, deployment files and the enrollment user prefix, which would only add easy members.
