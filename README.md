# Portus registry event resolution, in Dafny

This project models how the Portus `Registry` model (`app/models/registry.rb`)
handles a push notification from a Docker registry. It works out which registry
sent the event, which namespace and repository the event names, and which tag
was pushed. The model is made of pure functions. The database and the registry
client are explicit inputs:

- **Database.** A `Registry` record holds its namespaces in scan order. Each
  namespace holds its repositories, and each repository holds its stored tag
  names. `find_by` returns the first matching row (`Lookup.FindBy`).
- **Client.** A `Client` value holds the answers of `tags(repository)`,
  `manifest(repository, digest)` and `reachable?`. That means no data, a value,
  or a raised exception.
- **Call trace.** Every resolution result is a `Traced` value. It holds the
  outcome (a value, or a raised exception) and the list of client calls made.
  The trace is what lets the contracts say "no client call happens" and "at
  most one call is made".
- **Exceptions.** The four classes the tag resolver rescues
  (`RequestError`, `NotFoundError`, `UnsupportedMediaType`, `ManifestError`)
  become `nil`. Any other class (`Other`) propagates, as in the code.

Files:

- `wrappers.dfy`: `Option`, the error kinds and `Outcome`.
- `lookup.dfy`: `find_by`.
- `ruby_ops.dfy`: Ruby's `split("/", 2)`, `Array#first` and `Array#-`, with their properties.
- `records.dfy`: the event, the database records, the client answers, and `blank?`/`present?`.
- `registry.dfy`: the operations of `Registry`.
- `properties.dfy`: lemmas that relate several operations, and one worked case.

Some details of the code are easy to misread. The model follows the code:

- The manifest request uses the event's raw `target.repository`, not a
  namespace-qualified name (registry.rb:204).
- The tag listing uses the namespace-qualified name unless the namespace found
  is global (registry.rb:178). So a path that names the global namespace
  explicitly is listed without its prefix (`GlobalNamespaceByNameDropsPrefix`).
- With `fetch_tag`, an unresolved tag makes the whole result `nil`, not a triple
  without a tag (registry.rb:103).
- A manifest whose `tag` field is an empty string gives the tag `""`. Only
  `nil` is treated as unresolved.

## Model

| member | source | states |
|---|---|---|
| `RubyOps.SplitAtFirstSlash` | app/models/registry.rb:89-90 | No result exactly when the path has no `/`. Otherwise the path is prefix + `/` + remainder, and the prefix has no `/`. |
| `RubyOps.SplitAtFirstSlashUnique` | app/models/registry.rb:89-90 | Any slash-free prefix, `/`, remainder decomposition of a path is the one the split returns. So the remainder keeps any further slashes. |
| `RubyOps.First` | app/models/registry.rb:183 | `first` is None exactly on an empty array, and otherwise is element 0. |
| `RubyOps.Difference` | app/models/registry.rb:185 | `a - b` holds exactly the elements of `a` that do not occur in `b`, and is never longer than `a`. |
| `RubyOps.DifferenceEmpty` | app/models/registry.rb:185-192 | `a - b` is empty, so `first` is `nil`, exactly when every element of `a` is in `b`. |
| `RubyOps.DifferenceHead` | app/models/registry.rb:185-192 | The head of a non-empty `a - b` is the first element of `a`, in `a`'s order, that is missing from `b`. |
| `RubyOps.DifferenceNothing` | app/models/registry.rb:182-185 | Removing no names leaves the live list unchanged. So a repository that is not stored picks the same first tag as one with no stored tags. |
| `Records.Present` | app/models/registry.rb:150 | ActiveSupport's `present?`: `nil` is not present, and a string is present exactly when it has a character outside Unicode White_Space (Ruby's `[[:space:]]`). So the empty string and all-blank strings are not present. |
| `Lookup.FindIndex` | app/models/registry.rb:91 | The index returned is the first row that matches. None exactly when no row matches. |
| `Lookup.FindBy` | app/models/registry.rb:91 | `find_by` returns a matching row of the table. It is `nil` exactly when no row matches. |
| `RegistryEvents.GlobalNamespace` | app/models/registry.rb:58-60 | The registry's global namespace if there is one. None exactly when no namespace of the registry is global. |
| `RegistryEvents.NamespaceNamed` | app/models/registry.rb:91 | A namespace of this registry with the given name. None exactly when no namespace has that name. |
| `RegistryEvents.RepositoryNamed` | app/models/registry.rb:117 | A repository of the namespace with the given name. None exactly when no repository has that name. |
| `RegistryEvents.StoredTagNames` | app/models/registry.rb:182-185 | No names when no repository of that name is stored. Otherwise the stored tag names of the repository that `find_by` picks. |
| `RegistryEvents.Locate` | app/models/registry.rb:88-99 | A bare path resolves to the global namespace with the path unchanged, and fails only when no namespace is global. A qualified path resolves to a namespace named by its prefix, with namespace name + `/` + repository equal to the path. It fails exactly when no namespace has that prefix as its name. Every namespace it returns is global or has a slash-free name. |
| `RegistryEvents.ListingName` | app/models/registry.rb:178 | The bare repository name in the global namespace. Otherwise `ns/repo`, which the locator's first-slash split takes back apart into the same namespace name and repository whenever the namespace name is slash-free, as it is for every non-global namespace `Locate` returns. |
| `RegistryEvents.GetTagFromList` | app/models/registry.rb:177-193 | Makes exactly one listing call, for the prefix-free name in the global namespace and `ns/repo` otherwise. No data gives None, a failure propagates, and a live list gives a live tag that is not stored. The result is None exactly when every live tag is stored. |
| `RegistryEvents.GetTagFromManifest` | app/models/registry.rb:203-206 | Makes exactly one manifest call, with the raw repository path and the digest. Returns the manifest's `tag` field, or propagates the client's exception. |
| `RegistryEvents.Rescued` | app/models/registry.rb:166-168 | The rescued classes are exactly `RequestError`, `NotFoundError`, `UnsupportedMediaType` and `ManifestError`. No other class is rescued. |
| `RegistryEvents.Rescue` | app/models/registry.rb:166-171 | Keeps the calls. Any of the four rescued classes becomes `nil`. Values and unrescued exceptions pass through unchanged, so what escapes is never a rescued class. |
| `RegistryEvents.GetTagFromTarget` | app/models/registry.rb:147-172 | A present event tag is returned with no client call. The v1 types make only the manifest call with raw repository and digest, and the v2 and list types make only the listing call. Any other type gives None with no call. No rescued class escapes, and there is at most one call. |
| `RegistryEvents.GetNamespaceFromEvent` | app/models/registry.rb:87-109 | An unknown namespace gives None with no call. Without `fetch_tag` a located event gives the triple (namespace, repository, None) with no call. With `fetch_tag` a returned triple always has a tag. The namespace and repository are the located ones, at most one call is made, and no rescued class escapes. |
| `RegistryEvents.GetRepositoryFromEvent` | app/models/registry.rb:113-121 | Makes the same calls as the namespace lookup. An exception from it escapes unchanged. An unresolved event gives None. For a located event the result is None exactly when no repository of that name is stored or it is marked, and otherwise it is the stored repository, which is unmarked and has the located name. |
| `RegistryEvents.ByHostnameOrExternal` | app/models/registry.rb:48-55 | A registry whose hostname matches is returned whenever one exists. Only when none does is the external hostname consulted, and then the result is None exactly when no external hostname matches. |
| `RegistryEvents.FindFromEvent` | app/models/registry.rb:69-78 | The same hostname-first, external-second lookup, applied to the event's `request.host`. |
| `RegistryEvents.ReachableHostname` | app/models/registry.rb:140-142 | The external hostname when it is present (non-blank), and otherwise the hostname. |
| `RegistryEvents.Reachable` | app/models/registry.rb:126-135 | `""` for a v2 registry and a non-empty explanation otherwise. The message of a `RequestError`. Any other exception propagates. |
| `EventProperties.LocateQualifiedPath` | app/models/registry.rb:88-93 | `ns/rest` is located as that namespace by name with repository `rest`, for any `rest` (slashes included), or not at all when no namespace has that name. |
| `EventProperties.ListingNameIsEventPath` | app/models/registry.rb:178 | When the namespace found is global exactly for bare paths, the listing is asked for the event's own repository path. |
| `EventProperties.GlobalNamespaceByNameDropsPrefix` | app/models/registry.rb:178 | A qualified path that names the global namespace is listed under a name different from the event's path. |
| `EventProperties.TagFromListIsFirstMissing` | app/models/registry.rb:177-192 | Given a live list, the result is the head of live minus stored. It is None exactly when every live tag is stored, and otherwise it is the first live tag, in listing order, that is not stored. |
| `EventProperties.ManifestStrategy` | app/models/registry.rb:155-158 | With no event tag and a v1 type, the result is the manifest's tag. A failure gives None when its class is rescued and propagates otherwise. |
| `EventProperties.ListStrategy` | app/models/registry.rb:159-161 | With no event tag and a v2 or list type: no data gives None, a failure is rescued or propagated by class, and a live list gives the first live tag not yet stored. |
| `EventProperties.FetchedTagCompletesTriple` | app/models/registry.rb:101-108 | With `fetch_tag`, a located event gives the full triple when the tag resolves, None overall when it resolves to `nil`, and the same exception when tag resolution raises one. The calls are those of tag resolution. |
| `EventProperties.RepositoryFromEventCases` | app/models/registry.rb:113-120 | The result is None exactly when the event is unresolved, the repository is not stored, or it is marked. Otherwise it is the stored repository. |
| `EventProperties.FoundByOwnHostname` | app/models/registry.rb:48-55 | With unique hostnames, every registry is found by its own hostname. |
| `EventProperties.ReachableHostnameFindsRegistry` | app/models/registry.rb:140-142 | For the single supported registry, the lookup by its advertised hostname finds that registry. |
| `EventProperties.SecondLiveTagResolved` | app/models/registry.rb:177-192 | With a client that lists tags a, b, c, d for `team/app`, where only a is stored, a tagless v2 event for `team/app` resolves to the triple (team, app, `b`) after one listing call for `team/app`. |

## Left out

- `create_namespaces!` is left out. It only creates records: a team, the global namespace and personal namespaces.
- ActiveRecord associations, validations and `Registry.get` are left out. They are persistence plumbing. Hostname uniqueness appears only as the requirement of `FoundByOwnHostname`.
- `client` and the registry client's HTTP/TLS transport are not modelled. The client is reduced to the answers it gives.
- Logging calls are left out. They do not affect any result.
- The exception class hierarchy is not part of this model. The four rescued classes and `RequestError` in `reachable?` are matched by name, and every other class is `Other` and propagates.
- An event without a `request` object, for which registry.rb:70 raises `NoMethodError`, is not modelled. `Event.requestHost` models only a missing or `nil` host.
- An event whose `target.repository` is not a string, which makes Ruby raise `NoMethodError`, is not modelled. A missing `mediaType` is read as the empty string, which selects no strategy, the same as `nil` in the code.
- Names and hostnames are compared by exact string equality. The database's collation (case-insensitive and trailing-space-insensitive under MySQL/MariaDB defaults) can make `find_by` treat more strings as equal, so a lookup the model answers with None may find a row in the database.
- `find_by`'s row order is the database's. The model fixes it as sequence order.
- `Records.Blank` follows `[[:space:]]` as the Unicode White_Space characters. String encodings and invalid byte sequences are not modelled.
