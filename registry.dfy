/** Event resolution of the `Registry` model: from a push notification, which
    registry, namespace, repository and tag it refers to. */
module RegistryEvents {
  import opened Wrappers
  import opened Records
  import opened Lookup
  import opened RubyOps

  // The manifest media types the tag resolver knows.
  const ManifestV1 := "application/vnd.docker.distribution.manifest.v1+json"
  const ManifestV1Signed := "application/vnd.docker.distribution.manifest.v1+prettyjws"
  const ManifestV2 := "application/vnd.docker.distribution.manifest.v2+json"
  const ManifestListV2 := "application/vnd.docker.distribution.manifest.list.v2+json"

  /** Returned by `reachable?` when the registry answers but does not speak v2. */
  const NotV2Message := "Error: registry does not implement v2 of the API."

  /** A namespace and the repository name inside it. */
  datatype Place = Place(namespace: Namespace, repository: string)

  /** What `get_namespace_from_event` returns when it does not return `nil`. */
  datatype Located = Located(namespace: Namespace, repository: string, tag: Option<string>)

  // ---------------------------------------------------------------------------
  // Database lookups

  /** `global_namespace`: the namespace of the registry flagged global. */
  function GlobalNamespace(reg: Registry): (r: Option<Namespace>)
    ensures r.Some? ==> r.value in reg.namespaces && r.value.global
    ensures r.None? <==> forall ns :: ns in reg.namespaces ==> !ns.global
  {
    FindBy(reg.namespaces, (ns: Namespace) => ns.global)
  }

  /** `namespaces.find_by(name: name)`. */
  function NamespaceNamed(reg: Registry, name: string): (r: Option<Namespace>)
    ensures r.Some? ==> r.value in reg.namespaces && r.value.name == name
    ensures r.None? <==> forall ns :: ns in reg.namespaces ==> ns.name != name
  {
    FindBy(reg.namespaces, (ns: Namespace) => ns.name == name)
  }

  /** `Repository.find_by(name: name, namespace: ns)`, also written `ns.repositories.find_by(name: name)`. */
  function RepositoryNamed(ns: Namespace, name: string): (r: Option<Repository>)
    ensures r.Some? ==> r.value in ns.repositories && r.value.name == name
    ensures r.None? <==> forall repo :: repo in ns.repositories ==> repo.name != name
  {
    FindBy(ns.repositories, (repo: Repository) => repo.name == name)
  }

  /** `repo.tags.pluck(:name)`, with no names when the repository is not stored. */
  function StoredTagNames(ns: Namespace, repository: string): (r: seq<string>)
    ensures (forall repo :: repo in ns.repositories ==> repo.name != repository) ==> r == []
    ensures RepositoryNamed(ns, repository).Some? ==> r == RepositoryNamed(ns, repository).value.tagNames
    ensures r != [] ==>
      exists repo :: repo in ns.repositories && repo.name == repository && repo.tagNames == r
  {
    match RepositoryNamed(ns, repository)
    case None => []
    case Some(repo) => repo.tagNames
  }

  // ---------------------------------------------------------------------------
  // Namespace/repository locator

  /** The namespace and repository name an event's `target.repository` denotes:
      a qualified path is split at its first `/` and its prefix looked up by name;
      a bare path belongs to the global namespace. None when no namespace is found. */
  function Locate(reg: Registry, path: string): (r: Option<Place>)
    ensures r.Some? ==> r.value.namespace in reg.namespaces
    ensures r.Some? ==> r.value.namespace.global || '/' !in r.value.namespace.name
    ensures '/' !in path ==> (r.None? <==> forall ns :: ns in reg.namespaces ==> !ns.global)
    ensures '/' !in path && r.Some? ==> r.value.namespace.global && r.value.repository == path
    ensures '/' in path ==>
      (r.None? <==> forall ns :: ns in reg.namespaces ==> ns.name != SplitAtFirstSlash(path).value.0)
    ensures '/' in path && r.Some? ==>
      && '/' !in r.value.namespace.name
      && r.value.namespace.name + "/" + r.value.repository == path
  {
    match SplitAtFirstSlash(path)
    case None =>
      (match GlobalNamespace(reg)
       case None => None
       case Some(ns) => Some(Place(ns, path)))
    case Some((namespaceName, repository)) =>
      (match NamespaceNamed(reg, namespaceName)
       case None => None
       case Some(ns) => Some(Place(ns, repository)))
  }

  // ---------------------------------------------------------------------------
  // Tag resolver

  /** The exception classes `get_tag_from_target` rescues. */
  predicate Rescued(kind: ErrorKind)
    ensures Rescued(kind) <==> !kind.Other?
  {
    kind.RequestError? || kind.NotFoundError? || kind.UnsupportedMediaType? || kind.ManifestError?
  }

  /** The repository name the tag listing is asked for: no prefix in the global namespace. */
  function ListingName(ns: Namespace, repository: string): (r: string)
    ensures ns.global ==> r == repository
    ensures !ns.global && '/' !in ns.name ==> SplitAtFirstSlash(r) == Some((ns.name, repository))
  {
    if ns.global then repository
    else
      var full := ns.name + "/" + repository;
      // Both branches return `full`; the second only carries the proof of the split.
      if '/' in ns.name then full
      else
        SplitAtFirstSlashUnique(full, ns.name, repository);
        full
  }

  /** `get_tag_from_list`: the first live tag, in the registry's order, that is
      not stored for the repository yet (any live tag counts when the repository
      is not stored). Exactly one tag-listing call is made. */
  function GetTagFromList(ns: Namespace, repository: string, client: Client): (r: Traced<Option<string>>)
    ensures r.calls == [TagsCall(ListingName(ns, repository))]
    ensures client.tags(ListingName(ns, repository)).NoData? ==> r.outcome == Done(None)
    ensures client.tags(ListingName(ns, repository)).TagsFailed? ==>
      r.outcome == Raised(client.tags(ListingName(ns, repository)).error)
    ensures client.tags(ListingName(ns, repository)).Tags? ==>
      var live := client.tags(ListingName(ns, repository)).names;
      var stored := StoredTagNames(ns, repository);
      && r.outcome.Done?
      && (r.outcome.value.None? <==> forall t :: t in live ==> t in stored)
      && (r.outcome.value.Some? ==> r.outcome.value.value in live && r.outcome.value.value !in stored)
  {
    var full := ListingName(ns, repository);
    var calls := [TagsCall(full)];
    match client.tags(full)
    case TagsFailed(e) => Traced(Raised(e), calls)
    case NoData => Traced(Done(None), calls)
    case Tags(live) =>
      match RepositoryNamed(ns, repository)
      case None =>
        assert live != [] ==> live[0] in live;
        Traced(Done(First(live)), calls)
      case Some(repo) =>
        var missing := Difference(live, repo.tagNames);
        assert missing != [] ==> missing[0] in missing;
        Traced(Done(First(missing)), calls)
  }

  /** `get_tag_from_manifest`: the `tag` field of the manifest fetched with the
      event's raw repository path and digest; client exceptions are not rescued here. */
  function GetTagFromManifest(target: Target, client: Client): (r: Traced<Option<string>>)
    ensures r.calls == [ManifestCall(target.repository, target.digest)]
    ensures client.manifest(target.repository, target.digest).Manifest? ==>
      r.outcome == Done(client.manifest(target.repository, target.digest).tag)
    ensures client.manifest(target.repository, target.digest).ManifestFailed? ==>
      r.outcome == Raised(client.manifest(target.repository, target.digest).error)
  {
    var calls := [ManifestCall(target.repository, target.digest)];
    match client.manifest(target.repository, target.digest)
    case Manifest(tag) => Traced(Done(tag), calls)
    case ManifestFailed(e) => Traced(Raised(e), calls)
  }

  /** The `rescue` clause of `get_tag_from_target`: the four rescued classes become `nil`. */
  function Rescue(t: Traced<Option<string>>): (r: Traced<Option<string>>)
    ensures r.calls == t.calls
    ensures r.outcome.Raised? ==> !Rescued(r.outcome.error.kind)
    ensures t.outcome.Raised? && Rescued(t.outcome.error.kind) ==> r.outcome == Done(None)
    ensures t.outcome.Done? || !Rescued(t.outcome.error.kind) ==> r == t
  {
    if t.outcome.Raised? && Rescued(t.outcome.error.kind) then Traced(Done(None), t.calls) else t
  }

  /** `get_tag_from_target`: the event's own tag when present; otherwise the
      strategy its media type selects. Rescued failures yield None; at most one
      client call is made. */
  function GetTagFromTarget(ns: Namespace, repository: string, target: Target, client: Client)
    : (r: Traced<Option<string>>)
    ensures Present(target.tag) ==> r == Traced(Done(target.tag), [])
    ensures !Present(target.tag) && target.mediaType in {ManifestV1, ManifestV1Signed} ==>
      r.calls == [ManifestCall(target.repository, target.digest)]
    ensures !Present(target.tag) && target.mediaType in {ManifestV2, ManifestListV2} ==>
      r.calls == [TagsCall(ListingName(ns, repository))]
    ensures !Present(target.tag)
              && target.mediaType !in {ManifestV1, ManifestV1Signed, ManifestV2, ManifestListV2} ==>
      r == Traced(Done(None), [])
    ensures r.outcome.Raised? ==> !Rescued(r.outcome.error.kind)
    ensures |r.calls| <= 1
  {
    if Present(target.tag) then Traced(Done(target.tag), [])
    else
      var mediaType := target.mediaType;
      var attempt :=
        if mediaType == ManifestV1 || mediaType == ManifestV1Signed then
          GetTagFromManifest(target, client)
        else if mediaType == ManifestV2 || mediaType == ManifestListV2 then
          GetTagFromList(ns, repository, client)
        else
          Traced(Raised(Error(UnsupportedMediaType, "unsupported media type \"" + mediaType + "\"")), []);
      Rescue(attempt)
  }

  // ---------------------------------------------------------------------------
  // Event resolution

  /** `get_namespace_from_event`: the located namespace and repository name, with
      the resolved tag when `fetchTag` holds. None when the namespace is unknown
      or, with `fetchTag`, when no tag is resolved. */
  function GetNamespaceFromEvent(reg: Registry, event: Event, fetchTag: bool, client: Client)
    : (r: Traced<Option<Located>>)
    ensures Locate(reg, event.target.repository).None? ==> r == Traced(Done(None), [])
    ensures !fetchTag ==> r.calls == [] && r.outcome.Done?
    ensures !fetchTag && Locate(reg, event.target.repository).Some? ==>
      var p := Locate(reg, event.target.repository).value;
      r.outcome == Done(Some(Located(p.namespace, p.repository, None)))
    ensures fetchTag && r.outcome.Done? && r.outcome.value.Some? ==> r.outcome.value.value.tag.Some?
    ensures r.outcome.Done? && r.outcome.value.Some? ==>
      && Locate(reg, event.target.repository)
           == Some(Place(r.outcome.value.value.namespace, r.outcome.value.value.repository))
    ensures r.outcome.Raised? ==> !Rescued(r.outcome.error.kind)
    ensures |r.calls| <= 1
  {
    match Locate(reg, event.target.repository)
    case None => Traced(Done(None), [])
    case Some(Place(ns, repository)) =>
      if !fetchTag then Traced(Done(Some(Located(ns, repository, None))), [])
      else
        var t := GetTagFromTarget(ns, repository, event.target, client);
        match t.outcome
        case Raised(e) => Traced(Raised(e), t.calls)
        case Done(None) => Traced(Done(None), t.calls)
        case Done(Some(tag)) => Traced(Done(Some(Located(ns, repository, Some(tag)))), t.calls)
  }

  /** `get_repository_from_event`: the stored, unmarked repository the event refers to. */
  function GetRepositoryFromEvent(reg: Registry, event: Event, fetchTag: bool, client: Client)
    : (r: Traced<Option<Repository>>)
    ensures r.calls == GetNamespaceFromEvent(reg, event, fetchTag, client).calls
    ensures r.outcome.Raised? <==> GetNamespaceFromEvent(reg, event, fetchTag, client).outcome.Raised?
    ensures r.outcome.Done? && r.outcome.value.Some? ==>
      var loc := GetNamespaceFromEvent(reg, event, fetchTag, client).outcome;
      && loc.Done? && loc.value.Some?
      && r.outcome.value.value in loc.value.value.namespace.repositories
      && r.outcome.value.value.name == loc.value.value.repository
      && !r.outcome.value.value.marked
    ensures GetNamespaceFromEvent(reg, event, fetchTag, client).outcome.Raised? ==>
      r.outcome == Raised(GetNamespaceFromEvent(reg, event, fetchTag, client).outcome.error)
    ensures GetNamespaceFromEvent(reg, event, fetchTag, client).outcome == Done(None) ==>
      r.outcome == Done(None)
    ensures GetNamespaceFromEvent(reg, event, fetchTag, client).outcome.Done?
              && GetNamespaceFromEvent(reg, event, fetchTag, client).outcome.value.Some? ==>
      var l := GetNamespaceFromEvent(reg, event, fetchTag, client).outcome.value.value;
      var found := RepositoryNamed(l.namespace, l.repository);
      && (r.outcome == Done(None) <==> found.None? || found.value.marked)
      && (r.outcome.Done? && r.outcome.value.Some? ==> r.outcome.value == found)
  {
    var l := GetNamespaceFromEvent(reg, event, fetchTag, client);
    match l.outcome
    case Raised(e) => Traced(Raised(e), l.calls)
    case Done(None) => Traced(Done(None), l.calls)
    case Done(Some(loc)) =>
      match RepositoryNamed(loc.namespace, loc.repository)
      case None => Traced(Done(None), l.calls)
      case Some(repo) => if repo.marked then Traced(Done(None), l.calls) else Traced(Done(Some(repo)), l.calls)
  }

  // ---------------------------------------------------------------------------
  // Hostnames and reachability

  /** `Registry.by_hostname_or_external`: a registry whose `hostname` matches when
      there is one; only otherwise one whose `external_hostname` matches. */
  function ByHostnameOrExternal(regs: seq<Registry>, host: Option<string>): (r: Option<Registry>)
    ensures r.Some? ==> r.value in regs
    ensures (exists reg :: reg in regs && Some(reg.hostname) == host) ==>
      r.Some? && Some(r.value.hostname) == host
    ensures (forall reg :: reg in regs ==> Some(reg.hostname) != host) ==>
      && (r.Some? <==> exists reg :: reg in regs && reg.externalHostname == host)
      && (r.Some? ==> r.value.externalHostname == host)
  {
    match FindBy(regs, (reg: Registry) => Some(reg.hostname) == host)
    case Some(reg) => Some(reg)
    case None => FindBy(regs, (reg: Registry) => reg.externalHostname == host)
  }

  /** `Registry.find_from_event`: the same lookup, for the event's `request.host`. */
  function FindFromEvent(regs: seq<Registry>, event: Event): (r: Option<Registry>)
    ensures r.Some? ==> r.value in regs
    ensures (exists reg :: reg in regs && Some(reg.hostname) == event.requestHost) ==>
      r.Some? && Some(r.value.hostname) == event.requestHost
    ensures (forall reg :: reg in regs ==> Some(reg.hostname) != event.requestHost) ==>
      && (r.Some? <==> exists reg :: reg in regs && reg.externalHostname == event.requestHost)
      && (r.Some? ==> r.value.externalHostname == event.requestHost)
  {
    ByHostnameOrExternal(regs, event.requestHost)
  }

  /** `reachable_hostname`: the external hostname when present, else the hostname. */
  function ReachableHostname(reg: Registry): (r: string)
    ensures Present(reg.externalHostname) ==> r == reg.externalHostname.value
    ensures !Present(reg.externalHostname) ==> r == reg.hostname
  {
    if Present(reg.externalHostname) then reg.externalHostname.value else reg.hostname
  }

  /** `reachable?`: "" when the registry speaks v2, an explanation when it does
      not, the message of a `RequestError`; any other exception propagates. */
  function Reachable(client: Client): (r: Outcome<string>)
    ensures client.reachable == Answered(true) ==> r == Done("")
    ensures client.reachable == Answered(false) ==> r == Done(NotV2Message) && r.value != ""
    ensures client.reachable.ReachFailed? && client.reachable.error.kind.RequestError? ==>
      r == Done(client.reachable.error.message)
    ensures client.reachable.ReachFailed? && !client.reachable.error.kind.RequestError? ==>
      r == Raised(client.reachable.error)
  {
    match client.reachable
    case Answered(ok) => Done(if ok then "" else NotV2Message)
    case ReachFailed(e) => if e.kind.RequestError? then Done(e.message) else Raised(e)
  }
}
