/** Properties of event resolution that relate several operations. */
module EventProperties {
  import opened Wrappers
  import opened Records
  import opened RubyOps
  import opened RegistryEvents

  // ---------------------------------------------------------------------------
  // Locator

  /** A qualified path is split at its first `/`: the prefix names the namespace
      and the whole remainder, slashes included, is the repository name. */
  lemma LocateQualifiedPath(reg: Registry, namespaceName: string, rest: string)
    requires '/' !in namespaceName
    ensures Locate(reg, namespaceName + "/" + rest) ==
      match NamespaceNamed(reg, namespaceName)
      case None => None
      case Some(ns) => Some(Place(ns, rest))
  {
    SplitAtFirstSlashUnique(namespaceName + "/" + rest, namespaceName, rest);
  }

  /** When the namespace found is global exactly for bare paths, the tag listing
      is asked for the event's own repository path. */
  lemma ListingNameIsEventPath(reg: Registry, path: string)
    requires Locate(reg, path).Some?
    requires Locate(reg, path).value.namespace.global <==> '/' !in path
    ensures ListingName(Locate(reg, path).value.namespace, Locate(reg, path).value.repository) == path
  {
  }

  /** A qualified path whose prefix names the global namespace is listed without
      that prefix, while the manifest request keeps the raw path. */
  lemma GlobalNamespaceByNameDropsPrefix(reg: Registry, path: string)
    requires '/' in path
    requires Locate(reg, path).Some? && Locate(reg, path).value.namespace.global
    ensures ListingName(Locate(reg, path).value.namespace, Locate(reg, path).value.repository) != path
  {
  }

  // ---------------------------------------------------------------------------
  // Tag resolver

  /** `get_tag_from_list` yields the first live tag, in the registry's order,
      absent from the stored names; a repository not stored has no stored names,
      so its first live tag is chosen. None exactly when every live tag is stored. */
  lemma TagFromListIsFirstMissing(ns: Namespace, repository: string, client: Client)
    requires client.tags(ListingName(ns, repository)).Tags?
    ensures
      var live := client.tags(ListingName(ns, repository)).names;
      var stored := StoredTagNames(ns, repository);
      var r := GetTagFromList(ns, repository, client).outcome;
      && r == Done(First(Difference(live, stored)))
      && (r == Done(None) <==> forall j :: 0 <= j < |live| ==> live[j] in stored)
      && (r.value.Some? ==> exists i :: FirstMissingAt(live, stored, i) && r.value.value == live[i])
  {
    var live := client.tags(ListingName(ns, repository)).names;
    DifferenceNothing(live);
    var stored := StoredTagNames(ns, repository);
    DifferenceEmpty(live, stored);
    if Difference(live, stored) != [] {
      DifferenceHead(live, stored);
    }
  }

  /** Without a tag in the event, the v1 media types return the fetched
      manifest's tag; a failed fetch yields None when its class is rescued and
      propagates otherwise. */
  lemma ManifestStrategy(ns: Namespace, repository: string, target: Target, client: Client)
    requires !Present(target.tag)
    requires target.mediaType == ManifestV1 || target.mediaType == ManifestV1Signed
    ensures GetTagFromTarget(ns, repository, target, client).outcome ==
      match client.manifest(target.repository, target.digest)
      case Manifest(tag) => Done(tag)
      case ManifestFailed(e) => if Rescued(e.kind) then Done(None) else Raised(e)
  {
  }

  /** Without a tag in the event, the v2 and manifest-list media types use the
      tag listing: no data yields None, a failure is rescued or propagated by
      its class, and a live list yields its first tag not yet stored. */
  lemma ListStrategy(ns: Namespace, repository: string, target: Target, client: Client)
    requires !Present(target.tag)
    requires target.mediaType == ManifestV2 || target.mediaType == ManifestListV2
    ensures GetTagFromTarget(ns, repository, target, client).outcome ==
      match client.tags(ListingName(ns, repository))
      case NoData => Done(None)
      case TagsFailed(e) => if Rescued(e.kind) then Done(None) else Raised(e)
      case Tags(live) => Done(First(Difference(live, StoredTagNames(ns, repository))))
  {
  }

  // ---------------------------------------------------------------------------
  // Event resolution

  /** With `fetchTag`, a located event yields the full triple when the tag
      resolves and None overall (not a triple without tag) when it does not. */
  lemma FetchedTagCompletesTriple(reg: Registry, event: Event, client: Client)
    requires Locate(reg, event.target.repository).Some?
    ensures
      var p := Locate(reg, event.target.repository).value;
      var t := GetTagFromTarget(p.namespace, p.repository, event.target, client);
      var r := GetNamespaceFromEvent(reg, event, true, client);
      && r.calls == t.calls
      && (t.outcome == Done(None) ==> r.outcome == Done(None))
      && (t.outcome.Raised? ==> r.outcome == Raised(t.outcome.error))
      && (t.outcome.Done? && t.outcome.value.Some? ==>
            r.outcome == Done(Some(Located(p.namespace, p.repository, t.outcome.value))))
  {
  }

  /** `get_repository_from_event` returns None exactly when the event does not
      resolve, the repository is not stored, or it is marked; otherwise it
      returns the stored repository. */
  lemma RepositoryFromEventCases(reg: Registry, event: Event, fetchTag: bool, client: Client)
    requires GetNamespaceFromEvent(reg, event, fetchTag, client).outcome.Done?
    ensures
      var l := GetNamespaceFromEvent(reg, event, fetchTag, client).outcome.value;
      var r := GetRepositoryFromEvent(reg, event, fetchTag, client).outcome;
      && (r == Done(None) <==>
            || l.None?
            || RepositoryNamed(l.value.namespace, l.value.repository).None?
            || RepositoryNamed(l.value.namespace, l.value.repository).value.marked)
      && (r.Done? && r.value.Some? ==> r.value == RepositoryNamed(l.value.namespace, l.value.repository))
  {
  }

  // ---------------------------------------------------------------------------
  // Hostnames

  /** With unique hostnames (the `hostname` uniqueness validation), a registry
      is found by its own hostname. */
  lemma FoundByOwnHostname(regs: seq<Registry>, reg: Registry)
    requires reg in regs
    requires forall a, b :: a in regs && b in regs && a.hostname == b.hostname ==> a == b
    ensures ByHostnameOrExternal(regs, Some(reg.hostname)) == Some(reg)
  {
  }

  /** With the single registry the application supports, looking it up by the
      hostname it advertises finds it again. */
  lemma ReachableHostnameFindsRegistry(reg: Registry)
    ensures ByHostnameOrExternal([reg], Some(ReachableHostname(reg))) == Some(reg)
  {
  }

  // ---------------------------------------------------------------------------
  // A worked case

  /** The stored side of the worked case: namespace `team` with repository
      `app`, whose only stored tag is `a`. */
  const App := Repository("app", false, ["a"])
  const Team := Namespace("team", false, [App])
  const LocalRegistry := Registry("registry", "registry.local:5000", None, [Team])

  /** In the worked case `team/app` is repository `app` of namespace `team`. */
  lemma TeamAppLocated()
    ensures Locate(LocalRegistry, "team/app") == Some(Place(Team, "app"))
  {
    LocateQualifiedPath(LocalRegistry, "team", "app");
    assert "team" + "/" + "app" == "team/app";
    assert NamespaceNamed(LocalRegistry, "team") == Some(Team);
  }

  /** In the worked case a tagless v2 target resolves to `b` with one listing call. */
  lemma TeamAppTagResolved(client: Client, target: Target)
    requires client.tags("team/app") == Tags(["a", "b", "c", "d"])
    requires target.tag == None && target.mediaType == ManifestV2
    ensures GetTagFromTarget(Team, "app", target, client) == Traced(Done(Some("b")), [TagsCall("team/app")])
  {
    assert ListingName(Team, "app") == "team/app";
    assert StoredTagNames(Team, "app") == ["a"];
    DifferenceOfExample();
    assert ManifestV2 != ManifestV1 && ManifestV2 != ManifestV1Signed;
    ListStrategy(Team, "app", target, client);
  }

  /** Four live tags, one stored: an event without tag for `team/app` in the v2
      format resolves to the second live tag, after a single listing call. */
  lemma SecondLiveTagResolved(client: Client)
    requires client.tags("team/app") == Tags(["a", "b", "c", "d"])
    ensures
      var event := Event(Some("registry.local:5000"), Target("team/app", None, ManifestV2, "sha256:0"));
      GetNamespaceFromEvent(LocalRegistry, event, true, client)
        == Traced(Done(Some(Located(Team, "app", Some("b")))), [TagsCall("team/app")])
  {
    TeamAppLocated();
    TeamAppTagResolved(client, Target("team/app", None, ManifestV2, "sha256:0"));
  }

  /** The live list of the worked case minus its stored names. */
  lemma DifferenceOfExample()
    ensures Difference(["a", "b", "c", "d"], ["a"]) == ["b", "c", "d"]
  {
    var live: seq<string> := ["a", "b", "c", "d"];
    assert live[4..] == [];
    assert Difference(live[3..], ["a"]) == ["d"];
    assert Difference(live[2..], ["a"]) == ["c", "d"];
    assert Difference(live[1..], ["a"]) == ["b", "c", "d"];
  }
}
