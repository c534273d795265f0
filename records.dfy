/** The records that event resolution reads: the notification event, the
    registry with its namespaces, repositories and stored tag names, and the
    abstract answers of the registry client. */
module Records {
  import opened Wrappers

  /** The `target` object of a registry notification. A missing field is `None`
      for the tag; a missing media type reads as the empty string, which no
      strategy accepts. */
  datatype Target = Target(
    repository: string,     // "name" or "namespace/name"
    tag: Option<string>,    // sent since Docker Distribution 2.4
    mediaType: string,
    digest: string)

  /** A push notification: `request.host` and `target`. */
  datatype Event = Event(requestHost: Option<string>, target: Target)

  /** A repository stored in the database, with the names of its stored tags. */
  datatype Repository = Repository(name: string, marked: bool, tagNames: seq<string>)

  /** A namespace of a registry; the global one contributes no prefix to repository paths. */
  datatype Namespace = Namespace(name: string, global: bool, repositories: seq<Repository>)

  /** A registry row together with the namespaces it owns. */
  datatype Registry = Registry(
    name: string,
    hostname: string,
    externalHostname: Option<string>,
    namespaces: seq<Namespace>)

  /** Answer of `client.tags(repository)`: no data (`nil`), the live tag list, or an exception. */
  datatype TagsResult = NoData | Tags(names: seq<string>) | TagsFailed(error: Error)

  /** Answer of `client.manifest(repository, digest)`: the manifest's `tag` field, or an exception. */
  datatype ManifestResult = Manifest(tag: Option<string>) | ManifestFailed(error: Error)

  /** Answer of `client.reachable?`: whether the registry implements v2, or an exception. */
  datatype ReachResult = Answered(implementsV2: bool) | ReachFailed(error: Error)

  /** The registry client, reduced to the answers it gives. */
  datatype Client = Client(
    tags: string -> TagsResult,
    manifest: (string, string) -> ManifestResult,
    reachable: ReachResult)

  /** A request made to the registry client, recorded so that calls can be counted. */
  datatype Call = TagsCall(repository: string) | ManifestCall(repository: string, digest: string)

  /** An outcome together with the client calls made while computing it, in order. */
  datatype Traced<+T> = Traced(outcome: Outcome<T>, calls: seq<Call>)

  /** Ruby's `[[:space:]]`: the Unicode White_Space characters. */
  predicate IsSpace(c: char)
  {
    || ('\U{9}' <= c <= '\U{D}') || c == ' ' || c == '\U{85}' || c == '\U{A0}'
    || c == '\U{1680}' || ('\U{2000}' <= c <= '\U{200A}') || c == '\U{2028}'
    || c == '\U{2029}' || c == '\U{202F}' || c == '\U{205F}' || c == '\U{3000}'
  }

  /** ActiveSupport's `String#blank?`: empty or made only of white space. */
  predicate Blank(s: string)
  {
    forall i :: 0 <= i < |s| ==> IsSpace(s[i])
  }

  /** ActiveSupport's `present?` on a value that is `nil` or a string. */
  predicate Present(v: Option<string>)
    ensures Present(v) <==> v.Some? && exists i :: 0 <= i < |v.value| && !IsSpace(v.value[i])
  {
    v.Some? && !Blank(v.value)
  }
}
