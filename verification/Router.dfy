/** The two path parsers of registryd: `routeV2` (api/router.go), which reads a
    path from the left to dispatch it, and `RouteTemplate` (metrics/metrics.go),
    which reads it from the right to label it.

    The set of proxy-cache organizations and the repository name pattern
    (`nameRe`) are parameters: nothing here depends on which names pass. */
module Router {
  import opened Wrappers
  import opened Strings

  const LIBRARY := "library"

  datatype HttpMethod = Get | Head | Post | Put | Patch | Delete | Other

  datatype Endpoint =
    | TagsList
    | ManifestAt(reference: string)
    | ReferrersOf(digest: string)
    | UploadStart
    | UploadAt(id: string)
    | BlobAt(digest: string)

  datatype Target = Target(name: string, org: string, repo: string)

  /** Dispatch to a handler, or no handler at all. */
  datatype Dispatch = Base | Catalog | Repository(target: Target, endpoint: Endpoint) | Refused

  /** The low-cardinality route names of the request metrics. */
  datatype Template =
    | BaseRoute | CatalogRoute | ManifestRoute | UploadRoute | BlobRoute
    | TagsRoute | ReferrersRoute | MetricsRoute | InternalRoute | OtherRoute

  datatype Split = Split(target: Target, rest: seq<string>)

  /** The segments that mean something in a path, and all the others. */
  datatype Word = Manifests | Blobs | Tags | Referrers | Uploads | List | Plain

  function WordOf(seg: string): Word {
    if seg == "manifests" then Manifests
    else if seg == "blobs" then Blobs
    else if seg == "tags" then Tags
    else if seg == "referrers" then Referrers
    else if seg == "uploads" then Uploads
    else if seg == "list" then List
    else Plain
  }

  predicate IsRouteMarker(seg: string) {
    WordOf(seg) in {Manifests, Blobs, Tags, Referrers}
  }

  /** The first marker at position i or later, |segs| when there is none. */
  function FirstMarker(segs: seq<string>, i: nat): (m: nat)
    requires i <= |segs|
    ensures i <= m <= |segs|
    ensures m < |segs| ==> IsRouteMarker(segs[m])
    ensures forall k :: i <= k < m ==> !IsRouteMarker(segs[k])
    decreases |segs| - i
  {
    if i == |segs| || IsRouteMarker(segs[i]) then i else FirstMarker(segs, i + 1)
  }

  /** Where the repository name ends. */
  function SplitName(segs: seq<string>, isProxy: string -> bool): (r: Option<Split>)
    ensures r.Some? ==> 0 < |r.value.rest| < |segs| && r.value.rest == segs[|segs| - |r.value.rest|..]
  {
    if |segs| >= 3 && IsRouteMarker(segs[1]) then
      Some(Split(Target(segs[0], LIBRARY, segs[0]), segs[1..]))
    else if |segs| >= 5 && !IsRouteMarker(segs[2]) then
      var m := FirstMarker(segs, 3);
      if m == |segs| || !isProxy(segs[0]) then None
      else
        var repo := Join(segs[1..m], '/');
        Some(Split(Target(segs[0] + "/" + repo, segs[0], repo), segs[m..]))
    else if |segs| >= 4 then
      Some(Split(Target(segs[0] + "/" + segs[1], segs[0], segs[1]), segs[2..]))
    else None
  }

  /** Which handler the rest of the path names, given the method. */
  function EndpointOf(verb: HttpMethod, rest: seq<string>): (r: Option<Endpoint>)
    ensures r.Some? ==> 2 <= |rest| <= 3 && IsRouteMarker(rest[0])
  {
    if |rest| < 2 then None
    else match WordOf(rest[0])
      case Tags => if |rest| == 2 && WordOf(rest[1]) == List then Some(TagsList) else None
      case Manifests => if |rest| == 2 && verb in {Get, Head, Put, Delete} then Some(ManifestAt(rest[1])) else None
      case Referrers => if |rest| == 2 then Some(ReferrersOf(rest[1])) else None
      case Blobs =>
        if WordOf(rest[1]) == Uploads then
          if verb == Post && (|rest| == 2 || (|rest| == 3 && rest[2] == "")) then Some(UploadStart)
          else if |rest| == 3 && rest[2] != "" && verb in {Patch, Put, Get, Delete} then Some(UploadAt(rest[2]))
          else None
        else if |rest| == 2 && verb in {Get, Head, Delete} then Some(BlobAt(rest[1]))
        else None
      case _ => None
  }

  lemma WordsMean(seg: string)
    ensures WordOf(seg) == Manifests <==> seg == "manifests"
    ensures WordOf(seg) == Blobs <==> seg == "blobs"
    ensures WordOf(seg) == Tags <==> seg == "tags"
    ensures WordOf(seg) == Referrers <==> seg == "referrers"
    ensures WordOf(seg) == Uploads <==> seg == "uploads"
    ensures WordOf(seg) == List <==> seg == "list"
  {
  }

  /** Which handler a path's rest names, word by word and verb by verb. */
  lemma EndpointsMean(verb: HttpMethod, rest: seq<string>)
    ensures EndpointOf(verb, rest) == Some(TagsList) <==> |rest| == 2 && rest[0] == "tags" && rest[1] == "list"
    ensures forall x :: EndpointOf(verb, rest) == Some(ManifestAt(x)) <==>
              && |rest| == 2 && rest[0] == "manifests" && rest[1] == x
              && (verb == Get || verb == Head || verb == Put || verb == Delete)
    ensures forall x :: EndpointOf(verb, rest) == Some(ReferrersOf(x)) <==>
              |rest| == 2 && rest[0] == "referrers" && rest[1] == x
    ensures EndpointOf(verb, rest) == Some(UploadStart) <==>
              && verb == Post && (|rest| == 2 || (|rest| == 3 && rest[2] == ""))
              && rest[0] == "blobs" && rest[1] == "uploads"
    ensures forall x :: EndpointOf(verb, rest) == Some(UploadAt(x)) <==>
              && |rest| == 3 && rest[0] == "blobs" && rest[1] == "uploads" && rest[2] == x && x != ""
              && (verb == Patch || verb == Put || verb == Get || verb == Delete)
    ensures forall x :: EndpointOf(verb, rest) == Some(BlobAt(x)) <==>
              && |rest| == 2 && rest[0] == "blobs" && rest[1] == x && rest[1] != "uploads"
              && (verb == Get || verb == Head || verb == Delete)
  {
    if |rest| >= 2 {
      WordsMean(rest[0]);
      WordsMean(rest[1]);
    }
    hide WordOf;
  }

  /** How a name is split by its length; names deeper than two components are for
      proxy organizations only. */
  lemma NamesMean(segs: seq<string>, isProxy: string -> bool)
    requires SplitName(segs, isProxy).Some?
    ensures var s := SplitName(segs, isProxy).value;
            var n := |segs| - |s.rest|;
            && n >= 1
            && (n == 1 ==> s.target == Target(segs[0], "library", segs[0]))
            && (n == 2 ==> s.target == Target(segs[0] + "/" + segs[1], segs[0], segs[1]))
            && (n > 2 ==> isProxy(segs[0]) && s.target.org == segs[0] && s.target.repo == Join(segs[1..n], '/')
                          && s.target.name == segs[0] + "/" + s.target.repo)
  {
    hide WordOf, Join, IsRouteMarker;
  }

  function LocalPath(path: string): string {
    TrimPrefix(TrimPrefix(path, "/v2"), "/")
  }

  function Segments(path: string): seq<string> {
    Strings.Split(LocalPath(path), '/')
  }

  function DispatchOf(verb: HttpMethod, path: string, isProxy: string -> bool, nameOk: string -> bool): Dispatch {
    var local := LocalPath(path);
    if local == "" then Base
    else if local == "_catalog" then Catalog
    else DispatchSegments(verb, Segments(path), isProxy, nameOk)
  }

  function DispatchSegments(verb: HttpMethod, segs: seq<string>, isProxy: string -> bool,
                            nameOk: string -> bool): (d: Dispatch)
    ensures d.Repository? || d.Refused?
  {
    match SplitName(segs, isProxy)
    case None => Refused
    case Some(s) =>
      if !nameOk(s.target.name) then Refused
      else match EndpointOf(verb, s.rest)
        case None => Refused
        case Some(e) => Repository(s.target, e)
  }

  /** The dispatcher, with its scan for the marker. A repository request it
      accepts is split so that the authorisation step, which cuts the name at
      its first slash, finds the same organization and repository. */
  method RouteV2(verb: HttpMethod, path: string, isProxy: string -> bool, nameOk: string -> bool)
    returns (d: Dispatch)
    ensures d == DispatchOf(verb, path, isProxy, nameOk)
    ensures d.Repository? ==> AuthTarget(d.target.name) == d.target
  {
    var local := TrimPrefix(path, "/v2");
    local := TrimPrefix(local, "/");
    if local == "" { return Base; }
    if local == "_catalog" { return Catalog; }
    var segs := Strings.Split(local, '/');
    var name, org, repo: string;
    var rest: seq<string>;
    if |segs| >= 3 && IsRouteMarker(segs[1]) {
      name, org, repo := segs[0], LIBRARY, segs[0];
      rest := segs[1..];
    } else if |segs| >= 5 && !IsRouteMarker(segs[2]) {
      var marker := -1;
      var i := 3;
      while i < |segs|
        invariant 3 <= i <= |segs|
        invariant marker == -1 && FirstMarker(segs, 3) == FirstMarker(segs, i)
      {
        if IsRouteMarker(segs[i]) {
          marker := i;
          break;
        }
        i := i + 1;
      }
      if marker < 0 { return Refused; }
      if !isProxy(segs[0]) { return Refused; }
      org, repo := segs[0], Join(segs[1..marker], '/');
      name := org + "/" + repo;
      rest := segs[marker..];
    } else if |segs| >= 4 {
      name, org, repo := segs[0] + "/" + segs[1], segs[0], segs[1];
      rest := segs[2..];
    } else {
      return Refused;
    }
    if !nameOk(name) { return Refused; }
    d := match EndpointOf(verb, rest)
      case None => Refused
      case Some(e) => Repository(Target(name, org, repo), e);
    if d.Repository? {
      JoinSplit(local, '/');
      AuthFindsTarget(segs, isProxy);
    }
  }

  /** The authorisation step's own split of the name (api/router.go:271-280,
      outside Docker Hub proxies, whose names it also canonicalises). */
  function AuthTarget(name: string): Target {
    var cut := Cut(name, '/');
    if cut.2 then Target(name, cut.0, cut.1) else Target(name, LIBRARY, name)
  }

  lemma AuthFindsTarget(segs: seq<string>, isProxy: string -> bool)
    requires AllFree(segs, '/') && SplitName(segs, isProxy).Some?
    ensures var t := SplitName(segs, isProxy).value.target; AuthTarget(t.name) == t
  {
    hide WordOf;
    var t := SplitName(segs, isProxy).value.target;
    assert Free(segs[0], '/');
    if |segs| >= 3 && IsRouteMarker(segs[1]) {
    } else {
      assert t.name == segs[0] + ['/'] + t.repo;
      CutIsFirst(segs[0], t.repo, '/');
    }
  }

  // ---- Docker Hub names ----

  function LibraryPrefix(): (prefix: string)
    ensures prefix == LIBRARY + "/" && '/' in prefix
  {
    assert (LIBRARY + "/")[|LIBRARY|] == '/';
    LIBRARY + "/"
  }

  /** A library image of Docker Hub is kept under its short name. */
  function LocalName(hub: bool, requested: string): string {
    var rest := TrimPrefix(requested, LibraryPrefix());
    if hub && LibraryPrefix() <= requested && rest != "" && Free(rest, '/') then rest else requested
  }

  function UpstreamPath(hub: bool, local: string): string {
    if hub && Free(local, '/') then LibraryPrefix() + local else local
  }

  /** The authorised target where some organizations are proxies of Docker Hub. */
  function AuthTargetIn(name: string, hub: string -> bool): Target {
    var t := AuthTarget(name);
    if Free(name, '/') then t else t.(repo := LocalName(hub(t.org), t.repo))
  }

  /** Outside such organizations the authorised target is the dispatched one;
      inside, its repository has its local name. */
  lemma AuthFindsLocalTarget(segs: seq<string>, isProxy: string -> bool, hub: string -> bool)
    requires AllFree(segs, '/') && SplitName(segs, isProxy).Some?
    ensures var t := SplitName(segs, isProxy).value.target;
            AuthTargetIn(t.name, hub) == if Free(t.name, '/') then t else t.(repo := LocalName(hub(t.org), t.repo))
  {
    AuthFindsTarget(segs, isProxy);
    hide SplitName, AuthTarget, LocalName;
  }

  lemma ShortName(short: string)
    ensures short != "" && Free(short, '/') ==> LocalName(true, "library/" + short) == short
  {
    var long := "library/" + short;
    assert LibraryPrefix() == "library/" && long[..8] == "library/" && long[8..] == short;
  }

  /** Both ways to type a name lead to one repository and one upstream path. */
  lemma NamesCoincide(hub: bool, requested: string)
    ensures LocalName(hub, LocalName(hub, requested)) == LocalName(hub, requested)
    ensures UpstreamPath(hub, LocalName(hub, requested)) == UpstreamPath(hub, requested)
    ensures !hub ==> LocalName(hub, requested) == requested == UpstreamPath(hub, requested)
    ensures hub && requested != "" && Free(requested, '/') ==> LocalName(hub, "library/" + requested) == requested
  {
    ShortName(requested);
    var prefix := LibraryPrefix();
    hide LibraryPrefix;
    var i :| 0 <= i < |prefix| && prefix[i] == '/';
    if prefix <= requested {
      assert requested[i] == '/' && requested == prefix + requested[|prefix|..];
    }
    var local := LocalName(hub, requested);
    if prefix <= local { assert local[i] == '/'; }
  }

  // ---- Locations route back ----

  function UploadLocation(name: string, id: string): string {
    "/v2/" + name + "/blobs/uploads/" + id
  }

  function BlobLocation(name: string, digest: string): string {
    "/v2/" + name + "/blobs/" + digest
  }

  /** The name is its segments, up to the marker, joined again. */
  lemma NameIsJoined(segs: seq<string>, isProxy: string -> bool)
    requires SplitName(segs, isProxy).Some?
    ensures var s := SplitName(segs, isProxy).value;
            |s.rest| < |segs| && s.target.name == Join(segs[..|segs| - |s.rest|], '/')
  {
    hide WordOf;
    var s := SplitName(segs, isProxy).value;
    var front := segs[..|segs| - |s.rest|];
    if |segs| >= 3 && IsRouteMarker(segs[1]) {
      assert front == [segs[0]];
    } else if |segs| >= 5 && !IsRouteMarker(segs[2]) {
      assert front[1..] == segs[1..FirstMarker(segs, 3)];
    } else {
      assert front == [segs[0], segs[1]] && front[1..] == [segs[1]];
    }
  }

  /** The split depends only on where the first marker after the name is: with
      another marked rest the name is found again. */
  lemma SplitAgain(segs: seq<string>, rest: seq<string>, isProxy: string -> bool)
    requires SplitName(segs, isProxy).Some?
    requires IsRouteMarker(SplitName(segs, isProxy).value.rest[0])
    requires |rest| >= 2 && IsRouteMarker(rest[0])
    ensures var s := SplitName(segs, isProxy).value;
            |s.rest| <= |segs| &&
            SplitName(segs[..|segs| - |s.rest|] + rest, isProxy) == Some(Split(s.target, rest))
  {
    hide WordOf;
    var s := SplitName(segs, isProxy).value;
    var front := segs[..|segs| - |s.rest|];
    var again := front + rest;
    if |segs| >= 3 && IsRouteMarker(segs[1]) {
      assert again[1] == rest[0] && again[1..] == rest;
    } else if |segs| >= 5 && !IsRouteMarker(segs[2]) {
      var m := FirstMarker(segs, 3);
      assert |front| == m && again[m] == rest[0];
      assert forall k :: 0 <= k < m ==> again[k] == segs[k];
      assert FirstMarker(again, 3) == m;
      assert again[1..m] == segs[1..m] && again[m..] == rest;
    } else {
      assert again[2] == rest[0] && again[1] == segs[1] && again[2..] == rest;
    }
  }

  /** For every request the router accepts, at any name depth, a path built
      from its name and a well-formed rest is split to the same target. */
  lemma BuiltPathRoutesBack(verb: HttpMethod, path: string, rest: seq<string>, verb': HttpMethod,
                            isProxy: string -> bool, nameOk: string -> bool)
    requires DispatchOf(verb, path, isProxy, nameOk).Repository?
    requires |rest| >= 2 && IsRouteMarker(rest[0]) && AllFree(rest, '/')
    requires EndpointOf(verb', rest).Some?
    ensures var t := DispatchOf(verb, path, isProxy, nameOk).target;
            DispatchOf(verb', "/v2/" + t.name + "/" + Join(rest, '/'), isProxy, nameOk)
              == Repository(t, EndpointOf(verb', rest).value)
  {
    hide WordOf;
    var segs := Segments(path);
    JoinSplit(LocalPath(path), '/');
    var s := SplitName(segs, isProxy).value;
    var front := segs[..|segs| - |s.rest|];
    NameIsJoined(segs, isProxy);
    SplitAgain(segs, rest, isProxy);
    DispatchJoined(verb', front, rest, isProxy, nameOk);
  }

  /** A path put together from segments is dispatched by these segments. */
  lemma DispatchJoined(verb: HttpMethod, front: seq<string>, rest: seq<string>,
                       isProxy: string -> bool, nameOk: string -> bool)
    requires front != [] && |rest| >= 2 && AllFree(front, '/') && AllFree(rest, '/')
    ensures DispatchOf(verb, "/v2/" + Join(front, '/') + "/" + Join(rest, '/'), isProxy, nameOk)
         == DispatchSegments(verb, front + rest, isProxy, nameOk)
  {
    hide WordOf;
    var local := Join(front + rest, '/');
    JoinAppend(front, rest, '/');
    assert "/v2/" + Join(front, '/') + "/" + Join(rest, '/') == "/v2/" + local;
    PrefixedPath(local);
    SplitJoin(front + rest, '/');
    NotWholePaths();
  }

  lemma PrefixedPath(local: string)
    ensures LocalPath("/v2/" + local) == local
  {
    var path := "/v2/" + local;
    assert path[..3] == "/v2" && path[3..] == "/" + local;
    assert ("/" + local)[1..] == local;
  }

  /** The two special paths have a single segment. */
  lemma NotWholePaths()
    ensures |Strings.Split("", '/')| == 1 && |Strings.Split("_catalog", '/')| == 1
  {
    SplitFree("_catalog", '/');
  }

  /** The upload Location of an accepted request is that upload of the same
      repository. */
  lemma UploadLocationRoutesBack(verb: HttpMethod, path: string, id: string, verb': HttpMethod,
                                 isProxy: string -> bool, nameOk: string -> bool)
    requires DispatchOf(verb, path, isProxy, nameOk).Repository?
    requires id != "" && Free(id, '/') && verb' in {Patch, Put, Get, Delete}
    ensures var t := DispatchOf(verb, path, isProxy, nameOk).target;
            DispatchOf(verb', UploadLocation(t.name, id), isProxy, nameOk) == Repository(t, UploadAt(id))
  {
    BuiltPathRoutesBack(verb, path, ["blobs", "uploads", id], verb', isProxy, nameOk);
    UploadLocationJoined(DispatchOf(verb, path, isProxy, nameOk).target.name, id);
  }

  lemma JoinThree(a: string, b: string, c: string)
    ensures Join([a, b, c], '/') == a + ['/'] + b + ['/'] + c
  {
    JoinAppend([a, b], [c], '/');
    JoinAppend([a], [b], '/');
    assert [a, b] + [c] == [a, b, c] && [a] + [b] == [a, b];
  }

  lemma UploadLocationJoined(name: string, id: string)
    ensures UploadLocation(name, id) == "/v2/" + name + "/" + Join(["blobs", "uploads", id], '/')
  {
    JoinThree("blobs", "uploads", id);
    hide Strings.Join;
    var front := "/v2/" + name;
    assert "/" + ("blobs" + ['/'] + "uploads" + ['/']) == "/blobs/uploads/";
    assert front + ("/" + ("blobs" + ['/'] + "uploads" + ['/']) + id) == front + ("/blobs/uploads/" + id);
  }

  /** The blob Location of an accepted request is that blob of the same
      repository. */
  lemma BlobLocationRoutesBack(verb: HttpMethod, path: string, digest: string, verb': HttpMethod,
                               isProxy: string -> bool, nameOk: string -> bool)
    requires DispatchOf(verb, path, isProxy, nameOk).Repository?
    requires WordOf(digest) != Uploads && Free(digest, '/') && verb' in {Get, Head, Delete}
    ensures var t := DispatchOf(verb, path, isProxy, nameOk).target;
            DispatchOf(verb', BlobLocation(t.name, digest), isProxy, nameOk) == Repository(t, BlobAt(digest))
  {
    BuiltPathRoutesBack(verb, path, ["blobs", digest], verb', isProxy, nameOk);
    BlobLocationJoined(DispatchOf(verb, path, isProxy, nameOk).target.name, digest);
  }

  lemma BlobLocationJoined(name: string, digest: string)
    ensures BlobLocation(name, digest) == "/v2/" + name + "/" + Join(["blobs", digest], '/')
  {
    JoinAppend(["blobs"], [digest], '/');
    assert ["blobs", digest] == ["blobs"] + [digest];
    assert ("/v2/" + name) + ("/" + ("blobs" + ['/'] + digest)) == BlobLocation(name, digest);
  }

  // ---- The label agrees with the dispatch ----

  /** The label a marker at position i gives, if it gives one. */
  function LabelAt(segs: seq<string>, i: nat): Option<Template>
    requires i < |segs|
  {
    match WordOf(segs[i])
    case Manifests => if i + 2 == |segs| then Some(ManifestRoute) else None
    case Referrers => if i + 2 == |segs| then Some(ReferrersRoute) else None
    case Tags => if i + 2 == |segs| && WordOf(segs[i + 1]) == List then Some(TagsRoute) else None
    case Blobs =>
      if i + 1 < |segs| && WordOf(segs[i + 1]) == Uploads then Some(UploadRoute)
      else if i + 2 == |segs| then Some(BlobRoute) else None
    case _ => None
  }

  /** The first label found scanning down from position i to 1. */
  function LabelFrom(segs: seq<string>, i: nat): Template
    requires i < |segs|
  {
    if i == 0 then OtherRoute
    else match LabelAt(segs, i)
      case Some(l) => l
      case None => LabelFrom(segs, i - 1)
  }

  function TemplateOf(path: string): Template {
    if path == "/metrics" || path == "/internal/v1/metrics" then MetricsRoute
    else if "/internal/" <= path then InternalRoute
    else if path == "/v2" || path == "/v2/" then BaseRoute
    else if path == "/v2/_catalog" then CatalogRoute
    else if !("/v2/" <= path) then OtherRoute
    else
      var segs := Strings.Split(Trim(TrimPrefix(path, "/v2/"), '/'), '/');
      LabelFrom(segs, |segs| - 1)
  }

  /** The labelling loop, from the last segment down. */
  method RouteTemplate(path: string) returns (template: Template)
    ensures template == TemplateOf(path)
  {
    if path == "/metrics" || path == "/internal/v1/metrics" { return MetricsRoute; }
    if "/internal/" <= path { return InternalRoute; }
    if path == "/v2" || path == "/v2/" { return BaseRoute; }
    if path == "/v2/_catalog" { return CatalogRoute; }
    if !("/v2/" <= path) { return OtherRoute; }
    var segs := Strings.Split(Trim(TrimPrefix(path, "/v2/"), '/'), '/');
    var i := |segs| - 1;
    while i >= 1
      invariant 0 <= i < |segs|
      invariant LabelFrom(segs, i) == TemplateOf(path)
    {
      match WordOf(segs[i]) {
        case Manifests =>
          if i == |segs| - 2 { return ManifestRoute; }
        case Referrers =>
          if i == |segs| - 2 { return ReferrersRoute; }
        case Tags =>
          if i == |segs| - 2 && WordOf(segs[i + 1]) == List { return TagsRoute; }
        case Blobs =>
          var rest := segs[i + 1..];
          if |rest| >= 1 && WordOf(rest[0]) == Uploads { return UploadRoute; }
          if |rest| == 1 { return BlobRoute; }
        case _ =>
      }
      i := i - 1;
    }
    return OtherRoute;
  }

  function Label(e: Endpoint): Template {
    match e
    case TagsList => TagsRoute
    case ManifestAt(_) => ManifestRoute
    case ReferrersOf(_) => ReferrersRoute
    case UploadStart => UploadRoute
    case UploadAt(_) => UploadRoute
    case BlobAt(_) => BlobRoute
  }

  /** Read from the right, a well-formed rest gives its own label before any
      segment of the name is looked at, even when the reference, the digest or
      the upload id is itself spelled like a marker. */
  lemma RestGivesLabel(front: seq<string>, rest: seq<string>, verb: HttpMethod)
    requires front != [] && EndpointOf(verb, rest).Some?
    requires |rest| == 3 ==> rest[2] != ""
    ensures LabelFrom(front + rest, |front + rest| - 1) == Label(EndpointOf(verb, rest).value)
  {
    hide WordOf;
    var segs, f := front + rest, |front|;
    assert segs[f] == rest[0] && segs[f + 1] == rest[1];
    if |rest| == 2 {
      assert LabelAt(segs, f + 1) == None;
      LabelOfPair(segs, f, verb, rest);
    } else {
      assert WordOf(rest[0]) == Blobs && WordOf(rest[1]) == Uploads;
      assert LabelAt(segs, f + 2) == None && LabelAt(segs, f + 1) == None && LabelAt(segs, f) == Some(UploadRoute);
      assert LabelFrom(segs, f + 2) == LabelFrom(segs, f + 1) == LabelFrom(segs, f);
    }
  }

  lemma LabelOfPair(segs: seq<string>, f: nat, verb: HttpMethod, rest: seq<string>)
    requires |rest| == 2 && EndpointOf(verb, rest).Some?
    requires f > 0 && |segs| == f + 2 && segs[f] == rest[0] && segs[f + 1] == rest[1]
    ensures LabelFrom(segs, f) == Label(EndpointOf(verb, rest).value)
  {
    hide WordOf;
  }

  /** The paths the server's mux hands to the dispatcher. */
  predicate Served(path: string) {
    path == "/v2" || "/v2/" <= path
  }

  /** No empty segment, apart from the one a trailing slash leaves behind an
      upload start. */
  predicate CleanSegments(segs: seq<string>) {
    && |segs| >= 1
    && (forall i :: 0 <= i < |segs| - 1 ==> segs[i] != "")
    && (segs[|segs| - 1] == "" ==>
          |segs| >= 4 && WordOf(segs[|segs| - 3]) == Blobs && WordOf(segs[|segs| - 2]) == Uploads)
  }

  lemma {:induction false} JoinEnds(parts: seq<string>)
    requires parts != [] && forall i :: 0 <= i < |parts| ==> parts[i] != "" && Free(parts[i], '/')
    ensures var s := Join(parts, '/'); s != "" && s[0] != '/' && s[|s| - 1] != '/'
    decreases |parts|
  {
    assert parts[0] != "" && Free(parts[0], '/');
    assert parts[0][0] in parts[0] && parts[0][|parts[0]| - 1] in parts[0];
    if |parts| > 1 { JoinEnds(parts[1..]); }
  }

  /** The labelled segments are the dispatched ones without the trailing empty
      segment. */
  lemma LabelledSegments(local: string)
    requires local != "" && CleanSegments(Strings.Split(local, '/'))
    ensures Strings.Split(Trim(local, '/'), '/') == Kept(Strings.Split(local, '/'))
  {
    var segs := Strings.Split(local, '/');
    JoinSplit(local, '/');
    hide WordOf, Strings.Split, Strings.Join, Strings.Trim;
    var front, last := segs[..|segs| - 1], segs[|segs| - 1];
    assert segs == front + [last];
    if last == "" {
      assert forall i :: 0 <= i < |front| ==> front[i] == segs[i];
      TrailingSlash(front);
    } else {
      JoinEnds(segs);
      TrimNothing(local);
    }
  }

  lemma TrailingSlash(front: seq<string>)
    requires front != [] && forall i :: 0 <= i < |front| ==> front[i] != "" && Free(front[i], '/')
    ensures Strings.Split(Trim(Join(front + [""], '/'), '/'), '/') == front
  {
    hide Strings.Split, Strings.Join, Strings.Trim;
    JoinEnds(front);
    JoinThenSlash(front);
    TrimOneSlash(Join(front, '/'));
    SplitJoin(front, '/');
  }

  lemma JoinThenSlash(front: seq<string>)
    requires front != []
    ensures Join(front + [""], '/') == Join(front, '/') + "/"
  {
    JoinAppend(front, [""], '/');
    assert Join([""], '/') == "";
    hide Strings.Join;
    assert Join(front, '/') + ['/'] + "" == Join(front, '/') + "/";
  }

  lemma TrimNothing(s: string)
    requires s != "" && s[0] != '/' && s[|s| - 1] != '/'
    ensures Trim(s, '/') == s
  {
  }

  function Kept(segs: seq<string>): seq<string>
    requires CleanSegments(segs)
  {
    if segs[|segs| - 1] == "" then segs[..|segs| - 1] else segs
  }

  /** Under /v2/, the label is the scan over the trimmed segments. */
  lemma TemplateUnderV2(local: string)
    requires local != "" && local != "_catalog"
    ensures var segs := Strings.Split(Trim(local, '/'), '/');
            TemplateOf("/v2/" + local) == LabelFrom(segs, |segs| - 1)
  {
    hide WordOf;
    var path := "/v2/" + local;
    assert path[..4] == "/v2/" && path[4..] == local;
    assert path[1] == 'v';
    assert "/v2/_catalog"[4..] == "_catalog";
  }

  lemma TrimOneSlash(s: string)
    requires s != "" && s[0] != '/' && s[|s| - 1] != '/'
    ensures Trim(s + "/", '/') == s
  {
    var t := s + "/";
    assert TrimLeft(t, '/') == t;
    assert t[..|t| - 1] == s && t[|t| - 1] == '/';
    assert TrimRight(t, '/') == TrimRight(s, '/') == s;
  }

  /** Without a trailing empty segment, the dispatched segments are labelled as
      the endpoint they name. */
  lemma SegmentsLabel(verb: HttpMethod, segs: seq<string>, isProxy: string -> bool, nameOk: string -> bool)
    requires CleanSegments(segs) && DispatchSegments(verb, segs, isProxy, nameOk).Repository?
    ensures LabelFrom(Kept(segs), |Kept(segs)| - 1) == Label(DispatchSegments(verb, segs, isProxy, nameOk).endpoint)
  {
    hide WordOf, LabelFrom, Label, CleanSegments, EndpointOf, SplitName, Kept;
    var rest := SplitName(segs, isProxy).value.rest;
    var front := segs[..|segs| - |rest|];
    assert segs == front + rest;
    LabelOfRest(verb, front, rest);
  }

  lemma LabelOfRest(verb: HttpMethod, front: seq<string>, rest: seq<string>)
    requires front != [] && EndpointOf(verb, rest).Some? && CleanSegments(front + rest)
    ensures LabelFrom(Kept(front + rest), |Kept(front + rest)| - 1) == Label(EndpointOf(verb, rest).value)
  {
    hide WordOf;
    var segs := front + rest;
    if segs[|segs| - 1] == "" {
      var last := rest[..|rest| - 1];
      assert rest[|rest| - 1] == "";
      assert WordOf(last[0]) == Blobs && WordOf(last[1]) == Uploads;
      assert segs[..|segs| - 1] == front + last;
      RestGivesLabel(front, last, verb);
    } else {
      assert segs[|segs| - 1] == rest[|rest| - 1];
      RestGivesLabel(front, rest, verb);
    }
  }

  lemma CatalogLabel()
    ensures TemplateOf("/v2/_catalog") == CatalogRoute
  {
    assert "/v2/_catalog"[1] == 'v';
  }

  /** A repository path under /v2/ is labelled as the endpoint it names. */
  lemma LabelUnderV2(verb: HttpMethod, local: string, isProxy: string -> bool, nameOk: string -> bool)
    requires local != "" && local != "_catalog" && CleanSegments(Strings.Split(local, '/'))
    requires DispatchSegments(verb, Strings.Split(local, '/'), isProxy, nameOk).Repository?
    ensures TemplateOf("/v2/" + local)
         == Label(DispatchSegments(verb, Strings.Split(local, '/'), isProxy, nameOk).endpoint)
  {
    hide DispatchSegments;
    hide TemplateOf;
    TemplateUnderV2(local);
    LabelledSegments(local);
    SegmentsLabel(verb, Strings.Split(local, '/'), isProxy, nameOk);
  }

  // ---- Exactly when the label agrees ----

  predicate NonEmpty(parts: seq<string>) {
    forall i :: 0 <= i < |parts| ==> parts[i] != ""
  }

  /** What the repository name pattern guarantees. */
  ghost predicate RefusesEmptyComponents(nameOk: string -> bool) {
    forall name :: nameOk(name) ==> NonEmpty(Strings.Split(name, '/'))
  }

  function Last(segs: seq<string>): string
    requires segs != []
  {
    segs[|segs| - 1]
  }

  /** A name segment after the first is never a marker, and none is empty. */
  lemma NameSegments(segs: seq<string>, isProxy: string -> bool, nameOk: string -> bool)
    requires AllFree(segs, '/') && SplitName(segs, isProxy).Some? && RefusesEmptyComponents(nameOk)
    requires nameOk(SplitName(segs, isProxy).value.target.name)
    ensures var front := segs[..|segs| - |SplitName(segs, isProxy).value.rest|];
            NonEmpty(front) && forall i :: 1 <= i < |front| ==> !IsRouteMarker(front[i])
  {
    hide WordOf;
    var s := SplitName(segs, isProxy).value;
    var front := segs[..|segs| - |s.rest|];
    NameIsJoined(segs, isProxy);
    SplitJoin(front, '/');
    assert NonEmpty(Strings.Split(s.target.name, '/'));
  }

  lemma {:induction false} NoMarkerNoLabel(segs: seq<string>, i: nat)
    requires i < |segs| && forall k :: 1 <= k <= i ==> !IsRouteMarker(segs[k])
    ensures LabelFrom(segs, i) == OtherRoute
    decreases i
  {
    hide WordOf;
    if i > 0 {
      assert LabelAt(segs, i) == None;
      NoMarkerNoLabel(segs, i - 1);
    }
  }

  /** A name and a marker, and nothing after its slash. */
  predicate EndsAtMarker(segs: seq<string>) {
    && |segs| >= 3 && Last(segs) == "" && IsRouteMarker(segs[|segs| - 2])
    && NonEmpty(segs[..|segs| - 1])
    && forall i :: 1 <= i < |segs| - 2 ==> !IsRouteMarker(segs[i])
  }

  /** Without the slash the marker is last, and gives no label. */
  lemma EndAtMarkerGivesNoLabel(all: seq<string>)
    requires EndsAtMarker(all) && AllFree(all, '/')
    ensures var segs := Strings.Split(Trim(Join(all, '/'), '/'), '/');
            LabelFrom(segs, |segs| - 1) == OtherRoute
  {
    var kept := all[..|all| - 1];
    assert all == kept + [""];
    TrailingSlash(kept);
    hide WordOf, Strings.Split, Strings.Join, Strings.Trim;
    assert LabelAt(kept, |kept| - 1) == None;
    NoMarkerNoLabel(kept, |kept| - 2);
  }

  lemma RestShapes(verb: HttpMethod, rest: seq<string>)
    requires EndpointOf(verb, rest).Some?
    ensures rest[0] != "" && IsRouteMarker(rest[0])
    ensures var start := EndpointOf(verb, rest).value.UploadStart?;
            if |rest| == 2 then start ==> rest[1] != ""
            else |rest| == 3 && WordOf(rest[0]) == Blobs && WordOf(rest[1]) == Uploads && rest[1] != ""
                 && (rest[2] == "" <==> start)
  {
    MarkersAreNotEmpty(rest[0]);
    MarkersAreNotEmpty(rest[1]);
    hide WordOf;
  }

  /** A dispatched path has clean segments, unless it ends in an empty one that
      is no upload start. */
  lemma DispatchedSegments(verb: HttpMethod, segs: seq<string>, isProxy: string -> bool, nameOk: string -> bool)
    requires AllFree(segs, '/') && RefusesEmptyComponents(nameOk)
    requires DispatchSegments(verb, segs, isProxy, nameOk).Repository?
    ensures segs != []
    ensures var e := DispatchSegments(verb, segs, isProxy, nameOk).endpoint;
            if Last(segs) != "" || e.UploadStart? then CleanSegments(segs) else EndsAtMarker(segs)
  {
    hide WordOf, EndpointOf, IsRouteMarker, SplitName, AllFree, CleanSegments, EndsAtMarker, NonEmpty,
         RefusesEmptyComponents;
    var rest := SplitName(segs, isProxy).value.rest;
    NameSegments(segs, isProxy, nameOk);
    RestShapes(verb, rest);
    var front := segs[..|segs| - |rest|];
    assert segs == front + rest;
    JoinedShapes(front, rest);
  }

  lemma JoinedShapes(front: seq<string>, rest: seq<string>)
    requires front != [] && NonEmpty(front) && forall i :: 1 <= i < |front| ==> !IsRouteMarker(front[i])
    requires 2 <= |rest| <= 3 && rest[0] != "" && IsRouteMarker(rest[0])
    requires |rest| == 3 ==> WordOf(rest[0]) == Blobs && WordOf(rest[1]) == Uploads && rest[1] != ""
    ensures Last(rest) != "" || |rest| == 3 ==> CleanSegments(front + rest)
    ensures Last(rest) == "" && |rest| == 2 ==> EndsAtMarker(front + rest)
    ensures Last(front + rest) == Last(rest)
  {
    hide WordOf, IsRouteMarker;
    var segs := front + rest;
    assert forall i :: 0 <= i < |front| ==> segs[i] == front[i];
    assert segs[|front|] == rest[0] && segs[|front| + 1] == rest[1];
  }

  lemma MarkersAreNotEmpty(seg: string)
    ensures WordOf(seg) != Plain ==> seg != ""
  {
  }

  lemma LabelUnderV2IsExact(verb: HttpMethod, local: string, isProxy: string -> bool, nameOk: string -> bool)
    requires local != "" && local != "_catalog" && RefusesEmptyComponents(nameOk)
    requires DispatchSegments(verb, Strings.Split(local, '/'), isProxy, nameOk).Repository?
    ensures var e := DispatchSegments(verb, Strings.Split(local, '/'), isProxy, nameOk).endpoint;
            TemplateOf("/v2/" + local)
              == if Last(Strings.Split(local, '/')) != "" || e.UploadStart? then Label(e) else OtherRoute
  {
    hide TemplateOf, WordOf, DispatchSegments, EndsAtMarker, CleanSegments, LabelFrom, Trim, Strings.Split, Join;
    var segs := Strings.Split(local, '/');
    JoinSplit(local, '/');
    DispatchedSegments(verb, segs, isProxy, nameOk);
    if Last(segs) != "" || DispatchSegments(verb, segs, isProxy, nameOk).endpoint.UploadStart? {
      LabelUnderV2(verb, local, isProxy, nameOk);
    } else {
      TemplateUnderV2(local);
      EndAtMarkerGivesNoLabel(segs);
    }
  }

  /** Each label is one handler's, but for the two that share the uploads. */
  lemma LabelsMean(e: Endpoint)
    ensures Label(e) == TagsRoute <==> e.TagsList?
    ensures Label(e) == ManifestRoute <==> e.ManifestAt?
    ensures Label(e) == ReferrersRoute <==> e.ReferrersOf?
    ensures Label(e) == UploadRoute <==> e.UploadStart? || e.UploadAt?
    ensures Label(e) == BlobRoute <==> e.BlobAt?
  {
  }

  lemma OtherIsNoLabel(e: Endpoint)
    ensures Label(e) != OtherRoute
  {
  }

  /** For every path, the label is the one of the handler the dispatcher chose,
      exactly unless the path ends in an empty reference or digest; such a path
      is labelled `other`. */
  lemma LabelAgreesWithDispatch(verb: HttpMethod, path: string, isProxy: string -> bool, nameOk: string -> bool)
    requires Served(path) && RefusesEmptyComponents(nameOk)
    ensures match DispatchOf(verb, path, isProxy, nameOk)
            case Base => TemplateOf(path) == BaseRoute
            case Catalog => TemplateOf(path) == CatalogRoute
            case Repository(_, e) =>
              && (TemplateOf(path) == Label(e) <==> Last(Segments(path)) != "" || e.UploadStart?)
              && (TemplateOf(path) != Label(e) ==> TemplateOf(path) == OtherRoute)
            case Refused => true
  {
    hide DispatchSegments;
    if path != "/v2" {
      var local := path[4..];
      assert path == "/v2/" + local;
      PrefixedPath(local);
      if local == "_catalog" {
        CatalogLabel();
        assert "/v2/" + "_catalog" == "/v2/_catalog";
      } else if local == "" {
        assert path == "/v2/";
      } else if DispatchOf(verb, path, isProxy, nameOk).Repository? {
        hide TemplateOf;
        LabelUnderV2IsExact(verb, local, isProxy, nameOk);
        OtherIsNoLabel(DispatchOf(verb, path, isProxy, nameOk).endpoint);
      }
    }
  }

  /** The labels outside the dispatcher's paths. */
  lemma OtherLabels(rest: string)
    ensures TemplateOf("/metrics") == MetricsRoute && TemplateOf("/internal/v1/metrics") == MetricsRoute
    ensures "/internal/" + rest != "/internal/v1/metrics" ==> TemplateOf("/internal/" + rest) == InternalRoute
    ensures TemplateOf("/v2") == BaseRoute && TemplateOf("/v2/") == BaseRoute
    ensures TemplateOf("/v2/_catalog") == CatalogRoute
  {
    CatalogLabel();
    var path := "/internal/" + rest;
    assert path[..10] == "/internal/" && path[1] == 'i';
    assert "/v2"[1] == "/v2/"[1] == 'v';
  }

  /** A manifest request without a reference is dispatched and labelled `other`. */
  lemma EmptyReferenceIsMislabelled(isProxy: string -> bool, nameOk: string -> bool)
    requires RefusesEmptyComponents(nameOk) && nameOk("a" + "/" + "b")
    ensures var path := "/v2/" + "a/b" + "/" + "manifests/";
            && DispatchOf(Get, path, isProxy, nameOk) == Repository(Target("a/b", "a", "b"), ManifestAt(""))
            && TemplateOf(path) == OtherRoute
  {
    hide TemplateOf, DispatchOf, DispatchSegments;
    EmptyReferenceIsDispatched(isProxy, nameOk);
    var path := "/v2/" + "a/b" + "/" + "manifests/";
    assert path[..4] == "/v2/";
    LabelAgreesWithDispatch(Get, path, isProxy, nameOk);
  }

  lemma EmptyReferenceIsDispatched(isProxy: string -> bool, nameOk: string -> bool)
    requires nameOk("a" + "/" + "b")
    ensures var path := "/v2/" + "a/b" + "/" + "manifests/";
            && DispatchOf(Get, path, isProxy, nameOk) == Repository(Target("a/b", "a", "b"), ManifestAt(""))
            && Segments(path) != [] && Last(Segments(path)) == ""
  {
    hide DispatchOf, WordOf, TemplateOf, Join;
    var front, rest := ["a", "b"], ["manifests", ""];
    PlainNames();
    JoinedLiterals();
    SmallDispatch(isProxy, nameOk);
    hide DispatchSegments;
    DispatchJoined(Get, front, rest, isProxy, nameOk);
    PrefixedSegments(front, rest);
  }

  lemma PrefixedSegments(front: seq<string>, rest: seq<string>)
    requires front != [] && rest != [] && AllFree(front, '/') && AllFree(rest, '/')
    ensures Segments("/v2/" + Join(front, '/') + "/" + Join(rest, '/')) == front + rest
  {
    var local := Join(front + rest, '/');
    JoinAppend(front, rest, '/');
    assert "/v2/" + Join(front, '/') + "/" + Join(rest, '/') == "/v2/" + local;
    SplitJoin(front + rest, '/');
    PrefixedPath(local);
    hide Strings.Split, Join;
  }

  lemma JoinedLiterals()
    ensures Join(["a", "b"], '/') == "a/b" && Join(["manifests", ""], '/') == "manifests/"
  {
    JoinTwo("a", "b");
    JoinTwo("manifests", "");
    hide Join;
  }

  lemma JoinTwo(a: string, b: string)
    ensures Join([a, b], '/') == a + "/" + b
  {
    assert [a, b][1..] == [b];
  }

  lemma SmallDispatch(isProxy: string -> bool, nameOk: string -> bool)
    requires nameOk("a" + "/" + "b")
    ensures DispatchSegments(Get, ["a", "b"] + ["manifests", ""], isProxy, nameOk)
         == Repository(Target("a/b", "a", "b"), ManifestAt(""))
  {
    PlainNames();
    hide WordOf;
    assert "a" + "/" + "b" == "a/b";
    var segs := ["a", "b"] + ["manifests", ""];
    assert segs[2] == "manifests" && segs[2..] == ["manifests", ""];
  }

  lemma PlainNames()
    ensures WordOf("a") == Plain && WordOf("b") == Plain && WordOf("manifests") == Manifests
    ensures AllFree(["a", "b"], '/') && AllFree(["manifests", ""], '/')
  {
  }
}
