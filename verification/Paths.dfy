/** Mount paths and what is read off them (source/utils.cpp, path functions; include/rucio-download.h,
    the download descriptor). */
module Paths {
  import opened Text

  const RUCIO_ROOT_PATH: string := "/"
  const RUCIO_CACHE_PATH: string := "/ruciofs-cache"

  predicate IsRootPath(path: string) {
    path == RUCIO_ROOT_PATH || path == RUCIO_ROOT_PATH + "/"
  }

  // ---------- path_depth ----------

  function Depth(path: string, token: char): int {
    if IsRootPath(path) then 0
    else Count(path, token) - if path != "" && path[|path| - 1] == token then 1 else 0
  }

  /** The counter is an `int16_t`, and the code looks one byte before an empty path. */
  method PathDepth(path: string, token: char := '/') returns (depth: int)
    requires path != "" && Count(path, token) < 0x8000
    ensures depth == Depth(path, token)
  {
    if IsRootPath(path) {
      return 0;
    }
    var s, i, size := 0, 0, 0;
    while s + i < |path|
      invariant s + i == size <= |path|
      invariant i == Count(path[..size], token)
      decreases |path| - (s + i)
    {
      assert path[..size + 1][..size] == path[..size];
      size := size + 1;
      if path[s + i] == token {
        i := i + 1;
      } else {
        s := s + 1;
      }
    }
    assert path[..size] == path;
    if path[size - 1] == token {
      i := i - 1;
    }
    depth := i;
  }

  // ---------- the extractors ----------

  function RemoveSubstring(path: string, subs: string): string {
    match Find(path, subs)
    case None => path
    case Some(pos) => path[..pos] + path[pos + |subs|..]
  }

  /** `None` on the empty string: `length() - 1` wraps and `substr` throws `std::out_of_range`. */
  function RemoveTrailingToken(path: string): Option<string> {
    if path == "" then None
    else if |path| > 1 && path[|path| - 1] == '/' then Some(path[..|path| - 1])
    else Some(path)
  }

  /** Everything before the first `/`. */
  function FirstPart(path: string): string {
    path[..IndexOf(path, '/')]
  }

  /** Everything after the last `/`. */
  function LastPart(path: string): string {
    match LastIndexOf(path, '/')
    case None => path
    case Some(pos) => path[pos + 1..]
  }

  function ExtractServerName(path: string): string {
    FirstPart(RemoveSubstring(path, RUCIO_ROOT_PATH))
  }

  /** Defined on every path but the empty one and the root: there `substr` throws. */
  predicate BeyondRoot(path: string) {
    path != "" && path != "/"
  }

  lemma RootAlone(path: string)
    ensures RemoveSubstring(path, RUCIO_ROOT_PATH) != "" <==> BeyondRoot(path)
  {
    var pos := Find(path, RUCIO_ROOT_PATH);
    if pos.Some? && |path| == 1 {
      assert path[0..1] == "/";
      assert path == path[0..1];
    }
  }

  function ExtractScope(path: string): (r: Option<string>)
    ensures r.Some? <==> BeyondRoot(path)
  {
    RootAlone(path);
    var copy :- RemoveTrailingToken(RemoveSubstring(path, RUCIO_ROOT_PATH));
    Some(FirstPart(RemoveSubstring(copy, ExtractServerName(path) + "/")))
  }

  function ExtractName(path: string): (r: Option<string>)
    ensures r.Some? <==> path != ""
  {
    var copy :- RemoveTrailingToken(path);
    Some(LastPart(copy))
  }

  function GetDid(path: string): (r: Option<string>)
    ensures r.Some? <==> BeyondRoot(path)
  {
    var scope :- ExtractScope(path);
    var name := ExtractName(path).value;
    Some(scope + ":" + name)
  }

  method ComputeServerName(path: string) returns (server: string)
    ensures server == ExtractServerName(path)
  {
    server := RemoveSubstring(path, RUCIO_ROOT_PATH);
    var pos := IndexOf(server, '/');
    assert pos == |server| ==> server[..pos] == server;
    if pos != |server| {
      server := server[..pos];
    }
  }

  method ComputeScope(path: string) returns (scope: Option<string>)
    ensures scope == ExtractScope(path)
  {
    var pathCopy := RemoveSubstring(path, RUCIO_ROOT_PATH);
    var trimmed := RemoveTrailingToken(pathCopy);
    if trimmed.None? {
      return None;
    }
    var server := ComputeServerName(path);
    pathCopy := RemoveSubstring(trimmed.value, server + "/");
    var pos := IndexOf(pathCopy, '/');
    assert pos == |pathCopy| ==> pathCopy[..pos] == pathCopy;
    if pos != |pathCopy| {
      pathCopy := pathCopy[..pos];
    }
    scope := Some(pathCopy);
  }

  method ComputeName(path: string) returns (name: Option<string>)
    ensures name == ExtractName(path)
  {
    var pathCopy := path;
    var trimmed := RemoveTrailingToken(pathCopy);
    if trimmed.None? {
      return None;
    }
    pathCopy := trimmed.value;
    var pos := LastIndexOf(pathCopy, '/');
    if pos.Some? {
      pathCopy := pathCopy[pos.value + 1..];
    }
    name := Some(pathCopy);
  }

  // ---------- paths made of components ----------

  predicate Component(c: string) {
    c != "" && '/' !in c
  }

  function Render(components: seq<string>): string {
    if components == [] then "" else "/" + components[0] + Render(components[1..])
  }

  function PathOf(components: seq<string>, trailing: bool): string {
    Render(components) + if trailing then "/" else ""
  }

  predicate Components(components: seq<string>) {
    components != [] && forall c :: c in components ==> Component(c)
  }

  lemma {:induction false} RenderEnd(components: seq<string>)
    requires Components(components)
    ensures var r := Render(components);
            |r| >= 2 && r[0] == '/' && r[|r| - 1] != '/'
    ensures LastPart(Render(components)) == components[|components| - 1]
  {
    var c, rest := components[0], Render(components[1..]);
    assert Component(c);
    var r := Render(components);
    if |components| > 1 {
      RenderEnd(components[1..]);
      assert r[|r| - 1] == rest[|rest| - 1];
      LastPartOfTail("/" + c, rest);
    } else {
      assert r == "/" + c;
      LastPartAfterSlash(c);
    }
  }

  lemma LastPartAfterSlash(c: string)
    requires '/' !in c
    ensures LastPart("/" + c) == c
  {
    var s := "/" + c;
    assert s[0] == '/';
    assert forall i :: 0 < i < |s| ==> s[i] == c[i - 1];
  }

  lemma LastPartOfTail(a: string, b: string)
    requires '/' in b
    ensures LastPart(a + b) == LastPart(b)
  {
    var s := a + b;
    var p, q := LastIndexOf(s, '/'), LastIndexOf(b, '/');
    assert s[|a| + q.value] == '/';
    assert p.value >= |a| + q.value;
    assert b[p.value - |a|] == '/';
    assert s[p.value + 1..] == b[q.value + 1..];
  }

  lemma {:induction false} RenderCount(components: seq<string>)
    requires forall c :: c in components ==> Component(c)
    ensures Count(Render(components), '/') == |components|
  {
    if components != [] {
      var c := components[0];
      assert Component(c);
      RenderCount(components[1..]);
      CountConcat("/" + c, Render(components[1..]), '/');
      CountConcat("/", c, '/');
      CountAbsent(c, '/');
      assert "/"[..0] == "";
    }
  }

  /** The depth of a path is the number of its components, trailing slash or not. */
  lemma DepthCountsComponents(components: seq<string>, trailing: bool)
    requires Components(components)
    ensures Depth(PathOf(components, trailing), '/') == |components|
  {
    RenderCount(components);
    RenderEnd(components);
    var r := Render(components);
    var path := PathOf(components, trailing);
    assert components[0] in components;
    assert path[1] == components[0][0];
    assert !IsRootPath(path);
    if trailing {
      CountConcat(r, "/", '/');
      assert "/"[..0] == "";
    } else {
      assert path == r;
    }
  }

  /** A non-root path has depth 0 exactly when its only token, if any, is its last character. */
  lemma DepthZero(path: string, token: char)
    requires path != "" && !IsRootPath(path)
    ensures Depth(path, token) == 0 <==> token !in path[..|path| - 1]
  {
    CountAbsent(path[..|path| - 1], token);
  }

  /** Behind the root the path is taken as it is. */
  lemma RootRemoved(path: string)
    requires path != "" && path[0] == '/'
    ensures RemoveSubstring(path, RUCIO_ROOT_PATH) == path[1..]
  {
    assert OccursAt(path, RUCIO_ROOT_PATH, 0);
    assert path[..0] + path[1..] == path[1..];
  }

  lemma FirstPartOf(c: string, rest: string)
    requires '/' !in c && (rest == "" || rest[0] == '/')
    ensures FirstPart(c + rest) == c
  {
    if rest == "" {
      assert c + rest == c;
    } else {
      assert c + rest == c + ['/'] + rest[1..];
      IndexOfAfter(c, '/', rest[1..]);
    }
  }

  lemma PrefixRemoved(prefix: string, rest: string)
    ensures RemoveSubstring(prefix + rest, prefix) == rest
  {
    var s := prefix + rest;
    assert OccursAt(s, prefix, 0);
    assert s[..0] + s[|prefix|..] == rest;
  }

  lemma {:induction false} RenderTail(components: seq<string>, tail: string)
    requires tail == "" || tail[0] == '/'
    ensures Render(components) + tail == "" || (Render(components) + tail)[0] == '/'
  {
  }

  /** What follows the first component. */
  function AfterFirst(components: seq<string>, trailing: bool): string
    requires components != []
  {
    Render(components[1..]) + if trailing then "/" else ""
  }

  lemma PathParts(components: seq<string>, trailing: bool)
    requires Components(components)
    ensures var path, rest := PathOf(components, trailing), AfterFirst(components, trailing);
            && path != "" && path[0] == '/'
            && path[1..] == components[0] + rest
            && (rest == "" || rest[0] == '/')
  {
    var tail := if trailing then "/" else "";
    RenderTail(components[1..], tail);
    assert PathOf(components, trailing) == "/" + (components[0] + AfterFirst(components, trailing));
  }

  lemma ServerOf(components: seq<string>, trailing: bool)
    requires Components(components)
    ensures ExtractServerName(PathOf(components, trailing)) == components[0]
  {
    hide RemoveSubstring, FirstPart, PathOf, AfterFirst;
    PathParts(components, trailing);
    RootRemoved(PathOf(components, trailing));
    assert components[0] in components;
    FirstPartOf(components[0], AfterFirst(components, trailing));
  }

  /** A path without a trailing slash determines its components. */
  lemma {:induction false} PathDetermines(a: seq<string>, b: seq<string>)
    requires Components(a) && Components(b) && PathOf(a, false) == PathOf(b, false)
    ensures a == b
  {
    hide FirstPart, PathOf, ExtractServerName;
    ServerOf(a, false);
    ServerOf(b, false);
    PathParts(a, false);
    PathParts(b, false);
    assert AfterFirst(a, false) == AfterFirst(b, false) by {
      assert AfterFirst(a, false) == PathOf(a, false)[1..][|a[0]|..];
      assert AfterFirst(b, false) == PathOf(b, false)[1..][|b[0]|..];
    }
    if |a| > 1 && |b| > 1 {
      assert PathOf(a[1..], false) == PathOf(b[1..], false) by {
        AfterFirstPath(a);
        AfterFirstPath(b);
      }
      PathDetermines(a[1..], b[1..]);
      assert a == [a[0]] + a[1..] && b == [b[0]] + b[1..];
    }
  }

  lemma AfterFirstPath(a: seq<string>)
    requires a != []
    ensures AfterFirst(a, false) == PathOf(a[1..], false)
    ensures AfterFirst(a, false) == "" <==> |a| == 1
  {
  }

  lemma TrailingRemoved(components: seq<string>, trailing: bool)
    requires Components(components)
    ensures RemoveTrailingToken(PathOf(components, trailing)) == Some(Render(components))
    ensures RemoveTrailingToken(PathOf(components, trailing)[1..]) == Some(Render(components)[1..])
  {
    RenderEnd(components);
    var r, path := Render(components), PathOf(components, trailing);
    if trailing {
      assert path[..|path| - 1] == r;
      assert path[1..][..|path[1..]| - 1] == r[1..];
    } else {
      assert path == r;
    }
  }

  lemma RenderCons(components: seq<string>)
    requires components != []
    ensures Render(components) == "/" + (components[0] + Render(components[1..]))
    ensures Render(components)[1..] == components[0] + Render(components[1..])
  {
    assert Render(components) == "/" + (components[0] + Render(components[1..]));
  }

  lemma SlashBetween(a: string, b: string)
    ensures a + ("/" + b) == a + "/" + b
  {
  }

  lemma FirstTwo(components: seq<string>)
    requires Components(components) && |components| >= 2
    ensures var rest := Render(components[2..]);
            && Render(components)[1..] == components[0] + "/" + (components[1] + rest)
            && (rest == "" || rest[0] == '/')
  {
    RenderTail(components[2..], "");
    assert Render(components[2..]) + "" == Render(components[2..]);
    hide Render;
    RenderCons(components);
    RenderCons(components[1..]);
    assert components[1..][1..] == components[2..];
    SlashBetween(components[0], components[1] + Render(components[2..]));
  }

  lemma ScopeOf(components: seq<string>, trailing: bool)
    requires Components(components) && |components| >= 2
    ensures ExtractScope(PathOf(components, trailing)) == Some(components[1])
  {
    hide RemoveSubstring, FirstPart, PathOf, Render, RemoveTrailingToken, ExtractServerName;
    PathParts(components, trailing);
    RootRemoved(PathOf(components, trailing));
    TrailingRemoved(components, trailing);
    ServerOf(components, trailing);
    assert components[1] in components;
    FirstTwo(components);
    var rest := Render(components[2..]);
    PrefixRemoved(components[0] + "/", components[1] + rest);
    FirstPartOf(components[1], rest);
  }

  /** For every list of at least two components, the server, scope and name of a path are its first,
      second and last component. */
  lemma ExtractorsOnPath(components: seq<string>, trailing: bool)
    requires Components(components) && |components| >= 2
    ensures var path := PathOf(components, trailing);
            && ExtractServerName(path) == components[0]
            && ExtractScope(path) == Some(components[1])
            && ExtractName(path) == Some(components[|components| - 1])
  {
    ServerOf(components, trailing);
    ScopeOf(components, trailing);
    TrailingRemoved(components, trailing);
    RenderEnd(components);
  }

  /** On a server mount point the scope extractor gives the server back. */
  lemma ScopeOfMountpoint(server: string, trailing: bool)
    requires Component(server)
    ensures ExtractScope(PathOf([server], trailing)) == Some(server)
  {
    var path := PathOf([server], trailing);
    assert [server][1..] == [];
    assert Render([server]) == "/" + server + "" == "/" + server;
    RootRemoved(path);
    TrailingRemoved([server], trailing);
    ServerOf([server], trailing);
    assert Render([server])[1..] == server;
    forall i: nat
      ensures !OccursAt(server, server + "/", i)
    {
    }
    assert RemoveSubstring(server, server + "/") == server;
    FirstPartOf(server, "");
    assert server + "" == server;
  }

  lemma FirstPartSlashFree(s: string)
    ensures '/' !in FirstPart(s)
  {
  }

  lemma LastPartSlashFree(s: string)
    ensures '/' !in LastPart(s)
  {
    var pos := LastIndexOf(s, '/');
    if pos.Some? {
      var t := s[pos.value + 1..];
      assert forall i :: 0 <= i < |t| ==> t[i] == s[pos.value + 1 + i];
    }
  }

  /** Whatever the path, no extractor returns a slash. */
  lemma ExtractedSlashFree(path: string)
    ensures '/' !in ExtractServerName(path)
    ensures ExtractScope(path).Some? ==> '/' !in ExtractScope(path).value
    ensures ExtractName(path).Some? ==> '/' !in ExtractName(path).value
  {
    FirstPartSlashFree(RemoveSubstring(path, RUCIO_ROOT_PATH));
    var copy := RemoveTrailingToken(RemoveSubstring(path, RUCIO_ROOT_PATH));
    if copy.Some? {
      FirstPartSlashFree(RemoveSubstring(copy.value, ExtractServerName(path) + "/"));
    }
    var copy' := RemoveTrailingToken(path);
    if copy'.Some? {
      LastPartSlashFree(copy'.value);
    }
  }

  // ---------- the download descriptor ----------

  /** `fdid.substr(0, fpos)` with `fpos` the position of the first `:`. */
  function ScopeName(did: string): string {
    did[..IndexOf(did, ':')]
  }

  /** `fdid.substr(fpos + 1)`; without a `:` the position wraps to 0. */
  function FileName(did: string): string {
    var pos := IndexOf(did, ':');
    if pos == |did| then did else did[pos + 1..]
  }

  function CachePathOf(server: string, scope: string, name: string): string {
    RUCIO_CACHE_PATH + "/" + server + "/" + scope + "/" + name
  }

  /** `full_cache_path()`, which is also the file the download wrapper opens. */
  function FullCachePath(server: string, did: string): string {
    CachePathOf(server, ScopeName(did), FileName(did))
  }

  /** The cache path `rucio_read` composes. */
  function ReadCachePath(path: string): (r: Option<string>)
    ensures r.Some? <==> BeyondRoot(path)
  {
    var scope :- ExtractScope(path);
    var name := ExtractName(path).value;
    Some(CachePathOf(ExtractServerName(path), scope, name))
  }

  lemma SplitDid(scope: string, name: string)
    ensures ':' !in scope ==> ScopeName(scope + ":" + name) == scope && FileName(scope + ":" + name) == name
    ensures ':' in scope ==> |ScopeName(scope + ":" + name)| < |scope|
                             && scope + ":" + name == ScopeName(scope + ":" + name) + ":" + FileName(scope + ":" + name)
  {
    var did := scope + ":" + name;
    assert forall i :: 0 <= i < |scope| ==> did[i] == scope[i];
    if ':' !in scope {
      IndexOfAfter(scope, ':', name);
      assert did == scope + [':'] + name;
    } else {
      var j :| 0 <= j < |scope| && scope[j] == ':';
      assert did[j] == ':';
      var i := IndexOf(did, ':');
      assert did == did[..i] + [did[i]] + did[i + 1..];
    }
  }

  lemma CachePathSplit(server: string, scope: string, name: string)
    ensures CachePathOf(server, scope, name) == CachePathPrefix(server) + (scope + "/" + name)
  {
  }

  function CachePathPrefix(server: string): string {
    RUCIO_CACHE_PATH + "/" + server + "/"
  }

  /** The reader and the downloader agree on the file exactly when the scope has no colon: otherwise the
      DiD `scope:name` is split inside the scope. */
  lemma CachePathsAgree(server: string, scope: string, name: string)
    ensures FullCachePath(server, scope + ":" + name) == CachePathOf(server, scope, name) <==> ':' !in scope
  {
    var did := scope + ":" + name;
    SplitDid(scope, name);
    if ':' in scope {
      var s, n := ScopeName(did), FileName(did);
      var x, y := s + "/" + n, scope + "/" + name;
      CachePathSplit(server, s, n);
      CachePathSplit(server, scope, name);
      assert x[|s|] == '/';
      assert did[|s|] == ':' && did[|s|] == scope[|s|];
      assert y[|s|] == ':';
      var p := CachePathPrefix(server);
      assert (p + x)[|p| + |s|] != (p + y)[|p| + |s|];
    }
  }

  lemma CachePathIs(server: string, scope: string, name: string)
    ensures CachePathOf(server, scope, name) == "/ruciofs-cache/" + (server + ("/" + (scope + ("/" + name))))
  {
  }

  /** The root path, written with one slash or two, has depth 0. */
  lemma DepthOfRoot()
    ensures Depth("/", '/') == 0 && Depth("//", '/') == 0
  {
  }

  lemma PathIsBeyondRoot(components: seq<string>, trailing: bool)
    requires Components(components)
    ensures BeyondRoot(PathOf(components, trailing)) && ExtractServerName(PathOf(components, trailing)) == components[0]
  {
    hide ExtractServerName, PathOf;
    ServerOf(components, trailing);
    var path := PathOf(components, trailing);
    PathParts(components, trailing);
    RootAlone(path);
    assert components[0] in components && components[0] != "";
    assert path[1..] != "";
  }

  /** For every path of depth three or more: `rucio_read` composes the path of the file that the
      enqueued download will leave, exactly when the scope has no colon. */
  lemma ReadPathIsDownloadPath(components: seq<string>, trailing: bool)
    requires Components(components) && |components| >= 3
    ensures var path := PathOf(components, trailing);
            && GetDid(path).Some? && ReadCachePath(path).Some?
            && (':' !in components[1] <==>
                  ReadCachePath(path).value == FullCachePath(ExtractServerName(path), GetDid(path).value))
  {
    ExtractorsOnPath(components, trailing);
    CachePathsAgree(components[0], components[1], components[|components| - 1]);
  }
}
