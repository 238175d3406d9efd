/** `rucio_read` (include/fuse-op.h) with the downloading status (source/utils.cpp), the file cache and
    the pipeline around it. */
module FileRead {
  import opened Text
  import opened Machine
  import opened Paths
  import opened Container
  import opened Download
  import opened Pipeline
  import opened DownloadCache

  const EAGAIN := 11
  const EACCES := 13
  const EINPROGRESS := 115

  // ---------- the enqueue decision ----------

  /** `enqueued` is bookkeeping: the paths whose downloads were appended, in order. */
  datatype System = System(cached: set<string>, downloading: set<string>, pipe: State, enqueued: seq<string>)

  datatype Outcome = Denied | NotAFile | InProgress | Again | FromFile

  /** `tokenOk`: the user has a valid token for the server, or is granted one. `container` is the answer
      of `rucio_is_container`. */
  datatype Op =
    | Read(path: string, tokenOk: bool, container: bool)
    | AddFile(key: string)
    | Pipe(action: Action)

  function CacheKey(path: string): string
    requires BeyondRoot(path)
  {
    ReadCachePath(path).value
  }

  /** No token without a known server. */
  predicate Authenticates(known: set<string>, path: string, tokenOk: bool) {
    tokenOk && ExtractServerName(path) in known
  }

  function Decide(s: System, path: string, tokenOk: bool, container: bool): Outcome
    requires BeyondRoot(path)
  {
    if !IsRootPath(path) && !Authenticates(s.pipe.known, path, tokenOk) then Denied
    else if Depth(path, '/') == 1 || Depth(path, '/') == 2 || container then NotAFile
    else if CacheKey(path) in s.cached then FromFile
    else if path in s.downloading then InProgress
    else Again
  }

  function Enqueue(path: string): Action
    requires BeyondRoot(path)
  {
    Append(ExtractServerName(path), GetDid(path).value)
  }

  predicate Possible(s: System, op: Op) {
    match op
    case Read(path, _, _) => BeyondRoot(path)
    case AddFile(_) => true
    case Pipe(a) => !a.Append? && Enabled(s.pipe, a)
  }

  function Step(s: System, op: Op): System
    requires Possible(s, op)
  {
    match op
    case Read(path, tokenOk, container) =>
      (match Decide(s, path, tokenOk, container)
       case Again => System(s.cached, s.downloading + {path}, Next(s.pipe, Enqueue(path)), s.enqueued + [path])
       case FromFile => s.(downloading := s.downloading - {path})
       case _ => s)
    case AddFile(key) => s.(cached := s.cached + {key})
    case Pipe(a) => s.(pipe := Next(s.pipe, a))
  }

  function Start(known: set<string>): System {
    System({}, {}, Init(known), [])
  }

  predicate IsHistory(s: System, ops: seq<Op>)
    decreases ops
  {
    ops == [] || (Possible(s, ops[0]) && IsHistory(Step(s, ops[0]), ops[1..]))
  }

  function StepAll(s: System, ops: seq<Op>): System
    requires IsHistory(s, ops)
    decreases ops
  {
    if ops == [] then s else StepAll(Step(s, ops[0]), ops[1..])
  }

  // ---------- at most one download per path ----------

  predicate Accounted(s: System) {
    forall i :: 0 <= i < |s.enqueued| ==>
      BeyondRoot(s.enqueued[i]) && (s.enqueued[i] in s.downloading || CacheKey(s.enqueued[i]) in s.cached)
  }

  predicate Once(paths: seq<string>) {
    forall i, j :: 0 <= i < j < |paths| ==> paths[i] != paths[j]
  }

  /** The job stems from the read of that path. */
  predicate JobFor(j: Job, enqueued: seq<string>) {
    && j.id < |enqueued| && BeyondRoot(enqueued[j.id])
    && j.info.server == ExtractServerName(enqueued[j.id]) && Some(j.info.did) == GetDid(enqueued[j.id])
  }

  predicate JobsFor(jobs: seq<Job>, enqueued: seq<string>) {
    forall i :: 0 <= i < |jobs| ==> JobFor(jobs[i], enqueued)
  }

  predicate AllJobsFor(p: State, enqueued: seq<string>) {
    && p.appended == |enqueued|
    && JobsFor(p.toDownload, enqueued) && JobsFor(p.picked, enqueued) && JobsFor(p.processed, enqueued)
    && JobsFor(p.downloaded, enqueued) && JobsFor(p.notifying, enqueued) && JobsFor(p.notified, enqueued)
  }

  ghost predicate SystemInv(s: System) {
    Accounted(s) && Once(s.enqueued) && AllJobsFor(s.pipe, s.enqueued) && Inv(s.pipe)
  }

  lemma JobsForMore(jobs: seq<Job>, enqueued: seq<string>, path: string)
    requires JobsFor(jobs, enqueued)
    ensures JobsFor(jobs, enqueued + [path])
  {
    forall i | 0 <= i < |jobs|
      ensures JobFor(jobs[i], enqueued + [path])
    {
      assert JobFor(jobs[i], enqueued);
    }
  }

  lemma EnqueueKeepsJobs(p: State, enqueued: seq<string>, path: string)
    requires AllJobsFor(p, enqueued) && BeyondRoot(path)
    ensures AllJobsFor(Next(p, Enqueue(path)), enqueued + [path])
  {
    hide JobFor;
    JobsForMore(p.toDownload, enqueued, path);
    JobsForMore(p.picked, enqueued, path);
    JobsForMore(p.processed, enqueued, path);
    JobsForMore(p.downloaded, enqueued, path);
    JobsForMore(p.notifying, enqueued, path);
    JobsForMore(p.notified, enqueued, path);
    NewJobFor(p.appended, enqueued, path);
  }

  lemma NewJobFor(id: nat, enqueued: seq<string>, path: string)
    requires id == |enqueued| && BeyondRoot(path)
    ensures JobFor(NewJob(id, ExtractServerName(path), GetDid(path).value), enqueued + [path])
  {
  }

  lemma PassedFor(j: Job, known: set<string>, opens: bool, enqueued: seq<string>)
    requires JobFor(j, enqueued)
    ensures JobFor(Passed(j, known, opens), enqueued)
  {
  }

  lemma PipeKeepsJobs(p: State, a: Action, enqueued: seq<string>)
    requires AllJobsFor(p, enqueued) && !a.Append? && Enabled(p, a)
    ensures AllJobsFor(Next(p, a), enqueued)
  {
    hide JobFor, Passed, Leaves;
    match a
    case GetInput =>
    case ProcessInput(w, opens) =>
      PassedFor(p.picked[w], p.known, opens, enqueued);
    case HandleOutput(w) =>
    case GetNotice =>
    case Notify(w) =>
  }

  lemma StepKeepsSystemInv(s: System, op: Op)
    requires SystemInv(s) && Possible(s, op)
    ensures SystemInv(Step(s, op))
  {
    hide Inv, AllJobsFor, Next, Enabled, ReadCachePath, ExtractScope, ExtractName;
    match op
    case Read(path, tokenOk, container) =>
      if Decide(s, path, tokenOk, container).Again? {
        EnqueueKeepsJobs(s.pipe, s.enqueued, path);
        AppendEnabled(s.pipe, Enqueue(path));
        StepKeepsInv(s.pipe, Enqueue(path));
        NotYetEnqueued(s, path);
      }
    case AddFile(key) =>
    case Pipe(a) =>
      PipeKeepsJobs(s.pipe, a, s.enqueued);
      StepKeepsInv(s.pipe, a);
  }

  lemma AppendEnabled(p: State, a: Action)
    requires a.Append?
    ensures Enabled(p, a)
  {
  }

  lemma NotYetEnqueued(s: System, path: string)
    requires Accounted(s) && BeyondRoot(path) && path !in s.downloading && CacheKey(path) !in s.cached
    ensures forall i :: 0 <= i < |s.enqueued| ==> s.enqueued[i] != path
  {
  }

  lemma {:induction false} HistoryKeepsSystemInv(s: System, ops: seq<Op>)
    requires SystemInv(s) && IsHistory(s, ops)
    ensures SystemInv(StepAll(s, ops))
    decreases ops
  {
    if ops != [] {
      StepKeepsSystemInv(s, ops[0]);
      HistoryKeepsSystemInv(Step(s, ops[0]), ops[1..]);
    }
  }

  /** In every history of reads, cache additions and pipeline steps, no path is enqueued twice; the jobs
      in the pipeline are those of the enqueued paths, each in exactly one place. */
  lemma EnqueuedAtMostOnce(known: set<string>, ops: seq<Op>)
    requires IsHistory(Start(known), ops)
    ensures var s := StepAll(Start(known), ops);
            Once(s.enqueued) && AllJobsFor(s.pipe, s.enqueued) && Inv(s.pipe)
  {
    HistoryKeepsSystemInv(Start(known), ops);
  }

  /** The file a notified download has left is the one the enqueuing read will look for, exactly when the
      scope has no colon. */
  lemma DownloadedWhereRead(known: set<string>, ops: seq<Op>, n: nat, components: seq<string>, trailing: bool)
    requires IsHistory(Start(known), ops) && n < |StepAll(Start(known), ops).pipe.notified|
    requires Components(components) && |components| >= 3
    requires var s := StepAll(Start(known), ops);
             var j := s.pipe.notified[n];
             j.id < |s.enqueued| && s.enqueued[j.id] == PathOf(components, trailing)
    ensures var j := StepAll(Start(known), ops).pipe.notified[n];
            Some(FullCachePath(j.info.server, j.info.did)) == ReadCachePath(PathOf(components, trailing))
            <==> ':' !in components[1]
  {
    EnqueuedAtMostOnce(known, ops);
    var s := StepAll(Start(known), ops);
    assert JobFor(s.pipe.notified[n], s.enqueued);
    ReadPathIsDownloadPath(components, trailing);
  }

  // ---------- what a read is answered ----------

  /** What has happened decides, after any history: a read is denied exactly when the user gets no token
      or the server is unknown; otherwise a directory or container is not a file; otherwise the read gets
      the file exactly when its cache path was added, is in progress exactly when a successful read came
      before and nothing was added, and starts the download otherwise. In particular `add_file` ends the
      waiting, and nothing else does: not even a finished download. */
  lemma {:induction false} ReadOutcome(s: System, ops: seq<Op>, path: string, tokenOk: bool, container: bool)
    requires IsHistory(s, ops)
    requires BeyondRoot(path) && path != "//"
    ensures Decide(StepAll(s, ops), path, tokenOk, container) ==
            if !tokenOk || ExtractServerName(path) !in s.pipe.known then Denied
            else if container || Depth(path, '/') in {1, 2} then NotAFile
            else if CacheKey(path) in s.cached || AddFile(CacheKey(path)) in ops then FromFile
            else if path in s.downloading || Read(path, true, false) in ops then InProgress
            else Again
    decreases ops
  {
    hide Decide, Step, Possible, ReadCachePath, ExtractServerName, Depth;
    if ops == [] {
      OutcomeNow(s, path, tokenOk, container);
    } else {
      OutcomeStep(s, ops[0], path);
      ReadOutcome(Step(s, ops[0]), ops[1..], path, tokenOk, container);
      assert ops == [ops[0]] + ops[1..];
    }
  }

  lemma OutcomeNow(s: System, path: string, tokenOk: bool, container: bool)
    requires BeyondRoot(path) && path != "//"
    ensures Decide(s, path, tokenOk, container) ==
            if !tokenOk || ExtractServerName(path) !in s.pipe.known then Denied
            else if container || Depth(path, '/') in {1, 2} then NotAFile
            else if CacheKey(path) in s.cached then FromFile
            else if path in s.downloading then InProgress
            else Again
  {
    hide ReadCachePath, ExtractServerName, Depth;
  }

  /** The root path, as `//`, is not authenticated, and treated like a file. */
  lemma RootRead(s: System, path: string, tokenOk: bool, container: bool)
    requires path == "//"
    ensures Decide(s, path, tokenOk, container) ==
            if container then NotAFile
            else if CacheKey(path) in s.cached then FromFile
            else if path in s.downloading then InProgress
            else Again
  {
    hide ReadCachePath, ExtractServerName, Depth;
    DepthOfRoot();
  }

  /** The path as the mount gives it. */
  lemma ReadPath(components: seq<string>, trailing: bool)
    requires Components(components)
    ensures var path := PathOf(components, trailing);
            && BeyondRoot(path) && path != "//" && ExtractServerName(path) == components[0]
            && Depth(path, '/') == |components|
            && (|components| >= 3 ==>
                  CacheKey(path) ==
                  "/ruciofs-cache/" + (components[0] + ("/" + (components[1] + ("/" + components[|components| - 1])))))
  {
    hide CachePathOf, Components, Depth, PathOf, ExtractServerName, ExtractScope, ExtractName;
    NoComponents(components);
    PathIsBeyondRoot(components, trailing);
    DepthCountsComponents(components, trailing);
    DepthOfRoot();
    if |components| >= 3 {
      ExtractorsOnPath(components, trailing);
      CachePathIs(components[0], components[1], components[|components| - 1]);
    }
  }

  /** What `rucio_read` returns, for every path of the mount, user and server, after any history from an
      empty start: -EACCES exactly without a token or a known server, -1 exactly for a server, a scope or
      a container, the bytes exactly when the file was added under its server, scope and name,
      -EINPROGRESS exactly when it was read before, and -EAGAIN otherwise. A read that is denied or meets a
      directory changes nothing. */
  lemma ReadReturns(known: set<string>, ops: seq<Op>, components: seq<string>, trailing: bool,
                    tokenOk: bool, container: bool, fileSize: int, size: nat, offset: nat)
    requires IsHistory(Start(known), ops) && Components(components)
    ensures var path, s := PathOf(components, trailing), StepAll(Start(known), ops);
            && BeyondRoot(path)
            && Return(Decide(s, path, tokenOk, container), fileSize, size, offset) ==
               (if !tokenOk || components[0] !in known then -13
                else if container || |components| <= 2 then -1
                else if AddFile("/ruciofs-cache/" + (components[0] + ("/" + (components[1] + ("/" + components[|components| - 1]))))) in ops then
                  ReadResult(fileSize, size, offset)
                else if Read(path, true, false) in ops then -115
                else -11)
            && (!tokenOk || components[0] !in known || container || |components| <= 2 ==>
                  Step(s, Read(path, tokenOk, container)) == s)
  {
    hide Decide, StepAll, IsHistory, PathOf, Components, ReadResult, CacheKey, Depth, IsRootPath, BeyondRoot, ExtractServerName;
    var path := PathOf(components, trailing);
    ReadPath(components, trailing);
    ReadOutcome(Start(known), ops, path, tokenOk, container);
    ReadStep(StepAll(Start(known), ops), path, tokenOk, container);
    NoComponents(components);
  }

  lemma NoComponents(components: seq<string>)
    requires Components(components)
    ensures components != []
  {
  }

  lemma ReadStep(s: System, path: string, tokenOk: bool, container: bool)
    requires BeyondRoot(path)
    ensures var t := Step(s, Read(path, tokenOk, container));
            && t.pipe.known == s.pipe.known && t.cached == s.cached
            && match Decide(s, path, tokenOk, container)
               case Again => t.downloading == s.downloading + {path}
               case FromFile => t.downloading == s.downloading - {path} && CacheKey(path) in s.cached
               case _ => t == s
  {
    hide ReadCachePath, ExtractServerName, Depth, IsRootPath, BeyondRoot;
  }

  lemma OutcomeStep(s: System, op: Op, path: string)
    requires BeyondRoot(path) && path != "//" && Possible(s, op)
    ensures var t := Step(s, op);
            && t.pipe.known == s.pipe.known
            && (CacheKey(path) in t.cached <==> CacheKey(path) in s.cached || op == AddFile(CacheKey(path)))
            && (CacheKey(path) !in t.cached && ExtractServerName(path) in s.pipe.known && Depth(path, '/') !in {1, 2} ==>
                  (path in t.downloading <==> path in s.downloading || op == Read(path, true, false)))
  {
    hide Decide, CacheKey, BeyondRoot, Depth, ExtractServerName, IsRootPath;
    match op
    case Read(p, tokenOk, container) =>
      hide Step;
      ReadStep(s, p, tokenOk, container);
      OutcomeNow(s, path, tokenOk, container);
    case AddFile(_) =>
    case Pipe(a) =>
      ServersKept(s.pipe, a);
  }

  lemma ServersKept(p: State, a: Action)
    requires Enabled(p, a)
    ensures Next(p, a).known == p.known
  {
  }

  // ---------- the downloading mark ----------

  lemma {:induction false} HistoryConcat(s: System, a: seq<Op>, b: seq<Op>)
    requires IsHistory(s, a + b)
    ensures IsHistory(s, a) && IsHistory(StepAll(s, a), b) && StepAll(s, a + b) == StepAll(StepAll(s, a), b)
    decreases a
  {
    hide Step, Possible;
    if a == [] {
      assert a + b == b;
    } else {
      assert (a + b)[1..] == a[1..] + b && (a + b)[0] == a[0];
      HistoryConcat(Step(s, a[0]), a[1..], b);
    }
  }

  /** Reads of other paths, and reads that are denied or meet a directory, leave the mark of a path. */
  lemma {:induction false} MarkKept(s: System, ops: seq<Op>, path: string)
    requires IsHistory(s, ops) && BeyondRoot(path) && path != "//"
    requires Read(path, true, false) !in ops
    ensures path in StepAll(s, ops).downloading <==> path in s.downloading
    decreases ops
  {
    hide Decide, ReadCachePath, IsRootPath, BeyondRoot, Next, Enabled;
    if ops != [] {
      assert ops == [ops[0]] + ops[1..];
      if ops[0].Read? {
        ReadStep(s, ops[0].path, ops[0].tokenOk, ops[0].container);
        OutcomeNow(s, path, ops[0].tokenOk, ops[0].container);
      }
      MarkKept(Step(s, ops[0]), ops[1..], path);
    }
  }

  /** A file is marked as downloading exactly by the last read of it that was let through: when that read
      came before the file was added. So the first read that gets the file takes the mark away. */
  lemma MarkedByLastRead(known: set<string>, before: seq<Op>, path: string, after: seq<Op>)
    requires IsHistory(Start(known), before + ([Read(path, true, false)] + after))
    requires BeyondRoot(path) && path != "//" && Depth(path, '/') !in {1, 2}
    requires ExtractServerName(path) in known && Read(path, true, false) !in after
    ensures path in StepAll(Start(known), before + ([Read(path, true, false)] + after)).downloading <==>
            AddFile(CacheKey(path)) !in before
  {
    hide Decide, Step, Possible, Depth, IsRootPath, BeyondRoot, ExtractServerName, CacheKey;
    var op := Read(path, true, false);
    HistoryConcat(Start(known), before, [op] + after);
    var s := StepAll(Start(known), before);
    assert ([op] + after)[1..] == after;
    ReadOutcome(Start(known), before, path, true, false);
    OutcomeNow(s, path, true, false);
    ServersStay(Start(known), before);
    ReadStep(s, path, true, false);
    MarkKept(Step(s, op), after, path);
  }

  lemma {:induction false} ServersStay(s: System, ops: seq<Op>)
    requires IsHistory(s, ops)
    ensures StepAll(s, ops).pipe.known == s.pipe.known
    decreases ops
  {
    hide Decide, Next, Enabled;
    if ops != [] {
      if ops[0].Read? {
        ReadStep(s, ops[0].path, ops[0].tokenOk, ops[0].container);
      } else if ops[0].Pipe? {
        ServersKept(s.pipe, ops[0].action);
      }
      ServersStay(Step(s, ops[0]), ops[1..]);
    }
  }

  // ---------- once per file ----------

  /** Two paths have one cache path exactly when they agree in server, scope and last component. */
  lemma SameCacheKey(p: string, q: string)
    requires BeyondRoot(p) && BeyondRoot(q)
    ensures CacheKey(p) == CacheKey(q) <==>
            && ExtractServerName(p) == ExtractServerName(q)
            && ExtractScope(p) == ExtractScope(q) && ExtractName(p) == ExtractName(q)
  {
    hide ExtractServerName, ExtractScope, ExtractName;
    ExtractedSlashFree(p);
    ExtractedSlashFree(q);
    CacheKeyParts(p);
    CacheKeyParts(q);
    if CacheKey(p) == CacheKey(q) {
      SamePrefix(RUCIO_CACHE_PATH + "/", CacheKey(p)[|RUCIO_CACHE_PATH + "/"|..], CacheKey(q)[|RUCIO_CACHE_PATH + "/"|..]);
      var x, y := ExtractScope(p).value, ExtractScope(q).value;
      var n, m := ExtractName(p).value, ExtractName(q).value;
      FirstOfTwo(ExtractServerName(p), x + ("/" + n), ExtractServerName(q), y + ("/" + m));
      FirstOfTwo(x, n, y, m);
    }
  }

  lemma CacheKeyParts(p: string)
    requires BeyondRoot(p)
    ensures CacheKey(p) == (RUCIO_CACHE_PATH + "/")
                         + (ExtractServerName(p) + ("/" + (ExtractScope(p).value + ("/" + ExtractName(p).value))))
  {
    hide ExtractServerName, ExtractScope, ExtractName;
  }

  lemma FirstOfTwo(a: string, x: string, b: string, y: string)
    requires '/' !in a && '/' !in b && a + ("/" + x) == b + ("/" + y)
    ensures a == b && x == y
  {
    var s := a + ("/" + x);
    assert s[|a|] == '/' == s[|b|];
    assert |a| == |b|;
    assert a == s[..|a|] == b && x == s[|a| + 1..] == y;
  }

  /** Files of known servers. */
  ghost predicate FilePaths(paths: iset<string>, known: set<string>) {
    forall p :: p in paths ==> BeyondRoot(p) && Depth(p, '/') >= 3 && ExtractServerName(p) in known
  }

  ghost predicate ReadsIn(ops: seq<Op>, paths: iset<string>) {
    forall i :: 0 <= i < |ops| && ops[i].Read? ==> ops[i].path in paths
  }

  predicate OncePerFile(enqueued: seq<string>) {
    forall i, j :: 0 <= i < j < |enqueued| ==> ReadCachePath(enqueued[i]) != ReadCachePath(enqueued[j])
  }

  ghost predicate DistinctFiles(paths: iset<string>) {
    forall p, q :: p in paths && q in paths && ReadCachePath(p) == ReadCachePath(q) ==> p == q
  }

  ghost predicate AlwaysOncePerFile(known: set<string>, paths: iset<string>) {
    forall ops :: IsHistory(Start(known), ops) && ReadsIn(ops, paths) ==>
                    OncePerFile(StepAll(Start(known), ops).enqueued)
  }

  lemma {:induction false} EnqueuedWereRead(s: System, ops: seq<Op>, paths: iset<string>)
    requires IsHistory(s, ops) && ReadsIn(ops, paths) && forall p :: p in s.enqueued ==> p in paths
    ensures forall p :: p in StepAll(s, ops).enqueued ==> p in paths
    decreases ops
  {
    hide Decide, Next, Enabled;
    if ops != [] {
      assert ops[0].Read? ==> ops[0].path in paths;
      EnqueuedWereRead(Step(s, ops[0]), ops[1..], paths);
    }
  }

  /** A first read of a file nobody has. */
  lemma FirstRead(s: System, path: string)
    requires BeyondRoot(path) && Depth(path, '/') >= 3 && ExtractServerName(path) in s.pipe.known
    requires path !in s.downloading && CacheKey(path) !in s.cached
    ensures Possible(s, Read(path, true, false)) && Decide(s, path, true, false) == Again
    ensures var t := Step(s, Read(path, true, false));
            && t.enqueued == s.enqueued + [path] && t.downloading == s.downloading + {path} && t.cached == s.cached
            && t.pipe.known == s.pipe.known
  {
    hide Depth, ReadCachePath, ExtractScope, ExtractName;
  }

  lemma TwoOps(s: System, a: Op, b: Op)
    requires Possible(s, a) && Possible(Step(s, a), b)
    ensures IsHistory(s, [a, b]) && StepAll(s, [a, b]) == Step(Step(s, a), b)
  {
    hide Possible, Step;
    assert [a, b][1..] == [b] && [b][1..] == [];
    var t := Step(Step(s, a), b);
    assert IsHistory(t, []) && StepAll(t, []) == t;
    assert IsHistory(Step(s, a), [b]) && StepAll(Step(s, a), [b]) == t;
  }

  /** Two paths of one file enqueue the same DiD twice. */
  lemma AliasesEnqueueTwice(s: System, p: string, q: string)
    requires BeyondRoot(p) && Depth(p, '/') >= 3 && BeyondRoot(q) && Depth(q, '/') >= 3
    requires p != q && CacheKey(p) == CacheKey(q)
    requires ExtractServerName(p) in s.pipe.known
    requires p !in s.downloading && q !in s.downloading && CacheKey(p) !in s.cached
    ensures IsHistory(s, [Read(p, true, false), Read(q, true, false)])
    ensures StepAll(s, [Read(p, true, false), Read(q, true, false)]).enqueued == s.enqueued + [p] + [q]
    ensures GetDid(p) == GetDid(q)
  {
    hide Step, Possible, Depth, ExtractScope, ExtractName, ExtractServerName, ReadCachePath;
    SameCacheKey(p, q);
    FirstRead(s, p);
    FirstRead(Step(s, Read(p, true, false)), q);
    TwoOps(s, Read(p, true, false), Read(q, true, false));
  }

  lemma DistinctFilesOnce(known: set<string>, paths: iset<string>, ops: seq<Op>)
    requires DistinctFiles(paths) && IsHistory(Start(known), ops) && ReadsIn(ops, paths)
    ensures OncePerFile(StepAll(Start(known), ops).enqueued)
  {
    hide StepAll, IsHistory, ReadCachePath, Inv, AllJobsFor;
    EnqueuedAtMostOnce(known, ops);
    EnqueuedWereRead(Start(known), ops, paths);
    var enqueued := StepAll(Start(known), ops).enqueued;
    forall i, j | 0 <= i < j < |enqueued|
      ensures ReadCachePath(enqueued[i]) != ReadCachePath(enqueued[j])
    {
      assert enqueued[i] in paths && enqueued[j] in paths && enqueued[i] != enqueued[j];
    }
  }

  lemma AliasesInSet(known: set<string>, paths: iset<string>, p: string, q: string)
    requires FilePaths(paths, known)
    requires p in paths && q in paths && p != q && ReadCachePath(p) == ReadCachePath(q)
    ensures !AlwaysOncePerFile(known, paths)
  {
    hide StepAll, IsHistory, ReadCachePath, Depth, ExtractServerName, GetDid, Components;
    AliasesEnqueueTwice(Start(known), p, q);
    var ops := [Read(p, true, false), Read(q, true, false)];
    assert ReadsIn(ops, paths);
    var enqueued := StepAll(Start(known), ops).enqueued;
    assert enqueued == [p, q];
    assert ReadCachePath(enqueued[0]) == ReadCachePath(enqueued[1]);
  }

  /** For any set of file paths: every history whose reads lie in it enqueues each file at most once if
      and only if no two different paths of the set have the same cache path. */
  lemma EnqueuedOncePerFile(known: set<string>, paths: iset<string>)
    requires FilePaths(paths, known)
    ensures AlwaysOncePerFile(known, paths) <==> DistinctFiles(paths)
  {
    hide OncePerFile, StepAll, IsHistory, ReadsIn, ReadCachePath;
    if DistinctFiles(paths) {
      forall ops | IsHistory(Start(known), ops) && ReadsIn(ops, paths)
        ensures OncePerFile(StepAll(Start(known), ops).enqueued)
      {
        DistinctFilesOnce(known, paths, ops);
      }
    } else {
      var p, q :| p in paths && q in paths && ReadCachePath(p) == ReadCachePath(q) && p != q;
      AliasesInSet(known, paths, p, q);
    }
  }

  lemma FileIn(components: seq<string>)
    requires Components(components) && |components| >= 3
    ensures var p := PathOf(components, false);
            && BeyondRoot(p) && Depth(p, '/') >= 3 && ExtractServerName(p) == components[0]
            && CacheKey(p) == CachePathOf(components[0], components[1], components[|components| - 1])
  {
    ExtractorsOnPath(components, false);
    DepthCountsComponents(components, false);
  }

  /** One file listed in two containers, such as `/s/c/k/f` and `/s/c/l/f`, has two paths and is
      downloaded twice. */
  lemma TwoContainersEnqueueTwice(known: set<string>, a: seq<string>, b: seq<string>)
    requires Components(a) && Components(b) && |a| >= 3 && |b| >= 3 && a != b
    requires a[0] == b[0] && a[0] in known && a[1] == b[1] && a[|a| - 1] == b[|b| - 1]
    ensures var p, q := PathOf(a, false), PathOf(b, false);
            && p != q && ReadCachePath(p) == ReadCachePath(q) && GetDid(p) == GetDid(q)
            && IsHistory(Start(known), [Read(p, true, false), Read(q, true, false)])
            && StepAll(Start(known), [Read(p, true, false), Read(q, true, false)]).enqueued == [p, q]
  {
    hide PathOf, Components, CachePathOf, StepAll, IsHistory, GetDid, ExtractServerName;
    FileIn(a);
    FileIn(b);
    if PathOf(a, false) == PathOf(b, false) {
      PathDetermines(a, b);
    }
    AliasesEnqueueTwice(Start(known), PathOf(a, false), PathOf(b, false));
  }

  // ---------- the work of the pipeline is bounded ----------

  predicate NoRootReads(ops: seq<Op>) {
    forall i :: 0 <= i < |ops| && ops[i].Read? ==> ops[i].path != "//"
  }

  function PipeSteps(ops: seq<Op>): nat {
    if ops == [] then 0 else (if ops[0].Pipe? then 1 else 0) + PipeSteps(ops[1..])
  }

  /** Reads authenticate, so only jobs of known servers are ever appended. */
  lemma StepKeepsKnownJobs(s: System, op: Op)
    requires Consistent(s.pipe) && AllKnown(s.pipe) && Possible(s, op)
    requires op.Read? ==> op.path != "//"
    ensures var t := Step(s, op);
            && Consistent(t.pipe) && AllKnown(t.pipe) && |s.enqueued| <= |t.enqueued|
            && Measure(t.pipe) + (if op.Pipe? then 1 else 0)
               <= Measure(s.pipe) + 17 * (|t.enqueued| - |s.enqueued|)
  {
    hide Measure, Consistent, AllKnown, ReadCachePath, Depth, ExtractServerName, Next, Enabled;
    match op
    case Read(path, tokenOk, container) =>
      if Decide(s, path, tokenOk, container).Again? {
        AppendEnabled(s.pipe, Enqueue(path));
        StepDecreases(s.pipe, Enqueue(path));
        KnownKept(s.pipe, Enqueue(path));
        ConsistencyKept(s.pipe, Enqueue(path));
      }
    case AddFile(_) =>
    case Pipe(a) =>
      StepDecreases(s.pipe, a);
      KnownKept(s.pipe, a);
      ConsistencyKept(s.pipe, a);
  }

  lemma {:induction false} HistoryBound(s: System, ops: seq<Op>)
    requires Consistent(s.pipe) && AllKnown(s.pipe) && IsHistory(s, ops) && NoRootReads(ops)
    ensures var t := StepAll(s, ops);
            && AllKnown(t.pipe) && |s.enqueued| <= |t.enqueued|
            && Measure(t.pipe) + PipeSteps(ops) <= Measure(s.pipe) + 17 * (|t.enqueued| - |s.enqueued|)
    decreases ops
  {
    hide Measure, Consistent, AllKnown, Step, Possible;
    if ops != [] {
      StepKeepsKnownJobs(s, ops[0]);
      HistoryBound(Step(s, ops[0]), ops[1..]);
    }
  }

  lemma {:induction false} DistinctIn(paths: seq<string>, all: set<string>)
    requires Once(paths) && forall p :: p in paths ==> p in all
    ensures |paths| <= |all|
  {
    if paths != [] {
      var last := paths[|paths| - 1];
      DistinctIn(paths[..|paths| - 1], all - {last});
    }
  }

  /** Whatever is read, added and run, with any failures: the pipeline only ever holds jobs of known
      servers, and works at most 17 steps per enqueued path, so at most 17 per path read at all. Its
      retries are bounded without any assumption about servers. */
  lemma ReadsBoundThePipeline(known: set<string>, ops: seq<Op>, paths: set<string>)
    requires IsHistory(Start(known), ops) && NoRootReads(ops)
    requires forall i :: 0 <= i < |ops| && ops[i].Read? ==> ops[i].path in paths
    ensures var s := StepAll(Start(known), ops);
            AllKnown(s.pipe) && PipeSteps(ops) <= 17 * |s.enqueued| && |s.enqueued| <= |paths|
  {
    hide StepAll, IsHistory;
    HistoryBound(Start(known), ops);
    EnqueuedAtMostOnce(known, ops);
    EnqueuedWereRead(Start(known), ops, iset p | p in paths);
    DistinctIn(StepAll(Start(known), ops).enqueued, paths);
  }

  // ---------- reading from the cached file ----------

  function Min(a: int, b: int): int {
    if a <= b then a else b
  }

  function ReadResult(fileSize: int, size: nat, offset: nat): int {
    if offset > fileSize then 0 else Wrap32(Min(size, fileSize - offset))
  }

  /** The return value of `rucio_read`. */
  function Return(o: Outcome, fileSize: int, size: nat, offset: nat): int {
    match o
    case Denied => -EACCES
    case NotAFile => -1
    case InProgress => -EINPROGRESS
    case Again => -EAGAIN
    case FromFile => ReadResult(fileSize, size, offset)
  }

  /** How many bytes `fread` finds at an offset. */
  function Available(content: seq<Byte>, size: nat, offset: nat): nat {
    if offset >= |content| then 0 else Min(size, |content| - offset)
  }

  /** The buffer after the read: bytes of the file, then whatever was there before. */
  function BufferAfter(content: seq<Byte>, fileSize: int, buffer: seq<Byte>, offset: nat): (after: seq<Byte>)
    ensures |after| == |buffer|
  {
    var k := Available(content, |buffer|, offset);
    if offset > fileSize || k == 0 then buffer else content[offset..offset + k] + buffer[k..]
  }

  lemma PastTheEnd(content: seq<Byte>, fileSize: int, buffer: seq<Byte>, offset: nat)
    requires offset > fileSize
    ensures BufferAfter(content, fileSize, buffer, offset) == buffer
  {
  }

  class FileSystem {
    const downloadCache: FileCache
    const downloadingStatus: ThreadSafeMap<string, int>
    const pipeline: RucioPipeline
    ghost var enqueued: seq<string>

    ghost function View(): System
      reads this, downloadCache, downloadingStatus, pipeline
    {
      System(downloadCache.cache.Keys, downloadingStatus.container.Keys, pipeline.View(), enqueued)
    }

    constructor (known: set<string>)
      ensures View() == Start(known)
    {
      downloadCache := new FileCache();
      downloadingStatus := new ThreadSafeMap();
      pipeline := new RucioPipeline(known);
      enqueued := [];
    }

    method SetDownloading(path: string)
      modifies downloadingStatus
      ensures downloadingStatus.container.Keys == old(downloadingStatus.container.Keys) + {path}
    {
      downloadingStatus.Emplace(path, 0);
    }

    method IsDownloading(path: string) returns (b: bool)
      ensures b <==> path in downloadingStatus.container
    {
      b := downloadingStatus.Exists(path);
    }

    method SetDownloaded(path: string)
      modifies downloadingStatus
      ensures downloadingStatus.container.Keys == old(downloadingStatus.container.Keys) - {path}
    {
      downloadingStatus.Erase(path);
    }

    /** Whether `authenticate_user` returns TOKEN_OK. */
    method AuthenticateUser(path: string, tokenOk: bool) returns (ok: bool)
      ensures ok <==> Authenticates(pipeline.known, path, tokenOk)
    {
      var server := ComputeServerName(path);
      if server !in pipeline.known {
        return false;
      }
      ok := tokenOk;
    }

    /** `fileSize` is the answer of `rucio_get_size`. A cached file must be open. */
    method RucioRead(path: string, tokenOk: bool, container: bool, fileSize: int,
                     buffer: array<Byte>, size: nat, offset: nat)
      returns (n: int)
      requires BeyondRoot(path) && Count(path, '/') < 0x8000 && size == buffer.Length
      requires CacheKey(path) in downloadCache.cache ==> downloadCache.cache[CacheKey(path)].Some?
      modifies this, downloadingStatus, pipeline, buffer
      ensures View() == Step(old(View()), Read(path, tokenOk, container))
      ensures var outcome := Decide(old(View()), path, tokenOk, container);
              && n == Return(outcome, fileSize, size, offset)
              && buffer[..] == if outcome.FromFile? then
                                 BufferAfter(downloadCache.cache[CacheKey(path)].value, fileSize, old(buffer[..]), offset)
                               else old(buffer[..])
    {
      hide BufferAfter, Available, Depth, ExtractScope, ExtractName, ExtractServerName, Count, IsRootPath;
      if !IsRootPath(path) {
        var ok := AuthenticateUser(path, tokenOk);
        if !ok {
          return -EACCES;
        }
      }
      var depth := PathDepth(path);
      if depth == 1 || depth == 2 || container {
        return -1;
      }
      var serverName := ComputeServerName(path);
      var scope := ComputeScope(path);
      var name := ComputeName(path);
      var did := scope.value + ":" + name.value;
      var cacheRoot := RUCIO_CACHE_PATH + "/" + serverName + "/" + scope.value;
      var cachePath := cacheRoot + "/" + name.value;
      var isCached := downloadCache.IsCached(cachePath);
      if !isCached {
        var isDownloading := IsDownloading(path);
        if isDownloading {
          return -EINPROGRESS;
        }
        var info := new DownloadInfo(did, path);
        pipeline.AppendNewDownload(info);
        SetDownloading(path);
        enqueued := enqueued + [path];
        return -EAGAIN;
      }
      SetDownloaded(path);
      var file := downloadCache.GetFile(cachePath);
      if offset > fileSize {
        PastTheEnd(file.value, fileSize, buffer[..], offset);
        return 0;
      }
      FRead(buffer, file.value, fileSize, offset);
      n := Wrap32(Min(size, fileSize - offset));
    }

    method FRead(buffer: array<Byte>, content: seq<Byte>, ghost fileSize: int, offset: nat)
      requires offset <= fileSize
      modifies buffer
      ensures buffer[..] == BufferAfter(content, fileSize, old(buffer[..]), offset)
    {
      var k := Available(content, buffer.Length, offset);
      forall i | 0 <= i < k {
        buffer[i] := content[offset + i];
      }
    }
  }

  /** A read at any offset, whatever the recorded size: past that size nothing is read; up to it every byte
      of the buffer becomes the byte of the file at its place, if the file has one, and the result is what
      the recorded size still allows, as an `int`. */
  lemma ReadAnywhere(content: seq<Byte>, fileSize: int, buffer: seq<Byte>, offset: nat)
    ensures var n, after := ReadResult(fileSize, |buffer|, offset), BufferAfter(content, fileSize, buffer, offset);
            if offset > fileSize then n == 0 && after == buffer
            else
              && (forall i :: 0 <= i < |buffer| ==>
                    after[i] == if offset + i < |content| then content[offset + i] else buffer[i])
              && IsInt32(n)
              && (n - if |buffer| <= fileSize - offset then |buffer| else fileSize - offset) % 0x1_0000_0000 == 0
  {
  }

  // ---------- a reader gets the file ----------

  datatype Reader = Reader(offset: nat, collected: seq<Byte>)

  predicate Buffers(buffers: seq<seq<Byte>>) {
    forall i :: 0 <= i < |buffers| ==> 0 < |buffers[i]| < 0x8000_0000
  }

  lemma ResultInRange(fileSize: int, size: nat, offset: nat)
    requires size < 0x8000_0000
    ensures ReadResult(fileSize, size, offset) == if offset > fileSize then 0 else Min(size, fileSize - offset)
  {
  }

  /** One read into the next buffer: the reader keeps what the result says and moves on by as much. */
  function ReadOn(content: seq<Byte>, fileSize: int, buffer: seq<Byte>, r: Reader): Reader
    requires |buffer| < 0x8000_0000
  {
    ResultInRange(fileSize, |buffer|, r.offset);
    var n := ReadResult(fileSize, |buffer|, r.offset);
    Reader(r.offset + n, r.collected + BufferAfter(content, fileSize, buffer, r.offset)[..n])
  }

  function ReadAll(content: seq<Byte>, fileSize: int, buffers: seq<seq<Byte>>): Reader
    requires Buffers(buffers)
  {
    if buffers == [] then Reader(0, [])
    else ReadOn(content, fileSize, buffers[|buffers| - 1], ReadAll(content, fileSize, buffers[..|buffers| - 1]))
  }

  function TotalSize(buffers: seq<seq<Byte>>): nat {
    if buffers == [] then 0 else TotalSize(buffers[..|buffers| - 1]) + |buffers[|buffers| - 1]|
  }

  /** The reader never passes the recorded size, and reaches it with enough room. */
  lemma {:induction false} ReaderPosition(content: seq<Byte>, fileSize: int, buffers: seq<seq<Byte>>)
    requires Buffers(buffers)
    ensures var r := ReadAll(content, fileSize, buffers);
            r.offset == |r.collected| == if fileSize < 0 then 0 else Min(TotalSize(buffers), fileSize)
  {
    if buffers != [] {
      var init, last := buffers[..|buffers| - 1], buffers[|buffers| - 1];
      ReaderPosition(content, fileSize, init);
      ResultInRange(fileSize, |last|, ReadAll(content, fileSize, init).offset);
    }
  }

  lemma ReadOnCollects(content: seq<Byte>, buffer: seq<Byte>, r: Reader)
    requires |buffer| < 0x8000_0000 && r.offset <= |content| && r.collected == content[..r.offset]
    ensures var next := ReadOn(content, |content|, buffer, r);
            next.offset <= |content| && next.collected == content[..next.offset]
  {
    ResultInRange(|content|, |buffer|, r.offset);
    var n := Min(|buffer|, |content| - r.offset);
    assert n == Available(content, |buffer|, r.offset);
    assert BufferAfter(content, |content|, buffer, r.offset)[..n] == content[r.offset..r.offset + n];
    assert content[..r.offset] + content[r.offset..r.offset + n] == content[..r.offset + n];
  }

  lemma {:induction false} ReaderCollects(content: seq<Byte>, buffers: seq<seq<Byte>>)
    requires Buffers(buffers)
    ensures var r := ReadAll(content, |content|, buffers);
            r.offset <= |content| && r.collected == content[..r.offset]
  {
    hide ReadOn;
    if buffers != [] {
      var init, last := buffers[..|buffers| - 1], buffers[|buffers| - 1];
      ReaderCollects(content, init);
      ReadOnCollects(content, last, ReadAll(content, |content|, init));
    }
  }

  /** For any buffers with room for the recorded size: a reader that advances by each result collects
      exactly the file if and only if the recorded size is the file's length, and then only gets 0. */
  lemma ReaderGetsTheFile(content: seq<Byte>, fileSize: int, buffers: seq<seq<Byte>>, more: nat)
    requires Buffers(buffers) && fileSize <= TotalSize(buffers)
    ensures (if fileSize < 0 then 0 else fileSize) == |content| <==>
              ReadAll(content, fileSize, buffers).collected == content
    ensures ReadResult(fileSize, more, ReadAll(content, fileSize, buffers).offset) == 0
  {
    hide ReadAll, TotalSize;
    ReaderPosition(content, fileSize, buffers);
    if fileSize == |content| {
      ReaderCollects(content, buffers);
      assert content[..|content|] == content;
    }
  }
}
