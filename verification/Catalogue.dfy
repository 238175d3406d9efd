/** The catalogue operations with their side caches (source/REST-API.cpp). */
module Catalogue {
  import opened Text
  import opened Machine
  import opened Number
  import opened Paths
  import opened Container
  import opened DidStream
  import opened DidRecord
  import opened ListCache
  import opened FileSize
  import opened RecordSearch
  import opened ContainerAnswer
  import opened ScopeList
  import opened ScopeCutting

  // ---------- what a listing leaves in the side caches ----------

  /** `did.type != rucio_file`; indeterminate when the type was never set. */
  function ContainerFlag(d: Did): Option<bool> {
    if d.dataType.None? then None else Some(d.dataType.value != File)
  }

  function MarkTypes(m: map<string, Option<bool>>, prefix: string, dids: seq<Did>): map<string, Option<bool>>
    decreases dids
  {
    if dids == [] then m else MarkTypes(m[prefix + dids[0].name := ContainerFlag(dids[0])], prefix, dids[1..])
  }

  function MarkSizes(m: map<string, Option<int>>, prefix: string, dids: seq<Did>): map<string, Option<int>>
    decreases dids
  {
    if dids == [] then m else MarkSizes(m[prefix + dids[0].name := dids[0].size], prefix, dids[1..])
  }

  /** A call of `rucio_list_scopes`; `payload` is `None` when the server is unknown or the transfer
      fails. */
  datatype ScopeTransfer = ScopeTransfer(server: string, now: int, payload: Option<seq<string>>)

  function ScopeCall(t: ScopeTransfer): Call<string, string> {
    Call(t.server, t.now, if t.payload.None? then None else TokenizeAll(t.payload.value))
  }

  /** `None` when an exception leaves the function. */
  function ScopesReturned(cache: Cache<string, string>, t: ScopeTransfer): Option<seq<string>> {
    var call := ScopeCall(t);
    var r := Serve(cache, call);
    if !r.fromCache && t.payload.Some? && call.reply.None? then None else Some(r.list)
  }

  // ---------- keys rebuilt from paths ----------

  /** `None` when an extractor throws. */
  function LookupKey(path: string): (r: Option<string>)
    ensures r.Some? <==> BeyondRoot(path)
  {
    var scope :- ExtractScope(path);
    var name := ExtractName(path).value;
    Some(ExtractServerName(path) + scope + name)
  }

  lemma LookupKeySlashFree(path: string)
    requires BeyondRoot(path)
    ensures '/' !in LookupKey(path).value
  {
    ExtractedSlashFree(path);
  }

  // ---------- the two DiD lists, with the remainder they share ----------

  /** `remainder` is the static string both kinds of listing leave for the next. */
  datatype Listings = Listings(dids: Cache<string, Did>, containers: Cache<string, Did>, remainder: string) {
    function Of(contained: bool): Cache<string, Did> {
      if contained then containers else dids
    }
  }

  /** A call of `rucio_list_dids` or, `contained`, of `rucio_list_container_dids`. `payload` is `None`
      when the server is unknown or the transfer fails. */
  datatype Transfer = Transfer(contained: bool, key: string, now: int, payload: Option<seq<string>>)

  function Reply(l: Listings, t: Transfer): Option<seq<Did>> {
    if t.payload.None? then None else Structurize(l.remainder, t.payload.value, t.contained)
  }

  function ServedBy(l: Listings, t: Transfer): Served<string, Did> {
    Serve(l.Of(t.contained), Call(t.key, t.now, Reply(l, t)))
  }

  function Listed(l: Listings, t: Transfer): Listings {
    var r := ServedBy(l, t);
    var remainder := if r.fromCache || t.payload.None? then l.remainder
                     else Feed(l.remainder, t.payload.value).remainder;
    if t.contained then Listings(l.dids, r.cache, remainder) else Listings(r.cache, l.containers, remainder)
  }

  /** A payload that is used parses without a read past the last token. */
  predicate Parses(l: Listings, t: Transfer) {
    t.payload.Some? && !Fresh(l.Of(t.contained), t.key, t.now) ==> Reply(l, t).Some?
  }

  // ---------- the code ----------

  class Store {
    const scopesCache: ThreadSafeMap<string, Entry<string>>
    const didsCache: ThreadSafeMap<string, Entry<Did>>
    const containerDidsCache: ThreadSafeMap<string, Entry<Did>>
    const isContainerCache: ThreadSafeMap<string, Option<bool>>
    const fileSizeCache: ThreadSafeMap<string, Option<int>>
    const reassembler: Reassembler

    predicate Valid() {
      didsCache != containerDidsCache
    }

    constructor ()
      ensures Valid()
      ensures scopesCache.container == map[] && didsCache.container == map[] && containerDidsCache.container == map[]
      ensures isContainerCache.container == map[] && fileSizeCache.container == map[]
      ensures reassembler.didStringRemainder == ""
    {
      scopesCache := new ThreadSafeMap();
      didsCache := new ThreadSafeMap();
      containerDidsCache := new ThreadSafeMap();
      isContainerCache := new ThreadSafeMap();
      fileSizeCache := new ThreadSafeMap();
      reassembler := new Reassembler();
    }

    method RucioListScopes(server: string, now: int, payload: Option<seq<string>>) returns (scopes: Option<seq<string>>)
      modifies scopesCache
      ensures var t := ScopeTransfer(server, now, payload);
              && scopesCache.container == Serve(old(scopesCache.container), ScopeCall(t)).cache
              && scopes == ScopesReturned(old(scopesCache.container), t)
    {
      var found := scopesCache.Get(server);
      if found.None? || found.value.expiry < now {
        if payload.None? {
          return Some([]);
        }
        var out := TokenizePayload(payload.value);
        if out.None? {
          return None;
        }
        scopesCache.SetValue(server, Entry(now + CACHE_DURATION, out.value));
        scopes := out;
      } else {
        scopes := Some(found.value.list);
      }
    }

    function Lists(): Listings
      reads didsCache, containerDidsCache, reassembler
    {
      Listings(didsCache.container, containerDidsCache.container, reassembler.didStringRemainder)
    }

    method RucioListDids(scope: string, server: string, now: int, payload: Option<seq<string>>)
      returns (dids: seq<Did>)
      requires Valid() && Parses(Lists(), Transfer(false, server + scope, now, payload))
      modifies didsCache, isContainerCache, fileSizeCache, reassembler
      ensures var t := Transfer(false, server + scope, now, payload);
              var r := ServedBy(old(Lists()), t);
              && Lists() == Listed(old(Lists()), t) && dids == r.list
              && Meta() == MetaAfter(old(Meta()), server + scope, if r.fromCache || payload.None? then [] else dids)
    {
      hide Structurize, MarkTypes, MarkSizes, MetaAfter;
      MarkNothing(Meta(), server + scope);
      var key := server + scope;
      var found := didsCache.Get(key);
      if found.None? || found.value.expiry < now {
        if payload.None? {
          return [];
        }
        var parsed := StructurizePayload(reassembler, payload.value, false);
        dids := parsed.value;
        MarkAll(server + scope, dids);
        didsCache.SetValue(key, Entry(now + CACHE_DURATION, dids));
      } else {
        dids := found.value.list;
      }
    }

    method RucioListContainerDids(scope: string, containerName: string, server: string, now: int,
                                  payload: Option<seq<string>>)
      returns (dids: seq<Did>)
      requires Valid() && Parses(Lists(), Transfer(true, server + scope + containerName, now, payload))
      modifies containerDidsCache, isContainerCache, fileSizeCache, reassembler
      ensures var t := Transfer(true, server + scope + containerName, now, payload);
              var r := ServedBy(old(Lists()), t);
              && Lists() == Listed(old(Lists()), t) && dids == r.list
              && Meta() == MetaAfter(old(Meta()), server + scope, if r.fromCache || payload.None? then [] else dids)
    {
      hide Structurize, MarkTypes, MarkSizes, MetaAfter;
      MarkNothing(Meta(), server + scope);
      var key := server + scope + containerName;
      var found := containerDidsCache.Get(key);
      if found.None? || found.value.expiry < now {
        if payload.None? {
          return [];
        }
        var parsed := StructurizePayload(reassembler, payload.value, true);
        dids := parsed.value;
        MarkAll(server + scope, dids);
        containerDidsCache.SetValue(key, Entry(now + CACHE_DURATION, dids));
      } else {
        dids := found.value.list;
      }
    }

    function Meta(): Metadata
      reads isContainerCache, fileSizeCache
    {
      Metadata(isContainerCache.container, fileSizeCache.container)
    }

    method MarkAll(prefix: string, dids: seq<Did>)
      modifies isContainerCache, fileSizeCache
      ensures Meta() == MetaAfter(old(Meta()), prefix, dids)
    {
      ghost var before := Meta();
      assert dids[0..] == dids;
      for i := 0 to |dids|
        invariant MetaAfter(Meta(), prefix, dids[i..]) == MetaAfter(before, prefix, dids)
      {
        assert dids[i..][1..] == dids[i + 1..];
        isContainerCache.SetValue(prefix + dids[i].name, ContainerFlag(dids[i]));
        fileSizeCache.SetValue(prefix + dids[i].name, dids[i].size);
      }
    }

    /** On a miss the answer is stored under the full path. `None` is an indeterminate flag from the
        cache, or the front of an answer without chunks. */
    method RucioIsContainer(path: string, payload: Option<seq<string>>) returns (answer: Option<bool>)
      requires BeyondRoot(path)
      modifies isContainerCache
      ensures Meta() == Apply(old(Meta()), AskContainer(path, payload))
      ensures answer == Answer(old(Meta()), path, payload)
    {
      hide SaysContainer;
      var server := ComputeServerName(path);
      var scope := ComputeScope(path);
      var name := ComputeName(path);
      var found := isContainerCache.Get(server + scope.value + name.value);
      if found.None? {
        if payload.None? {
          return Some(false);
        }
        if payload.value == [] {
          return None;
        }
        var says := SaysContainer(payload.value[0]);
        isContainerCache.SetValue(path, Some(says));
        answer := Some(says);
      } else {
        answer := found.value;
      }
    }

    /** A size of 0 on failure and of -1 without a size are returned but not stored. */
    method RucioGetSize(path: string, payload: Option<seq<string>>) returns (size: Option<int>)
      requires BeyondRoot(path)
      modifies fileSizeCache
      ensures Meta() == Apply(old(Meta()), AskSize(path, ReplyOf(payload)))
      ensures size == SizeAnswer(old(Meta()), path, ReplyOf(payload))
    {
      var server := ComputeServerName(path);
      var scope := ComputeScope(path);
      var name := ComputeName(path);
      var key := server + scope.value + name.value;
      var found := fileSizeCache.Get(key);
      if found.Some? {
        return found.value;
      }
      if payload.None? {
        return Some(0);
      }
      var n := FindSize(payload.value);
      if n.Some? {
        fileSizeCache.Emplace(key, Some(n.value));
        return Some(n.value);
      }
      size := Some(-1);
    }
  }

  // ---------- the side caches over whole runs ----------

  datatype Metadata = Metadata(isContainer: map<string, Option<bool>>, fileSize: map<string, Option<int>>)

  function MetaAfter(m: Metadata, prefix: string, dids: seq<Did>): Metadata {
    Metadata(MarkTypes(m.isContainer, prefix, dids), MarkSizes(m.fileSize, prefix, dids))
  }

  lemma MarkNothing(m: Metadata, prefix: string)
    ensures MetaAfter(m, prefix, []) == m
  {
  }

  function ReplyOf(payload: Option<seq<string>>): SizeReply {
    if payload.None? then Unreachable else SizeOf(payload.value)
  }

  /** What may happen to the side caches: a listing is refreshed, or a question about a path is asked. */
  datatype Op =
    | Refresh(server: string, scope: string, dids: seq<Did>)
    | AskContainer(path: string, payload: Option<seq<string>>)
    | AskSize(path: string, reply: SizeReply)

  function Apply(m: Metadata, op: Op): Metadata {
    match op
    case Refresh(server, scope, dids) => MetaAfter(m, server + scope, dids)
    case AskContainer(path, payload) =>
      if !BeyondRoot(path) || LookupKey(path).value in m.isContainer || payload in {None, Some([])} then m
      else m.(isContainer := m.isContainer[path := ContainerReply(payload)])
    case AskSize(path, reply) =>
      if !BeyondRoot(path) || LookupKey(path).value in m.fileSize || !reply.Bytes? then m
      else m.(fileSize := m.fileSize[LookupKey(path).value := Some(reply.n)])
  }

  function ApplyAll(m: Metadata, ops: seq<Op>): Metadata
    decreases ops
  {
    if ops == [] then m else ApplyAll(Apply(m, ops[0]), ops[1..])
  }

  function Answer(m: Metadata, path: string, payload: Option<seq<string>>): Option<bool>
    requires BeyondRoot(path)
  {
    var key := LookupKey(path).value;
    if key in m.isContainer then m.isContainer[key]
    else ContainerReply(payload)
  }

  function SizeAnswer(m: Metadata, path: string, reply: SizeReply): Option<int>
    requires BeyondRoot(path)
  {
    var key := LookupKey(path).value;
    if key in m.fileSize then m.fileSize[key]
    else
      match reply
      case Unreachable => Some(0)
      case NoBytes => Some(-1)
      case Bytes(n) => Some(n)
  }

  predicate Rewrites(op: Op, key: string) {
    op.Refresh? && exists i :: 0 <= i < |op.dids| && op.server + op.scope + op.dids[i].name == key
  }

  /** Paths come from the mount and start with a slash. */
  predicate FromMount(op: Op) {
    op.Refresh? || (op.path != "" && op.path[0] == '/')
  }

  predicate Undisturbed(ops: seq<Op>, key: string) {
    forall i :: 0 <= i < |ops| ==> FromMount(ops[i]) && !Rewrites(ops[i], key)
  }

  lemma {:induction false} MarksOther(m: Metadata, prefix: string, dids: seq<Did>, key: string)
    requires forall i :: 0 <= i < |dids| ==> prefix + dids[i].name != key
    ensures var n := MetaAfter(m, prefix, dids);
            && (key in n.isContainer <==> key in m.isContainer)
            && (key in m.isContainer ==> n.isContainer[key] == m.isContainer[key])
            && (key in n.fileSize <==> key in m.fileSize)
            && (key in m.fileSize ==> n.fileSize[key] == m.fileSize[key])
    decreases dids
  {
    if dids != [] {
      assert prefix + dids[0].name != key;
      var d := dids[0];
      MarksOther(Metadata(m.isContainer[prefix + d.name := ContainerFlag(d)], m.fileSize[prefix + d.name := d.size]),
                 prefix, dids[1..], key);
    }
  }

  /** The last entry of a name wins. */
  lemma {:induction false} MarksLast(m: Metadata, prefix: string, dids: seq<Did>, i: nat)
    requires i < |dids| && forall j :: i < j < |dids| ==> dids[j].name != dids[i].name
    ensures var n, key := MetaAfter(m, prefix, dids), prefix + dids[i].name;
            && key in n.isContainer && n.isContainer[key] == ContainerFlag(dids[i])
            && key in n.fileSize && n.fileSize[key] == dids[i].size
    decreases dids
  {
    var d := dids[0];
    var m' := Metadata(m.isContainer[prefix + d.name := ContainerFlag(d)], m.fileSize[prefix + d.name := d.size]);
    if i == 0 {
      forall j | 0 <= j < |dids| - 1
        ensures prefix + dids[1..][j].name != prefix + d.name
      {
        SamePrefix(prefix, dids[j + 1].name, d.name);
      }
      MarksOther(m', prefix, dids[1..], prefix + d.name);
    } else {
      MarksLast(m', prefix, dids[1..], i - 1);
    }
  }

  /** No question about a path, and no listing of other keys, changes a slash-free key's type; a size
      once there stays. Answers stored under a full path never reach a lookup. */
  lemma {:induction false} KeyKept(m: Metadata, ops: seq<Op>, key: string)
    requires Undisturbed(ops, key) && '/' !in key
    ensures var n := ApplyAll(m, ops);
            && (key in n.isContainer <==> key in m.isContainer)
            && (key in m.isContainer ==> n.isContainer[key] == m.isContainer[key])
            && (key in m.fileSize ==> key in n.fileSize && n.fileSize[key] == m.fileSize[key])
    decreases ops
  {
    if ops != [] {
      var op := ops[0];
      assert FromMount(op) && !Rewrites(op, key);
      if op.Refresh? {
        MarksOther(m, op.server + op.scope, op.dids, key);
      } else if op.AskContainer? {
        assert op.path != key by {
          assert '/' in op.path;
        }
      }
      KeyKept(Apply(m, op), ops[1..], key);
    }
  }

  /** After a listing of a scope or container, every path to a listed name is answered from the cache,
      with the listed type and size (the last entry of that name winning), whatever else happens, until
      a listing rewrites that key. */
  lemma AnsweredFromListing(m: Metadata, components: seq<string>, trailing: bool, dids: seq<Did>, i: nat,
                            ops: seq<Op>, payload: Option<seq<string>>, reply: SizeReply)
    requires Components(components) && |components| >= 3
    requires i < |dids| && dids[i].name == components[|components| - 1]
    requires forall j :: i < j < |dids| ==> dids[j].name != dids[i].name
    requires Undisturbed(ops, components[0] + components[1] + dids[i].name)
    ensures var path := PathOf(components, trailing);
            var n := ApplyAll(Apply(m, Refresh(components[0], components[1], dids)), ops);
            && LookupKey(path) == Some(components[0] + components[1] + dids[i].name)
            && Answer(n, path, payload) ==
               (if dids[i].dataType.None? then None else Some(dids[i].dataType != Some(File)))
            && SizeAnswer(n, path, reply) == dids[i].size
  {
    ExtractorsOnPath(components, trailing);
    var path := PathOf(components, trailing);
    var key := components[0] + components[1] + dids[i].name;
    LookupKeySlashFree(path);
    MarksLast(m, components[0] + components[1], dids, i);
    KeyKept(Apply(m, Refresh(components[0], components[1], dids)), ops, key);
  }

  predicate AllFromMount(ops: seq<Op>) {
    forall i :: 0 <= i < |ops| ==> FromMount(ops[i])
  }

  predicate SomeRewrites(ops: seq<Op>, key: string) {
    exists i :: 0 <= i < |ops| && Rewrites(ops[i], key)
  }

  lemma {:induction false} MarkedKeys(m: Metadata, prefix: string, dids: seq<Did>, key: string)
    ensures key in MetaAfter(m, prefix, dids).isContainer <==>
            key in m.isContainer || exists i :: 0 <= i < |dids| && prefix + dids[i].name == key
    decreases dids
  {
    if dids != [] {
      var d := dids[0];
      var m' := Metadata(m.isContainer[prefix + d.name := ContainerFlag(d)], m.fileSize[prefix + d.name := d.size]);
      MarkedKeys(m', prefix, dids[1..], key);
      assert forall i :: 0 < i < |dids| ==> dids[i] == dids[1..][i - 1];
      assert forall i :: 0 <= i < |dids| - 1 ==> dids[1..][i] == dids[i + 1];
    }
  }

  /** The type of a path is known exactly when a listing has told it: no number of questions makes the
      lookup succeed, because their answers are stored under the full path. */
  lemma {:induction false} KnownFromListingsOnly(m: Metadata, ops: seq<Op>, key: string)
    requires AllFromMount(ops) && '/' !in key
    ensures key in ApplyAll(m, ops).isContainer <==> key in m.isContainer || SomeRewrites(ops, key)
    decreases ops
  {
    hide LookupKey, BeyondRoot, ContainerReply;
    if ops != [] {
      var op := ops[0];
      assert FromMount(op);
      KnownFromListingsOnly(Apply(m, op), ops[1..], key);
      if op.Refresh? {
        MarkedKeys(m, op.server + op.scope, op.dids, key);
      } else if op.AskContainer? {
        assert op.path != key by {
          assert '/' in op.path;
        }
      }
      assert ops == [op] + ops[1..];
      SomeRewritesSplit(ops, key);
    }
  }

  lemma SomeRewritesSplit(ops: seq<Op>, key: string)
    requires ops != []
    ensures SomeRewrites(ops, key) <==> Rewrites(ops[0], key) || SomeRewrites(ops[1..], key)
  {
    hide Rewrites;
    if SomeRewrites(ops[1..], key) {
      var i :| 0 <= i < |ops| - 1 && Rewrites(ops[1..][i], key);
      assert Rewrites(ops[i + 1], key);
    }
    if SomeRewrites(ops, key) {
      var i :| 0 <= i < |ops| && Rewrites(ops[i], key);
      assert i > 0 ==> Rewrites(ops[1..][i - 1], key);
    }
  }

  /** A quoted type name and its comma end in the first chunk. */
  ghost predicate SaysType(chunks: seq<string>)
    requires chunks != []
  {
    || EndsBy(Flatten(chunks), "\"CONTAINER\",", |chunks[0]|)
    || EndsBy(Flatten(chunks), "\"DATASET\",", |chunks[0]|)
  }

  /** A path is asked about at the server again exactly as long as its key is not known and no listing
      has told it. */
  lemma UnlistedIsAskedAgain(m: Metadata, path: string, ops: seq<Op>, payload: Option<seq<string>>)
    requires BeyondRoot(path) && AllFromMount(ops)
    ensures var n, key := ApplyAll(m, ops), LookupKey(path).value;
            && (key in n.isContainer <==> key in m.isContainer || SomeRewrites(ops, key))
            && (key !in m.isContainer && !SomeRewrites(ops, key) ==>
                  (payload.None? ==> Answer(n, path, payload) == Some(false))
                  && (payload.Some? && payload.value != [] ==>
                        Answer(n, path, payload) == Some(SaysType(payload.value))))
  {
    hide SomeRewrites, ApplyAll, LookupKey, ContainerReply;
    LookupKeySlashFree(path);
    KnownFromListingsOnly(m, ops, LookupKey(path).value);
    if payload.None? {
      NoAnswerIsNo();
    } else if payload.value != [] {
      FirstChunkDecides(payload.value);
    }
  }

  lemma NoAnswerIsNo()
    ensures ContainerReply(None) == Some(false)
  {
  }

  /** Of a path whose key is not known, the answer for its DiD is read: it is taken for a container exactly
      when a type name and its comma end in the first chunk, so from an uncut answer exactly when the DiD is
      no file or has one of the two words as scope, name or parent. The answer is stored under the full
      path. Without an answer it is no container, and nothing is stored. */
  lemma UnlistedAnswer(m: Metadata, path: string, d: Did, chunks: seq<string>)
    requires BeyondRoot(path) && LookupKey(path).value !in m.isContainer
    requires Described(d) && Clean(d.scope) && Clean(d.name) && Clean(d.parent)
    requires Flatten(chunks) == PrintRecord(FieldsOf(d))
    ensures chunks != [] && Answer(m, path, Some(chunks)) == Some(SaysType(chunks))
    ensures |chunks| == 1 ==>
              (SaysType(chunks) <==> d.dataType != Some(File) || Named(d, "CONTAINER") || Named(d, "DATASET"))
    ensures Apply(m, AskContainer(path, Some(chunks))) ==
            Metadata(m.isContainer[path := Some(SaysType(chunks))], m.fileSize)
    ensures Answer(m, path, None) == Some(false) && Apply(m, AskContainer(path, None)) == m
  {
    hide LookupKey, PrintFields, SaysContainer, EndsBy, FieldsOf, Clean;
    assert Flatten(chunks)[0] == '{';
    FirstChunkDecides(chunks);
    TakenForContainer(d);
    if |chunks| == 1 {
      FlattenOne(chunks[0]);
      assert chunks == [PrintRecord(FieldsOf(d))];
    }
  }

  /** The first question for a size: the size that the answer says, exactly when it fits an `int` and no cut
      goes through key or digits; -1 without the key, 0 without an answer. Only a size found is stored,
      under the key that is looked up. */
  lemma FirstSizeAnswer(m: Metadata, path: string, chunks: seq<string>, before: string, n: nat, after: string)
    requires BeyondRoot(path) && LookupKey(path).value !in m.fileSize
    ensures SaysSize(Flatten(chunks), before, n, after) ==>
              (SizeAnswer(m, path, ReplyOf(Some(chunks))) == Some(n) <==> SizeKept(chunks, before, n))
    ensures SaysSize(Flatten(chunks), before, n, after) && SizeKept(chunks, before, n) ==>
              Apply(m, AskSize(path, ReplyOf(Some(chunks)))) ==
              Metadata(m.isContainer, m.fileSize[LookupKey(path).value := Some(n)])
    ensures (forall c :: c in chunks ==> !Contains(c, "\"bytes\": ")) ==>
              SizeAnswer(m, path, ReplyOf(Some(chunks))) == Some(-1)
              && Apply(m, AskSize(path, ReplyOf(Some(chunks)))) == m
    ensures SizeAnswer(m, path, ReplyOf(None)) == Some(0) && Apply(m, AskSize(path, ReplyOf(None))) == m
  {
    hide LookupKey, SaysSize, SizeOf, Contains, InOneChunk, Digits;
    NoSizeWithoutKey(chunks);
    if SaysSize(Flatten(chunks), before, n, after) {
      SizeSurvivesCutting(chunks, before, n, after);
    }
  }

  /** The size fits, and key and digits are in one chunk; of size 0 the digit may be cut off. */
  predicate SizeKept(chunks: seq<string>, before: string, n: nat) {
    IsInt32(n) && InOneChunk(chunks, |before|, |before| + |"\"bytes\": "| + if n == 0 then 0 else |Digits(n)|)
  }

  /** The first question about an unlisted file, answered in one chunk: its size, if it fits. */
  lemma FileSizeAnswer(m: Metadata, path: string, d: Did)
    requires BeyondRoot(path) && LookupKey(path).value !in m.fileSize
    requires Described(d) && d.dataType == Some(File) && d.size.value >= 0
    requires Clean(d.scope) && Clean(d.name) && Clean(d.parent)
    ensures SizeAnswer(m, path, ReplyOf(Some([PrintRecord(FieldsOf(d))]))) == d.size <==> IsInt32(d.size.value)
  {
    hide LookupKey, SaysSize, SizeOf, PrintRecord, FieldsOf, Clean, Digits, BeforeSize;
    var text, n := PrintRecord(FieldsOf(d)), d.size.value;
    FlattenOne(text);
    PrintedSaysSize(d);
    PrintedParts(d);
    FirstSizeAnswer(m, path, [text], BeforeSize(d), n, AfterSize(d));
  }

  /** A size, in contrast, is stored under the key that is looked up: asked once, it is known. */
  lemma SizeIsLearned(m: Metadata, path: string, n: int, ops: seq<Op>, reply: SizeReply)
    requires BeyondRoot(path) && LookupKey(path).value !in m.fileSize
    requires Undisturbed(ops, LookupKey(path).value)
    ensures SizeAnswer(ApplyAll(Apply(m, AskSize(path, Bytes(n))), ops), path, reply) == Some(n)
  {
    LookupKeySlashFree(path);
    KeyKept(Apply(m, AskSize(path, Bytes(n))), ops, LookupKey(path).value);
  }

  // ---------- keys of paths ----------

  /** The place of a path to a name. */
  predicate InPlace(components: seq<string>, p: Place) {
    Components(components) && |components| >= 3 && components[0] == p.server && components[1] == p.scope
  }

  datatype NodePath = NodePath(components: seq<string>, trailing: bool) {
    function Text(): string {
      PathOf(components, trailing)
    }
  }

  function PathKey(components: seq<string>): string
    requires Components(components) && |components| >= 3
  {
    components[0] + components[1] + components[|components| - 1]
  }

  lemma LookupKeyOfPath(components: seq<string>, trailing: bool)
    requires Components(components) && |components| >= 3
    ensures LookupKey(PathOf(components, trailing)) == Some(PathKey(components))
  {
    ExtractorsOnPath(components, trailing);
  }

  ghost predicate ComponentPlaces(places: iset<Place>) {
    forall p :: p in places ==> Component(p.server) && Component(p.scope)
  }

  /** Two paths to names in these places, with or without trailing slashes, are looked up under one key. */
  predicate SharedKey(p: Place, a: NodePath, q: Place, b: NodePath) {
    InPlace(a.components, p) && InPlace(b.components, q) && LookupKey(a.Text()) == LookupKey(b.Text())
  }

  predicate SameName(p: Place, a: NodePath, q: Place, b: NodePath)
    requires InPlace(a.components, p) && InPlace(b.components, q)
  {
    p == q && a.components[|a.components| - 1] == b.components[|b.components| - 1]
  }

  ghost predicate DistinctPathKeys(places: iset<Place>) {
    forall p, q, a, b :: p in places && q in places && SharedKey(p, a, q, b) ==> SameName(p, a, q, b)
  }

  lemma SharedKeyParts(p: Place, a: NodePath, q: Place, b: NodePath)
    requires InPlace(a.components, p) && InPlace(b.components, q)
    ensures SharedKey(p, a, q, b) <==> PathKey(a.components) == PathKey(b.components)
  {
    hide PathKey, LookupKey, PathOf;
    LookupKeyOfPath(a.components, a.trailing);
    LookupKeyOfPath(b.components, b.trailing);
  }

  lemma ApartPathKeys(places: iset<Place>, p: Place, a: NodePath, q: Place, b: NodePath)
    requires PlacesApart(places) && p in places && q in places && SharedKey(p, a, q, b)
    ensures InPlace(a.components, p) && InPlace(b.components, q) && SameName(p, a, q, b)
  {
    hide LookupKey, PathOf, Components;
    DistinctPlacesIffApart(places);
    SharedKeyParts(p, a, q, b);
    assert SameKey(p.Root(), a.components[|a.components| - 1], q.Root(), b.components[|b.components| - 1]);
  }

  lemma CollidingPaths(p: Place, q: Place) returns (a: NodePath, b: NodePath)
    requires Component(p.server) && Component(p.scope) && Component(q.server) && Component(q.scope)
    requires p.Root() <= q.Root() && p != q
    ensures SharedKey(p, a, q, b) && !SameName(p, a, q, b)
  {
    hide LookupKey, PathOf;
    var rest := q.Root()[|p.Root()|..];
    a, b := NodePath([p.server, p.scope, rest + "x"], false), NodePath([q.server, q.scope, "x"], false);
    assert q.Root() == p.Root() + rest;
    assert forall c :: c in rest ==> c in q.Root();
    assert p.server + p.scope + (rest + "x") == q.server + q.scope + "x";
    SharedKeyParts(p, a, q, b);
  }

  /** The type and size caches, whose keys are rebuilt from paths, tell all paths into a set of places
      apart if and only if no server + scope is a prefix of another one. */
  lemma PathKeysIffApart(places: iset<Place>)
    requires ComponentPlaces(places)
    ensures DistinctPathKeys(places) <==> PlacesApart(places)
  {
    hide SameName, SharedKey, InPlace;
    if PlacesApart(places) {
      forall p, q, a, b | p in places && q in places && SharedKey(p, a, q, b)
        ensures InPlace(a.components, p) && InPlace(b.components, q) && SameName(p, a, q, b)
      {
        ApartPathKeys(places, p, a, q, b);
      }
    } else {
      var p, q :| p in places && q in places && p.Root() <= q.Root() && p != q;
      var a, b := CollidingPaths(p, q);
    }
  }

  // ---------- from the server's DiDs to the served list ----------

  function AllListed(transfers: seq<Transfer>): Listings {
    if transfers == [] then Listings(map[], map[], "")
    else Listed(AllListed(transfers[..|transfers| - 1]), transfers[|transfers| - 1])
  }

  /** What the i-th call of a run returns, on the caches and the remainder the calls before have left. */
  function Outcome(transfers: seq<Transfer>, i: nat): Served<string, Did>
    requires i < |transfers|
  {
    ServedBy(AllListed(transfers[..i]), transfers[i])
  }

  /** `payload` is a listing of these DiDs, one per line, cut anywhere. */
  ghost predicate Lists(payload: seq<string>, dids: seq<Did>, contained: bool) {
    && (forall d :: d in dids ==> Described(d) && Listable(d, contained) && Representable(d, contained))
    && CompleteListing(PrintAll(RecordsOf(dids)), Flatten(payload))
  }

  /** Whenever the server answers the i-th call, it lists `truth[i]`. */
  ghost predicate Truthful(transfers: seq<Transfer>, truth: seq<seq<Did>>) {
    && |truth| == |transfers|
    && forall i :: 0 <= i < |transfers| && transfers[i].payload.Some? ==>
                     Lists(transfers[i].payload.value, truth[i], transfers[i].contained)
  }

  predicate ClockRunsForward(transfers: seq<Transfer>) {
    forall i, j :: 0 <= i < j < |transfers| ==> transfers[i].now <= transfers[j].now
  }

  /** The j-th call was a successful fetch of the same list, at most 120 seconds before the i-th. */
  predicate FetchedRecently(transfers: seq<Transfer>, i: nat, j: nat)
    requires i < |transfers|
  {
    && j < i && transfers[j].contained == transfers[i].contained && transfers[j].key == transfers[i].key
    && transfers[j].payload.Some? && !Outcome(transfers, j).fromCache
    && transfers[i].now <= transfers[j].now + 120
  }

  datatype Key = Key(contained: bool, key: string)

  /** The call an ideal cache of both kinds sees, which gets the true list instead of a payload. */
  function TrueCall(t: Transfer, dids: seq<Did>): Call<Key, Did> {
    Call(Key(t.contained, t.key), t.now, if t.payload.None? then None else Some(ShownAll(dids, t.contained)))
  }

  function TrueCalls(transfers: seq<Transfer>, truth: seq<seq<Did>>): (calls: seq<Call<Key, Did>>)
    requires |truth| == |transfers|
    ensures |calls| == |transfers|
  {
    seq(|transfers|, i requires 0 <= i < |transfers| => TrueCall(transfers[i], truth[i]))
  }

  /** Nothing pending, and the two caches are the ideal one. */
  ghost predicate Refines(l: Listings, cache: Cache<Key, Did>) {
    && l.remainder == ""
    && (forall b, k :: Key(b, k) in cache <==> k in l.Of(b))
    && (forall b, k :: Key(b, k) in cache ==> cache[Key(b, k)] == l.Of(b)[k])
  }

  lemma StepRefines(l: Listings, cache: Cache<Key, Did>, t: Transfer, dids: seq<Did>)
    requires Refines(l, cache) && (t.payload.Some? ==> Lists(t.payload.value, dids, t.contained))
    ensures var ideal, actual := Serve(cache, TrueCall(t, dids)), ServedBy(l, t);
            && Parses(l, t) && Refines(Listed(l, t), ideal.cache)
            && actual.list == ideal.list && actual.fromCache == ideal.fromCache
  {
    hide Structurize, Feed, Representable, Listable, CompleteListing, Serve, Fresh, ServedBy, Listed, Parses;
    if t.payload.Some? {
      DidListRoundTrip(dids, t.payload.value, t.contained);
    }
    ServeRefines(l, cache, t, TrueCall(t, dids).reply);
  }

  lemma ServeRefines(l: Listings, cache: Cache<Key, Did>, t: Transfer, reply: Option<seq<Did>>)
    requires Refines(l, cache) && (reply.Some? <==> t.payload.Some?) && Reply(l, t) == reply
    requires t.payload.Some? ==> Feed(l.remainder, t.payload.value).remainder == ""
    ensures var ideal, actual := Serve(cache, Call(Key(t.contained, t.key), t.now, reply)), ServedBy(l, t);
            && Parses(l, t) && Refines(Listed(l, t), ideal.cache)
            && actual.list == ideal.list && actual.fromCache == ideal.fromCache
  {
    hide Reply, Feed;
    assert Fresh(cache, Key(t.contained, t.key), t.now) == Fresh(l.Of(t.contained), t.key, t.now);
    assert Listed(l, t).Of(!t.contained) == l.Of(!t.contained);
    assert Listed(l, t).Of(t.contained) == ServedBy(l, t).cache;
  }

  lemma {:induction false} RunRefines(transfers: seq<Transfer>, truth: seq<seq<Did>>, n: nat)
    requires Truthful(transfers, truth) && n <= |transfers|
    ensures Refines(AllListed(transfers[..n]), CacheAfter(TrueCalls(transfers, truth)[..n]))
  {
    hide Refines, Listed, Serve, Lists;
    var calls := TrueCalls(transfers, truth);
    if n == 0 {
      EmptyRefines();
    } else {
      RunRefines(transfers, truth, n - 1);
      StepRefines(AllListed(transfers[..n - 1]), CacheAfter(calls[..n - 1]), transfers[n - 1], truth[n - 1]);
      assert transfers[..n][..n - 1] == transfers[..n - 1];
      assert calls[..n][..n - 1] == calls[..n - 1];
    }
  }

  lemma EmptyRefines()
    ensures Refines(Listings(map[], map[], ""), map[])
  {
  }

  /** Every call of a run, of either kind, answers like the ideal cache and leaves nothing pending. */
  lemma OutcomeIsTrue(transfers: seq<Transfer>, truth: seq<seq<Did>>, i: nat)
    requires Truthful(transfers, truth) && i < |transfers|
    ensures var ideal := Result(TrueCalls(transfers, truth), i);
            Outcome(transfers, i).list == ideal.list && Outcome(transfers, i).fromCache == ideal.fromCache
    ensures AllListed(transfers[..i]).remainder == "" && Parses(AllListed(transfers[..i]), transfers[i])
  {
    hide Listed, Serve, Lists, Parses, ServedBy;
    RunRefines(transfers, truth, i);
    StepRefines(AllListed(transfers[..i]), CacheAfter(TrueCalls(transfers, truth)[..i]), transfers[i], truth[i]);
  }

  /** Scope and container listings in any order, for a server that changes as it likes between calls: a
      call is answered from the cache if and only if the same list was fetched at most 120 seconds ago, and
      then with what the server had at that moment; else with what it has now, or with nothing when it cannot
      be asked. No call leaves anything pending for the next, of whichever kind. */
  lemma ServedListIsTheServers(transfers: seq<Transfer>, truth: seq<seq<Did>>, i: nat)
    requires Truthful(transfers, truth) && i < |transfers| && ClockRunsForward(transfers)
    ensures var r := Outcome(transfers, i);
            && (r.fromCache <==> exists j: nat :: FetchedRecently(transfers, i, j))
            && (forall j: nat :: FetchedRecently(transfers, i, j) ==>
                  r.list == ShownAll(truth[j], transfers[i].contained))
            && (!r.fromCache ==>
                  r.list == if transfers[i].payload.None? then [] else ShownAll(truth[i], transfers[i].contained))
    ensures AllListed(transfers[..i]).remainder == "" && Parses(AllListed(transfers[..i]), transfers[i])
  {
    hide Lists, Outcome, ShownAll, Parses, CacheAfter;
    var calls := TrueCalls(transfers, truth);
    OutcomeIsTrue(transfers, truth, i);
    RecentFetchIsServed(calls, i);
    forall j: nat | j < i
      ensures FetchedRecently(transfers, i, j) <==> RecentFetch(calls, i, j)
    {
      OutcomeIsTrue(transfers, truth, j);
    }
    forall j: nat | FetchedRecently(transfers, i, j)
      ensures Outcome(transfers, i).list == ShownAll(truth[j], transfers[i].contained)
    {
      assert RecentFetch(calls, i, j);
    }
    if Outcome(transfers, i).fromCache {
      var j: nat :| RecentFetch(calls, i, j);
      assert FetchedRecently(transfers, i, j);
    }
  }

  /** A call that is answered from the cache or cannot ask leaves lists and remainder as they are. */
  lemma NothingFetched(l: Listings, t: Transfer)
    requires ServedBy(l, t).fromCache || t.payload.None?
    ensures Listed(l, t) == l
  {
  }

  lemma {:induction false} StructurizeGoesOn(rem: string, a: seq<string>, b: seq<string>, contained: bool)
    requires Structurize(rem, a, contained).Some?
    ensures Structurize(rem, a + b, contained) ==
            AppendTo(Structurize(rem, a, contained).value, Structurize(Feed(rem, a).remainder, b, contained))
    decreases a
  {
    hide SplitDids, ParseRecords;
    if a == [] {
      assert a + b == b;
      AppendToNothing(Structurize(rem, b, contained));
    } else {
      assert (a + b)[1..] == a[1..] + b;
      var first := SplitDids(rem, a[0]);
      StructurizeGoesOn(first.remainder, a[1..], b, contained);
      AppendToAssociative(ParseRecords(first.emitted, contained).value,
                          Structurize(first.remainder, a[1..], contained).value,
                          Structurize(Feed(rem, a).remainder, b, contained));
    }
  }

  /** What one call leaves pending reaches the next one of the same kind, under whatever key: two fetches
      list together what a single one lists whose payload is that of both. */
  lemma RemainderCarriesOver(l: Listings, first: Transfer, second: Transfer)
    requires first.payload.Some? && second.payload.Some? && first.contained == second.contained
    requires !ServedBy(l, first).fromCache && !ServedBy(Listed(l, first), second).fromCache
    requires Reply(l, first).Some? && Reply(Listed(l, first), second).Some?
    ensures Reply(l, first.(payload := Some(first.payload.value + second.payload.value))) ==
            Some(ServedBy(l, first).list + ServedBy(Listed(l, first), second).list)
  {
    hide Structurize, Feed;
    StructurizeGoesOn(l.remainder, first.payload.value, second.payload.value, first.contained);
  }

  // ---------- from the server's DiDs to the answers ----------

  lemma {:induction false} ShownAllAt(dids: seq<Did>, contained: bool, i: nat)
    requires i < |dids|
    ensures |ShownAll(dids, contained)| == |dids| && ShownAll(dids, contained)[i] == Shown(dids[i], contained)
  {
    if i > 0 {
      ShownAllAt(dids[1..], contained, i - 1);
    } else if |dids| > 1 {
      ShownAllAt(dids[1..], contained, 0);
    }
  }

  lemma FetchedIsShown(l: Listings, t: Transfer, truth: seq<Did>)
    requires l.remainder == "" && !ServedBy(l, t).fromCache
    requires t.payload.Some? && Lists(t.payload.value, truth, t.contained)
    ensures ServedBy(l, t).list == ShownAll(truth, t.contained)
    ensures forall d :: d in truth ==> d.dataType.Some?
  {
    hide Structurize, Feed, Representable, Listable, CompleteListing, ShownAll;
    assert forall d :: d in truth ==> Described(d);
    DidListRoundTrip(truth, t.payload.value, t.contained);
  }

  /** After a fetched listing, of a scope or a container, every path to a listed name is answered with what
      the server listed last under that name: a container exactly when it is a container or a dataset, and
      of the listed size; whatever else happens, until a listing rewrites the key. */
  lemma ListedIsAnswered(m: Metadata, l: Listings, t: Transfer, truth: seq<Did>, i: nat, components: seq<string>,
                         trailing: bool, ops: seq<Op>, payload: Option<seq<string>>, reply: SizeReply)
    requires l.remainder == "" && !ServedBy(l, t).fromCache
    requires t.payload.Some? && Lists(t.payload.value, truth, t.contained)
    requires Components(components) && |components| >= 3
    requires i < |truth| && truth[i].name == components[|components| - 1]
    requires forall j :: i < j < |truth| ==> truth[j].name != truth[i].name
    requires Undisturbed(ops, components[0] + components[1] + truth[i].name)
    ensures var path := PathOf(components, trailing);
            var n := ApplyAll(Apply(m, Refresh(components[0], components[1], ServedBy(l, t).list)), ops);
            && BeyondRoot(path)
            && Answer(n, path, payload) == Some(truth[i].dataType == Some(Container) || truth[i].dataType == Some(Dataset))
            && SizeAnswer(n, path, reply) == truth[i].size
  {
    hide Lists, ServedBy, ApplyAll, Apply, Answer, SizeAnswer, PathOf, LookupKey;
    hide ShownAll, Undisturbed, Components;
    var dids := ShownAll(truth, t.contained);
    FetchedIsShown(l, t, truth);
    forall j | 0 <= j < |truth|
      ensures |dids| == |truth| && dids[j] == Shown(truth[j], t.contained)
    {
      ShownAllAt(truth, t.contained, j);
    }
    assert dids[i].dataType == truth[i].dataType && dids[i].size == truth[i].size && truth[i] in truth;
    AnsweredFromListing(m, components, trailing, dids, i, ops, payload, reply);
    NoFile(truth[i].dataType.value);
  }

  lemma NoFile(t: DataType)
    ensures t != File <==> t == Container || t == Dataset
  {
  }

  // ---------- from the server's scopes to the served list ----------

  function ScopeCalls(transfers: seq<ScopeTransfer>): (calls: seq<Call<string, string>>)
    ensures |calls| == |transfers|
  {
    seq(|transfers|, i requires 0 <= i < |transfers| => ScopeCall(transfers[i]))
  }

  /** Whenever the server answers the i-th call, it prints `truth[i]`, cut anywhere. */
  ghost predicate TruthfulScopes(transfers: seq<ScopeTransfer>, truth: seq<seq<string>>, pad: string) {
    && |truth| == |transfers| && (pad == "" || pad == " ")
    && (forall i :: 0 <= i < |truth| ==> NonEmptyNames(truth[i]))
    && forall i :: 0 <= i < |transfers| && transfers[i].payload.Some? ==>
                     Flatten(transfers[i].payload.value) == PrintList(truth[i], pad)
  }

  predicate NonEmptyNames(names: seq<string>) {
    forall n :: n in names ==> n != ""
  }

  /** The answer can be read: clean names, and cuts between them. */
  predicate Readable(names: seq<string>, payload: seq<string>) {
    (forall n :: n in names ==> CleanName(n)) && GoodCuts(payload)
  }

  /** What the i-th call of a run returns, on the cache the calls before have left. */
  function ScopesOutcome(transfers: seq<ScopeTransfer>, i: nat): Option<seq<string>>
    requires i < |transfers|
  {
    ScopesReturned(CacheAfter(ScopeCalls(transfers)[..i]), transfers[i])
  }

  predicate ScopesFromCache(transfers: seq<ScopeTransfer>, i: nat)
    requires i < |transfers|
  {
    Result(ScopeCalls(transfers), i).fromCache
  }

  /** The j-th call fetched the scopes of the same server without a throw, at most 120 seconds before the
      i-th. */
  predicate ScopesFetchedRecently(transfers: seq<ScopeTransfer>, i: nat, j: nat)
    requires i < |transfers|
  {
    && j < i && transfers[j].server == transfers[i].server
    && transfers[j].payload.Some? && NoneShort(transfers[j].payload.value) && !ScopesFromCache(transfers, j)
    && transfers[i].now <= transfers[j].now + 120
  }

  predicate ScopeClockRunsForward(transfers: seq<ScopeTransfer>) {
    forall i, j :: 0 <= i < j < |transfers| ==> transfers[i].now <= transfers[j].now
  }

  /** For servers whose scopes change between calls: a call is answered from the cache if and only if the
      scopes of that very server were fetched at most 120 seconds ago. What is returned is what the server
      had at that fetch, or else has now, exactly when the answer that said so was readable. Without an
      answer the list is empty; the code throws exactly when it has to read a chunk shorter than two
      characters. */
  lemma ServedScopesAreTheServers(transfers: seq<ScopeTransfer>, truth: seq<seq<string>>, pad: string, i: nat)
    requires TruthfulScopes(transfers, truth, pad) && i < |transfers| && ScopeClockRunsForward(transfers)
    ensures var scopes, t := ScopesOutcome(transfers, i), transfers[i];
            && (ScopesFromCache(transfers, i) <==> exists j: nat :: ScopesFetchedRecently(transfers, i, j))
            && (forall j: nat :: ScopesFetchedRecently(transfers, i, j) ==>
                  (scopes == Some(truth[j]) <==> Readable(truth[j], transfers[j].payload.value)))
            && (!ScopesFromCache(transfers, i) ==>
                  if t.payload.None? then scopes == Some([])
                  else scopes == Some(truth[i]) <==> Readable(truth[i], t.payload.value))
            && (scopes.None? <==>
                  !ScopesFromCache(transfers, i) && t.payload.Some? && !NoneShort(t.payload.value))
  {
    hide Readable, PrintList, TokenizeAll, NoneShort, CacheAfter;
    var calls := ScopeCalls(transfers);
    forall j | 0 <= j < |transfers| && transfers[j].payload.Some?
      ensures calls[j].reply == Some(truth[j]) <==> Readable(truth[j], transfers[j].payload.value)
      ensures calls[j].reply.Some? <==> NoneShort(transfers[j].payload.value)
    {
      ReadableIsRead(truth[j], pad, transfers[j].payload.value);
      ThrowsWhenShort(transfers[j].payload.value);
    }
    forall j: nat | j < i
      ensures ScopesFetchedRecently(transfers, i, j) <==> RecentFetch(calls, i, j)
    {
    }
    RecentFetchIsServed(calls, i);
    if ScopesFromCache(transfers, i) {
      var j: nat :| RecentFetch(calls, i, j);
      assert ScopesFetchedRecently(transfers, i, j);
    }
    assert forall j: nat :: ScopesFetchedRecently(transfers, i, j) ==> RecentFetch(calls, i, j);
  }

  lemma ReadableIsRead(names: seq<string>, pad: string, payload: seq<string>)
    requires NonEmptyNames(names) && (pad == "" || pad == " ") && Flatten(payload) == PrintList(names, pad)
    ensures TokenizeAll(payload) == Some(names) <==> Readable(names, payload)
  {
    hide CleanName, GoodCuts, TokenizeAll, PrintList;
    ScopeListSurvivesCutting(names, pad, payload);
  }
}
