/** The bracket scanner of `rucio_get_replicas_metalinks` (source/REST-API.cpp). */
module Metalinks {
  import opened Text

  const IDENTIFIER: string := "\"rses\": {"

  // ---------- the specification functions ----------

  /** Everything between brackets, without the first and the last character. `None` when brackets are
      so close that the code builds a string from a reversed range. */
  function Scan(s: string): Option<seq<string>>
    decreases |s|
  {
    var beg := IndexFrom(s, '[', 0);
    var end := IndexFrom(s, ']', if beg == |s| then 0 else beg + 1);
    if beg == |s| || end == |s| then Some([])
    else if end - 1 < beg + 2 then None
    else AppendTo([s[beg + 2..end - 1]], Scan(s[end + 1..]))
  }

  /** `None` when the identifier or the closing brace is missing: the iterators are then out of range. */
  function Rses(response: string): Option<string> {
    var position :- Find(response, IDENTIFIER);
    var end := IndexFrom(response, '}', position + 1);
    if end == |response| || end < position + |IDENTIFIER| then None
    else Some(response[position + |IDENTIFIER|..end])
  }

  function Pfns(response: string): Option<seq<string>> {
    var rses :- Rses(response);
    Scan(rses)
  }

  // ---------- the code ----------

  lemma {:induction false} IndexFromDrop(s: string, c: char, from: nat, more: nat)
    requires from <= |s|
    ensures IndexFrom(s, c, from + more) == if from + more <= |s| then from + IndexFrom(s[from..], c, more) else |s|
    decreases |s| - more
  {
    if from + more < |s| && s[from + more] != c {
      IndexFromDrop(s, c, from, more + 1);
    }
  }

  method ScanLoop(rses: string) returns (pfns: Option<seq<string>>)
    ensures pfns == Scan(rses)
  {
    hide Scan, IndexFrom, AppendTo;
    ghost var from := 0;
    var found: seq<string> := [];
    var begPfn := IndexFrom(rses, '[', 0);
    var endPfn := IndexFrom(rses, ']', if begPfn == |rses| then 0 else begPfn + 1);
    assert rses[0..] == rses;
    AppendToNothing(Scan(rses));
    while begPfn != |rses| && endPfn != |rses|
      invariant from <= |rses|
      invariant begPfn == IndexFrom(rses, '[', from)
      invariant endPfn == IndexFrom(rses, ']', if begPfn == |rses| then 0 else begPfn + 1)
      invariant Scan(rses) == AppendTo(found, Scan(rses[from..]))
      decreases |rses| - from
    {
      ScanStep(rses, from);
      if endPfn - 1 < begPfn + 2 {
        AppendNothingTo(found);
        return None;
      }
      ghost var before := found;
      found := found + [rses[begPfn + 2..endPfn - 1]];
      AppendToAssociative(before, [rses[begPfn + 2..endPfn - 1]], Scan(rses[endPfn + 1..]));
      from := endPfn + 1;
      begPfn := IndexFrom(rses, '[', endPfn + 1);
      endPfn := IndexFrom(rses, ']', if begPfn == |rses| then 0 else begPfn + 1);
    }
    ScanStep(rses, from);
    AppendNothingTo(found);
    pfns := Some(found);
  }

  /** Where the next brackets are, in positions of the suffix and of the whole string. */
  lemma BracketPositions(s: string, from: nat)
    requires from <= |s|
    ensures var t := s[from..];
            var beg := IndexFrom(s, '[', from);
            && beg == from + IndexFrom(t, '[', 0)
            && (beg < |s| ==> IndexFrom(s, ']', beg + 1) == from + IndexFrom(t, ']', beg - from + 1))
  {
    IndexFromDrop(s, '[', from, 0);
    var beg := IndexFrom(s, '[', from);
    if beg < |s| {
      IndexFromDrop(s, ']', from, beg - from + 1);
    }
  }

  lemma SliceOfSuffix(s: string, from: nat, a: nat, b: nat)
    requires from + a <= from + b <= |s|
    ensures s[from..][a..b] == s[from + a..from + b]
    ensures s[from..][b..] == s[from + b..]
  {
  }

  lemma ScanUnfold(t: string)
    ensures var beg := IndexFrom(t, '[', 0);
            var end := IndexFrom(t, ']', if beg == |t| then 0 else beg + 1);
            Scan(t) == if beg == |t| || end == |t| then Some([])
                       else if end - 1 < beg + 2 then None
                       else AppendTo([t[beg + 2..end - 1]], Scan(t[end + 1..]))
  {
    hide IndexFrom, AppendTo;
  }

  /** One step of the scan, in positions of the whole string. */
  lemma ScanStep(s: string, from: nat)
    requires from <= |s|
    ensures var beg := IndexFrom(s, '[', from);
            var end := IndexFrom(s, ']', if beg == |s| then 0 else beg + 1);
            Scan(s[from..]) == if beg == |s| || end == |s| then Some([])
                               else if end - 1 < beg + 2 then None
                               else AppendTo([s[beg + 2..end - 1]], Scan(s[end + 1..]))
  {
    hide Scan, IndexFrom, AppendTo;
    BracketPositions(s, from);
    ScanUnfold(s[from..]);
    var t := s[from..];
    var beg := IndexFrom(t, '[', 0);
    StepInPositions(s, from, beg, IndexFrom(t, ']', if beg == |t| then 0 else beg + 1));
  }

  lemma StepInPositions(s: string, from: nat, beg: nat, end: nat)
    requires from <= |s| && beg <= |s| - from && end <= |s| - from
    ensures beg < |s| - from && end < |s| - from ==>
              && s[from..][end + 1..] == s[from + end + 1..]
              && (beg + 2 <= end - 1 ==> s[from..][beg + 2..end - 1] == s[from + beg + 2..from + end - 1])
  {
    if beg < |s| - from && end < |s| - from {
      SliceOfSuffix(s, from, end + 1, end + 1);
      if beg + 2 <= end - 1 {
        SliceOfSuffix(s, from, beg + 2, end - 1);
      }
    }
  }

  method Merge(payload: seq<string>) returns (mergedResponse: string)
    ensures mergedResponse == Flatten(payload)
  {
    mergedResponse := "";
    assert payload[0..] == payload;
    for i := 0 to |payload|
      invariant mergedResponse + Flatten(payload[i..]) == Flatten(payload)
    {
      assert payload[i..][1..] == payload[i + 1..];
      assert mergedResponse + (payload[i] + Flatten(payload[i + 1..]))
          == mergedResponse + payload[i] + Flatten(payload[i + 1..]);
      mergedResponse := mergedResponse + payload[i];
    }
    assert mergedResponse + "" == mergedResponse;
  }

  method GetReplicasMetalinks(payload: seq<string>) returns (pfns: Option<seq<string>>)
    ensures pfns == Pfns(Flatten(payload))
  {
    var mergedResponse := Merge(payload);
    var rses := Rses(mergedResponse);
    if rses.None? {
      return None;
    }
    pfns := ScanLoop(rses.value);
  }

  // ---------- what the scanner returns ----------

  /** Any text, then a bracketed one. */
  datatype Segment = Segment(before: string, content: string)

  predicate ValidSegment(g: Segment) {
    '[' !in g.before && ']' !in g.content
  }

  function Body(segments: seq<Segment>, tail: string): string {
    if segments == [] then tail
    else segments[0].before + "[" + segments[0].content + "]" + Body(segments[1..], tail)
  }

  function Contents(segments: seq<Segment>): seq<string>
    requires AllLong(segments)
  {
    if segments == [] then [] else [segments[0].content[1..|segments[0].content| - 1]] + Contents(segments[1..])
  }

  lemma SegmentBrackets(before: string, content: string, rest: string)
    requires '[' !in before && ']' !in content
    ensures var s := before + "[" + content + "]" + rest;
            var e := |before| + 1 + |content|;
            && IndexFrom(s, '[', 0) == |before| && IndexFrom(s, ']', |before| + 1) == e
            && e < |s| && s[|before| + 1..e] == content && s[e + 1..] == rest
  {
    var s := before + "[" + content + "]" + rest;
    var b, e := |before|, |before| + 1 + |content|;
    IndexFromIsFirst(s, '[', 0);
    IndexFromIsFirst(s, ']', b + 1);
    assert s[b] == '[' && s[e] == ']';
    assert forall i :: 0 <= i < b ==> s[i] == before[i];
    assert forall i :: b < i < e ==> s[i] == content[i - b - 1];
    assert s[b + 1..e] == content;
    assert s[e + 1..] == rest;
    assert IndexFrom(s, '[', 0) == b;
    assert IndexFrom(s, ']', b + 1) == e;
  }

  lemma SliceOfSlice(s: string, a: nat, b: nat, c: nat, d: nat)
    requires a <= b <= |s| && c <= d <= b - a
    ensures s[a..b][c..d] == s[a + c..a + d]
  {
    var t := s[a..b];
    assert forall i {:trigger t[i]} :: 0 <= i < |t| ==> t[i] == s[a + i];
  }

  lemma InnerSlice(s: string, b: nat, e: nat, content: string)
    requires b < e <= |s| && s[b + 1..e] == content && |content| >= 2
    ensures s[b + 2..e - 1] == content[1..|content| - 1]
  {
    SliceOfSlice(s, b + 1, e, 1, |content| - 1);
  }

  lemma ScanSegment(g: Segment, rest: string)
    requires ValidSegment(g)
    ensures Scan(g.before + "[" + g.content + "]" + rest)
         == if |g.content| < 2 then None else AppendTo([g.content[1..|g.content| - 1]], Scan(rest))
  {
    hide Scan;
    var s := g.before + "[" + g.content + "]" + rest;
    SegmentBrackets(g.before, g.content, rest);
    ScanUnfold(s);
    if |g.content| >= 2 {
      InnerSlice(s, |g.before|, |g.before| + 1 + |g.content|, g.content);
    }
  }

  lemma NoBrackets(s: string)
    requires '[' !in s
    ensures Scan(s) == Some([])
  {
    assert IndexFrom(s, '[', 0) == |s|;
  }

  predicate AllLong(segments: seq<Segment>) {
    forall g :: g in segments ==> |g.content| >= 2
  }

  lemma LongFirst(segments: seq<Segment>)
    requires segments != []
    ensures AllLong(segments) <==> |segments[0].content| >= 2 && AllLong(segments[1..])
  {
    assert segments == [segments[0]] + segments[1..];
  }

  /** For every text made of bracketed segments: all contents come out in order, stripped of their
      quotes, exactly when none is shorter than a pair of quotes. */
  lemma {:induction false} ScanSegments(segments: seq<Segment>, tail: string)
    requires (forall g :: g in segments ==> ValidSegment(g)) && '[' !in tail
    ensures Scan(Body(segments, tail)) == if AllLong(segments) then Some(Contents(segments)) else None
  {
    if segments == [] {
      NoBrackets(tail);
    } else {
      hide Scan, ValidSegment, AllLong;
      assert segments[0] in segments;
      LongFirst(segments);
      ScanSegment(segments[0], Body(segments[1..], tail));
      ScanSegments(segments[1..], tail);
    }
  }

  // ---------- a response ----------

  datatype Replica = Replica(rse: string, pfn: string)

  /** No opening bracket before the PFN, no closing one inside it, and no brace. */
  predicate ValidReplica(r: Replica) {
    '[' !in r.rse && '}' !in r.rse && ']' !in r.pfn && '}' !in r.pfn
  }

  /** `"RSE1": ["pfn1"], "RSE2": ["pfn2"]` */
  function PrintReplicas(replicas: seq<Replica>): string {
    if replicas == [] then ""
    else "\"" + replicas[0].rse + "\": [\"" + replicas[0].pfn + "\"]"
         + if |replicas| == 1 then "" else ", " + PrintReplicas(replicas[1..])
  }

  function PfnsOf(replicas: seq<Replica>): seq<string> {
    if replicas == [] then [] else [replicas[0].pfn] + PfnsOf(replicas[1..])
  }

  function SegmentsOf(replicas: seq<Replica>, sep: string): seq<Segment> {
    if replicas == [] then []
    else [Segment(sep + "\"" + replicas[0].rse + "\": ", "\"" + replicas[0].pfn + "\"")] + SegmentsOf(replicas[1..], ", ")
  }

  lemma PrintSegment(sep: string, rse: string, pfn: string, rest: string)
    ensures (sep + "\"" + rse + "\": ") + "[" + ("\"" + pfn + "\"") + "]" + rest
         == sep + ("\"" + rse + "\": [\"" + pfn + "\"]" + rest)
  {
  }

  lemma {:induction false} PrintIsBody(replicas: seq<Replica>, sep: string)
    requires replicas != []
    ensures Body(SegmentsOf(replicas, sep), "") == sep + PrintReplicas(replicas)
  {
    var r := replicas[0];
    var rest := if |replicas| == 1 then "" else ", " + PrintReplicas(replicas[1..]);
    var g := Segment(sep + "\"" + r.rse + "\": ", "\"" + r.pfn + "\"");
    if |replicas| > 1 {
      PrintIsBody(replicas[1..], ", ");
    }
    assert SegmentsOf(replicas, sep)[1..] == SegmentsOf(replicas[1..], ", ");
    assert Body(SegmentsOf(replicas[1..], ", "), "") == rest;
    PrintSegment(sep, r.rse, r.pfn, rest);
  }

  lemma ValidSegmentOf(sep: string, r: Replica)
    requires ValidReplica(r) && (sep == "" || sep == ", ")
    ensures ValidSegment(Segment(sep + "\"" + r.rse + "\": ", "\"" + r.pfn + "\""))
  {
  }

  lemma {:induction false} SegmentsOfValid(replicas: seq<Replica>, sep: string)
    requires (forall r :: r in replicas ==> ValidReplica(r)) && (sep == "" || sep == ", ")
    ensures forall g :: g in SegmentsOf(replicas, sep) ==> ValidSegment(g) && |g.content| >= 2
    ensures Contents(SegmentsOf(replicas, sep)) == PfnsOf(replicas)
  {
    hide ValidSegment, ValidReplica;
    if replicas != [] {
      var r := replicas[0];
      assert r in replicas;
      ValidSegmentOf(sep, r);
      SegmentsOfValid(replicas[1..], ", ");
      var g := Segment(sep + "\"" + r.rse + "\": ", "\"" + r.pfn + "\"");
      assert g.content[1..|g.content| - 1] == r.pfn;
      assert SegmentsOf(replicas, sep)[1..] == SegmentsOf(replicas[1..], ", ");
    }
  }

  lemma {:induction false} PrintBraceFree(replicas: seq<Replica>)
    requires forall r :: r in replicas ==> ValidReplica(r)
    ensures '}' !in PrintReplicas(replicas)
  {
    if replicas != [] {
      assert replicas[0] in replicas;
      PrintBraceFree(replicas[1..]);
    }
  }

  lemma IdentifierEndsUniquely()
    ensures EndsUniquely(IDENTIFIER)
  {
  }

  function Response(prefix: string, body: string, suffix: string): string {
    prefix + "\"rses\": {" + (body + "}" + suffix)
  }

  lemma RsesOfResponse(prefix: string, body: string, suffix: string)
    requires Find(prefix, IDENTIFIER).None? && '}' !in body
    ensures Rses(Response(prefix, body, suffix)) == Some(body)
  {
    var s := Response(prefix, body, suffix);
    IdentifierEndsUniquely();
    FoundWherePut(prefix, IDENTIFIER, body + "}" + suffix);
    var n := |prefix| + |IDENTIFIER|;
    assert forall i :: |prefix| <= i < n ==> s[i] == IDENTIFIER[i - |prefix|];
    assert forall i :: n <= i < n + |body| ==> s[i] == body[i - n];
    assert s[n + |body|] == '}';
    assert '}' !in IDENTIFIER;
    IndexFromIsFirst(s, '}', |prefix| + 1);
    assert IndexFrom(s, '}', |prefix| + 1) == n + |body|;
    assert s[n..n + |body|] == body;
  }

  /** The response has an `"rses"` object: its first `"rses": {` is followed by a closing brace. */
  ghost predicate HasRses(response: string, body: string) {
    exists prefix, suffix :: Find(prefix, "\"rses\": {").None? && '}' !in body && response == Response(prefix, body, suffix)
  }

  /** The object is found exactly when there is one; otherwise the iterators of the code are out of range. */
  lemma RsesExactly(response: string, body: string)
    ensures Rses(response) == Some(body) <==> HasRses(response, body)
  {
    hide Rses, Response;
    if HasRses(response, body) {
      var prefix, suffix :| Find(prefix, "\"rses\": {").None? && '}' !in body && response == Response(prefix, body, suffix);
      RsesOfResponse(prefix, body, suffix);
    }
    if Rses(response) == Some(body) {
      RsesFound(response, body);
    }
  }

  lemma RsesFound(response: string, body: string)
    requires Rses(response) == Some(body)
    ensures HasRses(response, body)
  {
    var position, n := Find(response, IDENTIFIER).value, |IDENTIFIER|;
    var end := IndexFrom(response, '}', position + 1);
    IndexFromIsFirst(response, '}', position + 1);
    var prefix, suffix := response[..position], response[end + 1..];
    assert response == prefix + response[position..position + n] + (response[position + n..end] + [response[end]] + suffix);
    assert response == Response(prefix, body, suffix);
    forall j: nat
      ensures !OccursAt(prefix, IDENTIFIER, j)
    {
      OccursInFront(response, IDENTIFIER, position, j);
    }
  }

  /** For every response whose `"rses"` object maps each RSE to one quoted PFN, cut anyhow into payload
      lines: all PFNs come out in order. */
  lemma AllPfnsInOrder(prefix: string, replicas: seq<Replica>, suffix: string, payload: seq<string>)
    requires Find(prefix, "\"rses\": {").None?
    requires forall r :: r in replicas ==> ValidReplica(r)
    requires Flatten(payload) == Response(prefix, PrintReplicas(replicas), suffix)
    ensures Pfns(Flatten(payload)) == Some(PfnsOf(replicas))
  {
    hide Scan, PrintReplicas, Response, Rses;
    PrintBraceFree(replicas);
    RsesOfResponse(prefix, PrintReplicas(replicas), suffix);
    ScanPrinted(replicas);
  }

  lemma ScanPrinted(replicas: seq<Replica>)
    requires forall r :: r in replicas ==> ValidReplica(r)
    ensures Scan(PrintReplicas(replicas)) == Some(PfnsOf(replicas))
  {
    SegmentsOfValid(replicas, "");
    ScanSegments(SegmentsOf(replicas, ""), "");
    if replicas != [] {
      PrintIsBody(replicas, "");
      assert "" + PrintReplicas(replicas) == PrintReplicas(replicas);
    }
  }
}
