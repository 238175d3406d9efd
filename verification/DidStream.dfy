/** Reassembly of a DiD listing that reaches the program as arbitrary chunks
    (source/utils.cpp `split_dids`, `coherentize_dids`). */
module DidStream {
  import opened Text

  /** What one call leaves in `did_string_remainder`, and the strings it appends to its target. */
  datatype Reassembly = Reassembly(remainder: string, emitted: seq<string>) {
    function Then(next: Reassembly): Reassembly {
      Reassembly(next.remainder, emitted + next.emitted)
    }
  }

  // ---------- the specification functions ----------

  predicate Closed(piece: string) {
    piece != "" && piece[|piece| - 1] == '}'
  }

  function Coherentize(rem: string, piece: string): Reassembly {
    if !Closed(piece) then Reassembly(rem + piece, [])
    else if piece[0] != '{' then Reassembly("", [rem + piece])
    else Reassembly(rem, [piece])
  }

  function CoherentizeAll(rem: string, pieces: seq<string>): Reassembly
    decreases pieces
  {
    if pieces == [] then Reassembly(rem, [])
    else
      var first := Coherentize(rem, pieces[0]);
      first.Then(CoherentizeAll(first.remainder, pieces[1..]))
  }

  /** One chunk. */
  function SplitDids(rem: string, chunk: string): Reassembly {
    CoherentizeAll(rem, Lines(chunk, '\n'))
  }

  /** A whole response, chunk after chunk. */
  function Feed(rem: string, chunks: seq<string>): Reassembly
    decreases chunks
  {
    if chunks == [] then Reassembly(rem, [])
    else
      var first := SplitDids(rem, chunks[0]);
      first.Then(Feed(first.remainder, chunks[1..]))
  }

  // ---------- the code, with its static remainder ----------

  class Reassembler {
    var didStringRemainder: string

    constructor ()
      ensures didStringRemainder == ""
    {
      didStringRemainder := "";
    }

    /** The empty string is the code's way to say that nothing is to be emitted. */
    method CoherentizeDids(didString: string) returns (out: string)
      modifies this
      ensures Coherentize(old(didStringRemainder), didString)
           == Reassembly(didStringRemainder, if out == "" then [] else [out])
    {
      out := didString;
      if didString == "" || didString[|didString| - 1] != '}' {
        if didStringRemainder == "" {
          didStringRemainder := out;
        } else {
          didStringRemainder := didStringRemainder + out;
        }
        out := "";
      } else if didString[0] != '{' {
        out := didStringRemainder + out;
        didStringRemainder := "";
      }
    }

    method Split(line: string, target: seq<string>) returns (didStrings: seq<string>)
      modifies this
      ensures SplitDids(old(didStringRemainder), line).remainder == didStringRemainder
      ensures didStrings == target + SplitDids(old(didStringRemainder), line).emitted
    {
      hide SplitDids, Coherentize;
      didStrings := target;
      var stream := line;
      ghost var whole := SplitDids(didStringRemainder, line);
      ghost var done := [];
      while stream != ""
        invariant didStrings == target + done
        invariant whole == Reassembly(didStringRemainder, done).Then(SplitDids(didStringRemainder, stream))
        decreases |stream|
      {
        var i := IndexOf(stream, '\n');
        SplitStep(didStringRemainder, done, stream, stream[..i], stream[i..]);
        var buffer := CoherentizeDids(stream[..i]);
        stream := if i == |stream| then "" else stream[i + 1..];
        if buffer != "" {
          didStrings := didStrings + [buffer];
          done := done + [buffer];
        }
      }
      EmptyText(didStringRemainder);
    }
  }

  // ---------- when does the cutting not matter? ----------

  /** A line `}` can close only at its end, and if it does close, a `{` may only open it
      while nothing is pending. */
  predicate LegalLine(rem: string, line: string) {
    && (forall i :: 0 <= i < |line| - 1 ==> line[i] != '}')
    && (Closed(line) ==> forall i :: 0 <= i < |line| && line[i] == '{' ==> i == 0 && rem == "")
  }

  predicate LegalLines(rem: string, lines: seq<string>)
    decreases lines
  {
    lines == [] || (LegalLine(rem, lines[0]) && LegalLines(Coherentize(rem, lines[0]).remainder, lines[1..]))
  }

  predicate Legal(rem: string, text: string) {
    LegalLines(rem, Lines(text, '\n'))
  }

  ghost predicate CutIndependent(rem: string, text: string) {
    forall chunks :: Flatten(chunks) == text ==> Feed(rem, chunks) == SplitDids(rem, text)
  }

  function TwoChunks(rem: string, a: string, b: string): Reassembly {
    var first := SplitDids(rem, a);
    first.Then(SplitDids(first.remainder, b))
  }

  lemma ThenAssociative(a: Reassembly, b: Reassembly, c: Reassembly)
    ensures a.Then(b).Then(c) == a.Then(b.Then(c))
  {
    assert (a.emitted + b.emitted) + c.emitted == a.emitted + (b.emitted + c.emitted);
  }

  lemma SplitStep(rem: string, done: seq<string>, stream: string, line: string, tail: string)
    requires '\n' !in line && line + tail != "" && Tail(tail) && stream == line + tail
    ensures var first := Coherentize(rem, line);
            Reassembly(rem, done).Then(SplitDids(rem, stream))
              == Reassembly(first.remainder, done + first.emitted).Then(SplitDids(first.remainder, AfterNewline(tail)))
  {
    SplitLeadingLine(rem, line, tail);
    var first := Coherentize(rem, line);
    ThenAssociative(Reassembly(rem, done), first, SplitDids(first.remainder, AfterNewline(tail)));
  }

  lemma EmptyText(rem: string)
    ensures SplitDids(rem, "") == Reassembly(rem, [])
    ensures Legal(rem, "")
  {
  }

  lemma OnePiece(rem: string, piece: string)
    ensures CoherentizeAll(rem, [piece]) == Coherentize(rem, piece)
    ensures LegalLines(rem, [piece]) <==> LegalLine(rem, piece)
  {
    assert [piece][1..] == [];
    assert LegalLines(Coherentize(rem, piece).remainder, []);
  }

  function AfterNewline(tail: string): string {
    if tail == "" then "" else tail[1..]
  }

  predicate Tail(tail: string) {
    tail == "" || tail[0] == '\n'
  }

  /** A line standing at the start of a text. */
  lemma LeadingLine(line: string, tail: string)
    requires '\n' !in line && line + tail != "" && Tail(tail)
    ensures Lines(line + tail, '\n') == [line] + Lines(AfterNewline(tail), '\n')
  {
    if tail == "" {
      assert line + tail == line;
      LinesOfPiece(line, '\n');
    } else {
      assert line + tail == line + ['\n'] + tail[1..];
      LinesOfFirst(line, '\n', tail[1..]);
    }
  }

  /** Every text but the empty one starts with a line. */
  lemma TakeLine(text: string) returns (line: string, tail: string)
    requires text != ""
    ensures text == line + tail && '\n' !in line && Tail(tail)
    ensures line == text[..IndexOf(text, '\n')]
  {
    var k := IndexOf(text, '\n');
    line, tail := text[..k], text[k..];
  }

  lemma SplitLeadingLine(rem: string, line: string, tail: string)
    requires '\n' !in line && line + tail != "" && Tail(tail)
    ensures var first := Coherentize(rem, line);
            && SplitDids(rem, line + tail) == first.Then(SplitDids(first.remainder, AfterNewline(tail)))
            && (Legal(rem, line + tail) <==> LegalLine(rem, line) && Legal(first.remainder, AfterNewline(tail)))
  {
    LeadingLine(line, tail);
    assert ([line] + Lines(AfterNewline(tail), '\n'))[1..] == Lines(AfterNewline(tail), '\n');
  }

  /** Cutting a text inside its first line, into `u` and `v` followed by the tail. */
  lemma CutLine(rem: string, u: string, v: string, tail: string)
    requires '\n' !in u && '\n' !in v && u != "" && v + tail != "" && Tail(tail)
    ensures var x := Coherentize(rem, u);
            var y := Coherentize(x.remainder, v);
            && SplitDids(rem, u) == x
            && (Legal(rem, u) <==> LegalLine(rem, u))
            && TwoChunks(rem, u, v + tail) == x.Then(y).Then(SplitDids(y.remainder, AfterNewline(tail)))
            && (Legal(x.remainder, v + tail) <==> LegalLine(x.remainder, v) && Legal(y.remainder, AfterNewline(tail)))
  {
    var x := Coherentize(rem, u);
    var y := Coherentize(x.remainder, v);
    LinesOfPiece(u, '\n');
    OnePiece(rem, u);
    SplitLeadingLine(x.remainder, v, tail);
    ThenAssociative(x, y, SplitDids(y.remainder, AfterNewline(tail)));
  }

  /** Cutting a text `line + tail + b` behind its first line. */
  lemma CutBehindLine(rem: string, line: string, tail: string, b: string)
    requires '\n' !in line && tail != "" && Tail(tail)
    ensures var first := Coherentize(rem, line);
            && TwoChunks(rem, line + tail, b) == first.Then(TwoChunks(first.remainder, AfterNewline(tail), b))
            && SplitDids(rem, line + tail).remainder == SplitDids(first.remainder, AfterNewline(tail)).remainder
  {
    var first := Coherentize(rem, line);
    SplitLeadingLine(rem, line, tail);
    var second := SplitDids(first.remainder, AfterNewline(tail));
    ThenAssociative(first, second, SplitDids(second.remainder, b));
  }

  lemma AssociateTail(line: string, tail: string, b: string)
    requires tail != "" && Tail(tail)
    ensures line + tail + b == line + (tail + b)
    ensures Tail(tail + b) && AfterNewline(tail + b) == AfterNewline(tail) + b
  {
  }

  // ---------- a legal text may be cut anywhere ----------

  lemma LegalLineParts(rem: string, a: string, b: string)
    requires a != "" && b != "" && LegalLine(rem, a + b)
    ensures !Closed(a) && LegalLine(rem, a) && LegalLine(rem + a, b)
    ensures Closed(b) <==> Closed(a + b)
    ensures Closed(b) ==> b[0] != '{' && (a[0] == '{' ==> rem == "")
  {
    var line := a + b;
    assert forall i :: 0 <= i < |a| ==> a[i] == line[i];
    assert forall i :: 0 <= i < |b| ==> b[i] == line[|a| + i];
  }

  lemma CutPiece(rem: string, a: string, b: string)
    requires a != "" && LegalLine(rem, a + b)
    ensures var x := Coherentize(rem, a);
            && x.Then(Coherentize(x.remainder, b)) == Coherentize(rem, a + b)
            && LegalLine(rem, a) && LegalLine(x.remainder, b)
  {
    if b == "" {
      assert a + b == a;
    } else {
      LegalLineParts(rem, a, b);
      assert (a + b)[0] == a[0];
      assert rem + (a + b) == rem + a + b;
      if a[0] == '{' && rem == "" {
        assert rem + a + b == a + b;
      }
    }
  }

  lemma CutInsideLine(rem: string, u: string, v: string, tail: string)
    requires '\n' !in u && '\n' !in v && u != "" && v + tail != "" && Tail(tail)
    requires Legal(rem, u + v + tail)
    ensures TwoChunks(rem, u, v + tail) == SplitDids(rem, u + v + tail)
    ensures Legal(rem, u) && Legal(SplitDids(rem, u).remainder, v + tail)
  {
    CutLine(rem, u, v, tail);
    SplitLeadingLine(rem, u + v, tail);
    CutPiece(rem, u, v);
  }

  /** Cutting a legal text in two changes nothing, and leaves two legal texts. */
  lemma {:induction false} LegalCut(rem: string, a: string, b: string)
    requires Legal(rem, a + b)
    ensures TwoChunks(rem, a, b) == SplitDids(rem, a + b)
    ensures Legal(rem, a) && Legal(SplitDids(rem, a).remainder, b)
    decreases |a|
  {
    if a == "" {
      assert a + b == b;
    } else if b == "" {
      assert a + b == a;
    } else {
      var line, tail := TakeLine(a);
      if tail == "" {
        var head, rest := TakeLine(b);
        assert a == line;
        assert a + b == a + head + rest;
        CutInsideLine(rem, a, head, rest);
      } else {
        AssociateTail(line, tail, b);
        SplitLeadingLine(rem, line, tail);
        SplitLeadingLine(rem, line, tail + b);
        CutBehindLine(rem, line, tail, b);
        LegalCut(Coherentize(rem, line).remainder, AfterNewline(tail), b);
      }
    }
  }

  /** How many strings are emitted does not depend on what is pending. */
  lemma {:induction false} SameCount(r1: string, r2: string, lines: seq<string>)
    ensures |CoherentizeAll(r1, lines).emitted| == |CoherentizeAll(r2, lines).emitted|
    decreases lines
  {
    if lines != [] {
      SameCount(Coherentize(r1, lines[0]).remainder, Coherentize(r2, lines[0]).remainder, lines[1..]);
    }
  }

  // ---------- an illegal text can be cut so that the outcome changes ----------

  /** An illegal line can be cut so that more strings come out, or a different first one. */
  lemma CutIllegalPiece(rem: string, line: string) returns (u: string, v: string)
    requires !LegalLine(rem, line)
    ensures line == u + v && u != "" && v != ""
    ensures var x := Coherentize(rem, u);
            var y := Coherentize(x.remainder, v);
            var z := Coherentize(rem, line);
            |x.Then(y).emitted| != |z.emitted| || (|z.emitted| == 1 && x.Then(y).emitted[0] != z.emitted[0])
  {
    if j :| 0 <= j < |line| - 1 && line[j] == '}' {
      u, v := line[..j + 1], line[j + 1..];
      assert u[|u| - 1] == '}';
    } else {
      var j :| 0 <= j < |line| && line[j] == '{' && (j > 0 || rem != "");
      var i := if j == 0 then 1 else j;
      u, v := line[..i], line[i..];
      assert u[|u| - 1] == line[i - 1] != '}';
      assert Closed(v) && v[0] == line[i];
    }
  }

  lemma DifferentStart(a: Reassembly, b: Reassembly, lines: seq<string>)
    requires |a.emitted| != |b.emitted| || (|b.emitted| == 1 && a.emitted[0] != b.emitted[0])
    ensures a.Then(CoherentizeAll(a.remainder, lines)) != b.Then(CoherentizeAll(b.remainder, lines))
  {
    SameCount(a.remainder, b.remainder, lines);
    var x, y := a.Then(CoherentizeAll(a.remainder, lines)), b.Then(CoherentizeAll(b.remainder, lines));
    if |a.emitted| == |b.emitted| {
      assert x.emitted[0] == a.emitted[0] && y.emitted[0] == b.emitted[0];
    }
  }

  lemma CutIllegalLine(rem: string, line: string, tail: string) returns (u: string, v: string)
    requires '\n' !in line && Tail(tail) && !LegalLine(rem, line)
    ensures u != "" && v != "" && line == u + v
    ensures TwoChunks(rem, u, v + tail) != SplitDids(rem, line + tail)
  {
    u, v := CutIllegalPiece(rem, line);
    NewlineFreeParts(u, v);
    SplitLeadingLine(rem, line, tail);
    CutLine(rem, u, v, tail);
    var y := Coherentize(Coherentize(rem, u).remainder, v);
    DifferentStart(Coherentize(rem, u).Then(y), Coherentize(rem, line), Lines(AfterNewline(tail), '\n'));
  }

  lemma NewlineFreeParts(u: string, v: string)
    requires '\n' !in u + v
    ensures '\n' !in u && '\n' !in v
  {
  }

  /** An illegal text can be cut in two so that the result differs. */
  lemma {:induction false} IllegalCut(rem: string, text: string) returns (a: string, b: string)
    requires !Legal(rem, text)
    ensures text == a + b && TwoChunks(rem, a, b) != SplitDids(rem, text)
    decreases |text|
  {
    hide SplitDids, Coherentize, LegalLine, Legal, TwoChunks, Tail;
    EmptyText(rem);
    var line, tail := TakeLine(text);
    EmptyText(Coherentize(rem, line).remainder);
    SplitLeadingLine(rem, line, tail);
    if !LegalLine(rem, line) {
      a, b := CutIllegalLine(rem, line, tail);
      Reassociate(a, b, tail);
      b := b + tail;
    } else {
      var first := Coherentize(rem, line);
      a, b := IllegalCut(first.remainder, AfterNewline(tail));
      NewlineFirst(tail, a + b);
      ExtendCut(rem, line, a, b);
      a := line + ("\n" + a);
    }
  }

  lemma Reassociate(a: string, b: string, c: string)
    ensures a + b + c == a + (b + c)
  {
  }

  lemma NewlineFirst(tail: string, rest: string)
    requires Tail(tail) && AfterNewline(tail) == rest
    ensures tail == if tail == "" then "" else "\n" + rest
  {
  }

  /** A cut that matters for what follows a line matters for the whole text. */
  lemma ExtendCut(rem: string, line: string, a: string, b: string)
    requires '\n' !in line
    requires var first := Coherentize(rem, line);
             TwoChunks(first.remainder, a, b) != SplitDids(first.remainder, a + b)
    ensures line + ("\n" + (a + b)) == line + ("\n" + a) + b
    ensures TwoChunks(rem, line + ("\n" + a), b) != SplitDids(rem, line + ("\n" + (a + b)))
  {
    hide SplitDids, Lines, Coherentize, Legal, LegalLine;
    var first := Coherentize(rem, line);
    assert AfterNewline("\n" + (a + b)) == a + b && AfterNewline("\n" + a) == a;
    SplitLeadingLine(rem, line, "\n" + (a + b));
    CutBehindLine(rem, line, "\n" + a, b);
    ThenInjective(first, TwoChunks(first.remainder, a, b), SplitDids(first.remainder, a + b));
  }

  lemma ThenInjective(first: Reassembly, a: Reassembly, b: Reassembly)
    requires a != b
    ensures first.Then(a) != first.Then(b)
  {
    assert a.emitted == first.Then(a).emitted[|first.emitted|..];
    assert b.emitted == first.Then(b).emitted[|first.emitted|..];
  }

  lemma {:induction false} LegalFeed(rem: string, chunks: seq<string>)
    requires Legal(rem, Flatten(chunks))
    ensures Feed(rem, chunks) == SplitDids(rem, Flatten(chunks))
    decreases chunks
  {
    if chunks != [] {
      LegalCut(rem, chunks[0], Flatten(chunks[1..]));
      LegalFeed(SplitDids(rem, chunks[0]).remainder, chunks[1..]);
    }
  }

  /** For every text and every pending remainder: all cuttings give the result of the uncut text
      exactly when the text is legal. */
  lemma ChunkInvariance(rem: string, text: string)
    ensures CutIndependent(rem, text) <==> Legal(rem, text)
  {
    if Legal(rem, text) {
      forall chunks | Flatten(chunks) == text
        ensures Feed(rem, chunks) == SplitDids(rem, text)
      {
        LegalFeed(rem, chunks);
      }
    } else {
      var a, b := IllegalCut(rem, text);
      TwoChunkFeed(rem, a, b);
      assert Feed(rem, [a, b]) != SplitDids(rem, text);
    }
  }

  lemma TwoChunkFeed(rem: string, a: string, b: string)
    ensures Flatten([a, b]) == a + b
    ensures Feed(rem, [a, b]) == TwoChunks(rem, a, b)
  {
    assert [a, b][1..] == [b] && [b][1..] == [];
    assert Flatten([b]) == b + "" == b;
    var first := SplitDids(rem, a);
    var second := SplitDids(first.remainder, b);
    assert Feed(second.remainder, []) == Reassembly(second.remainder, []);
    assert second.Then(Feed(second.remainder, [])) == second;
    assert Feed(first.remainder, [b]) == second;
  }

  // ---------- listings: one record per line ----------

  predicate Record(r: string) {
    |r| >= 2 && r[0] == '{' && Closed(r) && '\n' !in r
  }

  predicate Flat(r: string) {
    Record(r) && forall i :: 0 < i < |r| - 1 ==> r[i] != '{' && r[i] != '}'
  }

  function Listing(records: seq<string>): string {
    if records == [] then "" else records[0] + "\n" + Listing(records[1..])
  }

  /** What must be pending and what must be finished after the first `n` bytes of a listing. */
  function Progress(records: seq<string>, n: nat): Reassembly {
    if records == [] then Reassembly("", [])
    else if n < |records[0]| then Reassembly(records[0][..n], [])
    else if n == |records[0]| then Reassembly("", [records[0]])
    else Reassembly("", [records[0]]).Then(Progress(records[1..], n - |records[0]| - 1))
  }

  lemma FlatLine(r: string, n: nat)
    requires Flat(r) && n <= |r|
    ensures LegalLine("", r[..n])
    ensures Coherentize("", r[..n]) == if n == |r| then Reassembly("", [r]) else Reassembly(r[..n], [])
  {
    if n == |r| {
      assert r[..n] == r;
    }
  }

  lemma {:induction false} PrefixProgress(records: seq<string>, n: nat)
    requires forall r :: r in records ==> Flat(r)
    requires n <= |Listing(records)|
    ensures Legal("", Listing(records)[..n])
    ensures SplitDids("", Listing(records)[..n]) == Progress(records, n)
  {
    assert records != [] ==> records[0] in records;
    if records != [] && n > 0 {
      var r, rest := records[0], Listing(records[1..]);
      var p := Listing(records)[..n];
      if n <= |r| {
        assert p == r[..n];
        LinesOfPiece(p, '\n');
        FlatLine(r, n);
        OnePiece("", p);
      } else {
        var m := n - |r| - 1;
        assert p == r + ['\n'] + rest[..m];
        assert p == r + ("\n" + rest[..m]);
        assert AfterNewline("\n" + rest[..m]) == rest[..m];
        SplitLeadingLine("", r, "\n" + rest[..m]);
        FlatLine(r, |r|);
        assert r[..|r|] == r;
        PrefixProgress(records[1..], m);
      }
    }
  }

  /** After the first `n` bytes of a listing of flat records, however these bytes were cut, the
      remainder is the unfinished part of the current record and the finished records are out. */
  lemma RemainderIsUnfinishedRecord(records: seq<string>, n: nat, chunks: seq<string>)
    requires forall r :: r in records ==> Flat(r)
    requires n <= |Listing(records)| && Flatten(chunks) == Listing(records)[..n]
    ensures Feed("", chunks) == Progress(records, n)
  {
    PrefixProgress(records, n);
    LegalFeed("", chunks);
  }

  lemma {:induction false} ProgressAtEnd(records: seq<string>, n: nat)
    requires |Listing(records)| <= n + 1 && n <= |Listing(records)|
    ensures Progress(records, n) == Reassembly("", records)
  {
    if records != [] && n > |records[0]| {
      ProgressAtEnd(records[1..], n - |records[0]| - 1);
    } else if records != [] {
      assert |Listing(records[1..])| == 0;
      assert n == |records[0]|;
    }
  }

  /** `text` carries the whole listing; the newline after the last record may be missing. */
  predicate CompleteListing(records: seq<string>, text: string) {
    var all := Listing(records);
    text == all || (all != "" && text == all[..|all| - 1])
  }

  /** A complete listing yields its records and leaves nothing behind. */
  lemma WholeListing(records: seq<string>, chunks: seq<string>)
    requires forall r :: r in records ==> Flat(r)
    requires CompleteListing(records, Flatten(chunks))
    ensures Feed("", chunks) == Reassembly("", records)
  {
    var all := Listing(records);
    var n := |Flatten(chunks)|;
    assert all[..|all|] == all;
    RemainderIsUnfinishedRecord(records, n, chunks);
    ProgressAtEnd(records, n);
  }

  lemma {:induction false} FeedConcat(rem: string, a: seq<string>, b: seq<string>)
    ensures Feed(rem, a + b) == Feed(rem, a).Then(Feed(Feed(rem, a).remainder, b))
    decreases a
  {
    hide SplitDids;
    if a == [] {
      assert a + b == b;
    } else {
      assert (a + b)[1..] == a[1..] + b && (a + b)[0] == a[0];
      var first := SplitDids(rem, a[0]);
      FeedConcat(first.remainder, a[1..], b);
      ThenAssociative(first, Feed(first.remainder, a[1..]), Feed(Feed(rem, a).remainder, b));
    }
  }

  /** Two complete responses one after the other are read independently of each other. */
  lemma BackToBack(records1: seq<string>, chunks1: seq<string>, records2: seq<string>, chunks2: seq<string>)
    requires forall r :: r in records1 + records2 ==> Flat(r)
    requires CompleteListing(records1, Flatten(chunks1)) && CompleteListing(records2, Flatten(chunks2))
    ensures Feed("", chunks1 + chunks2) == Reassembly("", records1 + records2)
  {
    forall r | r in records1 || r in records2
      ensures Flat(r)
    {
      assert r in records1 + records2;
    }
    WholeListing(records1, chunks1);
    WholeListing(records2, chunks2);
    FeedConcat("", chunks1, chunks2);
  }

  lemma {:induction false} ListingLegal(records: seq<string>)
    requires forall r :: r in records ==> Record(r)
    ensures Legal("", Listing(records)) <==> forall r :: r in records ==> Flat(r)
  {
    hide Legal, LegalLine, Flat, Record, SplitDids;
    EmptyText("");
    if records != [] {
      var r := records[0];
      assert r in records;
      RecordLegal(r);
      var tail := "\n" + Listing(records[1..]);
      assert Listing(records) == r + tail && AfterNewline(tail) == Listing(records[1..]);
      SplitLeadingLine("", r, tail);
      ListingLegal(records[1..]);
      assert (forall q :: q in records ==> Flat(q)) <==> Flat(r) && forall q :: q in records[1..] ==> Flat(q) by {
        assert records == [r] + records[1..];
      }
    }
  }

  lemma RecordLegal(r: string)
    requires Record(r)
    ensures Coherentize("", r).remainder == "" && '\n' !in r && r != ""
    ensures LegalLine("", r) <==> Flat(r)
  {
  }

  /** Flatness is the exact condition: a single brace inside a single record already makes the
      outcome depend on where the response was cut. */
  lemma ListingCutIndependent(records: seq<string>)
    requires forall r :: r in records ==> Record(r)
    ensures CutIndependent("", Listing(records)) <==> forall r :: r in records ==> Flat(r)
  {
    ListingLegal(records);
    ChunkInvariance("", Listing(records));
  }

  // ---------- nothing is lost or invented ----------

  lemma FlattenCons(first: string, rest: seq<string>)
    ensures Flatten([first] + rest) == first + Flatten(rest)
  {
    assert ([first] + rest)[1..] == rest;
  }

  lemma {:induction false} LinesConserve(text: string, c: char)
    ensures Count(Flatten(Lines(text, '\n')), c) == if c == '\n' then 0 else Count(text, c)
    decreases |text|
  {
    if text != "" {
      var line, tail := TakeLine(text);
      var rest := AfterNewline(tail);
      LeadingLine(line, tail);
      FlattenCons(line, Lines(rest, '\n'));
      LinesConserve(rest, c);
      CountConcat(line, Flatten(Lines(rest, '\n')), c);
      CountConcat(line, tail, c);
      CountAbsent(line, '\n');
      CountTail(tail, c);
    }
  }

  lemma CountTail(tail: string, c: char)
    requires Tail(tail)
    ensures Count(tail, c) == Count(AfterNewline(tail), c) + if c == '\n' && tail != "" then 1 else 0
  {
    if tail != "" {
      assert tail == "\n" + tail[1..];
      CountConcat("\n", tail[1..], c);
      assert "\n"[..0] == "";
    }
  }

  lemma PieceConserves(rem: string, piece: string, c: char)
    ensures var r := Coherentize(rem, piece);
            Count(Flatten(r.emitted), c) + Count(r.remainder, c) == Count(rem, c) + Count(piece, c)
  {
    CountConcat(rem, piece, c);
    FlattenOne(rem + piece);
    FlattenOne(piece);
  }

  lemma {:induction false} PiecesConserve(rem: string, pieces: seq<string>, c: char)
    ensures var r := CoherentizeAll(rem, pieces);
            Count(Flatten(r.emitted), c) + Count(r.remainder, c) == Count(rem, c) + Count(Flatten(pieces), c)
    decreases pieces
  {
    if pieces != [] {
      var first := Coherentize(rem, pieces[0]);
      var rest := CoherentizeAll(first.remainder, pieces[1..]);
      PieceConserves(rem, pieces[0], c);
      PiecesConserve(first.remainder, pieces[1..], c);
      FlattenConcat(first.emitted, rest.emitted);
      CountConcat(Flatten(first.emitted), Flatten(rest.emitted), c);
      CountConcat(pieces[0], Flatten(pieces[1..]), c);
    }
  }

  /** For every input whatever, well-formed or not, and every byte value: newlines apart, it comes out
      (emitted or still pending) exactly as often as it came in. */
  lemma {:induction false} Conservation(rem: string, chunks: seq<string>, c: char)
    ensures var r := Feed(rem, chunks);
            Count(Flatten(r.emitted), c) + Count(r.remainder, c)
              == Count(rem, c) + if c == '\n' then 0 else Count(Flatten(chunks), c)
    decreases chunks
  {
    if chunks != [] {
      var first := SplitDids(rem, chunks[0]);
      var rest := Feed(first.remainder, chunks[1..]);
      LinesConserve(chunks[0], c);
      PiecesConserve(rem, Lines(chunks[0], '\n'), c);
      Conservation(first.remainder, chunks[1..], c);
      FlattenConcat(first.emitted, rest.emitted);
      CountConcat(Flatten(first.emitted), Flatten(rest.emitted), c);
      CountConcat(chunks[0], Flatten(chunks[1..]), c);
    }
  }

  lemma {:induction false} PiecesClosed(rem: string, pieces: seq<string>)
    ensures forall e :: e in CoherentizeAll(rem, pieces).emitted ==> Closed(e)
    decreases pieces
  {
    if pieces != [] {
      PiecesClosed(Coherentize(rem, pieces[0]).remainder, pieces[1..]);
    }
  }

  /** Whatever the input, an emitted string ends in `}`. */
  lemma {:induction false} EmittedClosed(rem: string, chunks: seq<string>)
    ensures forall e :: e in Feed(rem, chunks).emitted ==> Closed(e)
    decreases chunks
  {
    if chunks != [] {
      PiecesClosed(rem, Lines(chunks[0], '\n'));
      EmittedClosed(SplitDids(rem, chunks[0]).remainder, chunks[1..]);
    }
  }

  lemma {:induction false} PiecesOneLine(rem: string, pieces: seq<string>)
    requires '\n' !in rem && forall p :: p in pieces ==> '\n' !in p
    ensures '\n' !in CoherentizeAll(rem, pieces).remainder
    ensures forall e :: e in CoherentizeAll(rem, pieces).emitted ==> '\n' !in e
    decreases pieces
  {
    if pieces != [] {
      assert pieces[0] in pieces;
      PiecesOneLine(Coherentize(rem, pieces[0]).remainder, pieces[1..]);
    }
  }

  /** Nothing emitted contains a newline. */
  lemma {:induction false} EmittedOneLine(rem: string, chunks: seq<string>)
    requires '\n' !in rem
    ensures forall e :: e in Feed(rem, chunks).emitted ==> '\n' !in e
    decreases chunks
  {
    if chunks != [] {
      LinesParts(chunks[0], '\n');
      PiecesOneLine(rem, Lines(chunks[0], '\n'));
      EmittedOneLine(SplitDids(rem, chunks[0]).remainder, chunks[1..]);
    }
  }
}
