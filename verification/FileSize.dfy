/** The search for a file size in the server's answer (source/REST-API.cpp `rucio_get_size`). */
module FileSize {
  import opened Text
  import opened Machine
  import opened Number
  import opened DidRecord
  import opened RecordSearch

  const BYTES := "\"bytes\": "

  datatype SizeReply = Unreachable | NoBytes | Bytes(n: int)

  /** The size in one chunk of the answer; `None` without the text looked for. What cannot be read as a
      number counts as 0, and what can is narrowed to an `int`. */
  function SizeIn(chunk: string): Option<int> {
    var pos :- Find(chunk, BYTES);
    var rest := chunk[pos + |BYTES|..];
    var n := Stoll(rest[..IndexOf(rest, ',')]);
    Some(if n.None? then 0 else Wrap32(n.value))
  }

  /** The first chunk with a size decides. */
  function SizeOf(payload: seq<string>): (r: SizeReply)
    ensures !r.Unreachable?
  {
    if payload == [] then NoBytes
    else
      match SizeIn(payload[0])
      case Some(n) => Bytes(n)
      case None => SizeOf(payload[1..])
  }

  lemma CommaAfter(chunk: string, pos: nat)
    requires OccursAt(chunk, BYTES, pos)
    ensures var rest := chunk[pos + |BYTES|..];
            IndexFrom(chunk, ',', pos + |BYTES| - 1) == pos + |BYTES| + IndexOf(rest, ',')
  {
    var from := pos + |BYTES| - 1;
    var rest := chunk[from + 1..];
    assert chunk[from] == chunk[pos..pos + |BYTES|][|BYTES| - 1] == ' ';
    var i := IndexFrom(chunk, ',', from);
    IndexFromIsFirst(chunk, ',', from);
    var k := IndexOf(rest, ',');
    assert k < |rest| ==> chunk[from + 1 + k] == ',';
    assert i < |chunk| ==> rest[i - from - 1] == ',';
  }

  /** `None` when the answer has no size. */
  method FindSize(payload: seq<string>) returns (size: Option<int>)
    ensures SizeOf(payload) == if size.None? then NoBytes else Bytes(size.value)
  {
    hide Stoll, Wrap32;
    assert payload[0..] == payload;
    for i := 0 to |payload|
      invariant SizeOf(payload) == SizeOf(payload[i..])
    {
      var chunk := payload[i];
      assert payload[i..][0] == chunk && payload[i..][1..] == payload[i + 1..];
      var pos := Find(chunk, BYTES);
      if pos.Some? {
        CommaAfter(chunk, pos.value);
        var from := pos.value + |BYTES|;
        var pos2 := IndexFrom(chunk, ',', from - 1);
        assert chunk[from..pos2] == chunk[from..][..pos2 - from];
        var parsed := Stoll(chunk[from..pos2]);
        var n := 0;
        if parsed.Some? {
          n := Wrap32(parsed.value);
        }
        return Some(n);
      }
    }
    size := None;
  }

  // ---------- when the size is read correctly ----------

  /** The text says the size once. */
  ghost predicate SaysSize(text: string, before: string, n: nat, after: string) {
    && text == before + BYTES + (Digits(n) + after)
    && (after == "" || !IsDigit(after[0]))
    && OccursOnlyAt(text, |before|)
  }

  ghost predicate OccursOnlyAt(text: string, pos: nat) {
    forall i: nat :: OccursAt(text, BYTES, i) ==> i == pos
  }

  /** The chunk that holds position `from` holds everything up to `to`. */
  predicate InOneChunk(chunks: seq<string>, from: nat, to: nat)
    requires from <= to
  {
    if chunks == [] then false
    else
      var k := |chunks[0]|;
      if k <= from then InOneChunk(chunks[1..], from - k, to - k) else to <= k
  }

  lemma CommaBehind(digits: string, after: string)
    requires forall c :: c in digits ==> IsDigit(c)
    ensures IndexOf(digits + after, ',') == |digits| + IndexOf(after, ',')
  {
    var s, k := digits + after, IndexOf(after, ',');
    assert forall i :: 0 <= i < |digits| ==> s[i] == digits[i] && digits[i] in digits;
    assert forall i :: 0 <= i < |after| ==> s[|digits| + i] == after[i];
    var j := IndexOf(s, ',');
    assert j >= |digits|;
    assert j - |digits| < |after| ==> after[j - |digits|] == ',';
    assert k < |after| ==> s[|digits| + k] == ',';
  }

  lemma LeadingOfDigits(digits: string, rest: string)
    requires forall c :: c in digits ==> IsDigit(c)
    requires if digits == "" then rest == "" else rest == "" || !IsDigit(rest[0])
    ensures Leading(digits + rest) == if digits == "" then None else Some(Decimal(digits))
  {
    hide Decimal, LeadingDigits;
    var t := digits + rest;
    if digits != "" {
      DigitsLead(digits, rest);
      assert t[0] == digits[0] && digits[0] in digits;
      assert IsDigit(t[0]) && SkipSpaces(t) == t;
    }
  }

  /** What is read from digits, when something else or the end of the chunk follows. */
  lemma SizeAt(before: string, digits: string, after: string)
    requires Find(before + BYTES + (digits + after), BYTES) == Some(|before|)
    requires forall c :: c in digits ==> IsDigit(c)
    requires if digits == "" then after == "" else after == "" || !IsDigit(after[0])
    ensures SizeIn(before + BYTES + (digits + after))
         == Some(if IsInt64(Decimal(digits)) then Wrap32(Decimal(digits)) else 0)
  {
    hide Decimal, IsDigit, Leading;
    var chunk := before + BYTES + (digits + after);
    var rest := chunk[|before| + |BYTES|..];
    assert rest == digits + after;
    CommaBehind(digits, after);
    var k := IndexOf(after, ',');
    assert rest[..IndexOf(rest, ',')] == digits + after[..k];
    assert after[..k] == "" || after[..k][0] == after[0];
    LeadingOfDigits(digits, after[..k]);
    assert digits == "" ==> Decimal(digits) == 0 by {
      NoDigits();
    }
  }

  lemma NoDigits()
    ensures Decimal("") == 0
  {
  }

  /** Without the text looked for there is no size, wherever the cuts are. */
  lemma {:induction false} NoneAnywhere(chunks: seq<string>)
    requires forall i: nat :: !OccursAt(Flatten(chunks), BYTES, i)
    ensures SizeOf(chunks) == NoBytes
  {
    hide BYTES, OccursAt;
    if chunks != [] {
      var text, k := Flatten(chunks), |chunks[0]|;
      assert text[..k] == chunks[0] && text[k..] == Flatten(chunks[1..]);
      forall i: nat
        ensures !OccursAt(chunks[0], BYTES, i) && !OccursAt(Flatten(chunks[1..]), BYTES, i)
      {
        OccursInFront(text, BYTES, k, i);
        OccursBehind(text, BYTES, k, i);
      }
      NoneAnywhere(chunks[1..]);
    }
  }

  /** The first chunk reaches beyond the text looked for: it decides, with the digits it holds. */
  lemma DecidedHere(chunk: string, text: string, before: string, n: nat, after: string)
    requires SaysSize(text, before, n, after) && chunk <= text && |before| + |BYTES| <= |chunk|
    ensures SizeIn(chunk).Some?
    ensures SizeIn(chunk).value == n <==>
              IsInt32(n) && |before| + |BYTES| + (if n == 0 then 0 else |Digits(n)|) <= |chunk|
  {
    hide BYTES, Decimal, Digits, SizeIn;
    var digits, at := Digits(n), |before| + |BYTES|;
    DigitsDecimal(n);
    assert OccursAt(text, BYTES, |before|);
    forall i: nat
      ensures OccursAt(chunk, BYTES, i) <==> i == |before|
    {
      OccursInFront(text, BYTES, |chunk|, i);
    }
    assert OccursAt(chunk, BYTES, |before|);
    var pos := Find(chunk, BYTES);
    assert pos.Some? && pos.value == |before|;
    if at + |digits| <= |chunk| {
      var some := after[..|chunk| - at - |digits|];
      assert chunk == before + BYTES + (digits + some);
      SizeAt(before, digits, some);
    } else {
      var k := |chunk| - at;
      assert chunk == before + BYTES + (digits[..k] + "");
      FewerDigits(digits, k);
      SizeAt(before, digits[..k], "");
    }
    assert Wrap32(0) == 0;
  }

  lemma AnswerGoesOn(text: string, k: nat, before: string, n: nat, after: string)
    requires SaysSize(text, before, n, after) && k <= |before|
    ensures SaysSize(text[k..], before[k..], n, after)
    ensures Find(text[..k], BYTES) == None
  {
    hide Digits;
    assert text[k..] == before[k..] + BYTES + (Digits(n) + after);
    forall i: nat
      ensures OccursAt(text[k..], BYTES, i) ==> i == |before| - k
      ensures !OccursAt(text[..k], BYTES, i)
    {
      OccursBehind(text, BYTES, k, i);
      OccursInFront(text, BYTES, k, i);
    }
  }

  /** However an answer that says the size once is cut into chunks, the size is read correctly if and
      only if it fits an `int` and no cut goes through the key or the digits; of size 0 the digit may be
      cut off. */
  lemma {:induction false} SizeSurvivesCutting(chunks: seq<string>, before: string, n: nat, after: string)
    requires SaysSize(Flatten(chunks), before, n, after)
    ensures SizeOf(chunks) == Bytes(n) <==>
              IsInt32(n)
              && InOneChunk(chunks, |before|, |before| + |BYTES| + if n == 0 then 0 else |Digits(n)|)
    decreases chunks
  {
    hide BYTES, SizeIn, Digits, SaysSize, IsInt32;
    var text := Flatten(chunks);
    if chunks == [] {
      TextHasKey(text, before, n, after);
    } else {
      var k := |chunks[0]|;
      assert text[..k] == chunks[0] && text[k..] == Flatten(chunks[1..]);
      if k <= |before| {
        AnswerGoesOn(text, k, before, n, after);
        NothingFound(chunks[0]);
        SizeSurvivesCutting(chunks[1..], before[k..], n, after);
      } else if |before| + |BYTES| <= k {
        DecidedHere(chunks[0], text, before, n, after);
      } else {
        KeyCut(text, k, before, n, after);
        NothingFound(chunks[0]);
        NoneAnywhere(chunks[1..]);
      }
    }
  }

  lemma NothingFound(chunk: string)
    requires Find(chunk, BYTES) == None
    ensures SizeIn(chunk) == None
  {
  }

  lemma TextHasKey(text: string, before: string, n: nat, after: string)
    requires SaysSize(text, before, n, after)
    ensures text != ""
  {
  }

  lemma KeyCut(text: string, k: nat, before: string, n: nat, after: string)
    requires SaysSize(text, before, n, after) && |before| < k < |before| + |BYTES| && k <= |text|
    ensures Find(text[..k], BYTES) == None
    ensures forall i: nat :: !OccursAt(text[k..], BYTES, i)
  {
    hide BYTES, Digits;
    forall i: nat
      ensures !OccursAt(text[k..], BYTES, i) && !OccursAt(text[..k], BYTES, i)
    {
      OccursBehind(text, BYTES, k, i);
      OccursInFront(text, BYTES, k, i);
    }
  }

  lemma KeyIsSize(chunk: string)
    ensures SizeIn(chunk).Some? <==> Contains(chunk, "\"bytes\": ")
  {
  }

  /** Without the key there is no size, and only then. */
  lemma {:induction false} NoSizeWithoutKey(payload: seq<string>)
    ensures SizeOf(payload) == NoBytes <==> forall c :: c in payload ==> !Contains(c, "\"bytes\": ")
  {
    hide SizeIn, Contains;
    if payload != [] {
      KeyIsSize(payload[0]);
      NoSizeWithoutKey(payload[1..]);
      assert payload == [payload[0]] + payload[1..];
    }
  }

  /** What becomes of the size in an uncut answer: the number modulo 2 to the 32, or 0 when it does not
      even fit 64 bits. */
  lemma UncutSize(text: string, before: string, n: nat, after: string)
    requires SaysSize(text, before, n, after)
    ensures var r := SizeOf([text]);
            r.Bytes? && IsInt32(r.n) && if n < 0x8000_0000_0000_0000 then (r.n - n) % 0x1_0000_0000 == 0 else r.n == 0
  {
    hide BYTES, Decimal, Digits, SizeIn;
    var pos := Find(text, BYTES);
    assert OccursAt(text, BYTES, |before|);
    assert pos.Some? && pos.value == |before|;
    DigitsDecimal(n);
    SizeAt(before, Digits(n), after);
  }

  // ---------- the answer for a file ----------

  function BeforeSize(d: Did): string
    requires Described(d) && d.dataType == Some(File)
  {
    "{" + PrintEach(FieldsOf(d)[..4])
  }

  function AfterSize(d: Did): string
    requires Described(d) && d.dataType == Some(File)
  {
    ", \"level\": " + PrintInt(d.level.value) + "}"
  }

  lemma LastTwoFields(d: Did)
    requires Described(d) && d.dataType == Some(File)
    ensures |FieldsOf(d)| == 6
    ensures FieldsOf(d)[4..] == [Field("bytes", PrintInt(d.size.value), false), Field("level", PrintInt(d.level.value), false)]
  {
  }

  lemma PrintTwo(size: int, level: int)
    ensures PrintFields([Field("bytes", PrintInt(size), false), Field("level", PrintInt(level), false)]) + "}"
         == BYTES + (PrintInt(size) + (", \"level\": " + PrintInt(level) + "}"))
  {
    hide PrintInt;
    var a, b := Field("bytes", PrintInt(size), false), Field("level", PrintInt(level), false);
    assert [a, b][1..] == [b];
  }

  lemma PrintedParts(d: Did)
    requires Described(d) && d.dataType == Some(File) && d.size.value >= 0
    ensures PrintRecord(FieldsOf(d)) == BeforeSize(d) + BYTES + (Digits(d.size.value) + AfterSize(d))
  {
    hide PrintInt, Digits, PrintEach, FieldsOf, PrintFields, BYTES;
    var fs := FieldsOf(d);
    LastTwoFields(d);
    EachThenLast(fs, 4);
    PrintTwo(d.size.value, d.level.value);
    NotNegative(d.size.value);
    assert PrintRecord(fs) == ("{" + PrintEach(fs[..4])) + (PrintFields(fs[4..]) + "}");
  }

  lemma NotNegative(n: nat)
    ensures PrintInt(n) == Digits(n)
  {
  }

  lemma NoKeyBefore(d: Did)
    requires Described(d) && d.dataType == Some(File) && Clean(d.scope) && Clean(d.name) && Clean(d.parent)
    ensures !Contains(BeforeSize(d), BYTES)
  {
    hide Contains, Clean, PrintEach, TypeName;
    var first := FieldsOf(d)[..4];
    FieldsOfClean(d);
    BytesIsWord();
    QuotedTail("bytes", ": ");
    assert PrintEach(first) + "" == PrintEach(first);
    BeforeQuotes("{", PrintEach(first), "bytes" + "\"" + ": ");
    EachFound(first, "", "bytes", ": ");
    NoQuoteNothing("", "bytes" + "\"" + ": ");
    assert forall f :: f in first ==> f.key in {"scope", "type", "name", "parent"};
    assert "bytes" !in {"scope", "type", "name", "parent"} by {
      assert |"bytes"| == |"scope"| && "bytes"[0] != "scope"[0];
    }
  }

  lemma BytesIsWord()
    ensures Word("bytes") && Quoted("bytes", ": ") == BYTES && EndsUniquely(BYTES)
    ensures Clean("level")
  {
  }

  lemma NoKeyBehind(n: nat, level: int)
    ensures !Contains("bytes" + "\"" + (": " + Digits(n) + (", \"level\": " + PrintInt(level) + "}")), BYTES)
  {
    hide Contains, Clean, PrintInt, Digits;
    BytesIsWord();
    PrintIntChars(level);
    PrintIntChars(n);
    NotNegative(n);
    CleanHasNoQuote(Digits(n));
    QuotedTail("bytes", ": ");
    var tail := "bytes" + "\"" + ": ";
    var f := Field("level", PrintInt(level), false);
    var y := ": " + Digits(n) + (", \"level\": " + PrintInt(level) + "}");
    AtFirstQuote("bytes", y, tail);
    assert y == (": " + Digits(n) + ", ") + (PrintField(f) + "}");
    NotHere("bytes", ": ", y);
    BeforeQuotes(": " + Digits(n) + ", ", PrintField(f) + "}", tail);
    FieldFound(f, "}", "bytes", ": ");
    NoQuoteNothing("}", tail);
    assert "level" != "bytes" by {
      assert "level"[0] != "bytes"[0];
    }
  }

  /** The answer for a file says its size exactly once. */
  lemma PrintedSaysSize(d: Did)
    requires Described(d) && d.dataType == Some(File) && d.size.value >= 0
    requires Clean(d.scope) && Clean(d.name) && Clean(d.parent)
    ensures SaysSize(PrintRecord(FieldsOf(d)), BeforeSize(d), d.size.value, AfterSize(d))
  {
    hide Contains, Clean, PrintInt, Digits, PrintRecord, FieldsOf, BeforeSize;
    var text, n, before, after := PrintRecord(FieldsOf(d)), d.size.value, BeforeSize(d), AfterSize(d);
    PrintedParts(d);
    NoKeyBefore(d);
    NoKeyBehind(n, d.level.value);
    BytesIsWord();
    NotContained(before, BYTES);
    FoundWherePut(before, BYTES, Digits(n) + after);
    var behind := "bytes" + "\"" + (": " + Digits(n) + after);
    assert text[|before| + 1..] == behind;
    FoundWhereOccurs(behind, BYTES);
    forall i: nat | OccursAt(text, BYTES, i)
      ensures i == |before|
    {
      if i > |before| {
        OccursBehind(text, BYTES, |before| + 1, i - |before| - 1);
      }
    }
  }

  lemma NotContained(s: string, sub: string)
    requires !Contains(s, sub)
    ensures Find(s, sub) == None
  {
  }
}
