/** Where a quoted word stands in a printed record. */
module RecordSearch {
  import opened Text
  import opened DidRecord

  /** A quoted word and what follows it. */
  function Quoted(word: string, next: string): string {
    "\"" + word + "\"" + next
  }

  predicate Contains(s: string, sub: string) {
    Find(s, sub).Some?
  }

  lemma FoundWhereOccurs(s: string, sub: string)
    ensures Contains(s, sub) <==> exists i: nat :: OccursAt(s, sub, i)
  {
  }

  /** A word that a record can hold. */
  predicate Word(word: string) {
    word != "" && Clean(word)
  }

  /** What stands behind a value or a key. */
  predicate Next(next: string) {
    next == "," || next == ": "
  }

  // ---------- from quote to quote ----------

  lemma QuotedHere(x: string, y: string, tail: string)
    ensures OccursAt(x + "\"" + y, "\"" + tail, |x|) <==> tail <= y
  {
    var s, sub, n := x + "\"" + y, "\"" + tail, |x| + 1;
    if OccursAt(s, sub, |x|) {
      assert s[|x|..|x| + |sub|][1..] == tail;
      assert y[..|tail|] == s[n..n + |tail|] == tail;
    }
    if tail <= y {
      assert s[n..n + |tail|] == y[..|tail|] == tail;
      assert s[|x|..|x| + |sub|] == [s[|x|]] + s[n..n + |tail|];
    }
  }

  /** A text that starts with a quote is found at the first quote or behind it. */
  lemma AtFirstQuote(x: string, y: string, tail: string)
    requires '\"' !in x
    ensures Contains(x + "\"" + y, "\"" + tail) <==> tail <= y || Contains(y, "\"" + tail)
  {
    hide Find;
    var s, sub, n := x + "\"" + y, "\"" + tail, |x| + 1;
    FoundWhereOccurs(s, sub);
    FoundWhereOccurs(y, sub);
    assert s[n..] == y;
    forall i: nat
      ensures OccursAt(s, sub, i) ==> i >= |x|
      ensures OccursAt(y, sub, i) <==> OccursAt(s, sub, n + i)
    {
      OccursBehind(s, sub, n, i);
      if OccursAt(s, sub, i) {
        assert s[i] == s[i..i + |sub|][0] == '\"';
      }
    }
    QuotedHere(x, y, tail);
    if Contains(s, sub) {
      var i: nat :| OccursAt(s, sub, i);
      if i != |x| {
        assert OccursAt(y, sub, i - n);
      }
    }
    if Contains(y, sub) {
      var i: nat :| OccursAt(y, sub, i);
      assert OccursAt(s, sub, n + i);
    }
  }

  lemma NoQuoteNothing(s: string, tail: string)
    requires '\"' !in s
    ensures !Contains(s, "\"" + tail)
  {
    var sub, pos := "\"" + tail, Find(s, "\"" + tail);
    assert sub[0] == '\"';
  }

  /** A beginning without quotes does not matter. */
  lemma BeforeQuotes(x: string, s: string, tail: string)
    requires '\"' !in x
    ensures Contains(x + s, "\"" + tail) <==> Contains(s, "\"" + tail)
  {
    hide Contains;
    var k := IndexOf(s, '\"');
    if k == |s| {
      NoQuoteNothing(s, tail);
      NoQuoteNothing(x + s, tail);
    } else {
      var a, y := s[..k], s[k + 1..];
      assert s == a + "\"" + y && x + s == x + a + "\"" + y;
      AtFirstQuote(a, y, tail);
      AtFirstQuote(x + a, y, tail);
    }
  }

  /** What stands between two quotes. */
  lemma BetweenQuotes(k: string, z: string, word: string, next: string)
    requires '\"' !in k && '\"' !in word
    ensures word + "\"" + next <= k + "\"" + z <==> k == word && next <= z
  {
    var s, sub := k + "\"" + z, word + "\"" + next;
    assert s[|k|] == '\"' == sub[|word|];
    if sub <= s {
      assert s[|word|] == '\"';
      assert |k| == |word|;
      assert k == s[..|k|] == sub[..|k|] == word;
      assert next == sub[|k| + 1..] == s[|k| + 1..|sub|] == z[..|next|];
    }
    if k == word && next <= z {
      assert s[..|sub|] == sub;
    }
  }

  lemma QuotedTail(word: string, next: string)
    ensures Quoted(word, next) == "\"" + (word + "\"" + next)
  {
  }

  /** A quoted text before `rest`, where `rest` does not go on with a letter of the word. */
  lemma AfterQuoted(v: string, rest: string, word: string, next: string)
    requires '\"' !in v && '\"' !in word && !(word + "\"" + next <= rest)
    ensures Contains("\"" + (v + ("\"" + rest)), Quoted(word, next)) <==>
            (v == word && next <= rest) || Contains(rest, Quoted(word, next))
  {
    hide Contains, Quoted;
    var y, tail := v + ("\"" + rest), word + "\"" + next;
    QuotedTail(word, next);
    AtFirstQuote("", y, tail);
    assert "" + "\"" + y == "\"" + y;
    AtFirstQuote(v, rest, tail);
    assert v + "\"" + rest == y;
    BetweenQuotes(v, rest, word, next);
  }

  lemma NotHere(word: string, next: string, rest: string)
    requires Word(word) && rest != "" && rest[0] in ":,}"
    ensures !(word + "\"" + next <= rest)
  {
    assert (word + "\"" + next)[0] == word[0] && word[0] in word;
  }

  lemma CleanHasNoQuote(s: string)
    requires Clean(s)
    ensures '\"' !in s
  {
  }

  // ---------- field by field ----------

  /** The end of a record, or more fields. */
  predicate Follows(rest: string) {
    rest != "" && (rest[0] == ',' || rest[0] == '}')
  }

  lemma InValue(f: Field, rest: string, word: string, next: string)
    requires Word(word) && Clean(f.value) && Follows(rest)
    ensures Contains(": " + (PrintValue(f) + rest), Quoted(word, next)) <==>
            (f.quoted && f.value == word && next <= rest) || Contains(rest, Quoted(word, next))
  {
    hide Contains, Quoted, Clean;
    var tail := word + "\"" + next;
    CleanHasNoQuote(f.value);
    CleanHasNoQuote(word);
    QuotedTail(word, next);
    NotHere(word, next, rest);
    if f.quoted {
      assert PrintValue(f) + rest == "\"" + (f.value + ("\"" + rest));
      BeforeQuotes(": ", PrintValue(f) + rest, tail);
      AfterQuoted(f.value, rest, word, next);
    } else {
      assert ": " + (f.value + rest) == (": " + f.value) + rest;
      BeforeQuotes(": " + f.value, rest, tail);
    }
  }

  /** Does the field itself hold the word in this place? */
  predicate InField(f: Field, word: string, next: string) {
    if next == ": " then f.key == word else f.quoted && f.value == word
  }

  lemma FieldFound(f: Field, rest: string, word: string, next: string)
    requires Word(word) && Clean(f.key) && Clean(f.value) && Follows(rest) && Next(next)
    ensures Contains(PrintField(f) + rest, Quoted(word, next)) <==>
            (InField(f, word, next) && (next == ": " || rest[0] == ',')) || Contains(rest, Quoted(word, next))
  {
    hide Contains, Quoted, PrintValue, Clean;
    var value := ": " + (PrintValue(f) + rest);
    assert PrintField(f) + rest == "\"" + (f.key + ("\"" + value));
    CleanHasNoQuote(f.key);
    CleanHasNoQuote(word);
    NotHere(word, next, value);
    AfterQuoted(f.key, value, word, next);
    InValue(f, rest, word, next);
    assert ": " <= value && !("," <= value);
    assert !(": " <= rest) && ("," <= rest <==> rest[0] == ',');
  }

  /** Fields, each with a comma behind it. */
  function PrintEach(fields: seq<Field>): string {
    if fields == [] then "" else PrintField(fields[0]) + (", " + PrintEach(fields[1..]))
  }

  predicate SomeField(fields: seq<Field>, word: string, next: string) {
    exists f :: f in fields && InField(f, word, next)
  }

  lemma SomeFirst(fields: seq<Field>, word: string, next: string)
    requires fields != []
    ensures SomeField(fields, word, next) <==> InField(fields[0], word, next) || SomeField(fields[1..], word, next)
  {
    assert fields == [fields[0]] + fields[1..];
  }

  lemma {:induction false} EachFound(fields: seq<Field>, rest: string, word: string, next: string)
    requires Word(word) && CleanFields(fields) && Next(next)
    ensures Contains(PrintEach(fields) + rest, Quoted(word, next)) <==>
            SomeField(fields, word, next) || Contains(rest, Quoted(word, next))
  {
    hide Contains, Quoted, PrintField, Clean, InField, SomeField, Next;
    if fields == [] {
      assert PrintEach(fields) + rest == rest;
      NoField(word, next);
    } else {
      assert fields[0] in fields;
      var more := PrintEach(fields[1..]) + rest;
      assert PrintEach(fields) + rest == PrintField(fields[0]) + (", " + more);
      FieldFound(fields[0], ", " + more, word, next);
      QuotedTail(word, next);
      BeforeQuotes(", ", more, word + "\"" + next);
      EachFound(fields[1..], rest, word, next);
      SomeFirst(fields, word, next);
    }
  }

  lemma NoField(word: string, next: string)
    ensures !SomeField([], word, next)
  {
  }

  lemma {:induction false} EachThenLast(fields: seq<Field>, k: nat)
    requires k < |fields|
    ensures PrintFields(fields) == PrintEach(fields[..k]) + PrintFields(fields[k..])
  {
    hide PrintField;
    if k == 0 {
      assert fields[..0] == [] && fields[0..] == fields;
    } else {
      EachThenLast(fields[1..], k - 1);
      assert fields[..k][1..] == fields[1..][..k - 1] && fields[1..][k - 1..] == fields[k..];
    }
  }

  /** In a printed record a word is found as a value with a comma exactly when some quoted value but the
      last is it, and as a key exactly when some key is it. */
  lemma RecordFound(fields: seq<Field>, word: string, next: string)
    requires Word(word) && CleanFields(fields) && fields != [] && Next(next)
    ensures Contains(PrintRecord(fields), Quoted(word, next)) <==>
            SomeField(fields[..|fields| - 1], word, next) || (next == ": " && fields[|fields| - 1].key == word)
  {
    hide Contains, Quoted, PrintField, Clean, SomeField, PrintEach;
    var init, last := fields[..|fields| - 1], fields[|fields| - 1];
    EachThenLast(fields, |fields| - 1);
    assert fields[|fields| - 1..] == [last];
    assert last in fields && forall f :: f in init ==> f in fields;
    assert PrintRecord(fields) == "{" + (PrintEach(init) + (PrintField(last) + "}"));
    QuotedTail(word, next);
    BeforeQuotes("{", PrintEach(init) + (PrintField(last) + "}"), word + "\"" + next);
    EachFound(init, PrintField(last) + "}", word, next);
    FieldFound(last, "}", word, next);
    NoQuoteNothing("}", word + "\"" + next);
  }
}
