/** Scope lists that arrive in several chunks: each chunk is tokenized on its own and loses its first and
    last character (source/REST-API.cpp `rucio_list_scopes`, include/utils.h). */
module ScopeCutting {
  import opened Text
  import opened ScopeList

  /** What the tokenizer drops in any case. */
  predicate Skipped(c: char) {
    c == '\"' || c == ' ' || c == ']' || c == SEPARATOR
  }

  /** Both neighbours of the cut are dropped anyway. */
  predicate GoodCut(a: string, b: string) {
    a != "" && b != "" && Skipped(a[|a| - 1]) && Skipped(b[0])
  }

  predicate NoneShort(chunks: seq<string>) {
    forall i :: 0 <= i < |chunks| ==> |chunks[i]| >= 2
  }

  /** No chunk is shorter than two characters, and all cuts are good. */
  predicate GoodCuts(chunks: seq<string>) {
    NoneShort(chunks) && AllGood(chunks)
  }

  predicate AllGood(chunks: seq<string>) {
    |chunks| <= 1 || (GoodCut(chunks[0], chunks[1]) && AllGood(chunks[1..]))
  }

  lemma ShortFirst(chunks: seq<string>)
    requires chunks != []
    ensures NoneShort(chunks) <==> |chunks[0]| >= 2 && NoneShort(chunks[1..])
  {
    assert forall i :: 0 < i < |chunks| ==> chunks[i] == chunks[1..][i - 1];
    if NoneShort(chunks) {
      assert forall i :: 0 <= i < |chunks| - 1 ==> chunks[1..][i] == chunks[i + 1];
    }
  }

  // ---------- letters are counted: a good result needs good cuts ----------

  function Letters(s: string): string {
    Trim(Erase(s, SEPARATOR))
  }

  lemma LettersConcat(a: string, b: string)
    ensures Letters(a + b) == Letters(a) + Letters(b)
  {
    hide Erase, Trim;
    EraseConcat(a, b, SEPARATOR);
    TrimConcat(Erase(a, SEPARATOR), Erase(b, SEPARATOR));
  }

  lemma LettersOfPiece(p: string)
    requires SEPARATOR !in p
    ensures Letters(p) == Trim(p)
  {
    EraseAbsent(p, SEPARATOR);
  }

  lemma EraseOne(c: char, d: char)
    ensures Erase([c], d) == if c == d then "" else [c]
    ensures Erase("", d) == ""
  {
    assert [c][1..] == "";
  }

  lemma LettersOfChar(c: char)
    ensures Letters([c]) == if Skipped(c) then "" else [c]
    ensures Letters("") == ""
  {
    hide Erase;
    EraseOne(c, SEPARATOR);
    EraseOne(c, '\"');
    EraseOne(c, ' ');
    EraseOne(c, ']');
  }

  lemma TokensOfFirst(a: string, b: string)
    requires SEPARATOR !in a
    ensures TrimAll(Lines(a + [SEPARATOR] + b, SEPARATOR)) == [Trim(a)] + TrimAll(Lines(b, SEPARATOR))
  {
    hide Trim;
    LinesOfFirst(a, SEPARATOR, b);
    assert ([a] + Lines(b, SEPARATOR))[1..] == Lines(b, SEPARATOR);
  }

  lemma LettersOfFirst(a: string, b: string)
    requires SEPARATOR !in a
    ensures Letters(a + [SEPARATOR] + b) == Trim(a) + Letters(b)
  {
    hide Letters, Trim;
    LettersOfPiece(a);
    LettersOfChar(SEPARATOR);
    LettersConcat(a + [SEPARATOR], b);
    LettersConcat(a, [SEPARATOR]);
    assert Trim(a) + "" == Trim(a);
  }

  lemma OnlyToken(a: string)
    requires SEPARATOR !in a
    ensures Flatten(TrimAll(Lines(a, SEPARATOR))) == Letters(a)
    ensures a != "" ==> TrimAll(Lines(a, SEPARATOR)) == [Trim(a)]
  {
    hide Letters, Trim;
    if a == "" {
      LettersOfChar(' ');
    } else {
      LinesOfPiece(a, SEPARATOR);
      LettersOfPiece(a);
      assert [a][1..] == [] && TrimAll([a]) == [Trim(a)] && [Trim(a)][1..] == [];
      assert Trim(a) + "" == Trim(a);
    }
  }

  /** All letters come out, in order. */
  lemma {:induction false} TokensHaveLetters(s: string)
    ensures Flatten(TrimAll(Lines(s, SEPARATOR))) == Letters(s)
    decreases |s|
  {
    hide Letters, Trim, Lines;
    var i := IndexOf(s, SEPARATOR);
    if i == |s| {
      OnlyToken(s);
    } else {
      var a, b := s[..i], s[i + 1..];
      assert s == a + [SEPARATOR] + b;
      TokensHaveLetters(b);
      LettersOfFirst(a, b);
      TokensOfFirst(a, b);
      var rest := TrimAll(Lines(b, SEPARATOR));
      assert ([Trim(a)] + rest)[1..] == rest;
    }
  }

  /** How many letters are lost at the ends of the chunks. */
  function Lost(chunks: seq<string>): nat
    requires NoneShort(chunks)
  {
    if chunks == [] then 0
    else |Letters([chunks[0][0]])| + |Letters([chunks[0][|chunks[0]| - 1]])| + Lost(chunks[1..])
  }

  lemma ChunkLetters(c: string)
    requires |c| >= 2 && '\0' !in c
    ensures Tokenize(c).Some?
    ensures |Letters(c)| == |Letters([c[0]])| + |Flatten(Tokenize(c).value)| + |Letters([c[|c| - 1]])|
  {
    hide Letters, Lines, TrimAll;
    var inner := c[1..|c| - 1];
    assert c == [c[0]] + (inner + [c[|c| - 1]]);
    LettersConcat([c[0]], inner + [c[|c| - 1]]);
    LettersConcat(inner, [c[|c| - 1]]);
    NulFree(inner);
    TokensHaveLetters(inner);
  }

  lemma {:induction false} ChunksLetters(chunks: seq<string>)
    requires '\0' !in Flatten(chunks)
    ensures TokenizeAll(chunks).Some? <==> NoneShort(chunks)
    ensures TokenizeAll(chunks).Some? ==>
              |Letters(Flatten(chunks))| == |Flatten(TokenizeAll(chunks).value)| + Lost(chunks)
  {
    hide Letters, Tokenize;
    if chunks == [] {
      LettersOfChar(' ');
    } else {
      var c, rest := chunks[0], chunks[1..];
      ShortThrows(c);
      ChunksLetters(rest);
      ShortFirst(chunks);
      LettersConcat(c, Flatten(rest));
      if TokenizeAll(chunks).Some? {
        ChunkLetters(c);
        FlattenConcat(Tokenize(c).value, TokenizeAll(rest).value);
      }
    }
  }

  lemma ShortThrows(c: string)
    ensures Tokenize(c).Some? <==> |c| >= 2
  {
  }

  /** The code throws exactly when it comes to a chunk shorter than two characters. */
  lemma {:induction false} ThrowsWhenShort(chunks: seq<string>)
    ensures TokenizeAll(chunks).Some? <==> NoneShort(chunks)
  {
    hide Tokenize;
    if chunks != [] {
      ShortThrows(chunks[0]);
      ThrowsWhenShort(chunks[1..]);
      ShortFirst(chunks);
    }
  }

  lemma {:induction false} NothingLost(last: string, chunks: seq<string>)
    requires last != "" && Skipped(last[|last| - 1])
    requires NoneShort(chunks) && Lost(chunks) == 0
    ensures AllGood([last] + chunks)
    decreases chunks
  {
    hide Letters, Skipped;
    assert ([last] + chunks)[1..] == chunks;
    if chunks != [] {
      LettersOfChar(chunks[0][0]);
      LettersOfChar(chunks[0][|chunks[0]| - 1]);
      ShortFirst(chunks);
      NothingLost(chunks[0], chunks[1..]);
      assert [chunks[0]] + chunks[1..] == chunks;
    }
  }

  lemma OneLost(names: seq<string>, pad: string, chunks: seq<string>)
    requires (forall n :: n in names ==> CleanName(n)) && (pad == "" || pad == " ")
    requires Flatten(chunks) == PrintList(names, pad) && TokenizeAll(chunks) == Some(names)
    ensures NoneShort(chunks) && Lost(chunks) == 1
  {
    hide Letters, Skipped, CleanName, Tokenize, TrimAll, PrintBody, Lost;
    var list := PrintList(names, pad);
    PrintedNulFree(names, pad);
    PrintedIsTokenized(names, pad);
    ChunkLetters(list);
    ChunksLetters(chunks);
    assert list[0] == '[' && list[|list| - 1] == ']';
    LettersOfChar('[');
    LettersOfChar(']');
    Brackets();
  }

  lemma ReadNeedsGoodCuts(names: seq<string>, pad: string, chunks: seq<string>)
    requires (forall n :: n in names ==> CleanName(n)) && (pad == "" || pad == " ")
    requires Flatten(chunks) == PrintList(names, pad) && TokenizeAll(chunks) == Some(names)
    ensures GoodCuts(chunks)
  {
    hide Letters, Skipped, CleanName, TokenizeAll, PrintBody;
    OneLost(names, pad, chunks);
    var first := chunks[0];
    ShortFirst(chunks);
    assert first[0] == Flatten(chunks)[0] == '[';
    LettersOfChar('[');
    Brackets();
    LettersOfChar(first[|first| - 1]);
    NothingLost(first, chunks[1..]);
    assert [first] + chunks[1..] == chunks;
  }

  lemma Brackets()
    ensures !Skipped('[') && Skipped(']')
  {
  }

  lemma PrintedNulFree(names: seq<string>, pad: string)
    requires (forall n :: n in names ==> CleanName(n)) && (pad == "" || pad == " ")
    ensures '\0' !in PrintList(names, pad)
  {
    hide CleanName, Join;
    if names != [] {
      BodyTokens(names, pad);
      JoinNulFree([Quote(names[0])] + Items(names[1..], pad));
    }
  }

  // ---------- good cuts give a good result ----------

  /** What may be left of an item behind a cut. */
  predicate Item(t: string, name: string) {
    t == name + "\"" || t == Quote(name) || t == " " + Quote(name)
  }

  predicate AreItems(ts: seq<string>, names: seq<string>) {
    && |ts| == |names|
    && forall i :: 0 <= i < |ts| ==> Item(ts[i], names[i]) && CleanName(names[i]) && names[i] != ""
  }

  lemma ItemTrims(t: string, name: string)
    requires Item(t, name) && CleanName(name)
    ensures Trim(t) == name && t != "" && SEPARATOR !in t && '\0' !in t
  {
    hide Trim;
    TrimPadded(name, "");
    TrimPadded(name, " ");
    assert "" + Quote(name) == Quote(name);
    TrimConcat(name, "\"");
    TrimClean(name);
    TrimMarks();
    assert name + "" == name;
  }

  lemma ItemsRest(ts: seq<string>, names: seq<string>)
    requires AreItems(ts, names) && ts != []
    ensures AreItems(ts[1..], names[1..]) && Item(ts[0], names[0]) && CleanName(names[0]) && names[0] != ""
    ensures names == [names[0]] + names[1..]
  {
  }

  lemma ItemsAgain(t: string, name: string, ts: seq<string>, names: seq<string>)
    requires AreItems(ts, names) && Item(t, name) && CleanName(name) && name != ""
    ensures AreItems([t] + ts, [name] + names)
  {
  }

  lemma {:induction false} ItemsTokens(ts: seq<string>, names: seq<string>)
    requires AreItems(ts, names)
    ensures TrimAll(Lines(Join(ts, ","), SEPARATOR)) == names
    ensures '\0' !in Join(ts, ",")
    decreases ts
  {
    hide Item, CleanName, Trim, Lines, AreItems;
    if ts == [] {
      EmptyBody("");
      NoItems(ts, names);
    } else {
      ItemsRest(ts, names);
      ItemTrims(ts[0], names[0]);
      ItemsTokens(ts[1..], names[1..]);
      if |ts| == 1 {
        OnlyToken(ts[0]);
        NoItems(ts[1..], names[1..]);
      } else {
        assert [SEPARATOR] == ",";
        TokensOfFirst(ts[0], Join(ts[1..], ","));
      }
    }
  }

  lemma NoItems(ts: seq<string>, names: seq<string>)
    requires AreItems(ts, names) && ts == []
    ensures names == []
  {
  }

  /** Two dropped neighbours inside an item: the blank and the opening quote. */
  lemma PairInItem(t: string, name: string, m: nat)
    requires Item(t, name) && CleanName(name) && name != "" && m + 1 < |t|
    requires Skipped(t[m]) && Skipped(t[m + 1])
    ensures m == 0 && t == " " + Quote(name) && t[2..] == name + "\""
  {
    forall i | 0 <= i < |name|
      ensures !Skipped(name[i])
    {
      assert name[i] in name;
    }
  }

  /** A dropped first character leaves an item. */
  lemma FirstDropped(t: string, name: string)
    requires Item(t, name) && CleanName(name) && name != "" && Skipped(t[0])
    ensures Item(t[1..], name)
  {
    assert name[0] in name && !Skipped(name[0]);
  }

  lemma JoinFirst(t: string, ts: seq<string>, k: nat)
    requires k <= |t|
    ensures Join([t] + ts, ",")[k..] == Join([t[k..]] + ts, ",")
    ensures |Join([t] + ts, ",")| >= |t|
  {
    assert ([t] + ts)[1..] == ts && ([t[k..]] + ts)[1..] == ts;
    if ts != [] {
      assert (t + "," + Join(ts, ","))[k..] == t[k..] + "," + Join(ts, ",");
    }
  }

  lemma JoinParts(t: string, rest: seq<string>)
    ensures Join([t] + rest, ",") == if rest == [] then t else t + "," + Join(rest, ",")
    ensures Join([], ",") == ""
  {
    assert ([t] + rest)[1..] == rest;
  }

  lemma LeftOver(name: string)
    ensures Item(name + "\"", name)
  {
  }

  lemma LastDropped(t: string, name: string)
    requires Item(t, name) && CleanName(name) && name != ""
    ensures TrimAll(Lines(t[..|t| - 1], SEPARATOR)) == [name]
  {
    hide Trim, Lines, CleanName;
    ItemTrims(t, name);
    var init := t[..|t| - 1];
    assert t == init + "\"";
    TrimConcat(init, "\"");
    TrimMarks();
    assert Trim(init) + "" == Trim(init);
    OnlyToken(init);
  }

  /** The first `m` characters of the joined items are read as the first names, and behind the next two
      stand the remaining items. */
  predicate Continues(ts: seq<string>, names: seq<string>, m: nat, ts2: seq<string>, names2: seq<string>) {
    var u := Join(ts, ",");
    m + 2 <= |u| && AreItems(ts2, names2) && u[m + 2..] == Join(ts2, ",")
    && TrimAll(Lines(u[..m], SEPARATOR)) + names2 == names
  }

  predicate DropsAt(ts: seq<string>, m: nat) {
    var u := Join(ts, ",");
    m + 1 < |u| && Skipped(u[m]) && Skipped(u[m + 1])
  }

  lemma CutInItem(ts: seq<string>, names: seq<string>, m: nat) returns (ts2: seq<string>)
    requires AreItems(ts, names) && ts != [] && m + 1 < |ts[0]| && DropsAt(ts, m)
    ensures Continues(ts, names, m, ts2, names)
  {
    hide Item, CleanName, Trim, Lines, AreItems, Skipped, Join;
    ItemsRest(ts, names);
    var t, name, rest := ts[0], names[0], ts[1..];
    assert ts == [t] + rest;
    JoinParts(t, rest);
    PairInItem(t, name, m);
    JoinFirst(t, rest, 2);
    LeftOver(name);
    ItemsAgain(name + "\"", name, rest, names[1..]);
    ts2 := [name + "\""] + rest;
    EmptyBody("");
    assert Join(ts, ",")[..0] == "" && [] + names == names;
  }

  lemma CutAfterQuote(ts: seq<string>, names: seq<string>, m: nat)
    requires AreItems(ts, names) && ts != [] && m + 1 == |ts[0]| && DropsAt(ts, m)
    ensures Continues(ts, names, m, ts[1..], names[1..])
  {
    hide Item, CleanName, Trim, Lines, AreItems, Skipped, Join;
    var t, rest := ts[0], ts[1..];
    ItemsRest(ts, names);
    assert ts == [t] + rest;
    JoinParts(t, rest);
    assert Join(ts, ",")[..m] == t[..m];
    LastDropped(t, names[0]);
  }

  lemma CutAfterComma(ts: seq<string>, names: seq<string>, m: nat) returns (ts2: seq<string>)
    requires AreItems(ts, names) && ts != [] && m == |ts[0]| && DropsAt(ts, m)
    ensures Continues(ts, names, m, ts2, names[1..])
  {
    hide Item, CleanName, Trim, Lines, AreItems, Skipped, Join;
    ItemsRest(ts, names);
    var u, t, rest, more := Join(ts, ","), ts[0], ts[1..], names[1..];
    assert ts == [t] + rest;
    JoinParts(t, rest);
    assert u[..m] == t;
    ItemTrims(t, names[0]);
    OnlyToken(t);
    ts2 := DropFirst(rest, more) by {
      assert u[m + 1] == Join(rest, ",")[0];
    }
    assert u[m + 2..] == Join(rest, ",")[1..];
  }

  /** Items whose first character is dropped. */
  lemma DropFirst(ts: seq<string>, names: seq<string>) returns (ts2: seq<string>)
    requires AreItems(ts, names) && Join(ts, ",") != "" && Skipped(Join(ts, ",")[0])
    ensures AreItems(ts2, names) && Join(ts2, ",") == Join(ts, ",")[1..]
  {
    hide Item, CleanName, AreItems, Skipped, Join;
    JoinParts("", []);
    ItemsRest(ts, names);
    var t, name, rest := ts[0], names[0], ts[1..];
    assert ts == [t] + rest;
    ItemTrims(t, name);
    JoinParts(t, rest);
    JoinFirst(t, rest, 1);
    FirstDropped(t, name);
    ItemsAgain(t[1..], name, rest, names[1..]);
    ts2 := [t[1..]] + rest;
  }

  lemma CutBehind(ts: seq<string>, m: nat)
    requires ts != [] && m > |ts[0]| && DropsAt(ts, m)
    ensures DropsAt(ts[1..], m - |ts[0]| - 1)
  {
    assert ts == [ts[0]] + ts[1..];
    JoinParts(ts[0], ts[1..]);
  }

  lemma ContinuesBehind(ts: seq<string>, names: seq<string>, m: nat, ts2: seq<string>, names2: seq<string>)
    requires AreItems(ts, names) && ts != [] && m > |ts[0]|
    requires Continues(ts[1..], names[1..], m - |ts[0]| - 1, ts2, names2)
    ensures Continues(ts, names, m, ts2, names2)
  {
    hide Item, CleanName, Trim, Lines, AreItems, Join;
    ItemsRest(ts, names);
    var t, rest, k := ts[0], ts[1..], m - |ts[0]| - 1;
    var u, v := Join(ts, ","), Join(rest, ",");
    assert ts == [t] + rest;
    JoinParts(t, rest);
    assert rest != [];
    ItemTrims(t, names[0]);
    BehindFirst(t, v, k);
    TokensOfFirst(t, v[..k]);
  }

  lemma BehindFirst(t: string, v: string, k: nat)
    requires k + 2 <= |v|
    ensures var u, m := t + "," + v, |t| + 1 + k;
            u[m + 2..] == v[k + 2..] && u[..m] == t + [SEPARATOR] + v[..k]
  {
  }

  /** Two dropped neighbours in the rest of a list: what stands before them is read as the first names,
      and what stands behind them is the rest of a list again. */
  lemma {:induction false} CutStep(ts: seq<string>, names: seq<string>, m: nat)
    returns (ts2: seq<string>, names2: seq<string>)
    requires AreItems(ts, names) && DropsAt(ts, m)
    ensures Continues(ts, names, m, ts2, names2)
    decreases ts
  {
    hide Continues, DropsAt;
    assert ts != [] by {
      DropsInItems(ts, m);
    }
    if m + 1 < |ts[0]| {
      ts2 := CutInItem(ts, names, m);
      names2 := names;
    } else if m + 1 == |ts[0]| {
      CutAfterQuote(ts, names, m);
      ts2, names2 := ts[1..], names[1..];
    } else if m == |ts[0]| {
      ts2 := CutAfterComma(ts, names, m);
      names2 := names[1..];
    } else {
      CutBehind(ts, m);
      ts2, names2 := CutStep(ts[1..], names[1..], m - |ts[0]| - 1);
      ContinuesBehind(ts, names, m, ts2, names2);
    }
  }

  lemma DropsInItems(ts: seq<string>, m: nat)
    requires DropsAt(ts, m)
    ensures ts != []
  {
  }

  lemma CutText(y: char, u: string, c: string, more: string)
    requires [y] + u + "]" == c + more && |c| >= 2 && |more| >= 2
    ensures var m := |c| - 2;
            && m + 1 < |u| && c[|c| - 1] == u[m] && c[1..|c| - 1] == u[..m]
            && more == [u[m + 1]] + u[m + 2..] + "]"
  {
    var m, text := |c| - 2, [y] + u + "]";
    assert |text| == |u| + 2 == |c| + |more|;
    assert c == text[..|c|] && more == text[|c|..];
    assert c[|c| - 1] == text[m + 1] == u[m];
    assert text[1..|c| - 1] == u[..m];
  }

  /** Chunks of the rest of a list, of which the first character is dropped. */
  lemma {:induction false} GoodCutsRead(y: char, ts: seq<string>, names: seq<string>, chunks: seq<string>)
    requires AreItems(ts, names) && GoodCuts(chunks)
    requires Flatten(chunks) == [y] + Join(ts, ",") + "]"
    ensures TokenizeAll(chunks) == Some(names)
    decreases chunks
  {
    hide AreItems, Join, Trim, TrimAll, Lines, Skipped, CString;
    assert chunks != [];
    ShortFirst(chunks);
    ItemsTokens(ts, names);
    var c, u, rest := chunks[0], Join(ts, ","), chunks[1..];
    if rest == [] {
      assert c == [y] + u + "]" && c[1..|c| - 1] == u;
      NulFree(u);
      assert TokenizeAll(rest) == Some([]);
      assert names + [] == names;
    } else {
      var m := |c| - 2;
      ShortFirst(rest);
      assert |Flatten(rest)| >= 2 && rest[0][0] == Flatten(rest)[0];
      CutText(y, u, c, Flatten(rest));
      var ts2, names2 := CutStep(ts, names, m);
      GoodCutsRead(u[m + 1], ts2, names2, rest);
      NulFree(u[..m]);
    }
  }

  lemma {:induction false} PrintedItems(names: seq<string>, pad: string)
    requires (forall n :: n in names ==> CleanName(n) && n != "") && (pad == "" || pad == " ")
    ensures AreItems(Items(names, pad), names)
  {
    hide CleanName;
    if names != [] {
      assert names[0] in names;
      PrintedItems(names[1..], pad);
      assert "" + Quote(names[0]) == Quote(names[0]);
      ItemsAgain(pad + Quote(names[0]), names[0], Items(names[1..], pad), names[1..]);
      assert names == [names[0]] + names[1..];
    }
  }

  lemma PrintedBody(names: seq<string>, pad: string) returns (ts: seq<string>)
    requires (forall n :: n in names ==> CleanName(n) && n != "") && (pad == "" || pad == " ")
    ensures AreItems(ts, names) && PrintBody(names, pad) == Join(ts, ",")
  {
    hide CleanName, AreItems;
    if names == [] {
      ts := [];
      PrintedItems(names, pad);
    } else {
      assert names[0] in names;
      ts := [Quote(names[0])] + Items(names[1..], pad);
      PrintedItems(names[1..], pad);
      QuotedItem(names[0]);
      ItemsAgain(Quote(names[0]), names[0], Items(names[1..], pad), names[1..]);
      assert names == [names[0]] + names[1..];
    }
  }

  lemma QuotedItem(name: string)
    ensures Item(Quote(name), name)
  {
  }

  lemma {:induction false} AllTokensClean(chunks: seq<string>)
    ensures TokenizeAll(chunks).Some? ==> forall t :: t in TokenizeAll(chunks).value ==> CleanName(t)
  {
    hide Tokenize, CleanName;
    if chunks != [] {
      TokensAreClean(chunks[0]);
      AllTokensClean(chunks[1..]);
    }
  }

  /** A printed list in chunks is read back only if the names are clean, no chunk is shorter than two
      characters, and at each cut both neighbours are dropped anyway; when no name is empty, also if. */
  lemma ScopeListSurvivesCutting(names: seq<string>, pad: string, chunks: seq<string>)
    requires (pad == "" || pad == " ") && Flatten(chunks) == PrintList(names, pad)
    ensures TokenizeAll(chunks) == Some(names) ==> (forall n :: n in names ==> CleanName(n)) && GoodCuts(chunks)
    ensures (forall n :: n in names ==> n != "" && CleanName(n)) && GoodCuts(chunks) ==>
              TokenizeAll(chunks) == Some(names)
  {
    hide CleanName, GoodCuts, TokenizeAll, PrintBody;
    AllTokensClean(chunks);
    if TokenizeAll(chunks) == Some(names) {
      ReadNeedsGoodCuts(names, pad, chunks);
    }
    if (forall n :: n in names ==> n != "" && CleanName(n)) && GoodCuts(chunks) {
      var ts := PrintedBody(names, pad);
      GoodCutsRead('[', ts, names, chunks);
    }
  }
}
