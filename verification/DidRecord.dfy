/** Parsing of one reassembled DiD record, and of a whole listing (source/utils.cpp `map_did`,
    `structurize_did`, `structurize_container_did`). */
module DidRecord {
  import opened Text
  import opened Machine
  import opened Number
  import opened DidStream

  datatype DataType = File | Container | Dataset

  /** `rucio_did`. `None` stands for a member that is never assigned, so that its value is
      indeterminate, or for a number `atoi` cannot represent. */
  datatype Did = Did(
    scope: string,
    dataType: Option<DataType>,
    name: string,
    parent: string,
    size: Option<int>,
    level: Option<int>)

  // ---------- map_did ----------

  const STRIPPED: string := [' ', '}', '{', '\"']

  /** After the first `n` erase passes. */
  function StripFirst(s: string, n: nat): string
    requires n <= |STRIPPED|
  {
    if n == 0 then s else Erase(StripFirst(s, n - 1), STRIPPED[n - 1])
  }

  function Strip(s: string): string {
    StripFirst(s, |STRIPPED|)
  }

  function Blank(s: string): string {
    Replace(Replace(s, ':', ' '), ',', ' ')
  }

  function Tokens(s: string): seq<string> {
    Lines(Blank(Strip(s)), ' ')
  }

  function Pairs(tokens: seq<string>): map<string, string>
    requires |tokens| % 2 == 0
  {
    if tokens == [] then map[] else map[tokens[0] := tokens[1]] + Pairs(tokens[2..])
  }

  /** `None` when the number of tokens is odd: then the code reads one token past the end. */
  function MapDid(s: string): Option<map<string, string>> {
    var tokens := Tokens(s);
    if |tokens| % 2 == 1 then None else Some(Pairs(tokens))
  }

  lemma NoPairs()
    ensures Pairs([]) == map[]
  {
  }

  lemma PairsStep(m: map<string, string>, tokens: seq<string>)
    requires |tokens| % 2 == 0 && tokens != []
    ensures m + Pairs(tokens) == m[tokens[0] := tokens[1]] + Pairs(tokens[2..])
  {
  }

  method PairUp(keyValues: seq<string>) returns (didMap: Option<map<string, string>>)
    ensures didMap == if |keyValues| % 2 == 1 then None else Some(Pairs(keyValues))
  {
    hide Pairs;
    var m: map<string, string> := map[];
    var i := 0;
    assert keyValues[0..] == keyValues;
    NoPairs();
    assert |keyValues| % 2 == 0 ==> map[] + Pairs(keyValues) == Pairs(keyValues);
    while i < |keyValues|
      invariant i <= |keyValues| && i % 2 == 0
      invariant |keyValues| % 2 == 0 ==> m + Pairs(keyValues[i..]) == Pairs(keyValues)
      decreases |keyValues| - i
    {
      if i + 1 == |keyValues| {
        return None;
      }
      if |keyValues| % 2 == 0 {
        PairsStep(m, keyValues[i..]);
        assert keyValues[i..][2..] == keyValues[i + 2..];
      }
      m := m[keyValues[i] := keyValues[i + 1]];
      i := i + 2;
    }
    assert keyValues[i..] == [] && m + map[] == m;
    didMap := Some(m);
  }

  method ComputeMapDid(didString: string) returns (didMap: Option<map<string, string>>)
    ensures didMap == MapDid(didString)
  {
    hide Erase, Replace, Lines;
    var sdid := didString;
    for n := 0 to |STRIPPED|
      invariant sdid == StripFirst(didString, n)
    {
      sdid := Erase(sdid, STRIPPED[n]);
    }
    sdid := Replace(sdid, ':', ' ');
    sdid := Replace(sdid, ',', ' ');
    var keyValues := Split(sdid, ' ');
    didMap := PairUp(keyValues);
  }

  // ---------- structurize_did, structurize_container_did ----------

  /** `map["key"]` on a C++ map yields the empty string for an absent key. */
  function Lookup(m: map<string, string>, key: string): string {
    if key in m then m[key] else ""
  }

  function DidOf(m: map<string, string>, contained: bool): Did {
    var kind := Lookup(m, "type");
    var bytes := Lookup(m, "bytes");
    Did(Lookup(m, "scope"),
        if kind == "FILE" then Some(File)
        else if kind == "CONTAINER" then Some(Container)
        else if kind == "DATASET" then Some(Dataset)
        else None,
        Lookup(m, "name"),
        if contained then "" else Lookup(m, "parent"),
        if kind != "FILE" then None else if bytes == "null" then Some(0) else Atoi(bytes),
        if contained then Some(0) else Atoi(Lookup(m, "level")))
  }

  function ParseRecord(s: string, contained: bool): Option<Did> {
    var m :- MapDid(s);
    Some(DidOf(m, contained))
  }

  function ParseRecords(records: seq<string>, contained: bool): Option<seq<Did>> {
    if records == [] then Some([])
    else
      var first :- ParseRecord(records[0], contained);
      var rest :- ParseRecords(records[1..], contained);
      Some([first] + rest)
  }

  /** The DiDs of a whole response, chunk by chunk. */
  function Structurize(rem: string, chunks: seq<string>, contained: bool): Option<seq<Did>>
    decreases chunks
  {
    if chunks == [] then Some([])
    else
      var first := SplitDids(rem, chunks[0]);
      var dids :- ParseRecords(first.emitted, contained);
      var rest :- Structurize(first.remainder, chunks[1..], contained);
      Some(dids + rest)
  }

  /** One chunk; `contained` tells `structurize_container_did` from `structurize_did`. */
  method StructurizeChunk(reassembler: Reassembler, didStr: string, target: seq<Did>, contained: bool)
    returns (dids: Option<seq<Did>>)
    modifies reassembler
    ensures reassembler.didStringRemainder == SplitDids(old(reassembler.didStringRemainder), didStr).remainder
    ensures dids == AppendTo(target, ParseRecords(SplitDids(old(reassembler.didStringRemainder), didStr).emitted, contained))
  {
    hide SplitDids, MapDid, DidOf;
    ghost var reassembly := SplitDids(reassembler.didStringRemainder, didStr);
    var didStrings := reassembler.Split(didStr, []);
    assert didStrings == reassembly.emitted && didStrings[0..] == didStrings;
    AppendToNothing(ParseRecords(didStrings, contained));
    var out: seq<Did> := [];
    for i := 0 to |didStrings|
      invariant reassembler.didStringRemainder == reassembly.remainder
      invariant ParseRecords(didStrings, contained) == AppendTo(out, ParseRecords(didStrings[i..], contained))
    {
      var mapped := ComputeMapDid(didStrings[i]);
      assert didStrings[i..][1..] == didStrings[i + 1..];
      if mapped.None? {
        return None;
      }
      var did := DidOf(mapped.value, contained);
      AppendToAssociative(out, [did], ParseRecords(didStrings[i + 1..], contained));
      out := out + [did];
    }
    assert didStrings[|didStrings|..] == [] && out + [] == out;
    dids := Some(target + out);
  }

  /** The loop over the payload in `rucio_list_dids` and `rucio_list_container_dids`. */
  method StructurizePayload(reassembler: Reassembler, payload: seq<string>, contained: bool)
    returns (dids: Option<seq<Did>>)
    modifies reassembler
    ensures dids == Structurize(old(reassembler.didStringRemainder), payload, contained)
    ensures dids.Some? ==> reassembler.didStringRemainder == Feed(old(reassembler.didStringRemainder), payload).remainder
  {
    hide SplitDids, ParseRecords;
    var out: seq<Did> := [];
    ghost var rem0 := reassembler.didStringRemainder;
    assert payload[0..] == payload;
    AppendToNothing(Structurize(rem0, payload, contained));
    for i := 0 to |payload|
      invariant Structurize(rem0, payload, contained)
             == AppendTo(out, Structurize(reassembler.didStringRemainder, payload[i..], contained))
      invariant Feed(rem0, payload).remainder == Feed(reassembler.didStringRemainder, payload[i..]).remainder
    {
      assert payload[i..][1..] == payload[i + 1..];
      ghost var before, emitted := out, SplitDids(reassembler.didStringRemainder, payload[i]).emitted;
      var next := StructurizeChunk(reassembler, payload[i], out, contained);
      if next.None? {
        return None;
      }
      out := next.value;
      AppendToAssociative(before, ParseRecords(emitted, contained).value,
                          Structurize(reassembler.didStringRemainder, payload[i + 1..], contained));
    }
    assert payload[|payload|..] == [] && out + [] == out;
    dids := Some(out);
  }

  // ---------- the parser sees only the whole response ----------

  lemma {:induction false} ParseRecordsConcat(a: seq<string>, b: seq<string>, contained: bool)
    ensures var x := ParseRecords(a, contained);
            ParseRecords(a + b, contained) == if x.None? then None else AppendTo(x.value, ParseRecords(b, contained))
  {
    hide ParseRecord;
    if a == [] {
      assert a + b == b;
      AppendToNothing(ParseRecords(b, contained));
    } else {
      assert (a + b)[1..] == a[1..] + b;
      ParseRecordsConcat(a[1..], b, contained);
      var first, rest := ParseRecord(a[0], contained), ParseRecords(a[1..], contained);
      if first.Some? && rest.Some? {
        AppendToAssociative([first.value], rest.value, ParseRecords(b, contained));
      }
    }
  }

  lemma {:induction false} StructurizeIsParse(rem: string, chunks: seq<string>, contained: bool)
    ensures Structurize(rem, chunks, contained) == ParseRecords(Feed(rem, chunks).emitted, contained)
    decreases chunks
  {
    if chunks != [] {
      var first := SplitDids(rem, chunks[0]);
      StructurizeIsParse(first.remainder, chunks[1..], contained);
      ParseRecordsConcat(first.emitted, Feed(first.remainder, chunks[1..]).emitted, contained);
    }
  }

  /** The DiD list does not depend on where a legal response was cut. */
  lemma DidChunkInvariance(rem: string, chunks: seq<string>, contained: bool)
    requires Legal(rem, Flatten(chunks))
    ensures Structurize(rem, chunks, contained) == Structurize(rem, [Flatten(chunks)], contained)
  {
    ChunkInvariance(rem, Flatten(chunks));
    StructurizeIsParse(rem, chunks, contained);
    StructurizeIsParse(rem, [Flatten(chunks)], contained);
    FlattenOne(Flatten(chunks));
    assert Feed(rem, [Flatten(chunks)]) == SplitDids(rem, Flatten(chunks));
  }

  // ---------- the printer ----------

  datatype Field = Field(key: string, value: string, quoted: bool)

  function PrintValue(f: Field): string {
    if f.quoted then "\"" + f.value + "\"" else f.value
  }

  function PrintField(f: Field): string {
    "\"" + f.key + "\": " + PrintValue(f)
  }

  function PrintFields(fields: seq<Field>): string {
    if fields == [] then ""
    else if |fields| == 1 then PrintField(fields[0])
    else PrintField(fields[0]) + ", " + PrintFields(fields[1..])
  }

  function PrintRecord(fields: seq<Field>): string {
    "{" + PrintFields(fields) + "}"
  }

  /** Free of every character with a meaning to the parser. */
  predicate Clean(s: string) {
    forall c :: c in s ==> c != ' ' && c != '{' && c != '}' && c != '\"' && c != ':' && c != ','
  }

  predicate CleanFields(fields: seq<Field>) {
    forall f :: f in fields ==> Clean(f.key) && Clean(f.value)
  }

  /** What the record says: of several fields with the same key the last one counts. */
  function LastWins(fields: seq<Field>): map<string, string> {
    if fields == [] then map[] else map[fields[0].key := fields[0].value] + LastWins(fields[1..])
  }

  lemma {:induction false} LastWinsIsLast(fields: seq<Field>, i: nat)
    requires i < |fields| && forall j :: i < j < |fields| ==> fields[j].key != fields[i].key
    ensures fields[i].key in LastWins(fields) && LastWins(fields)[fields[i].key] == fields[i].value
  {
    if i > 0 {
      LastWinsIsLast(fields[1..], i - 1);
    } else {
      LastWinsKeys(fields[1..]);
    }
  }

  lemma {:induction false} LastWinsKeys(fields: seq<Field>)
    ensures forall k :: k in LastWins(fields) <==> exists f :: f in fields && f.key == k
  {
    if fields != [] {
      LastWinsKeys(fields[1..]);
      assert fields == [fields[0]] + fields[1..];
    }
  }

  // ---------- parsing undoes printing ----------

  function Normal(s: string): string {
    Blank(Strip(s))
  }

  lemma {:induction false} StripConcat(a: string, b: string, n: nat)
    requires n <= |STRIPPED|
    ensures StripFirst(a + b, n) == StripFirst(a, n) + StripFirst(b, n)
  {
    if n > 0 {
      StripConcat(a, b, n - 1);
      EraseConcat(StripFirst(a, n - 1), StripFirst(b, n - 1), STRIPPED[n - 1]);
    }
  }

  lemma {:induction false} ReplaceConcat(a: string, b: string, c: char, d: char)
    ensures Replace(a + b, c, d) == Replace(a, c, d) + Replace(b, c, d)
  {
    if a == "" {
      assert a + b == b;
    } else {
      assert (a + b)[1..] == a[1..] + b;
      ReplaceConcat(a[1..], b, c, d);
    }
  }

  lemma {:induction false} ReplaceAbsent(s: string, c: char, d: char)
    requires c !in s
    ensures Replace(s, c, d) == s
  {
    if s != "" {
      ReplaceAbsent(s[1..], c, d);
    }
  }

  lemma NormalConcat(a: string, b: string)
    ensures Normal(a + b) == Normal(a) + Normal(b)
  {
    hide Erase, Replace;
    StripConcat(a, b, |STRIPPED|);
    ReplaceConcat(Strip(a), Strip(b), ':', ' ');
    ReplaceConcat(Replace(Strip(a), ':', ' '), Replace(Strip(b), ':', ' '), ',', ' ');
  }

  lemma {:induction false} StripAbsent(s: string, n: nat)
    requires n <= |STRIPPED| && forall c :: c in STRIPPED ==> c !in s
    ensures StripFirst(s, n) == s
  {
    if n > 0 {
      StripAbsent(s, n - 1);
      EraseAbsent(s, STRIPPED[n - 1]);
    }
  }

  lemma NormalClean(s: string)
    requires Clean(s)
    ensures Normal(s) == s
  {
    StripAbsent(s, |STRIPPED|);
    ReplaceAbsent(s, ':', ' ');
    ReplaceAbsent(s, ',', ' ');
  }

  /** Every structural character either vanishes or becomes a blank. */
  lemma {:induction false} StripChar(c: char, n: nat)
    requires n <= |STRIPPED|
    ensures StripFirst([c], n) == if c in STRIPPED[..n] then "" else [c]
  {
    if n > 0 {
      StripChar(c, n - 1);
      assert STRIPPED[..n] == STRIPPED[..n - 1] + [STRIPPED[n - 1]];
      EraseChar(c, STRIPPED[n - 1]);
    }
  }

  lemma EraseChar(c: char, d: char)
    ensures Erase([c], d) == if c == d then "" else [c]
    ensures Erase("", d) == ""
  {
    assert [c][1..] == "";
  }

  lemma ReplaceChar(c: char, d: char, e: char)
    ensures Replace([c], d, e) == [if c == d then e else c]
    ensures Replace("", d, e) == ""
  {
    assert [c][1..] == "";
  }

  /** A structural character either vanishes or becomes a blank. */
  lemma NormalChar(c: char)
    requires c in STRIPPED || c == ':' || c == ','
    ensures Normal([c]) == if c in STRIPPED then "" else " "
  {
    StripChar(c, |STRIPPED|);
    assert STRIPPED[..|STRIPPED|] == STRIPPED;
    ReplaceChar(c, ':', ' ');
    ReplaceChar(c, ',', ' ');
    ReplaceChar(' ', ',', ' ');
  }

  lemma NormalPair(c: char, d: char)
    ensures Normal([c, d]) == Normal([c]) + Normal([d])
  {
    assert [c, d] == [c] + [d];
    NormalConcat([c], [d]);
  }

  lemma NormalSeparators()
    ensures Normal("{") == "" && Normal("}") == "" && Normal("\"") == ""
    ensures Normal("\": ") == " " && Normal(", ") == " "
  {
    hide Normal;
    NormalChar('{');
    NormalChar('}');
    NormalChar('\"');
    NormalChar(':');
    NormalChar(',');
    NormalChar(' ');
    NormalPair(':', ' ');
    NormalPair(',', ' ');
    assert "\": " == "\"" + ": ";
    NormalConcat("\"", ": ");
  }

  lemma NormalValue(f: Field)
    requires Clean(f.value)
    ensures Normal(PrintValue(f)) == f.value
  {
    hide Normal, Clean;
    NormalClean(f.value);
    NormalSeparators();
    NormalConcat("\"" + f.value, "\"");
    NormalConcat("\"", f.value);
  }

  lemma NormalField(f: Field)
    requires Clean(f.key) && Clean(f.value)
    ensures Normal(PrintField(f)) == f.key + " " + f.value
  {
    hide Normal, Clean, PrintValue;
    NormalSeparators();
    NormalClean(f.key);
    NormalValue(f);
    NormalConcat("\"" + f.key + "\": ", PrintValue(f));
    NormalConcat("\"" + f.key, "\": ");
    NormalConcat("\"", f.key);
  }

  function FieldTokens(fields: seq<Field>): seq<string> {
    if fields == [] then [] else [fields[0].key, fields[0].value] + FieldTokens(fields[1..])
  }

  lemma JoinTwo(k: string, v: string, rest: seq<string>)
    ensures Join([k, v] + rest, " ") == if rest == [] then k + " " + v else k + " " + v + " " + Join(rest, " ")
  {
    assert ([k, v] + rest)[1..] == [v] + rest;
    assert ([v] + rest)[1..] == rest;
  }

  lemma {:induction false} NormalFields(fields: seq<Field>)
    requires CleanFields(fields)
    ensures Normal(PrintFields(fields)) == Join(FieldTokens(fields), " ")
  {
    hide Normal;
    if fields == [] {
      NormalClean("");
    } else {
      NormalField(fields[0]);
      JoinTwo(fields[0].key, fields[0].value, FieldTokens(fields[1..]));
      if |fields| > 1 {
        NormalFields(fields[1..]);
        NormalSeparators();
        NormalConcat(PrintField(fields[0]) + ", ", PrintFields(fields[1..]));
        NormalConcat(PrintField(fields[0]), ", ");
      }
    }
  }

  lemma FieldTokensCons(fields: seq<Field>)
    requires fields != []
    ensures var ts := FieldTokens(fields);
            |ts| >= 2 && ts[0] == fields[0].key && ts[1] == fields[0].value && ts[2..] == FieldTokens(fields[1..])
  {
  }

  lemma {:induction false} FieldTokensPaired(fields: seq<Field>)
    ensures |FieldTokens(fields)| == 2 * |fields|
    ensures Pairs(FieldTokens(fields)) == LastWins(fields)
  {
    if fields != [] {
      FieldTokensPaired(fields[1..]);
      FieldTokensCons(fields);
    }
  }

  lemma {:induction false} FieldTokensLast(fields: seq<Field>)
    requires fields != []
    ensures var ts := FieldTokens(fields);
            ts != [] && ts[|ts| - 1] == fields[|fields| - 1].value
  {
    hide FieldTokens;
    FieldTokensCons(fields);
    FieldTokensPaired(fields[1..]);
    if |fields| > 1 {
      FieldTokensLast(fields[1..]);
      var ts := FieldTokens(fields);
      assert ts[|ts| - 1] == ts[2..][|ts| - 3];
    }
  }

  lemma {:induction false} FieldTokensClean(fields: seq<Field>)
    requires CleanFields(fields)
    ensures forall t :: t in FieldTokens(fields) ==> ' ' !in t
  {
    if fields != [] {
      assert fields[0] in fields;
      FieldTokensClean(fields[1..]);
    }
  }

  lemma TokensOfNormal(s: string)
    ensures Tokens(s) == Lines(Normal(s), ' ')
  {
  }

  lemma EmptyFields()
    ensures FieldTokens([]) == [] && LastWins([]) == map[] && Pairs([]) == map[]
  {
  }

  lemma MapDidOfTokens(s: string)
    ensures MapDid(s) == if |Tokens(s)| % 2 == 1 then None else Some(Pairs(Tokens(s)))
  {
  }

  lemma NormalRecord(fields: seq<Field>)
    requires CleanFields(fields)
    ensures Normal(PrintRecord(fields)) == Join(FieldTokens(fields), " ")
  {
    hide Normal, Join, FieldTokens, PrintFields;
    NormalSeparators();
    NormalConcat("{" + PrintFields(fields), "}");
    NormalConcat("{", PrintFields(fields));
    NormalFields(fields);
  }

  lemma RecordTokens(fields: seq<Field>)
    requires CleanFields(fields)
    ensures var all := FieldTokens(fields);
            Tokens(PrintRecord(fields)) == if all == [] || all[|all| - 1] != "" then all else all[..|all| - 1]
  {
    hide Normal, Join, FieldTokens, PrintRecord, Lines;
    NormalRecord(fields);
    FieldTokensClean(fields);
    LinesOfJoin(FieldTokens(fields), ' ');
    TokensOfNormal(PrintRecord(fields));
  }

  /** For every record whose keys and values avoid the structural characters, the parser recovers
      the last-wins field map, unless the last value is empty: then it reads past the end. */
  lemma MapDidOfPrint(fields: seq<Field>)
    requires CleanFields(fields)
    ensures MapDid(PrintRecord(fields))
         == if fields == [] || fields[|fields| - 1].value != "" then Some(LastWins(fields)) else None
  {
    hide *;
    FieldTokensPaired(fields);
    RecordTokens(fields);
    EmptyFields();
    if fields != [] {
      FieldTokensLast(fields);
    }
    MapDidOfTokens(PrintRecord(fields));
  }

  // ---------- a DiD is recovered exactly when it is representable ----------

  function TypeName(t: DataType): string {
    match t
    case File => "FILE"
    case Container => "CONTAINER"
    case Dataset => "DATASET"
  }

  /** The fields of a DiD, as the server lists them. */
  function FieldsOf(d: Did): seq<Field>
    requires Described(d)
  {
    [Field("scope", d.scope, true), Field("type", TypeName(d.dataType.value), true), Field("name", d.name, true),
     Field("parent", d.parent, true)]
    + (if d.dataType == Some(File) then [Field("bytes", PrintInt(d.size.value), false)] else [])
    + [Field("level", PrintInt(d.level.value), false)]
  }

  /** What a listing says about a DiD: type and level always, a size for files only. */
  predicate Described(d: Did) {
    d.dataType.Some? && d.level.Some? && (d.dataType == Some(File) <==> d.size.Some?)
  }

  lemma FieldsOfMap(d: Did)
    requires Described(d)
    ensures var m := LastWins(FieldsOf(d));
            && Lookup(m, "scope") == d.scope && Lookup(m, "type") == TypeName(d.dataType.value)
            && Lookup(m, "name") == d.name && Lookup(m, "parent") == d.parent
            && (d.size.Some? ==> Lookup(m, "bytes") == PrintInt(d.size.value))
            && Lookup(m, "level") == PrintInt(d.level.value)
  {
    var fs := FieldsOf(d);
    forall i: nat | i < |fs|
      ensures fs[i].key in LastWins(fs) && LastWins(fs)[fs[i].key] == fs[i].value
    {
      LastWinsIsLast(fs, i);
    }
    assert fs[0].key == "scope" && fs[1].key == "type" && fs[2].key == "name" && fs[3].key == "parent";
    assert d.size.Some? ==> fs[4].key == "bytes";
    assert fs[|fs| - 1].key == "level";
  }

  lemma {:induction false} ReplaceParts(s: string, c: char, d: char)
    requires c != d
    ensures c !in Replace(s, c, d)
    ensures forall e :: e in Replace(s, c, d) ==> e in s || e == d
  {
    if s != "" {
      ReplaceParts(s[1..], c, d);
    }
  }

  lemma {:induction false} StripParts(s: string, n: nat)
    requires n <= |STRIPPED|
    ensures forall c :: c in StripFirst(s, n) ==> c in s && c !in STRIPPED[..n]
  {
    if n > 0 {
      StripParts(s, n - 1);
      EraseParts(StripFirst(s, n - 1), STRIPPED[n - 1]);
    }
  }

  predicate OneLine(s: string) {
    '\n' !in s
  }

  lemma TokensClean(s: string)
    ensures forall t :: t in Tokens(s) ==> Clean(t) && (OneLine(s) ==> OneLine(t))
  {
    hide Lines, Erase, Replace, StripFirst;
    StripParts(s, |STRIPPED|);
    assert STRIPPED[..|STRIPPED|] == STRIPPED;
    assert ' ' in STRIPPED && '{' in STRIPPED && '}' in STRIPPED && '\"' in STRIPPED by {
      assert STRIPPED[0] == ' ' && STRIPPED[1] == '}' && STRIPPED[2] == '{' && STRIPPED[3] == '\"';
    }
    ReplaceParts(Strip(s), ':', ' ');
    ReplaceParts(Replace(Strip(s), ':', ' '), ',', ' ');
    LinesParts(Normal(s), ' ');
  }

  lemma {:induction false} PairsParts(tokens: seq<string>)
    requires |tokens| % 2 == 0
    ensures forall k :: k in Pairs(tokens) ==> Pairs(tokens)[k] in tokens
    decreases |tokens|
  {
    if tokens != [] {
      PairsParts(tokens[2..]);
    }
  }

  /** Free of structural characters, on one line, with numbers that fit. */
  predicate Plain(d: Did) {
    && Clean(d.scope) && Clean(d.name) && Clean(d.parent)
    && OneLine(d.scope) && OneLine(d.name) && OneLine(d.parent)
    && (d.size.Some? ==> IsInt32(d.size.value)) && (d.level.Some? ==> IsInt32(d.level.value))
  }

  lemma LookupIn(m: map<string, string>, key: string)
    ensures Lookup(m, key) == "" || (key in m && Lookup(m, key) == m[key])
  {
  }

  /** Whatever line is parsed, the DiD is plain. */
  lemma ParsedIsPlain(s: string, contained: bool)
    requires OneLine(s)
    ensures ParseRecord(s, contained).Some? ==> Plain(ParseRecord(s, contained).value)
  {
    hide Tokens, Pairs, Atoi;
    if ParseRecord(s, contained).Some? {
      var m := Pairs(Tokens(s));
      TokensClean(s);
      PairsParts(Tokens(s));
      LookupIn(m, "scope");
      LookupIn(m, "name");
      LookupIn(m, "parent");
    }
  }

  /** What a listing shows of a DiD: inside a container neither parent nor level. */
  function Shown(d: Did, contained: bool): Did {
    if contained then d.(parent := "", level := Some(0)) else d
  }

  /** Exactly these DiDs survive; see `DidListRoundTrip`. */
  predicate Representable(d: Did, contained: bool)
    requires Described(d)
  {
    Plain(Shown(d, contained))
  }

  lemma NamesClean()
    ensures Clean("scope") && Clean("type") && Clean("name") && Clean("parent") && Clean("bytes") && Clean("level")
    ensures forall t :: Clean(TypeName(t))
  {
    assert Clean("FILE");
    assert Clean("CONTAINER");
    assert Clean("DATASET");
  }

  lemma PrintIntChars(n: int)
    ensures Clean(PrintInt(n)) && PrintInt(n) != "" && PrintInt(n) != "null" && '\n' !in PrintInt(n)
  {
    hide Digits;
    DigitsDecimal(if n < 0 then -n else n);
    assert forall c :: c in PrintInt(n) ==> IsDigit(c) || c == '-';
    assert 'n' !in PrintInt(n) && "null"[0] == 'n';
  }

  lemma FieldsOfClean(d: Did)
    requires Described(d) && Clean(d.scope) && Clean(d.name) && Clean(d.parent)
    ensures var fs := FieldsOf(d);
            CleanFields(fs) && fs != [] && fs[|fs| - 1].value != ""
  {
    hide PrintInt, Clean, TypeName;
    NamesClean();
    PrintIntChars(d.level.value);
    if d.size.Some? {
      PrintIntChars(d.size.value);
    }
    var fs := FieldsOf(d);
    assert fs[|fs| - 1].value == PrintInt(d.level.value);
  }

  lemma ParseOfMap(s: string, m: map<string, string>, contained: bool)
    requires MapDid(s) == Some(m)
    ensures ParseRecord(s, contained) == Some(DidOf(m, contained))
  {
  }

  lemma DidOfPrinted(d: Did, contained: bool)
    requires Described(d) && Clean(d.scope) && Clean(d.name) && Clean(d.parent)
    ensures ParseRecord(PrintRecord(FieldsOf(d)), contained) == Some(DidOf(LastWins(FieldsOf(d)), contained))
  {
    hide *;
    FieldsOfClean(d);
    MapDidOfPrint(FieldsOf(d));
    ParseOfMap(PrintRecord(FieldsOf(d)), LastWins(FieldsOf(d)), contained);
  }

  lemma DidOfFields(d: Did, contained: bool)
    requires Described(d)
    ensures DidOf(LastWins(FieldsOf(d)), contained)
         == Shown(d.(size := if d.size.Some? then Atoi(PrintInt(d.size.value)) else None,
                     level := Atoi(PrintInt(d.level.value))), contained)
  {
    hide LastWins, Lookup, Atoi;
    FieldsOfMap(d);
    assert "FILE"[0] != "CONTAINER"[0] && "FILE"[0] != "DATASET"[0] && "CONTAINER"[0] != "DATASET"[0];
    if d.size.Some? {
      PrintIntChars(d.size.value);
    }
  }

  /** On one line, printing then parsing shows the DiD exactly when it is representable. Inside a
      container the parent may be anything clean and the level anything. */
  lemma DidRoundTrip(d: Did, contained: bool)
    requires Described(d) && OneLine(PrintRecord(FieldsOf(d))) && (contained ==> Clean(d.parent))
    ensures ParseRecord(PrintRecord(FieldsOf(d)), contained) == Some(Shown(d, contained)) <==> Representable(d, contained)
  {
    hide ParseRecord, PrintRecord, LastWins, FieldsOf, DidOf, Atoi, Clean, OneLine;
    ParsedIsPlain(PrintRecord(FieldsOf(d)), contained);
    AtoiOfPrint(d.level.value);
    if d.size.Some? {
      AtoiOfPrint(d.size.value);
    }
    DidOfFields(d, contained);
    if Clean(d.scope) && Clean(d.name) && Clean(d.parent) {
      DidOfPrinted(d, contained);
    }
  }

  /** A file whose size the server does not know is listed with size 0. */
  lemma NullSize(fields: seq<Field>, contained: bool)
    requires CleanFields(fields) && fields != [] && fields[|fields| - 1].value != ""
    requires Lookup(LastWins(fields), "type") == "FILE" && Lookup(LastWins(fields), "bytes") == "null"
    ensures var d := ParseRecord(PrintRecord(fields), contained);
            d.Some? && d.value.dataType == Some(File) && d.value.size == Some(0)
  {
    MapDidOfPrint(fields);
  }

  lemma NoNumber()
    ensures Atoi("") == Some(0)
  {
  }

  /** Fields that a record lacks: strings are empty, the level is 0, an unknown type stays unset, and only
      files have a size. */
  lemma AbsentFields(fields: seq<Field>, contained: bool)
    requires CleanFields(fields) && fields != [] && fields[|fields| - 1].value != ""
    ensures var d, m := ParseRecord(PrintRecord(fields), contained), LastWins(fields);
            && d.Some?
            && ("scope" !in m ==> d.value.scope == "") && ("name" !in m ==> d.value.name == "")
            && (contained || "parent" !in m ==> d.value.parent == "")
            && (contained || "level" !in m ==> d.value.level == Some(0))
            && (Lookup(m, "type") !in {"FILE", "CONTAINER", "DATASET"} ==> d.value.dataType == None)
            && (Lookup(m, "type") != "FILE" ==> d.value.size == None)
            && (Lookup(m, "type") == "FILE" && "bytes" !in m ==> d.value.size == Some(0))
  {
    hide Atoi, LastWins, MapDid, PrintRecord, CleanFields;
    MapDidOfPrint(fields);
    ParseOfMap(PrintRecord(fields), LastWins(fields), contained);
    NoNumber();
    assert "" != "null";
  }

  // ---------- a whole listing ----------

  function PrintAll(listing: seq<seq<Field>>): seq<string> {
    if listing == [] then [] else [PrintRecord(listing[0])] + PrintAll(listing[1..])
  }

  function DidsOf(listing: seq<seq<Field>>, contained: bool): seq<Did> {
    if listing == [] then [] else [DidOf(LastWins(listing[0]), contained)] + DidsOf(listing[1..], contained)
  }

  predicate Printable(fields: seq<Field>) {
    && CleanFields(fields)
    && (forall f :: f in fields ==> '\n' !in f.key && '\n' !in f.value)
    && (fields == [] || fields[|fields| - 1].value != "")
  }

  predicate Inside(s: string) {
    forall c :: c in s ==> c != '{' && c != '}' && c != '\n'
  }

  lemma {:induction false} FieldsInside(fields: seq<Field>)
    requires Printable(fields)
    ensures Inside(PrintFields(fields))
  {
    if fields != [] {
      assert fields[0] in fields;
      assert Inside(PrintField(fields[0]));
      if |fields| > 1 {
        assert fields[1..][|fields| - 2] == fields[|fields| - 1];
        FieldsInside(fields[1..]);
      }
    }
  }

  lemma PrintedIsFlat(fields: seq<Field>)
    requires Printable(fields)
    ensures Flat(PrintRecord(fields))
  {
    FieldsInside(fields);
    var r, body := PrintRecord(fields), PrintFields(fields);
    assert |r| == |body| + 2;
    assert forall i :: 0 < i < |r| - 1 ==> r[i] == body[i - 1] && body[i - 1] in body;
  }

  lemma {:induction false} ParsePrinted(listing: seq<seq<Field>>, contained: bool)
    requires forall fields :: fields in listing ==> Printable(fields)
    ensures ParseRecords(PrintAll(listing), contained) == Some(DidsOf(listing, contained))
    ensures forall r :: r in PrintAll(listing) ==> Flat(r)
  {
    if listing != [] {
      assert listing[0] in listing;
      MapDidOfPrint(listing[0]);
      PrintedIsFlat(listing[0]);
      ParsePrinted(listing[1..], contained);
      assert PrintAll(listing)[1..] == PrintAll(listing[1..]);
    }
  }

  /** From the server's records to the DiD list: however the printed listing is cut into chunks, the
      program ends with exactly the listed DiDs and with nothing pending for the next listing. */
  lemma ListingRoundTrip(listing: seq<seq<Field>>, chunks: seq<string>, contained: bool)
    requires forall fields :: fields in listing ==> Printable(fields)
    requires CompleteListing(PrintAll(listing), Flatten(chunks))
    ensures Structurize("", chunks, contained) == Some(DidsOf(listing, contained))
    ensures Feed("", chunks).remainder == ""
  {
    ParsePrinted(listing, contained);
    WholeListing(PrintAll(listing), chunks);
    StructurizeIsParse("", chunks, contained);
  }

  function RecordsOf(dids: seq<Did>): seq<seq<Field>>
    requires forall d :: d in dids ==> Described(d)
  {
    if dids == [] then [] else [FieldsOf(dids[0])] + RecordsOf(dids[1..])
  }

  function ShownAll(dids: seq<Did>, contained: bool): seq<Did> {
    if dids == [] then [] else [Shown(dids[0], contained)] + ShownAll(dids[1..], contained)
  }

  lemma {:induction false} ShownAllHas(dids: seq<Did>, contained: bool, d: Did)
    requires d in dids
    ensures Shown(d, contained) in ShownAll(dids, contained)
  {
    if d != dids[0] {
      assert dids == [dids[0]] + dids[1..];
      ShownAllHas(dids[1..], contained, d);
    }
  }

  /** A DiD inside a container still has to have a parent that can be printed. */
  predicate Listable(d: Did, contained: bool) {
    contained ==> Clean(d.parent) && OneLine(d.parent)
  }

  lemma DidOfRepresentable(d: Did, contained: bool)
    requires Described(d) && Representable(d, contained)
    ensures DidOf(LastWins(FieldsOf(d)), contained) == Shown(d, contained)
  {
    hide PrintInt, Clean, OneLine, LastWins, FieldsOf, DidOf, Atoi;
    DidOfFields(d, contained);
    AtoiOfPrint(d.level.value);
    if d.size.Some? {
      AtoiOfPrint(d.size.value);
    }
  }

  lemma FieldsOneLine(d: Did)
    requires Described(d) && OneLine(d.scope) && OneLine(d.name) && OneLine(d.parent)
    ensures forall f :: f in FieldsOf(d) ==> OneLine(f.key) && OneLine(f.value)
  {
    hide PrintInt, TypeName;
    PrintIntChars(d.level.value);
    if d.size.Some? {
      PrintIntChars(d.size.value);
    }
    TypesOneLine();
  }

  lemma TypesOneLine()
    ensures forall t :: OneLine(TypeName(t))
  {
  }

  lemma PrintableDid(d: Did, contained: bool)
    requires Described(d) && Listable(d, contained) && Representable(d, contained)
    ensures Printable(FieldsOf(d))
  {
    hide Clean, CleanFields, FieldsOf;
    FieldsOfClean(d);
    FieldsOneLine(d);
  }

  lemma {:induction false} PrintableDids(dids: seq<Did>, contained: bool)
    requires forall d :: d in dids ==> Described(d) && Listable(d, contained) && Representable(d, contained)
    ensures forall fields :: fields in RecordsOf(dids) ==> Printable(fields)
    ensures DidsOf(RecordsOf(dids), contained) == ShownAll(dids, contained)
  {
    hide Printable, FieldsOf, Representable, DidOf, LastWins;
    if dids != [] {
      assert dids[0] in dids;
      PrintableDid(dids[0], contained);
      DidOfRepresentable(dids[0], contained);
      PrintableDids(dids[1..], contained);
      assert RecordsOf(dids)[1..] == RecordsOf(dids[1..]);
    }
  }

  lemma {:induction false} ParsedListIsPlain(records: seq<string>, contained: bool)
    requires forall r :: r in records ==> OneLine(r)
    ensures ParseRecords(records, contained).Some? ==>
              forall d :: d in ParseRecords(records, contained).value ==> Plain(d)
  {
    hide ParseRecord, Plain;
    if records != [] {
      assert records[0] in records;
      ParsedIsPlain(records[0], contained);
      ParsedListIsPlain(records[1..], contained);
    }
  }

  /** Every list of DiDs, printed one per line and cut anywhere, is read back as what it shows if and
      only if each of them is representable; then nothing is left pending. */
  lemma DidListRoundTrip(dids: seq<Did>, chunks: seq<string>, contained: bool)
    requires forall d :: d in dids ==> Described(d) && Listable(d, contained)
    requires CompleteListing(PrintAll(RecordsOf(dids)), Flatten(chunks))
    ensures Structurize("", chunks, contained) == Some(ShownAll(dids, contained)) <==>
            forall d :: d in dids ==> Representable(d, contained)
    ensures (forall d :: d in dids ==> Representable(d, contained)) ==> Feed("", chunks).remainder == ""
  {
    hide Plain, Structurize, CompleteListing, Clean;
    if forall d :: d in dids ==> Representable(d, contained) {
      PrintableDids(dids, contained);
      ListingRoundTrip(RecordsOf(dids), chunks, contained);
    } else if Structurize("", chunks, contained) == Some(ShownAll(dids, contained)) {
      var d :| d in dids && !Representable(d, contained);
      StructurizeIsParse("", chunks, contained);
      EmittedOneLine("", chunks);
      ParsedListIsPlain(Feed("", chunks).emitted, contained);
      ShownAllHas(dids, contained, d);
      assert false;
    }
  }
}
