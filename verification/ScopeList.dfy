/** The tokenizer behind `rucio_list_scopes` (include/utils.h `tokenize_python_list`). */
module ScopeList {
  import opened Text

  const SEPARATOR := ','
  const UNWANTED: string := ['\"', ' ', ']']

  /** A C string ends at the first NUL. */
  function CString(s: string): string {
    s[..IndexOf(s, '\0')]
  }

  function Trim(element: string): string {
    Erase(Erase(Erase(element, '\"'), ' '), ']')
  }

  function TrimAll(elements: seq<string>): seq<string> {
    if elements == [] then [] else [Trim(elements[0])] + TrimAll(elements[1..])
  }

  /** `None` below two characters: erasing the last of none throws `std::out_of_range`. */
  function Tokenize(list: string): Option<seq<string>> {
    if |list| < 2 then None
    else Some(TrimAll(Lines(CString(list[1..|list| - 1]), SEPARATOR)))
  }

  method TokenizePythonList(list: string, target: seq<string>) returns (tokens: Option<seq<string>>)
    ensures tokens == AppendTo(target, Tokenize(list))
  {
    hide Erase, Lines;
    if |list| < 2 {
      return None;
    }
    var listCopy := list[1..];
    listCopy := listCopy[..|listCopy| - 1];
    assert listCopy == list[1..|list| - 1];
    var elements := Split(CString(listCopy), SEPARATOR);
    var out: seq<string> := [];
    assert elements[0..] == elements;
    for i := 0 to |elements|
      invariant out + TrimAll(elements[i..]) == TrimAll(elements)
    {
      var element := elements[i];
      for n := 0 to |UNWANTED|
        invariant n == 0 ==> element == elements[i]
        invariant n == 1 ==> element == Erase(elements[i], '\"')
        invariant n == 2 ==> element == Erase(Erase(elements[i], '\"'), ' ')
        invariant n == 3 ==> element == Trim(elements[i])
      {
        element := Erase(element, UNWANTED[n]);
      }
      assert elements[i..][1..] == elements[i + 1..];
      assert out + ([element] + TrimAll(elements[i + 1..])) == out + [element] + TrimAll(elements[i + 1..]);
      out := out + [element];
    }
    assert elements[|elements|..] == [] && out + [] == out;
    tokens := Some(target + out);
  }

  /** The scope names in a response; `None` when tokenizing one of its lines throws. */
  function TokenizeAll(payload: seq<string>): Option<seq<string>> {
    if payload == [] then Some([])
    else
      var first :- Tokenize(payload[0]);
      var rest :- TokenizeAll(payload[1..]);
      Some(first + rest)
  }

  method TokenizePayload(payload: seq<string>) returns (scopes: Option<seq<string>>)
    ensures scopes == TokenizeAll(payload)
  {
    var out: seq<string> := [];
    assert payload[0..] == payload;
    AppendToNothing(TokenizeAll(payload));
    for i := 0 to |payload|
      invariant TokenizeAll(payload) == AppendTo(out, TokenizeAll(payload[i..]))
    {
      assert payload[i..][1..] == payload[i + 1..];
      var more := TokenizePythonList(payload[i], out);
      if more.None? {
        return None;
      }
      AppendToAssociative(out, Tokenize(payload[i]).value, TokenizeAll(payload[i + 1..]));
      out := more.value;
    }
    assert payload[|payload|..] == [] && out + [] == out;
    scopes := Some(out);
  }

  // ---------- printing ----------

  function Quote(name: string): string {
    "\"" + name + "\""
  }

  /** The list items; `pad` is what follows a comma. */
  function Items(names: seq<string>, pad: string): seq<string> {
    if names == [] then [] else [pad + Quote(names[0])] + Items(names[1..], pad)
  }

  function PrintBody(names: seq<string>, pad: string): string {
    if names == [] then "" else Join([Quote(names[0])] + Items(names[1..], pad), ",")
  }

  function PrintList(names: seq<string>, pad: string): string {
    "[" + PrintBody(names, pad) + "]"
  }

  predicate CleanName(name: string) {
    forall c :: c in name ==> c != '\"' && c != ' ' && c != ']' && c != SEPARATOR && c != '\0'
  }

  // ---------- the tokenizer undoes the printer ----------

  lemma TrimPadded(name: string, pad: string)
    requires CleanName(name) && (pad == "" || pad == " ")
    ensures Trim(pad + Quote(name)) == name
  {
    hide Erase;
    TrimConcat(pad, Quote(name));
    TrimConcat("\"" + name, "\"");
    TrimConcat("\"", name);
    TrimClean(name);
    TrimMarks();
    assert "" + name == name && name + "" == name;
  }

  lemma TrimMarks()
    ensures Trim("\"") == "" && Trim(" ") == "" && Trim("]") == "" && Trim("") == ""
  {
    assert "\""[1..] == "" && " "[1..] == "" && "]"[1..] == "";
    assert Erase("\"", '\"') == "";
    assert Erase(" ", '\"') == " " && Erase(" ", ' ') == "";
    assert Erase("]", '\"') == "]" && Erase("]", ' ') == "]" && Erase("]", ']') == "";
  }

  lemma TrimConcat(a: string, b: string)
    ensures Trim(a + b) == Trim(a) + Trim(b)
  {
    hide Erase;
    EraseConcat(a, b, '\"');
    EraseConcat(Erase(a, '\"'), Erase(b, '\"'), ' ');
    EraseConcat(Erase(Erase(a, '\"'), ' '), Erase(Erase(b, '\"'), ' '), ']');
  }

  lemma TrimClean(name: string)
    requires CleanName(name)
    ensures Trim(name) == name
  {
    EraseAbsent(name, '\"');
    EraseAbsent(name, ' ');
    EraseAbsent(name, ']');
  }

  lemma {:induction false} TrimItems(names: seq<string>, pad: string)
    requires (forall n :: n in names ==> CleanName(n)) && (pad == "" || pad == " ")
    ensures TrimAll(Items(names, pad)) == names
    ensures forall t :: t in Items(names, pad) ==> t != "" && SEPARATOR !in t && '\0' !in t
  {
    hide Trim, CleanName;
    if names != [] {
      assert names[0] in names;
      TrimPadded(names[0], pad);
      ItemClean(names[0], pad);
      TrimItems(names[1..], pad);
      assert Items(names, pad)[1..] == Items(names[1..], pad);
    }
  }

  lemma ItemClean(name: string, pad: string)
    requires CleanName(name) && (pad == "" || pad == " ")
    ensures var t := pad + Quote(name);
            t != "" && SEPARATOR !in t && '\0' !in t
  {
  }

  lemma {:induction false} JoinNulFree(parts: seq<string>)
    requires forall t :: t in parts ==> '\0' !in t
    ensures '\0' !in Join(parts, ",")
  {
    if |parts| > 1 {
      JoinNulFree(parts[1..]);
    }
  }

  lemma BodyTokens(names: seq<string>, pad: string)
    requires (forall n :: n in names ==> CleanName(n)) && (pad == "" || pad == " ") && names != []
    ensures var items := [Quote(names[0])] + Items(names[1..], pad);
            && PrintBody(names, pad) == Join(items, ",")
            && (forall t :: t in items ==> t != "" && SEPARATOR !in t && '\0' !in t)
            && TrimAll(items) == names
  {
    hide Trim, CleanName, Join;
    assert names[0] in names;
    TrimItems(names[1..], pad);
    TrimPadded(names[0], "");
    ItemClean(names[0], "");
    assert "" + Quote(names[0]) == Quote(names[0]);
    var items := [Quote(names[0])] + Items(names[1..], pad);
    assert items[1..] == Items(names[1..], pad);
  }

  lemma NulFree(s: string)
    requires '\0' !in s
    ensures CString(s) == s
  {
    assert IndexOf(s, '\0') == |s|;
  }

  lemma PrintedIsTokenized(names: seq<string>, pad: string)
    requires (forall n :: n in names ==> CleanName(n)) && (pad == "" || pad == " ")
    ensures Tokenize(PrintList(names, pad)) == Some(names)
  {
    hide Trim, CleanName, Join, PrintBody, CString, Lines;
    var list, body := PrintList(names, pad), PrintBody(names, pad);
    assert list[1..|list| - 1] == body;
    if names == [] {
      EmptyBody(pad);
    } else {
      BodyTokens(names, pad);
      var items := [Quote(names[0])] + Items(names[1..], pad);
      JoinNulFree(items);
      NulFree(body);
      LinesOfJoin(items, SEPARATOR);
      assert items[|items| - 1] in items;
      assert [SEPARATOR] == ",";
    }
  }

  lemma EmptyBody(pad: string)
    ensures CString(PrintBody([], pad)) == ""
    ensures TrimAll(Lines("", SEPARATOR)) == []
  {
  }

  // ---------- and only on clean names ----------

  lemma TrimParts(p: string, s: string)
    requires SEPARATOR !in p && '\0' !in s && forall c :: c in p ==> c in s
    ensures CleanName(Trim(p))
  {
    EraseParts(p, '\"');
    EraseParts(Erase(p, '\"'), ' ');
    EraseParts(Erase(Erase(p, '\"'), ' '), ']');
  }

  lemma {:induction false} TrimAllParts(pieces: seq<string>, s: string)
    requires '\0' !in s && forall p :: p in pieces ==> SEPARATOR !in p && forall c :: c in p ==> c in s
    ensures forall t :: t in TrimAll(pieces) ==> CleanName(t)
  {
    hide Trim, CleanName;
    if pieces != [] {
      assert pieces[0] in pieces;
      TrimParts(pieces[0], s);
      TrimAllParts(pieces[1..], s);
    }
  }

  /** Whatever the list text, the tokens are clean. */
  lemma TokensAreClean(list: string)
    ensures Tokenize(list).Some? ==> forall t :: t in Tokenize(list).value ==> CleanName(t)
  {
    if |list| >= 2 {
      var s := CString(list[1..|list| - 1]);
      LinesParts(s, SEPARATOR);
      TrimAllParts(Lines(s, SEPARATOR), s);
    }
  }

  /** Printing a list of names and tokenizing it is the identity exactly when no name has a quote,
      blank, closing bracket, comma or NUL; the empty list and empty names included. */
  lemma ScopeListRoundTrip(names: seq<string>, pad: string)
    requires pad == "" || pad == " "
    ensures Tokenize(PrintList(names, pad)) == Some(names) <==> forall n :: n in names ==> CleanName(n)
  {
    TokensAreClean(PrintList(names, pad));
    if forall n :: n in names ==> CleanName(n) {
      PrintedIsTokenized(names, pad);
    }
  }
}
