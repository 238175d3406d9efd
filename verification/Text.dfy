/** String operations of the C++ standard library that the modelled code is built from.
    A position equal to the length of the string stands for `std::string::npos`. */
module Text {
  datatype Option<+T> = None | Some(value: T) {
    predicate IsFailure() {
      None?
    }

    function PropagateFailure<U>(): Option<U>
      requires None?
    {
      None
    }

    function Extract(): T
      requires Some?
    {
      value
    }
  }

  // ---------- searching ----------

  /** `s.find(c, from)` */
  function IndexFrom(s: string, c: char, from: nat): (i: nat)
    ensures i <= |s|
    ensures from <= |s| ==> from <= i
    ensures i < |s| ==> s[i] == c
    decreases |s| - from
  {
    if from >= |s| then |s| else if s[from] == c then from else IndexFrom(s, c, from + 1)
  }

  lemma {:induction false} IndexFromIsFirst(s: string, c: char, from: nat)
    ensures forall j :: from <= j < IndexFrom(s, c, from) ==> s[j] != c
    decreases |s| - from
  {
    if from < |s| && s[from] != c {
      IndexFromIsFirst(s, c, from + 1);
    }
  }

  /** `s.find(c)` */
  function IndexOf(s: string, c: char): (i: nat)
    ensures i <= |s|
    ensures forall j :: 0 <= j < i ==> s[j] != c
    ensures i < |s| ==> s[i] == c
  {
    IndexFromIsFirst(s, c, 0);
    IndexFrom(s, c, 0)
  }

  predicate OccursAt(s: string, sub: string, i: nat) {
    i + |sub| <= |s| && s[i..i + |sub|] == sub
  }

  function FindFrom(s: string, sub: string, from: nat): (r: Option<nat>)
    ensures r.Some? ==> from <= r.value && OccursAt(s, sub, r.value)
    ensures r.Some? ==> forall j :: from <= j < r.value ==> !OccursAt(s, sub, j)
    ensures r.None? ==> forall j :: from <= j ==> !OccursAt(s, sub, j)
    decreases |s| - from
  {
    if from > |s| then None
    else if OccursAt(s, sub, from) then Some(from)
    else FindFrom(s, sub, from + 1)
  }

  /** `s.find(sub)`: the first occurrence */
  function Find(s: string, sub: string): (r: Option<nat>)
    ensures r.Some? ==> OccursAt(s, sub, r.value) && forall j: nat :: j < r.value ==> !OccursAt(s, sub, j)
    ensures r.None? ==> forall j: nat :: !OccursAt(s, sub, j)
  {
    FindFrom(s, sub, 0)
  }

  /** `s.find_last_of(c)` */
  function LastIndexOf(s: string, c: char): (r: Option<nat>)
    ensures r.Some? ==> r.value < |s| && s[r.value] == c && forall j :: r.value < j < |s| ==> s[j] != c
    ensures r.None? ==> c !in s
  {
    if s == "" then None
    else if s[|s| - 1] == c then Some(|s| - 1)
    else LastIndexOf(s[..|s| - 1], c)
  }

  function Count(s: string, c: char): nat {
    if s == "" then 0 else Count(s[..|s| - 1], c) + if s[|s| - 1] == c then 1 else 0
  }

  lemma {:induction false} CountConcat(a: string, b: string, c: char)
    ensures Count(a + b, c) == Count(a, c) + Count(b, c)
  {
    if b == "" {
      assert a + b == a;
    } else {
      assert (a + b)[..|a + b| - 1] == a + b[..|b| - 1];
      CountConcat(a, b[..|b| - 1], c);
    }
  }

  lemma {:induction false} CountAbsent(s: string, c: char)
    ensures Count(s, c) == 0 <==> c !in s
  {
    if s != "" {
      CountAbsent(s[..|s| - 1], c);
      assert s == s[..|s| - 1] + [s[|s| - 1]];
    }
  }

  /** The first `c` of `a + [c] + b` when `a` has none. */
  lemma IndexOfAfter(a: string, c: char, b: string)
    requires c !in a
    ensures IndexOf(a + [c] + b, c) == |a|
  {
    var s := a + [c] + b;
    assert s[|a|] == c;
    assert forall j :: 0 <= j < |a| ==> s[j] == a[j];
  }

  lemma OccursInFront(text: string, sub: string, k: nat, i: nat)
    requires k <= |text|
    ensures OccursAt(text[..k], sub, i) <==> OccursAt(text, sub, i) && i + |sub| <= k
  {
    if i + |sub| <= k {
      assert text[..k][i..i + |sub|] == text[i..i + |sub|];
    }
  }

  lemma OccursBehind(text: string, sub: string, k: nat, i: nat)
    requires k <= |text|
    ensures OccursAt(text[k..], sub, i) <==> OccursAt(text, sub, k + i)
  {
    if k + i + |sub| <= |text| {
      assert text[k..][i..i + |sub|] == text[k + i..k + i + |sub|];
    }
  }

  /** The last character stands nowhere else, so that two occurrences cannot overlap. */
  predicate EndsUniquely(sub: string) {
    sub != "" && forall i :: 0 <= i < |sub| - 1 ==> sub[i] != sub[|sub| - 1]
  }

  lemma NoOverlap(prefix: string, sub: string, rest: string, j: nat)
    requires EndsUniquely(sub) && j < |prefix| && OccursAt(prefix + sub + rest, sub, j)
    ensures OccursAt(prefix, sub, j)
  {
    var s := prefix + sub + rest;
    var n, last := |prefix|, |sub| - 1;
    assert forall i :: n <= i < n + last ==> s[i] == sub[i - n] != sub[last];
    assert s[j..j + |sub|][last] == sub[last];
    assert s[j + last] == sub[last];
    assert j + last < n;
    assert s[j..j + |sub|] == prefix[j..j + |sub|];
  }

  /** Behind a prefix without it, such a text is first found where it was put. */
  lemma FoundWherePut(prefix: string, sub: string, rest: string)
    requires EndsUniquely(sub) && Find(prefix, sub).None?
    ensures Find(prefix + sub + rest, sub) == Some(|prefix|)
  {
    var s := prefix + sub + rest;
    assert OccursAt(s, sub, |prefix|);
    forall j: nat | j < |prefix|
      ensures !OccursAt(s, sub, j)
    {
      if OccursAt(s, sub, j) {
        NoOverlap(prefix, sub, rest, j);
      }
    }
  }

  // ---------- concatenation ----------

  function Flatten(parts: seq<string>): string {
    if parts == [] then "" else parts[0] + Flatten(parts[1..])
  }

  lemma {:induction false} FlattenConcat(a: seq<string>, b: seq<string>)
    ensures Flatten(a + b) == Flatten(a) + Flatten(b)
  {
    if a == [] {
      assert a + b == b;
    } else {
      assert (a + b)[1..] == a[1..] + b;
      FlattenConcat(a[1..], b);
    }
  }

  lemma FlattenOne(s: string)
    ensures Flatten([s]) == s
  {
    assert [s][1..] == [];
  }

  function Join(parts: seq<string>, sep: string): string {
    if parts == [] then ""
    else if |parts| == 1 then parts[0]
    else parts[0] + sep + Join(parts[1..], sep)
  }

  // ---------- erase / replace ----------

  /** `s.erase(std::remove(s.begin(), s.end(), c), s.end())` */
  function Erase(s: string, c: char): string {
    if s == "" then "" else (if s[0] == c then "" else [s[0]]) + Erase(s[1..], c)
  }

  /** `std::replace(s.begin(), s.end(), c, d)` */
  function Replace(s: string, c: char, d: char): string {
    if s == "" then "" else [if s[0] == c then d else s[0]] + Replace(s[1..], c, d)
  }

  lemma {:induction false} EraseConcat(a: string, b: string, c: char)
    ensures Erase(a + b, c) == Erase(a, c) + Erase(b, c)
  {
    if a == "" {
      assert a + b == b;
    } else {
      assert (a + b)[1..] == a[1..] + b;
      EraseConcat(a[1..], b, c);
    }
  }

  lemma {:induction false} EraseAbsent(s: string, c: char)
    requires c !in s
    ensures Erase(s, c) == s
  {
    if s != "" {
      EraseAbsent(s[1..], c);
    }
  }

  lemma {:induction false} EraseParts(s: string, c: char)
    ensures forall d :: d in Erase(s, c) <==> d in s && d != c
  {
    if s != "" {
      EraseParts(s[1..], c);
      assert s == [s[0]] + s[1..];
    }
  }

  // ---------- getline ----------

  /** The pieces `std::getline(stream, piece, delim)` reads from a stream over `s`:
      a trailing delimiter opens no further piece, and the empty stream has none. */
  function Lines(s: string, delim: char): seq<string>
    decreases |s|
  {
    if s == "" then []
    else
      var i := IndexOf(s, delim);
      if i == |s| then [s] else [s[..i]] + Lines(s[i + 1..], delim)
  }

  /** source/utils.cpp `split` */
  method Split(s: string, delim: char) returns (elems: seq<string>)
    ensures elems == Lines(s, delim)
  {
    elems := [];
    var rest := s;
    while rest != ""
      invariant Lines(s, delim) == elems + Lines(rest, delim)
      decreases |rest|
    {
      var i := IndexOf(rest, delim);
      assert i == |rest| ==> rest[..i] == rest;
      elems := elems + [rest[..i]];
      rest := if i == |rest| then "" else rest[i + 1..];
    }
  }

  lemma LinesOfPiece(a: string, delim: char)
    requires a != "" && delim !in a
    ensures Lines(a, delim) == [a]
  {
    assert IndexOf(a, delim) == |a|;
  }

  lemma LinesOfFirst(a: string, delim: char, b: string)
    requires delim !in a
    ensures Lines(a + [delim] + b, delim) == [a] + Lines(b, delim)
  {
    IndexOfAfter(a, delim, b);
    var s := a + [delim] + b;
    assert s[..|a|] == a && s[|a| + 1..] == b;
  }

  /** `getline` undoes joining with the delimiter, except that an empty last part is lost. */
  lemma {:induction false} LinesOfJoin(parts: seq<string>, delim: char)
    requires forall p :: p in parts ==> delim !in p
    ensures Lines(Join(parts, [delim]), delim)
         == if parts == [] || parts[|parts| - 1] != "" then parts else parts[..|parts| - 1]
  {
    if |parts| == 1 {
      if parts[0] != "" {
        LinesOfPiece(parts[0], delim);
      }
    } else if |parts| > 1 {
      LinesOfJoin(parts[1..], delim);
      LinesOfFirst(parts[0], delim, Join(parts[1..], [delim]));
      assert parts == [parts[0]] + parts[1..];
      assert parts[..|parts| - 1] == [parts[0]] + parts[1..][..|parts| - 2];
    }
  }

  lemma {:induction false} LinesParts(s: string, delim: char)
    ensures forall p :: p in Lines(s, delim) ==> delim !in p && forall c :: c in p ==> c in s
    decreases |s|
  {
    if s != "" {
      var i := IndexOf(s, delim);
      if i < |s| {
        LinesParts(s[i + 1..], delim);
      }
    }
  }

  // ---------- results that may be missing ----------

  function AppendTo<T>(out: seq<T>, more: Option<seq<T>>): Option<seq<T>> {
    if more.None? then None else Some(out + more.value)
  }

  lemma AppendToNothing<T>(more: Option<seq<T>>)
    ensures AppendTo([], more) == more
  {
    if more.Some? {
      assert [] + more.value == more.value;
    }
  }

  lemma AppendNothingTo<T>(out: seq<T>)
    ensures AppendTo(out, None) == None
    ensures AppendTo(out, Some([])) == Some(out)
  {
    assert out + [] == out;
  }

  lemma AppendToAssociative<T>(a: seq<T>, b: seq<T>, more: Option<seq<T>>)
    ensures AppendTo(a, AppendTo(b, more)) == AppendTo(a + b, more)
  {
    if more.Some? {
      assert a + (b + more.value) == a + b + more.value;
    }
  }

  lemma SamePrefix<T>(prefix: seq<T>, a: seq<T>, b: seq<T>)
    ensures prefix + a == prefix + b <==> a == b
  {
    assert (prefix + a)[|prefix|..] == a && (prefix + b)[|prefix|..] == b;
  }
}
