/** The answer for a single DiD, and what `rucio_is_container` reads in it (source/REST-API.cpp). */
module ContainerAnswer {
  import opened Text
  import opened DidRecord
  import opened RecordSearch

  /** A quoted type name before a comma. */
  const CONTAINER_MARK := "\"CONTAINER\","
  const DATASET_MARK := "\"DATASET\","

  function SaysContainer(front: string): bool {
    Find(front, CONTAINER_MARK).Some? || Find(front, DATASET_MARK).Some?
  }

  /** What an answer decides: `Some(false)` when there is none, `None` when it is empty, where the code
      takes the front of no chunk. */
  function ContainerReply(payload: Option<seq<string>>): Option<bool> {
    if payload.None? then Some(false)
    else if payload.value == [] then None
    else Some(SaysContainer(payload.value[0]))
  }

  // ---------- an answer in chunks: only the first one is looked at ----------

  /** The text `sub` stands somewhere within the first `k` characters. */
  ghost predicate EndsBy(text: string, sub: string, k: nat) {
    exists i: nat :: OccursAt(text, sub, i) && i + |sub| <= k
  }

  lemma FoundInFront(text: string, sub: string, k: nat)
    requires k <= |text|
    ensures Find(text[..k], sub).Some? <==> EndsBy(text, sub, k)
  {
    forall i: nat
      ensures OccursAt(text[..k], sub, i) <==> OccursAt(text, sub, i) && i + |sub| <= k
    {
      OccursInFront(text, sub, k, i);
    }
    FoundWhereOccurs(text[..k], sub);
    if EndsBy(text, sub, k) {
      var i: nat :| OccursAt(text, sub, i) && i + |sub| <= k;
      assert OccursAt(text[..k], sub, i);
    }
    if Find(text[..k], sub).Some? {
      var i: nat := Find(text[..k], sub).value;
      assert OccursAt(text, sub, i) && i + |sub| <= k;
    }
  }

  /** However the answer is cut: it says "container" exactly when a quoted type name and its comma end
      within the first chunk. */
  lemma FirstChunkDecides(chunks: seq<string>)
    requires chunks != []
    ensures ContainerReply(Some(chunks)) ==
            Some(EndsBy(Flatten(chunks), "\"CONTAINER\",", |chunks[0]|)
                 || EndsBy(Flatten(chunks), "\"DATASET\",", |chunks[0]|))
  {
    hide EndsBy;
    var text, k := Flatten(chunks), |chunks[0]|;
    assert text[..k] == chunks[0];
    FoundInFront(text, CONTAINER_MARK, k);
    FoundInFront(text, DATASET_MARK, k);
  }

  lemma EndsInAll(text: string, sub: string)
    ensures Contains(text, sub) <==> EndsBy(text, sub, |text|)
  {
    FoundWhereOccurs(text, sub);
    if EndsBy(text, sub, |text|) {
      var i: nat :| OccursAt(text, sub, i);
    }
    if Contains(text, sub) {
      var i: nat :| OccursAt(text, sub, i);
    }
  }

  /** Hence the first chunk says the same as the whole if and only if the whole names neither type or a type
      name and its comma end within the first chunk. */
  lemma ContainerSurvivesCutting(chunks: seq<string>)
    requires chunks != []
    ensures var text, k := Flatten(chunks), |chunks[0]|;
            ContainerReply(Some(chunks)) == ContainerReply(Some([text])) <==>
              || (!Contains(text, "\"CONTAINER\",") && !Contains(text, "\"DATASET\","))
              || EndsBy(text, "\"CONTAINER\",", k) || EndsBy(text, "\"DATASET\",", k)
  {
    hide Contains;
    var text, k := Flatten(chunks), |chunks[0]|;
    FirstChunkDecides(chunks);
    FirstChunkDecides([text]);
    FlattenOne(text);
    EndsInAll(text, "\"CONTAINER\",");
    EndsInAll(text, "\"DATASET\",");
  }

  // ---------- which DiDs are taken for containers ----------

  /** In a printed record a type name is found exactly when some quoted value but the last is that name. */
  lemma MarkInRecord(fields: seq<Field>, kind: string)
    requires kind != "" && Clean(kind) && CleanFields(fields) && fields != []
    ensures Contains(PrintRecord(fields), "\"" + kind + "\",") <==>
            exists f :: f in fields[..|fields| - 1] && f.quoted && f.value == kind
  {
    hide Contains, PrintRecord, CleanFields, Clean;
    RecordFound(fields, kind, ",");
    var init := fields[..|fields| - 1];
    assert Quoted(kind, ",") == "\"" + kind + "\",";
    assert forall f :: InField(f, kind, ",") <==> f.quoted && f.value == kind;
  }

  predicate Named(d: Did, kind: string) {
    d.scope == kind || d.name == kind || d.parent == kind
  }

  /** The answer for a DiD says "container" exactly when it is a container or dataset, or when its scope,
      name or parent is one of the two words: a file with such a name is shown as a directory. */
  lemma TakenForContainer(d: Did)
    requires Described(d) && Clean(d.scope) && Clean(d.name) && Clean(d.parent)
    ensures ContainerReply(Some([PrintRecord(FieldsOf(d))])) ==
            Some(d.dataType != Some(File) || Named(d, "CONTAINER") || Named(d, "DATASET"))
  {
    hide Clean, CleanFields, PrintRecord;
    KindsClean();
    FieldsOfClean(d);
    MarkInRecord(FieldsOf(d), "CONTAINER");
    MarkInRecord(FieldsOf(d), "DATASET");
    MarksAre();
    ValuesOf(d, "CONTAINER");
    ValuesOf(d, "DATASET");
    assert "FILE"[0] != "CONTAINER"[0] && "FILE"[0] != "DATASET"[0] && "CONTAINER"[0] != "DATASET"[0];
  }

  lemma MarksAre()
    ensures CONTAINER_MARK == "\"" + "CONTAINER" + "\"," && DATASET_MARK == "\"" + "DATASET" + "\","
  {
  }

  lemma KindsClean()
    ensures Clean("CONTAINER") && Clean("DATASET")
  {
  }

  lemma ValuesOf(d: Did, kind: string)
    requires Described(d)
    ensures var fs := FieldsOf(d);
            (exists f :: f in fs[..|fs| - 1] && f.quoted && f.value == kind) <==>
              TypeName(d.dataType.value) == kind || Named(d, kind)
  {
    hide TypeName;
    var fs := FieldsOf(d);
    var init := fs[..|fs| - 1];
    assert init[0].value == d.scope && init[1].value == TypeName(d.dataType.value);
    assert init[2].value == d.name && init[3].value == d.parent;
    assert forall i :: 4 <= i < |init| ==> !init[i].quoted;
    assert init[0] in init && init[1] in init && init[2] in init && init[3] in init;
  }
}
