/**
 * The metadata block of a layer descriptor: the text from the first
 * `# METABEGIN` up to (not including) the first `# METAEND`, taken with
 * Python slice semantics exactly as the suites write
 * `content[content.find("# METABEGIN"):content.find("# METAEND")]`,
 * and the per-file check shared by the extension and device suites.
 */
module LayerMetadata {
  import opened Wrappers
  import opened Text

  const MetaBegin: string := "# METABEGIN"
  const MetaEnd: string := "# METAEND"

  /** `content[content.find(MetaBegin):content.find(MetaEnd)]`; a missing marker gives -1, a bound from the end. */
  function Block(content: string): (b: string)
    ensures |b| <= |content|
  {
    PySlice(content, Find(content, MetaBegin), Find(content, MetaEnd))
  }

  /** For a descriptor that starts with the begin marker and has an end marker, the block is everything before the first end marker. */
  lemma BlockBeforeEnd(content: string)
    requires StartsWith(content, MetaBegin) && Contains(content, MetaEnd)
    ensures Find(content, MetaBegin) == 0
    ensures Block(content) == content[..Find(content, MetaEnd)]
  {
    assert OccursAt(content, MetaBegin, 0);
  }

  /** A field counts only when one of its occurrences ends at or before the first `# METAEND`. */
  lemma FieldInBlock(content: string, field: string)
    requires StartsWith(content, MetaBegin) && Contains(content, MetaEnd)
    ensures Contains(Block(content), field) <==>
      exists i :: OccursAt(content, field, i) && i + |field| <= Find(content, MetaEnd)
  {
    BlockBeforeEnd(content);
    var e := Find(content, MetaEnd);
    assert content[..e] == content[0..e];
    ContainsInSlice(content, field, 0, e);
  }

  /**
   * Without a begin marker the start bound is -1, i.e. the last character;
   * the end bound is that same -1 or an earlier index, so the block is empty.
   */
  lemma BlockWithoutBegin(content: string)
    requires !Contains(content, MetaBegin)
    ensures Block(content) == ""
  {
    var e := Find(content, MetaEnd);
    if e != -1 {
      assert OccursAt(content, MetaEnd, e);
      assert e + |MetaEnd| <= |content|;
    }
  }

  /** With a begin marker at the start but no end marker the end bound is -1: the block drops only the last character. */
  lemma BlockWithoutEnd(content: string)
    requires StartsWith(content, MetaBegin) && !Contains(content, MetaEnd)
    ensures Block(content) == content[..|content| - 1]
  {
    assert OccursAt(content, MetaBegin, 0);
  }

  /** Why one descriptor fails a metadata check; the suites print a message per case and return False. */
  datatype LayerVerdict =
    | Valid
    | NotAtStart               // content does not start with "# METABEGIN"
    | MarkerMissing            // a marker's find() returned -1
    | MissingField(field: string)
    | WrongCategory            // the extension suite's category literal is absent

  /**
   * The common part of the extension and device metadata checks: the
   * descriptor must start with `# METABEGIN`, contain `# METAEND`, and its
   * block must contain every field; the first absent field is reported.
   */
  function CheckMarkedLayer(content: string, fields: seq<string>): (v: LayerVerdict)
    ensures v == Valid <==>
      StartsWith(content, MetaBegin) && Contains(content, MetaEnd) &&
      forall k :: 0 <= k < |fields| ==> Contains(Block(content), fields[k])
    ensures v == NotAtStart <==> !StartsWith(content, MetaBegin)
    ensures v == MarkerMissing <==> StartsWith(content, MetaBegin) && !Contains(content, MetaEnd)
    ensures v.MissingField? ==>
      exists k :: 0 <= k < |fields| && v.field == fields[k] && !Contains(Block(content), fields[k]) &&
        forall j :: 0 <= j < k ==> Contains(Block(content), fields[j])
    ensures v != WrongCategory
  {
    if !StartsWith(content, MetaBegin) then NotAtStart
    else
      StartsWithContains(content, MetaBegin);
      if Find(content, MetaBegin) == -1 || Find(content, MetaEnd) == -1 then MarkerMissing
      else match FirstAbsent(Block(content), fields)
        case None => Valid
        case Some(k) => MissingField(fields[k])
  }
}
