/**
 * The filter bar of the playlist list in the web client: a category choice
 * and a comma-separated tag input, submitted together or cleared together.
 */
module PlaylistFilter {
  import opened Text
  import opened Tags

  /** The values the filter's two fields hold. */
  datatype FilterState = FilterState(category: string, tagsInput: string)

  /** The arguments `onFilter` receives. */
  datatype FilterRequest = FilterRequest(category: string, tags: seq<string>)

  /** `handleSubmit`: the category as chosen and the tags parsed from the input. */
  function HandleSubmit(s: FilterState): (r: FilterRequest)
    ensures r.category == s.category
    ensures r.tags == ParseTags(s.tagsInput)
    ensures forall k :: 0 <= k < |r.tags| ==> WellFormedTag(r.tags[k])
  {
    FilterRequest(s.category, ParseTags(s.tagsInput))
  }

  /** Tag input made only of commas and white space filters by category alone. */
  lemma BlankTagsFilterNothing(s: FilterState)
    requires forall k :: 0 <= k < |s.tagsInput| ==> s.tagsInput[k] == ',' || IsSpace(s.tagsInput[k])
    ensures HandleSubmit(s).tags == []
  {
    ParseTagsBlank(s.tagsInput);
  }

  /** Tags are read in order: input `a, b` yields the tags of `a` followed by those of `b`. */
  lemma SubmitKeepsOrder(category: string, a: string, b: string)
    ensures HandleSubmit(FilterState(category, a + [','] + b)).tags
            == HandleSubmit(FilterState(category, a)).tags + HandleSubmit(FilterState(category, b)).tags
  {
    ParseTagsAround(a, b);
  }

  /** `handleClear`: both fields are reset to the empty string before `onClear` runs. */
  function HandleClear(s: FilterState): (r: FilterState)
    ensures r.category == [] && r.tagsInput == []
    ensures HandleSubmit(r) == FilterRequest("", [])
  {
    ParseTagsBlank("");
    FilterState("", "")
  }
}
