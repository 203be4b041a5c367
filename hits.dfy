/**
 * What the search backend hands back, and the static index configuration
 * the extractor reads (src/backend/app.py, `index_source_fields` and the
 * retrieval request).
 */
module Hits {
  import opened Wrappers

  /** One nested chunk under a named inner-hit group; its `_source` holds the chunk's `text`. */
  datatype Fragment = Fragment(source: map<string, string>)

  /**
   * One search hit: `_index`, the top-level `_source` payload (values in
   * their rendered text form) and, when the backend sent them, the
   * `inner_hits` groups by name, each the list of its nested fragments.
   */
  datatype Hit = Hit(
    index: string,
    source: map<string, string>,
    innerHits: Option<map<string, seq<Fragment>>>)

  /** Index identifier to the ordered list of its text-bearing source fields. */
  type FieldMap = map<string, seq<string>>

  /** The index every search is sent to. */
  const SearchIndex: string := "search-ikea.es"

  /** The shipped configuration: one index, one text field. */
  const DefaultFieldMap: FieldMap := map[SearchIndex := ["ai_embeddings"]]

  /** The name the retrieval request gives its inner-hit group. */
  const InnerHitsName: string := "search-ikea.es.ai_embeddings"
}
