/**
 * Turning search hits into the grounding context and the prompt
 * (`create_openai_prompt` in src/backend/app.py).
 */
module ContextExtractor {
  import opened Wrappers
  import opened Text
  import opened Hits
  import opened PromptBuilder

  /** Why extraction raised, one case per exception the source can hit. */
  datatype ExtractError =
    | UnknownIndex(index: string)         // the field map has no entry: `None[0]`
    | NoConfiguredField(index: string)    // the entry is an empty list: `[][0]`
    | MissingSourceField(field: string)   // `_source` lacks the configured field
    | MissingFragmentText                 // a nested fragment's `_source` lacks `text`

  /** Between the fragments of one hit's inner-hit group. */
  const FragmentSeparator: string := "\n --- \n"

  /** The first configured text field of an index. */
  function TextField(fields: FieldMap, index: string): (r: Result<string, ExtractError>)
    ensures r.Ok? <==> index in fields && |fields[index]| > 0
    ensures r.Ok? ==> r.value == fields[index][0]
    ensures index !in fields ==> r == Err(UnknownIndex(index))
  {
    if index !in fields then Err(UnknownIndex(index))
    else if |fields[index]| == 0 then Err(NoConfiguredField(index))
    else Ok(fields[index][0])
  }

  /** The name under which the hit's inner hits for `field` are expected. */
  function InnerHitKey(index: string, field: string): (key: string)
    ensures |key| == |index| + 1 + |field|
    ensures key[..|index|] == index && key[|index|] == '.' && key[|index| + 1..] == field
  {
    index + "." + field
  }

  /** The `text` of every fragment, in order; fails if any fragment has none. */
  function FragmentTexts(fragments: seq<Fragment>): (r: Result<seq<string>, ExtractError>)
    ensures r.Ok? <==> forall i :: 0 <= i < |fragments| ==> "text" in fragments[i].source
    ensures r.Ok? ==>
      |r.value| == |fragments| && forall i :: 0 <= i < |fragments| ==> r.value[i] == fragments[i].source["text"]
    ensures r.Err? ==> r.error == MissingFragmentText
    decreases |fragments|
  {
    if |fragments| == 0 then Ok([])
    else if "text" !in fragments[0].source then Err(MissingFragmentText)
    else
      match FragmentTexts(fragments[1..])
      case Err(e) => Err(e)
      case Ok(rest) => Ok([fragments[0].source["text"]] + rest)
  }

  /** What one hit adds to the context: its inner-hit fragments if present, else its top-level field. */
  function Contribution(hit: Hit, fields: FieldMap): (r: Result<string, ExtractError>)
    ensures hit.index !in fields ==> r == Err(UnknownIndex(hit.index))
    ensures r.Err? && r.error.MissingSourceField? ==> r.error.field !in hit.source
    ensures r.Err? && r.error.MissingFragmentText? ==> hit.innerHits.Some?
  {
    match TextField(fields, hit.index)
    case Err(e) => Err(e)
    case Ok(field) =>
      var key := InnerHitKey(hit.index, field);
      if hit.innerHits.Some? && key in hit.innerHits.value then
        match FragmentTexts(hit.innerHits.value[key])
        case Err(e) => Err(e)
        case Ok(texts) => Ok(Join(FragmentSeparator, texts))
      else if field in hit.source then Ok(hit.source[field] + "\n")
      else Err(MissingSourceField(field))
  }

  /** The context of a list of hits: their contributions in order; the first failing hit aborts. */
  function Context(hits: seq<Hit>, fields: FieldMap): (r: Result<string, ExtractError>)
    ensures r.Err? ==> exists i :: 0 <= i < |hits| && Contribution(hits[i], fields) == Err(r.error)
    ensures r.Ok? ==> forall i :: 0 <= i < |hits| ==> Contribution(hits[i], fields).Ok?
    decreases |hits|
  {
    if |hits| == 0 then Ok("")
    else
      match Contribution(hits[0], fields)
      case Err(e) => Err(e)
      case Ok(c) =>
        match Context(hits[1..], fields)
        case Err(e) => Err(e)
        case Ok(rest) => Ok(c + rest)
  }

  /** The prompt for a list of hits, or the error that extraction raised. */
  function PromptFor(hits: seq<Hit>, fields: FieldMap): (r: Result<string, ExtractError>)
    ensures r.Ok? <==> Context(hits, fields).Ok?
    ensures r.Ok? ==> ContextInPrompt(r.value) == Some(Context(hits, fields).value)
    ensures r.Err? ==> r.error == Context(hits, fields).error
  {
    match Context(hits, fields)
    case Err(e) => Err(e)
    case Ok(context) => Ok(Prompt(context))
  }

  /** `create_openai_prompt`: accumulate the context hit by hit, then fill in the template. */
  method CreatePrompt(hits: seq<Hit>, fields: FieldMap) returns (r: Result<string, ExtractError>)
    ensures r == PromptFor(hits, fields)
  {
    var context := "";
    for i := 0 to |hits|
      invariant Context(hits[..i], fields) == Ok(context)
    {
      var contribution := Contribution(hits[i], fields);
      if contribution.Err? {
        FailingHitAborts(hits, fields, i);
        return Err(contribution.error);
      }
      assert hits[..i + 1] == hits[..i] + [hits[i]];
      assert [hits[i]][1..] == [];
      assert contribution.value + "" == contribution.value;
      assert Context([hits[i]], fields) == Ok(contribution.value);
      ContextAppend(hits[..i], [hits[i]], fields);
      context := context + contribution.value;
    }
    assert hits[..|hits|] == hits;
    r := Ok(Prompt(context));
  }

  /**
   * The context of two hit lists back to back is the two contexts back to
   * back: hits are glued with nothing in between, and the first error wins.
   */
  lemma {:induction false} ContextAppend(a: seq<Hit>, b: seq<Hit>, fields: FieldMap)
    ensures Context(a + b, fields) ==
      match Context(a, fields)
      case Err(e) => Err(e)
      case Ok(x) =>
        match Context(b, fields)
        case Err(e) => Err(e)
        case Ok(y) => Ok(x + y)
    decreases |a|
  {
    if |a| == 0 {
      assert a + b == b;
      assert Context(a, fields) == Ok("");
      if Context(b, fields).Ok? {
        assert "" + Context(b, fields).value == Context(b, fields).value;
      }
    } else {
      assert (a + b)[0] == a[0];
      assert (a + b)[1..] == a[1..] + b;
      ContextAppend(a[1..], b, fields);
      match Contribution(a[0], fields)
      case Err(e) =>
      case Ok(c) =>
        match Context(a[1..], fields)
        case Err(e) =>
        case Ok(x) =>
          match Context(b, fields)
          case Err(e) =>
          case Ok(y) =>
            assert c + (x + y) == (c + x) + y;
    }
  }

  /** Once the hits before position i extract cleanly, a failing hit i makes the whole extraction fail with its error. */
  lemma FailingHitAborts(hits: seq<Hit>, fields: FieldMap, i: nat)
    requires i < |hits|
    requires Context(hits[..i], fields).Ok?
    requires Contribution(hits[i], fields).Err?
    ensures Context(hits, fields) == Err(Contribution(hits[i], fields).error)
  {
    assert hits == hits[..i] + hits[i..];
    ContextAppend(hits[..i], hits[i..], fields);
  }

  /** Extraction succeeds exactly when every hit contributes. */
  lemma {:induction false} ContextSucceedsIff(hits: seq<Hit>, fields: FieldMap)
    ensures Context(hits, fields).Ok? <==>
      forall i :: 0 <= i < |hits| ==> Contribution(hits[i], fields).Ok?
    decreases |hits|
  {
    if |hits| > 0 {
      ContextSucceedsIff(hits[1..], fields);
      assert forall i :: 1 <= i < |hits| ==> hits[1..][i - 1] == hits[i];
    }
  }

  /** A failed extraction reports the error of the first hit that fails. */
  lemma {:induction false} ContextFirstError(hits: seq<Hit>, fields: FieldMap)
    requires Context(hits, fields).Err?
    ensures exists i ::
      && 0 <= i < |hits|
      && Contribution(hits[i], fields) == Err(Context(hits, fields).error)
      && forall j :: 0 <= j < i ==> Contribution(hits[j], fields).Ok?
    decreases |hits|
  {
    if Contribution(hits[0], fields).Err? {
      assert Contribution(hits[0], fields) == Err(Context(hits, fields).error);
    } else {
      ContextFirstError(hits[1..], fields);
      var i :| 0 <= i < |hits[1..]|
        && Contribution(hits[1..][i], fields) == Err(Context(hits[1..], fields).error)
        && forall j :: 0 <= j < i ==> Contribution(hits[1..][j], fields).Ok?;
      assert forall j :: 1 <= j < i + 1 ==> hits[j] == hits[1..][j - 1];
      assert Contribution(hits[i + 1], fields) == Err(Context(hits, fields).error);
    }
  }

  /** A hit from an index with no field mapping fails extraction, whichever path it would take. */
  lemma UnknownIndexFails(hits: seq<Hit>, fields: FieldMap, i: nat)
    requires i < |hits| && hits[i].index !in fields
    ensures Contribution(hits[i], fields) == Err(UnknownIndex(hits[i].index))
    ensures Context(hits, fields).Err?
  {
    ContextSucceedsIff(hits, fields);
  }

  /** The inner-hit path: the group's fragment texts, in order, joined by the separator. */
  lemma InnerHitPath(hit: Hit, fields: FieldMap)
    requires hit.index in fields && |fields[hit.index]| > 0
    requires hit.innerHits.Some?
    requires InnerHitKey(hit.index, fields[hit.index][0]) in hit.innerHits.value
    ensures var fragments := hit.innerHits.value[InnerHitKey(hit.index, fields[hit.index][0])];
      Contribution(hit, fields) ==
        if forall i :: 0 <= i < |fragments| ==> "text" in fragments[i].source
        then Ok(Join(FragmentSeparator, seq(|fragments|, i requires 0 <= i < |fragments| => fragments[i].source["text"])))
        else Err(MissingFragmentText)
  {
    var fragments := hit.innerHits.value[InnerHitKey(hit.index, fields[hit.index][0])];
    var texts := FragmentTexts(fragments);
    if texts.Ok? {
      assert texts.value == seq(|fragments|, i requires 0 <= i < |fragments| => fragments[i].source["text"]);
    }
  }

  /** The fallback path: with no matching inner-hit group, the top-level field and a newline. */
  lemma FallbackPath(hit: Hit, fields: FieldMap)
    requires hit.index in fields && |fields[hit.index]| > 0
    requires hit.innerHits.None? || InnerHitKey(hit.index, fields[hit.index][0]) !in hit.innerHits.value
    ensures var field := fields[hit.index][0];
      Contribution(hit, fields) ==
        if field in hit.source then Ok(hit.source[field] + "\n") else Err(MissingSourceField(field))
  {
  }

  /** With the shipped configuration, the key looked up is the name the retrieval request gives its inner hits. */
  lemma DefaultKeyMatchesRequest()
    ensures TextField(DefaultFieldMap, SearchIndex) == Ok("ai_embeddings")
    ensures InnerHitKey(SearchIndex, "ai_embeddings") == InnerHitsName
  {
  }

  /** Fragments built from texts give those texts back. */
  lemma FragmentTextsOfTexts(texts: seq<string>)
    ensures FragmentTexts(seq(|texts|, i requires 0 <= i < |texts| => Fragment(map["text" := texts[i]]))) == Ok(texts)
  {
    var fragments := seq(|texts|, i requires 0 <= i < |texts| => Fragment(map["text" := texts[i]]));
    assert forall i :: 0 <= i < |fragments| ==> "text" in fragments[i].source;
    var r := FragmentTexts(fragments);
    assert |r.value| == |texts|;
    assert forall i :: 0 <= i < |texts| ==> r.value[i] == texts[i];
    assert r.value == texts;
  }

  /** One hit, two fragments "A" and "B": the context is "A\n --- \nB". */
  lemma TwoFragmentsExample()
    ensures var hit := Hit(SearchIndex, map[], Some(map[InnerHitsName := [Fragment(map["text" := "A"]), Fragment(map["text" := "B"])]]));
      Context([hit], DefaultFieldMap) == Ok("A\n --- \nB")
  {
    DefaultKeyMatchesRequest();
    var fragments := [Fragment(map["text" := "A"]), Fragment(map["text" := "B"])];
    var hit := Hit(SearchIndex, map[], Some(map[InnerHitsName := fragments]));
    FragmentTextsOfTexts(["A", "B"]);
    assert fragments == seq(2, i requires 0 <= i < 2 => Fragment(map["text" := ["A", "B"][i]]));
    assert TextField(DefaultFieldMap, hit.index) == Ok("ai_embeddings");
    assert Join(FragmentSeparator, ["A", "B"]) == "A" + FragmentSeparator + "B";
    assert "A" + FragmentSeparator + "B" == "A\n --- \nB";
    assert "A\n --- \nB" + "" == "A\n --- \nB";
    assert Contribution(hit, DefaultFieldMap) == Ok("A\n --- \nB");
    assert [hit][1..] == [];
  }

  /** One hit without inner hits whose field holds "C": the context is "C\n". */
  lemma FallbackExample()
    ensures Context([Hit(SearchIndex, map["ai_embeddings" := "C"], None)], DefaultFieldMap) == Ok("C\n")
  {
    DefaultKeyMatchesRequest();
    var hit := Hit(SearchIndex, map["ai_embeddings" := "C"], None);
    assert TextField(DefaultFieldMap, hit.index) == Ok("ai_embeddings");
    assert "C" + "\n" == "C\n";
    assert "C\n" + "" == "C\n";
    assert Contribution(hit, DefaultFieldMap) == Ok("C\n");
    assert [hit][1..] == [];
  }

  /**
   * A hit whose inner-hit group is present but empty adds nothing and
   * raises nothing: it is dropped silently, unlike a hit with no text.
   */
  lemma EmptyInnerHitsAddNothing(hits: seq<Hit>, fields: FieldMap, i: nat)
    requires i < |hits| && TextField(fields, hits[i].index).Ok?
    requires hits[i].innerHits.Some?
    requires InnerHitKey(hits[i].index, TextField(fields, hits[i].index).value) in hits[i].innerHits.value
    requires hits[i].innerHits.value[InnerHitKey(hits[i].index, TextField(fields, hits[i].index).value)] == []
    ensures Contribution(hits[i], fields) == Ok("")
    ensures Context(hits, fields) == Context(hits[..i] + hits[i + 1..], fields)
  {
    assert FragmentTexts([]) == Ok([]);
    assert Join(FragmentSeparator, []) == "";
    ContextAppend(hits[..i], [hits[i]] + hits[i + 1..], fields);
    assert hits == hits[..i] + ([hits[i]] + hits[i + 1..]);
    assert ([hits[i]] + hits[i + 1..])[1..] == hits[i + 1..];
    assert Context([hits[i]] + hits[i + 1..], fields) == Context(hits[i + 1..], fields) by {
      match Context(hits[i + 1..], fields)
      case Err(_) =>
      case Ok(rest) => assert "" + rest == rest;
    }
    ContextAppend(hits[..i], hits[i + 1..], fields);
  }

  /** The example of the above: one hit on the inner-hit path whose group is empty gives the empty context. */
  lemma EmptyInnerHitsExample()
    ensures Context([Hit(SearchIndex, map[], Some(map[InnerHitsName := []]))], DefaultFieldMap) == Ok("")
  {
    DefaultKeyMatchesRequest();
    var hit := Hit(SearchIndex, map[], Some(map[InnerHitsName := []]));
    assert TextField(DefaultFieldMap, hit.index) == Ok("ai_embeddings");
    EmptyInnerHitsAddNothing([hit], DefaultFieldMap, 0);
    assert [hit][..0] + [hit][1..] == [];
  }

  /**
   * Two hits on the inner-hit path, one fragment each: their texts run
   * together with no separator, since nothing follows the join.
   */
  lemma AdjacentInnerHitsExample()
    ensures var a := Hit(SearchIndex, map[], Some(map[InnerHitsName := [Fragment(map["text" := "A"])]]));
      var b := Hit(SearchIndex, map[], Some(map[InnerHitsName := [Fragment(map["text" := "B"])]]));
      Context([a, b], DefaultFieldMap) == Ok("AB")
  {
    DefaultKeyMatchesRequest();
    var a := Hit(SearchIndex, map[], Some(map[InnerHitsName := [Fragment(map["text" := "A"])]]));
    var b := Hit(SearchIndex, map[], Some(map[InnerHitsName := [Fragment(map["text" := "B"])]]));
    FragmentTextsOfTexts(["A"]);
    FragmentTextsOfTexts(["B"]);
    assert [Fragment(map["text" := "A"])] == seq(1, i requires 0 <= i < 1 => Fragment(map["text" := ["A"][i]]));
    assert [Fragment(map["text" := "B"])] == seq(1, i requires 0 <= i < 1 => Fragment(map["text" := ["B"][i]]));
    assert TextField(DefaultFieldMap, SearchIndex) == Ok("ai_embeddings");
    assert Contribution(a, DefaultFieldMap) == Ok("A");
    assert Contribution(b, DefaultFieldMap) == Ok("B");
    assert [a, b][1..] == [b];
    assert [b][1..] == [];
    assert Context([b], DefaultFieldMap) == Ok("B" + "");
    assert "A" + ("B" + "") == "AB";
  }
}
