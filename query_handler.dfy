/**
 * The `/query` handler (src/backend/app.py): the input gate, the
 * retrieve, extract, complete sequence, and the mapping of failures onto
 * replies. The two backends are parameters that either answer or raise;
 * the handler's result records which of them it called, in order.
 */
module QueryHandler {
  import opened Wrappers
  import opened Text
  import opened Hits
  import opened ContextExtractor
  import opened PromptBuilder

  /** A decoded JSON request body. */
  datatype Json =
    | JNull
    | JBool(b: bool)
    | JNumber(n: int)
    | JString(s: string)
    | JArray(elements: seq<Json>)
    | JObject(members: map<string, Json>)

  /** Python's truth value of the decoded body (`not data`). */
  predicate Truthy(data: Json)
    ensures !Truthy(data) <==> data in {JNull, JBool(false), JNumber(0), JString(""), JArray([]), JObject(map[])}
  {
    match data
    case JNull => false
    case JBool(b) => b
    case JNumber(n) => n != 0
    case JString(s) => s != ""
    case JArray(elements) => elements != []
    case JObject(members) => members != map[]
  }

  /** Python's `key in data`; None where Python raises TypeError. */
  function HasKey(data: Json, key: string): (r: Option<bool>)
    ensures r.None? <==> data.JNull? || data.JBool? || data.JNumber?
    ensures data.JObject? ==> r == Some(key in data.members)
    ensures data.JArray? ==> r == Some(exists i :: 0 <= i < |data.elements| && data.elements[i] == JString(key))
    ensures data.JString? ==> r == Some(exists i :: FoundAt(key, data.s, i))
  {
    match data
    case JObject(members) => Some(key in members)
    case JArray(elements) => Some(JString(key) in elements)
    case JString(s) => OccursIff(key, s); Some(Occurs(key, s))
    case _ => None
  }

  /** Python's `data[key]` for a string key; None where Python raises TypeError. */
  function Lookup(data: Json, key: string): (r: Option<Json>)
    ensures r.Some? <==> data.JObject? && key in data.members
    ensures r.Some? ==> r.value == data.members[key] && HasKey(data, key) == Some(true)
    ensures (data.JArray? || data.JString?) && HasKey(data, key) == Some(true) ==> r.None?
  {
    match data
    case JObject(members) => if key in members then Some(members[key]) else None
    case _ => None
  }

  /** A backend call the handler made. */
  datatype Call = Search(query: Json) | Complete(prompt: string, question: Json)

  datatype Body = ErrorBody(error: string) | AnswerBody(response: string)

  /**
   * What the client gets: a JSON reply with a status, or an exception that
   * escaped the handler and is answered by the web framework itself.
   */
  datatype Reply = Reply(status: int, body: Body) | Uncaught

  /** The reply together with the backend calls made, in order. */
  datatype Exchange = Exchange(reply: Reply, calls: seq<Call>)

  const SentenceKey: string := "sentence"
  const InvalidInput: string := "Invalid input, 'sentence' key is required"
  const ProcessingFailed: string := "Failed to process the request"

  const BadRequest: Reply := Reply(400, ErrorBody(InvalidInput))
  const ServerError: Reply := Reply(500, ErrorBody(ProcessingFailed))

  /** The body is turned away with 400: it is falsy or has no "sentence" key. */
  predicate Rejected(data: Json)
  {
    !Truthy(data) || HasKey(data, SentenceKey) == Some(false)
  }

  /** The body passes the gate and yields a sentence. */
  predicate Accepted(data: Json)
  {
    Truthy(data) && HasKey(data, SentenceKey) == Some(true) && Lookup(data, SentenceKey).Some?
  }

  /**
   * The `try` block: search, build the prompt, complete. Any failure is the
   * same opaque 500; a failure before completion means completion is never called.
   */
  function Answer(
    sentence: Json,
    fields: FieldMap,
    search: Json -> Result<seq<Hit>, string>,
    complete: (string, Json) -> Result<string, string>): (x: Exchange)
    ensures |x.calls| >= 1 && x.calls[0] == Search(sentence)
    ensures x.reply == ServerError || (x.reply.Reply? && x.reply.status == 200)
    ensures x.reply.status == 200 <==>
      search(sentence).Ok? && PromptFor(search(sentence).value, fields).Ok?
      && complete(PromptFor(search(sentence).value, fields).value, sentence).Ok?
    ensures |x.calls| == 2 <==> search(sentence).Ok? && PromptFor(search(sentence).value, fields).Ok?
    ensures |x.calls| == 2 ==> x.calls[1] == Complete(PromptFor(search(sentence).value, fields).value, sentence)
    ensures x.reply.status == 200 ==>
      x.reply.body == AnswerBody(complete(PromptFor(search(sentence).value, fields).value, sentence).value)
    ensures |x.calls| <= 2
  {
    match search(sentence)
    case Err(_) => Exchange(ServerError, [Search(sentence)])
    case Ok(hits) =>
      match PromptFor(hits, fields)
      case Err(_) => Exchange(ServerError, [Search(sentence)])
      case Ok(prompt) =>
        var calls := [Search(sentence), Complete(prompt, sentence)];
        match complete(prompt, sentence)
        case Err(_) => Exchange(ServerError, calls)
        case Ok(answer) => Exchange(Reply(200, AnswerBody(answer)), calls)
  }

  /** The `/query` handler for a decoded request body. */
  function Query(
    data: Json,
    fields: FieldMap,
    search: Json -> Result<seq<Hit>, string>,
    complete: (string, Json) -> Result<string, string>): (x: Exchange)
    ensures x.reply == BadRequest <==> Rejected(data)
    ensures x.reply == BadRequest ==> x.calls == []
    ensures x.reply.Uncaught? ==> x.calls == []
    ensures x.calls != [] <==> Accepted(data)
    ensures x.reply.Reply? ==> x.reply.status in {200, 400, 500}
    ensures x.reply.Reply? && x.reply.status == 500 ==> x.reply.body == ErrorBody(ProcessingFailed)
    ensures Accepted(data) ==> x == Answer(Lookup(data, SentenceKey).value, fields, search, complete)
    ensures x.reply.Uncaught? <==> !Rejected(data) && !Accepted(data)
  {
    if !Truthy(data) then Exchange(BadRequest, [])
    else
      match HasKey(data, SentenceKey)
      case None => Exchange(Uncaught, [])
      case Some(present) =>
        if !present then Exchange(BadRequest, [])
        else
          match Lookup(data, SentenceKey)
          case None => Exchange(Uncaught, [])
          case Some(sentence) => Answer(sentence, fields, search, complete)
  }

  /** For an object body the gate is key presence: 400 iff "sentence" is missing, else search for its value. */
  lemma ObjectGate(members: map<string, Json>, fields: FieldMap,
                   search: Json -> Result<seq<Hit>, string>,
                   complete: (string, Json) -> Result<string, string>)
    ensures var x := Query(JObject(members), fields, search, complete);
      (x.reply == BadRequest <==> SentenceKey !in members)
      && (SentenceKey in members ==> x.calls[0] == Search(members[SentenceKey]))
  {
  }

  /** An empty sentence is not turned away: it goes to the search backend as it is. */
  lemma EmptySentenceAccepted(fields: FieldMap,
                              search: Json -> Result<seq<Hit>, string>,
                              complete: (string, Json) -> Result<string, string>)
    ensures var x := Query(JObject(map[SentenceKey := JString("")]), fields, search, complete);
      x.reply != BadRequest && x.calls[0] == Search(JString(""))
  {
    ObjectGate(map[SentenceKey := JString("")], fields, search, complete);
  }

  /**
   * Only a JSON object reaches the backends. A list or string holding "sentence",
   * and any truthy boolean or number, escapes as an exception.
   */
  lemma OnlyObjectsReachBackends(data: Json, fields: FieldMap,
                                 search: Json -> Result<seq<Hit>, string>,
                                 complete: (string, Json) -> Result<string, string>)
    ensures Query(data, fields, search, complete).calls != [] ==> data.JObject?
    ensures (data.JArray? || data.JString?) && Truthy(data) && HasKey(data, SentenceKey) == Some(true)
      ==> Query(data, fields, search, complete) == Exchange(Uncaught, [])
    ensures (data.JBool? || data.JNumber?) && Truthy(data)
      ==> Query(data, fields, search, complete) == Exchange(Uncaught, [])
  {
  }

  /** A failed search ends the request with the opaque 500; completion is never called. */
  lemma SearchFailure(members: map<string, Json>, fields: FieldMap,
                      search: Json -> Result<seq<Hit>, string>,
                      complete: (string, Json) -> Result<string, string>)
    requires SentenceKey in members && search(members[SentenceKey]).Err?
    ensures Query(JObject(members), fields, search, complete)
      == Exchange(ServerError, [Search(members[SentenceKey])])
  {
  }

  /** A failed extraction (say, a hit from an unmapped index) ends the same way, before completion. */
  lemma ExtractionFailure(members: map<string, Json>, fields: FieldMap,
                          search: Json -> Result<seq<Hit>, string>,
                          complete: (string, Json) -> Result<string, string>)
    requires SentenceKey in members && search(members[SentenceKey]).Ok?
    requires Context(search(members[SentenceKey]).value, fields).Err?
    ensures Query(JObject(members), fields, search, complete)
      == Exchange(ServerError, [Search(members[SentenceKey])])
  {
  }

  /** A failed completion ends the request with the opaque 500 after both backends were called once. */
  lemma CompletionFailure(members: map<string, Json>, fields: FieldMap,
                          search: Json -> Result<seq<Hit>, string>,
                          complete: (string, Json) -> Result<string, string>)
    requires SentenceKey in members && search(members[SentenceKey]).Ok?
    requires Context(search(members[SentenceKey]).value, fields).Ok?
    requires complete(Prompt(Context(search(members[SentenceKey]).value, fields).value), members[SentenceKey]).Err?
    ensures var s := members[SentenceKey];
      Query(JObject(members), fields, search, complete)
      == Exchange(ServerError, [Search(s), Complete(Prompt(Context(search(s).value, fields).value), s)])
  {
  }

  /**
   * A 200 reply carries the completion of exactly the prompt built from the
   * searched hits, and both backends were called once, search first.
   */
  lemma SuccessMeaning(data: Json, fields: FieldMap,
                       search: Json -> Result<seq<Hit>, string>,
                       complete: (string, Json) -> Result<string, string>)
    requires Query(data, fields, search, complete).reply.Reply?
    requires Query(data, fields, search, complete).reply.status == 200
    ensures exists sentence, hits, context ::
      && Lookup(data, SentenceKey) == Some(sentence)
      && search(sentence) == Ok(hits)
      && Context(hits, fields) == Ok(context)
      && complete(Prompt(context), sentence).Ok?
      && Query(data, fields, search, complete) == Exchange(
           Reply(200, AnswerBody(complete(Prompt(context), sentence).value)),
           [Search(sentence), Complete(Prompt(context), sentence)])
  {
  }

  /**
   * The reply never depends on what a backend failure said: backends that
   * fail on the same inputs and agree where they succeed give the same exchange.
   */
  lemma ErrorDetailHidden(data: Json, fields: FieldMap,
                          search1: Json -> Result<seq<Hit>, string>,
                          complete1: (string, Json) -> Result<string, string>,
                          search2: Json -> Result<seq<Hit>, string>,
                          complete2: (string, Json) -> Result<string, string>)
    requires forall q :: search1(q).Ok? == search2(q).Ok? && (search1(q).Ok? ==> search1(q) == search2(q))
    requires forall p, q :: complete1(p, q).Ok? == complete2(p, q).Ok? && (complete1(p, q).Ok? ==> complete1(p, q) == complete2(p, q))
    ensures Query(data, fields, search1, complete1) == Query(data, fields, search2, complete2)
  {
  }

  /**
   * A well-formed question, two hits with one chunk each and a completion
   * backend that always says `answer`: status 200 with `answer`.
   */
  lemma EndToEndExample(fields: FieldMap,
                        search: Json -> Result<seq<Hit>, string>,
                        complete: (string, Json) -> Result<string, string>,
                        answer: string)
    requires fields == DefaultFieldMap
    requires search(JString("What colors does the Billy bookcase come in?")) == Ok([
      Hit(SearchIndex, map[], Some(map[InnerHitsName := [Fragment(map["text" := "A"])]])),
      Hit(SearchIndex, map[], Some(map[InnerHitsName := [Fragment(map["text" := "B"])]]))])
    requires forall p, q :: complete(p, q) == Ok(answer)
    ensures Query(JObject(map[SentenceKey := JString("What colors does the Billy bookcase come in?")]), fields, search, complete).reply
      == Reply(200, AnswerBody(answer))
  {
    AdjacentInnerHitsExample();
    var sentence := JString("What colors does the Billy bookcase come in?");
    var data := JObject(map[SentenceKey := sentence]);
    assert SentenceKey in data.members;
    assert Lookup(data, SentenceKey) == Some(sentence);
    assert PromptFor(search(sentence).value, fields) == Ok(Prompt("AB"));
    assert complete(Prompt("AB"), sentence) == Ok(answer);
  }
}
