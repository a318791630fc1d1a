/**
 * The chat router: the same two generation routes as the topics router,
 * but the model is fixed, only the topic is validated, and the completion
 * is cleaned by trimming alone.
 */
module ChatRoutes {

  import opened Base
  import opened JsText
  import opened Seqs
  import opened Http
  import opened Crypto
  import opened Sanitizers
  import opened Completions
  import opened SubscriptionGate

  const TopicRequired := "Topic is required"

  predicate NonEmpty(t: string) {
    t != []
  }

  /** The trimmed lines, before the filter. */
  function TrimmedLines(content: string): (lines: seq<string>)
    ensures |lines| == |Split(content, '\n')|
    ensures forall i :: 0 <= i < |lines| ==> Trimmed(lines[i])
    ensures forall i :: 0 <= i < |lines| ==> lines[i] == Trim(Split(content, '\n')[i])
  {
    Map(Split(content, '\n'), Trim)
  }

  /**
   * `content.split('\n').map(t => t.trim()).filter(t => t)`: exactly the
   * non-empty trimmed lines, in their original order.
   */
  function ParseLines(content: string): (topics: seq<string>)
    ensures forall k :: 0 <= k < |topics| ==> topics[k] != [] && Trimmed(topics[k])
    ensures IsSubsequence(topics, TrimmedLines(content))
    ensures forall i :: 0 <= i < |TrimmedLines(content)| && TrimmedLines(content)[i] != [] ==>
      TrimmedLines(content)[i] in topics
    ensures |topics| <= |Split(content, '\n')|
  {
    var lines := TrimmedLines(content);
    var topics := Filter(lines, NonEmpty);
    FilterSound(lines, NonEmpty);
    FilterLength(lines, NonEmpty);
    FilterKeepsProperty(lines, NonEmpty, Trimmed);
    topics
  }

  /** Parsing works line by line: a first line and the rest parse independently and concatenate. */
  lemma ParseLinesLineByLine(a: string, rest: string)
    requires '\n' !in a
    ensures ParseLines(a + "\n" + rest) == ParseLines(a) + ParseLines(rest)
  {
    SplitAtSeparator(a, rest, '\n');
    SplitSingleLine(a, '\n');
    MapConcat(Split(a, '\n'), Split(rest, '\n'), Trim);
    FilterConcat(TrimmedLines(a), TrimmedLines(rest), NonEmpty);
  }

  /**
   * Unlike the topics router, a numbered or bulleted line is kept verbatim
   * once trimmed: a single line is a topic exactly when it is not blank.
   */
  lemma EveryNonEmptyLineKept(a: string)
    requires '\n' !in a
    ensures ParseLines(a) == if Trim(a) != [] then [Trim(a)] else []
  {
    SplitSingleLine(a, '\n');
    var t := Trim(a);
    assert TrimmedLines(a) == [t];
    FilterSingleton(t, NonEmpty);
  }

  /** The validator chain of both routes: the topic only. */
  function ChatErrors(body: map<string, string>): (errors: seq<string>)
    ensures errors == [] <==> Field(body, "topic") != ""
  {
    RequireNonEmpty(Field(body, "topic"), TopicRequired)
  }

  /** The handler of `/generate-topics`, after the gates; the request's model is never read. */
  function TopicsHandler(req: Request, v: Validators, upstream: Upstream): (r: Outcome<()>)
    ensures !r.Next?
    ensures ChatErrors(req.body) != [] ==> r == Respond(400, ValidationErrors(ChatErrors(req.body)))
    ensures ChatErrors(req.body) == [] ==>
      match upstream(ChatModel, TopicIdeas(Sanitized(v, Field(req.body, "topic"))))
      case Err(e) => r == Fail(e)
      case Ok(content) => r == Respond(200, TopicList(ParseLines(content)))
  {
    var errors := ChatErrors(req.body);
    if errors != [] then Respond(400, ValidationErrors(errors))
    else
      match upstream(ChatModel, TopicIdeas(Sanitized(v, Field(req.body, "topic"))))
      case Err(e) => Fail(e)
      case Ok(content) => Respond(200, TopicList(ParseLines(content)))
  }

  /** The handler of `/generate-blog`, after the gates: the completion is returned verbatim. */
  function BlogHandler(req: Request, v: Validators, upstream: Upstream): (r: Outcome<()>)
    ensures !r.Next?
    ensures ChatErrors(req.body) != [] ==> r == Respond(400, ValidationErrors(ChatErrors(req.body)))
    ensures ChatErrors(req.body) == [] ==>
      match upstream(ChatModel, Article(Sanitized(v, Field(req.body, "topic"))))
      case Err(e) => r == Fail(e)
      case Ok(content) => r == Respond(200, BlogPost(content))
  {
    var errors := ChatErrors(req.body);
    if errors != [] then Respond(400, ValidationErrors(errors))
    else
      match upstream(ChatModel, Article(Sanitized(v, Field(req.body, "topic"))))
      case Err(e) => Fail(e)
      case Ok(content) => Respond(200, BlogPost(content))
  }

  /** `POST /generate-topics`: the two gates, then the handler. */
  function GenerateTopics(req: Request, env: Env, verify: (string, string) -> Option<Claims>, store: Store,
                          v: Validators, upstream: Upstream): (r: Outcome<()>)
    ensures !r.Next?
    ensures ProtectedGates(req, env, verify, store).Next? ==> r == TopicsHandler(req, v, upstream)
    ensures !ProtectedGates(req, env, verify, store).Next? ==> r == Halt(ProtectedGates(req, env, verify, store))
  {
    Then(ProtectedGates(req, env, verify, store), (_: Claims) => TopicsHandler(req, v, upstream))
  }

  /** `POST /generate-blog`: the two gates, then the handler. */
  function GenerateBlog(req: Request, env: Env, verify: (string, string) -> Option<Claims>, store: Store,
                        v: Validators, upstream: Upstream): (r: Outcome<()>)
    ensures !r.Next?
    ensures ProtectedGates(req, env, verify, store).Next? ==> r == BlogHandler(req, v, upstream)
    ensures !ProtectedGates(req, env, verify, store).Next? ==> r == Halt(ProtectedGates(req, env, verify, store))
  {
    Then(ProtectedGates(req, env, verify, store), (_: Claims) => BlogHandler(req, v, upstream))
  }

  /** Whatever model the request names, and whether it names one at all, both routes answer the same. */
  lemma ModelFieldIgnored(req: Request, env: Env, verify: (string, string) -> Option<Claims>, store: Store,
                          v: Validators, upstream: Upstream, model: string)
    ensures GenerateTopics(req.(body := req.body["model" := model]), env, verify, store, v, upstream)
         == GenerateTopics(req, env, verify, store, v, upstream)
    ensures GenerateBlog(req.(body := req.body["model" := model]), env, verify, store, v, upstream)
         == GenerateBlog(req, env, verify, store, v, upstream)
  {
    var other := req.(body := req.body["model" := model]);
    assert Field(other.body, "topic") == Field(req.body, "topic");
    assert ProtectedGates(other, env, verify, store) == ProtectedGates(req, env, verify, store);
  }

  /** The gates run before validation: a request they turn away gets their answer whatever its body holds. */
  lemma GatesBeforeValidation(req: Request, env: Env, verify: (string, string) -> Option<Claims>, store: Store,
                              v: Validators, upstream: Upstream, other: Upstream)
    requires !ProtectedGates(req, env, verify, store).Next?
    ensures GenerateTopics(req, env, verify, store, v, upstream)
         == GenerateTopics(req.(body := map[]), env, verify, store, v, other)
    ensures GenerateBlog(req, env, verify, store, v, upstream)
         == GenerateBlog(req.(body := map[]), env, verify, store, v, other)
  {
    assert ProtectedGates(req, env, verify, store) == ProtectedGates(req.(body := map[]), env, verify, store);
  }
}
