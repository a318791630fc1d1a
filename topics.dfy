/**
 * The topics router: the cleaning of a completion into a topic list, and the
 * two generation routes behind `authenticateToken, checkSubscription`, whose
 * validators require both a topic and a model.
 */
module TopicRoutes {

  import opened Base
  import opened JsText
  import opened Seqs
  import opened Http
  import opened Crypto
  import opened Sanitizers
  import opened Completions
  import opened SubscriptionGate

  const TopicRequired := "Topic is required"
  const ModelRequired := "Model is required"

  /** The number of decimal digits `s` starts with. */
  function LeadingDigits(s: string): (k: nat)
    ensures k <= |s|
    ensures forall i :: 0 <= i < k ==> IsDigit(s[i])
    ensures k < |s| ==> !IsDigit(s[k])
  {
    if s != [] && IsDigit(s[0]) then 1 + LeadingDigits(s[1..]) else 0
  }

  /** `s` begins with `^\d+\.`. */
  predicate HasOrdinal(s: string) {
    0 < LeadingDigits(s) < |s| && s[LeadingDigits(s)] == '.'
  }

  /**
   * `s.replace(/^\d+\.\s*`+`/, '')`: one leading "<digits>." and the
   * whitespace after it are removed; anything else is left as it is.
   */
  function StripOrdinal(s: string): (r: string)
    ensures !HasOrdinal(s) ==> r == s
    ensures HasOrdinal(s) ==> r == TrimStart(s[LeadingDigits(s) + 1..])
  {
    if HasOrdinal(s) then TrimStart(s[LeadingDigits(s) + 1..]) else s
  }

  /** `t.replace(/^\d+\.\s*`+`/, '').trim()`. */
  function CleanTopic(line: string): (t: string)
    ensures Trimmed(t)
  {
    Trim(StripOrdinal(line))
  }

  /** `t && !t.startsWith('-')`. */
  predicate IsTopic(t: string) {
    t != [] && t[0] != '-'
  }

  /** The cleaned lines, before the filter. */
  function CleanedLines(content: string): (lines: seq<string>)
    ensures |lines| == |Split(content, '\n')|
    ensures forall i :: 0 <= i < |lines| ==> Trimmed(lines[i])
    ensures forall i :: 0 <= i < |lines| ==> lines[i] == CleanTopic(Split(content, '\n')[i])
  {
    Map(Split(content, '\n'), CleanTopic)
  }

  /**
   * `content.split('\n').map(...).filter(...)`: every topic is non-empty,
   * does not start with '-' and carries no surrounding whitespace, and the
   * topics are the kept cleaned lines in their original order, so there are
   * never more of them than lines.
   */
  function ParseTopics(content: string): (topics: seq<string>)
    ensures forall k :: 0 <= k < |topics| ==> topics[k] != [] && topics[k][0] != '-' && Trimmed(topics[k])
    ensures IsSubsequence(topics, CleanedLines(content))
    ensures forall i :: 0 <= i < |CleanedLines(content)| && IsTopic(CleanedLines(content)[i]) ==>
      CleanedLines(content)[i] in topics
    ensures |topics| <= |Split(content, '\n')|
  {
    var lines := CleanedLines(content);
    var topics := Filter(lines, IsTopic);
    FilterSound(lines, IsTopic);
    FilterLength(lines, IsTopic);
    FilterKeepsProperty(lines, IsTopic, Trimmed);
    topics
  }

  /** A single line yields its cleaned form, or nothing when that is empty or a bullet. */
  lemma ParseSingleLine(a: string)
    requires '\n' !in a
    ensures ParseTopics(a) == if IsTopic(CleanTopic(a)) then [CleanTopic(a)] else []
  {
    SplitSingleLine(a, '\n');
    assert CleanedLines(a) == [CleanTopic(a)];
    FilterSingleton(CleanTopic(a), IsTopic);
  }

  /** Parsing works line by line: a first line and the rest parse independently and concatenate. */
  lemma ParseTopicsLineByLine(a: string, rest: string)
    requires '\n' !in a
    ensures ParseTopics(a + "\n" + rest) == ParseTopics(a) + ParseTopics(rest)
  {
    SplitAtSeparator(a, rest, '\n');
    SplitSingleLine(a, '\n');
    MapConcat(Split(a, '\n'), Split(rest, '\n'), CleanTopic);
    FilterConcat(CleanedLines(a), CleanedLines(rest), IsTopic);
  }

  predicate AllDigits(d: string) {
    forall i :: 0 <= i < |d| ==> IsDigit(d[i])
  }

  /** `\d+` takes all the digits there are. */
  lemma {:induction false} LeadingDigitsOf(d: string, rest: string)
    requires AllDigits(d)
    requires rest == [] || !IsDigit(rest[0])
    ensures LeadingDigits(d + rest) == |d|
  {
    if d != [] {
      assert (d + rest)[1..] == d[1..] + rest;
      LeadingDigitsOf(d[1..], rest);
    } else {
      assert d + rest == rest;
    }
  }

  /**
   * Exactly one ordinal is removed: whatever follows "<digits>." and its
   * whitespace is trimmed but otherwise kept, a second ordinal included
   * ("1. 2. x" cleans to "2. x").
   */
  lemma OneOrdinalRemoved(d: string, ws: string, t: string)
    requires d != [] && AllDigits(d) && AllWhitespace(ws)
    ensures CleanTopic(d + "." + ws + t) == Trim(t)
  {
    var line := d + "." + ws + t;
    LeadingDigitsOf(d, "." + ws + t);
    assert line == d + ("." + ws + t);
    assert line[|d| + 1..] == ws + t;
    TrimStartSkipsWhitespace(ws, t);
    assert StripOrdinal(line) == TrimStart(t);
    assert Trim(TrimStart(t)) == Trim(t);
  }

  /** An ordinal counts only at column 0: an indented line is just trimmed (" 1. x" cleans to "1. x"). */
  lemma IndentedLineKeepsOrdinal(ws: string, t: string)
    requires ws != [] && AllWhitespace(ws)
    ensures CleanTopic(ws + t) == Trim(t)
  {
    assert IsWhitespace((ws + t)[0]);
    assert !IsDigit((ws + t)[0]);
    TrimSkipsLeadingWhitespace(ws, t);
  }

  /**
   * The dash test runs after the ordinal is stripped: a numbered bullet such
   * as "3. - x" is dropped.
   */
  lemma NumberedBulletDropped(d: string, ws: string, t: string)
    requires d != [] && AllDigits(d) && AllWhitespace(ws)
    requires t != [] && t[0] == '-' && '\n' !in d + "." + ws + t
    ensures ParseTopics(d + "." + ws + t) == []
  {
    OneOrdinalRemoved(d, ws, t);
    TrimKeepsFirst(t);
    ParseSingleLine(d + "." + ws + t);
  }

  /** The validator chain of both routes. */
  function GenerationErrors(body: map<string, string>): (errors: seq<string>)
    ensures errors == [] <==> Field(body, "topic") != "" && Field(body, "model") != ""
  {
    RequireNonEmpty(Field(body, "topic"), TopicRequired) + RequireNonEmpty(Field(body, "model"), ModelRequired)
  }

  /** The handler of `/generate-topics`, after the gates. */
  function TopicsHandler(req: Request, v: Validators, upstream: Upstream): (r: Outcome<()>)
    ensures !r.Next?
    ensures GenerationErrors(req.body) != [] ==> r == Respond(400, ValidationErrors(GenerationErrors(req.body)))
    ensures GenerationErrors(req.body) == [] ==>
      match upstream(Sanitized(v, Field(req.body, "model")), TopicIdeas(Sanitized(v, Field(req.body, "topic"))))
      case Err(e) => r == Fail(e)
      case Ok(content) => r == Respond(200, TopicList(ParseTopics(content)))
  {
    var errors := GenerationErrors(req.body);
    if errors != [] then Respond(400, ValidationErrors(errors))
    else
      var topic, model := Sanitized(v, Field(req.body, "topic")), Sanitized(v, Field(req.body, "model"));
      match upstream(model, TopicIdeas(topic))
      case Err(e) => Fail(e)
      case Ok(content) => Respond(200, TopicList(ParseTopics(content)))
  }

  /** The handler of `/generate-blog`, after the gates: the completion is returned verbatim. */
  function BlogHandler(req: Request, v: Validators, upstream: Upstream): (r: Outcome<()>)
    ensures !r.Next?
    ensures GenerationErrors(req.body) != [] ==> r == Respond(400, ValidationErrors(GenerationErrors(req.body)))
    ensures GenerationErrors(req.body) == [] ==>
      match upstream(Sanitized(v, Field(req.body, "model")), Article(Sanitized(v, Field(req.body, "topic"))))
      case Err(e) => r == Fail(e)
      case Ok(content) => r == Respond(200, BlogPost(content))
  {
    var errors := GenerationErrors(req.body);
    if errors != [] then Respond(400, ValidationErrors(errors))
    else
      var topic, model := Sanitized(v, Field(req.body, "topic")), Sanitized(v, Field(req.body, "model"));
      match upstream(model, Article(topic))
      case Err(e) => Fail(e)
      case Ok(content) => Respond(200, BlogPost(content))
  }

  /** `POST /generate-topics`: the two gates, then the handler. */
  function GenerateTopics(req: Request, env: Env, verify: (string, string) -> Option<Claims>, store: Store,
                          v: Validators, upstream: Upstream): (r: Outcome<()>)
    ensures !r.Next?
    ensures ProtectedGates(req, env, verify, store).Next? ==> r == TopicsHandler(req, v, upstream)
    ensures !ProtectedGates(req, env, verify, store).Next? ==> r == Halt(ProtectedGates(req, env, verify, store))
  {
    Then(ProtectedGates(req, env, verify, store), (_: Claims) => TopicsHandler(req, v, upstream))
  }

  /** `POST /generate-blog`: the two gates, then the handler. */
  function GenerateBlog(req: Request, env: Env, verify: (string, string) -> Option<Claims>, store: Store,
                        v: Validators, upstream: Upstream): (r: Outcome<()>)
    ensures !r.Next?
    ensures ProtectedGates(req, env, verify, store).Next? ==> r == BlogHandler(req, v, upstream)
    ensures !ProtectedGates(req, env, verify, store).Next? ==> r == Halt(ProtectedGates(req, env, verify, store))
  {
    Then(ProtectedGates(req, env, verify, store), (_: Claims) => BlogHandler(req, v, upstream))
  }

  /**
   * The gates run before validation: a request they turn away gets their
   * answer whatever its body holds, an empty body included, and the upstream
   * is never consulted.
   */
  lemma GatesBeforeValidation(req: Request, env: Env, verify: (string, string) -> Option<Claims>, store: Store,
                              v: Validators, upstream: Upstream, other: Upstream)
    requires !ProtectedGates(req, env, verify, store).Next?
    ensures GenerateTopics(req, env, verify, store, v, upstream)
         == GenerateTopics(req.(body := map[]), env, verify, store, v, other)
    ensures GenerateBlog(req, env, verify, store, v, upstream)
         == GenerateBlog(req.(body := map[]), env, verify, store, v, other)
  {
    assert ProtectedGates(req, env, verify, store) == ProtectedGates(req.(body := map[]), env, verify, store);
  }

  /** An empty topic or model is answered with 400 before the upstream is called. */
  lemma EmptyFieldNeverReachesUpstream(req: Request, v: Validators, upstream: Upstream, other: Upstream)
    requires Field(req.body, "topic") == "" || Field(req.body, "model") == ""
    ensures TopicsHandler(req, v, upstream) == TopicsHandler(req, v, other)
    ensures BlogHandler(req, v, upstream) == BlogHandler(req, v, other)
    ensures TopicsHandler(req, v, upstream).Respond? && TopicsHandler(req, v, upstream).status == 400
  {
  }
}
