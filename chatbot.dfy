/**
  The rule-based chatbot of routes/chatbot.js: the keyword dispatch of
  `processQuery` (lines 176-357), the plan-achievement rate, and the choice
  between the external assistant, the rule-based reply and the canned reply
  in the two POST handlers (lines 13-85 and 88-173).
*/
module Chatbot {
  import opened Js

  // ---------------------------------------------------------------------
  // processQuery: keyword dispatch
  // ---------------------------------------------------------------------

  /** The branch of `processQuery` a query takes. */
  datatype Intent = Greeting | Help | TotalSales | TotalStock | ProductCount | BranchList
                  | Chennai | Bangalore | CriticalAlerts | Achievement | TopSelling | Technology
                  | LowStock | About | Unknown

  /** Each test of the chain: the branch taken and the keywords tried for
      it, in the order of the source. */
  datatype Rule = Rule(intent: Intent, words: seq<string>)

  const RULES: seq<Rule> := [
    Rule(Greeting, ["hello", "hi"]),
    Rule(Help, ["help", "command"]),
    Rule(TotalSales, ["total sales", "revenue"]),
    Rule(TotalStock, ["total stock", "inventory"]),
    Rule(ProductCount, ["products", "models"]),
    Rule(BranchList, ["branch", "cities"]),
    Rule(Chennai, ["chennai"]),
    Rule(Bangalore, ["bangalore"]),
    Rule(CriticalAlerts, ["critical", "alert"]),
    Rule(Achievement, ["plan achievement", "performance"]),
    Rule(TopSelling, ["top selling", "best selling"]),
    Rule(Technology, ["inverter", "technology"]),
    Rule(LowStock, ["low stock", "shortage"]),
    Rule(About, ["hansei", "who are you"])
  ]

  /** `query.includes(w1) || query.includes(w2) ...` for the rule's keywords. */
  predicate Fires(q: string, r: Rule) {
    exists k | 0 <= k < |r.words| :: Includes(q, r.words[k])
  }

  /** The chain of `if` statements with early returns: the first rule that
      fires decides, and a query no rule fires for gets the default reply. */
  function FirstMatch(q: string, rules: seq<Rule>): Intent
    decreases |rules|
  {
    if |rules| == 0 then Unknown
    else if Fires(q, rules[0]) then rules[0].intent
    else FirstMatch(q, rules[1..])
  }

  /** The branch `processQuery` takes for an already lower-cased query. */
  function Classify(q: string): Intent {
    FirstMatch(q, RULES)
  }

  /** No rule before the `j`-th fires. */
  predicate NoneBefore(q: string, rules: seq<Rule>, j: int) {
    forall i | 0 <= i < j && i < |rules| :: !Fires(q, rules[i])
  }

  /** The first rule that fires decides the branch, and with no rule firing
      the branch is the default one. */
  lemma {:induction false} FirstMatchIndex(q: string, rules: seq<Rule>)
    ensures NoneBefore(q, rules, |rules|) ==> FirstMatch(q, rules) == Unknown
    ensures forall j | 0 <= j < |rules| && Fires(q, rules[j]) && NoneBefore(q, rules, j) ::
      FirstMatch(q, rules) == rules[j].intent
    ensures FirstMatch(q, rules) != Unknown ==>
      exists m :: 0 <= m < |rules| && Fires(q, rules[m]) && NoneBefore(q, rules, m) && FirstMatch(q, rules) == rules[m].intent
    decreases |rules|
  {
    if |rules| > 0 {
      var rest := rules[1..];
      FirstMatchIndex(q, rest);
      if !Fires(q, rules[0]) {
        forall j | 1 <= j < |rules| && Fires(q, rules[j]) && NoneBefore(q, rules, j)
          ensures FirstMatch(q, rules) == rules[j].intent
        {
          assert rest[j - 1] == rules[j];
          assert NoneBefore(q, rest, j - 1);
        }
        if NoneBefore(q, rules, |rules|) {
          assert NoneBefore(q, rest, |rest|);
        }
        if FirstMatch(q, rest) != Unknown {
          var m :| 0 <= m < |rest| && Fires(q, rest[m]) && NoneBefore(q, rest, m) && FirstMatch(q, rest) == rest[m].intent;
          assert rules[m + 1] == rest[m];
          assert NoneBefore(q, rules, m + 1) by {
            forall i | 0 <= i < m + 1 && i < |rules| ensures !Fires(q, rules[i]) {
              if i > 0 {
                assert rules[i] == rest[i - 1];
              }
            }
          }
        }
      } else {
        assert NoneBefore(q, rules, 0);
      }
    }
  }

  /** Every intent but the default one has exactly one rule. */
  lemma RulesDistinct()
    ensures forall a, b | 0 <= a < b < |RULES| :: RULES[a].intent != RULES[b].intent
    ensures forall a | 0 <= a < |RULES| :: RULES[a].intent != Unknown
  {
  }

  /** A query takes the branch of rule `j` exactly when one of its keywords
      occurs in the query and no keyword of an earlier rule does. */
  lemma DispatchMeaning(q: string, j: nat)
    requires j < |RULES|
    ensures Classify(q) == RULES[j].intent <==> Fires(q, RULES[j]) && NoneBefore(q, RULES, j)
  {
    FirstMatchIndex(q, RULES);
    RulesDistinct();
  }

  /** With no rule for the default branch, the default branch is taken only
      when no rule fires. */
  lemma {:induction false} OnlyDefaultWhenSilent(q: string, rules: seq<Rule>)
    requires forall i | 0 <= i < |rules| :: rules[i].intent != Unknown
    ensures FirstMatch(q, rules) == Unknown ==> NoneBefore(q, rules, |rules|)
    decreases |rules|
  {
    if |rules| > 0 && !Fires(q, rules[0]) {
      var rest := rules[1..];
      OnlyDefaultWhenSilent(q, rest);
      if FirstMatch(q, rules) == Unknown {
        forall i | 0 <= i < |rules| ensures !Fires(q, rules[i]) {
          if i > 0 {
            assert rules[i] == rest[i - 1];
          }
        }
      }
    }
  }

  /** A query takes the default branch exactly when no keyword occurs in it. */
  lemma DispatchDefault(q: string)
    ensures Classify(q) == Unknown <==> NoneBefore(q, RULES, |RULES|)
  {
    FirstMatchIndex(q, RULES);
    RulesDistinct();
    OnlyDefaultWhenSilent(q, RULES);
  }

  /** An earlier rule that fires shadows every later one. */
  lemma Shadowed(q: string, i: nat, j: nat)
    requires i < j < |RULES| && Fires(q, RULES[i])
    ensures Classify(q) != RULES[j].intent
  {
    DispatchMeaning(q, j);
  }

  /** A query containing "hi" anywhere, as in "plan achievement" or "which
      branch", gets the greeting. */
  lemma GreetingFirst(q: string)
    requires Includes(q, "hello") || Includes(q, "hi")
    ensures Classify(q) == Greeting
  {
    assert RULES[0].words == ["hello", "hi"];
    assert Fires(q, RULES[0]) by {
      if Includes(q, "hello") {
        assert Includes(q, RULES[0].words[0]);
      } else {
        assert Includes(q, RULES[0].words[1]);
      }
    }
    DispatchMeaning(q, 0);
  }

  lemma AchievementQueryGreets()
    ensures Classify("plan achievement") == Greeting
  {
    GreetsAt("plan achievement", 7);
  }

  lemma BranchQueryGreets()
    ensures Classify("which branch") == Greeting
  {
    GreetsAt("which branch", 1);
  }

  /** A query with "hi" at position `i` gets the greeting. */
  lemma GreetsAt(q: string, i: nat)
    requires i + 2 <= |q| && q[i] == 'h' && q[i + 1] == 'i'
    ensures Classify(q) == Greeting
  {
    assert q[i..i + 2] == "hi";
    IncludesWitness(q, "hi", i);
    GreetingFirst(q);
  }

  /** "products" and "models" are tried before "top selling" and "best
      selling", so "top selling products" never reaches the top-selling
      branch. */
  lemma ProductsBeforeTopSelling(q: string)
    requires Includes(q, "products") || Includes(q, "models")
    ensures Classify(q) != TopSelling
  {
    assert RULES[4].words == ["products", "models"];
    assert Fires(q, RULES[4]) by {
      if Includes(q, "products") {
        assert Includes(q, RULES[4].words[0]);
      } else {
        assert Includes(q, RULES[4].words[1]);
      }
    }
    Shadowed(q, 4, 10);
  }

  /** "branch" is tried before the city names and "performance", so "chennai
      branch" or "branch performance" gets the branch list. */
  lemma BranchBeforeCities(q: string)
    requires Includes(q, "branch")
    ensures Classify(q) != Chennai && Classify(q) != Bangalore && Classify(q) != Achievement
  {
    assert Includes(q, RULES[5].words[0]);
    Shadowed(q, 5, 6);
    Shadowed(q, 5, 7);
    Shadowed(q, 5, 9);
  }

  // ---------------------------------------------------------------------
  // Case handling
  // ---------------------------------------------------------------------

  /** `w` occurs in `m` at `i` once the letters of that part are lower-cased. */
  predicate OccursAnyCase(m: string, w: string, i: int) {
    0 <= i && i + |w| <= |m| && Lower(m[i..i + |w|]) == w
  }

  lemma LowerSlice(m: string, i: nat, j: nat)
    requires i <= j <= |m|
    ensures Lower(m)[i..j] == Lower(m[i..j])
  {
  }

  /** The handlers dispatch on `message.toLowerCase()`: a keyword is found
      in the lowered message exactly when the message holds it in any mix of
      upper and lower case. */
  lemma CaseInsensitive(m: string, w: string)
    ensures Includes(Lower(m), w) <==> exists i :: OccursAnyCase(m, w, i)
  {
    IncludesAt(Lower(m), w);
    forall i ensures OccursAt(Lower(m), w, i) <==> OccursAnyCase(m, w, i) {
      if 0 <= i && i + |w| <= |m| {
        LowerSlice(m, i, i + |w|);
      }
    }
  }

  // ---------------------------------------------------------------------
  // processQuery: replies
  // ---------------------------------------------------------------------

  const GREETING := "Hello! I'm the Hansei AI assistant. How can I help you with the sales data today?"
  const HELP := "You can ask me things like:\n- What is the total stock?\n- How many products are there?\n"
    + "- Tell me about branch performance\n- What are the critical alerts?\n"
    + "- Show me the top selling products\n- What's the plan achievement rate?"
  const ABOUT := "I am an AI assistant for the Hansei Intelligence Portal. I can help you analyze sales data, "
    + "check inventory levels, and provide insights about branch performance. "
    + "I have access to real-time data across all branches and products."
  const DEFAULT_REPLY := "I'm not sure how to answer that. Please try asking about sales, stock, products, "
    + "branches, or type \"help\" for a list of commands."

  /** `plan > 0 ? Math.round((billing / plan) * 100) : 0`, computed exactly:
      rounding half up is the floor of (200 billing + plan) / (2 plan). */
  function AchievementRate(billing: int, plan: int): int {
    if plan > 0 then (200 * billing + plan) / (2 * plan) else 0
  }

  /** The rate is 0 without a positive plan, and otherwise the whole
      percentage nearest to 100 billing / plan, a half rounded up:
      r - 1/2 <= 100 billing / plan < r + 1/2. */
  lemma AchievementMeaning(billing: int, plan: int)
    ensures plan <= 0 ==> AchievementRate(billing, plan) == 0
    ensures plan > 0 ==> var r := AchievementRate(billing, plan);
      2 * r * plan - plan <= 200 * billing < 2 * r * plan + plan
  {
    if plan > 0 {
      var n, d := 200 * billing + plan, 2 * plan;
      var r := n / d;
      assert n == d * r + n % d && 0 <= n % d < d;
      assert 2 * r * plan == d * r;
    }
  }

  lemma MulMono(a: int, b: int, p: int)
    requires a <= b && p > 0
    ensures a * p <= b * p
  {
    assert b * p - a * p == (b - a) * p;
  }

  /** Billing within the plan gives a rate between 0 and 100, and billing
      equal to the plan gives 100. */
  lemma AchievementPercent(billing: int, plan: int)
    requires plan > 0 && 0 <= billing <= plan
    ensures 0 <= AchievementRate(billing, plan) <= 100
    ensures billing == plan ==> AchievementRate(billing, plan) == 100
  {
    AchievementMeaning(billing, plan);
    var r := AchievementRate(billing, plan);
    assert 2 * r * plan == 2 * (r * plan);
    if r < 0 {
      MulMono(r, -1, plan);
    }
    if r > 100 {
      MulMono(101, r, plan);
      MulMono(billing, plan, 200);
    }
    if billing == plan && r < 100 {
      MulMono(r, 99, plan);
    }
  }

  /** `parseInt(value) || 0` on a sum the driver returns as text, or null. */
  function IntOr0(v: Option<string>): int {
    match v
    case None => 0
    case Some(t) => if ParseIntText(t).Some? then ParseIntText(t).value else 0
  }

  function AchievementText(billing: int, plan: int): string {
    "The overall plan achievement rate is " + IntToString(AchievementRate(billing, plan)) + "%. Total billing: "
    + IntToString(billing) + " units against a plan of " + IntToString(plan) + " units."
  }

  /** What the branches that read the database see: the reply each of them
      builds from its query results, or the error a failing query throws, and
      the two sums of the plan-achievement query. */
  datatype Db = Db(answer: Intent -> Result<string>, sums: Result<(Option<string>, Option<string>)>)

  /** `processQuery(query)`: the reply, or the error it rejects with. */
  function ProcessQuery(q: string, db: Db): Result<string> {
    match Classify(q)
    case Greeting => Success(GREETING)
    case Help => Success(HELP)
    case Achievement =>
      (match db.sums
       case Failure(e) => Failure(e)
       case Success((b, p)) => Success(AchievementText(IntOr0(b), IntOr0(p))))
    case About => Success(ABOUT)
    case Unknown => Success(DEFAULT_REPLY)
    case _ => db.answer(Classify(q))
  }

  /** A query mentioning no keyword gets the default reply, without touching
      the database; the other fixed replies do not touch it either. */
  lemma DefaultReply(q: string, db: Db)
    requires NoneBefore(q, RULES, |RULES|)
    ensures ProcessQuery(q, db) == Success(DEFAULT_REPLY)
  {
    DispatchDefault(q);
  }

  // ---------------------------------------------------------------------
  // POST /test-query and POST /query
  // ---------------------------------------------------------------------

  const CANNED := "I'm Hansei AI powered by Google Gemini 2.5 Flash. I'm having a temporary connection issue, "
    + "but I'm here to help with sales data and business insights. Please try your question again!"
  const MESSAGE_REQUIRED := "Message is required"
  const FAILED := "Failed to process query"
  const TEST_SESSION := "test-session"
  const RULE_BASED := "rule-based"

  /** The unauthenticated test route and the authenticated route, which also
      logs the exchange. */
  datatype Endpoint = TestQuery | Query

  /** The parsed request body, `{ message, sessionId }`. */
  datatype Body = Body(message: Cell, sessionId: Cell)

  /** The body of the external assistant's answer. */
  datatype RemoteData = RemoteData(success: Cell, response: Cell, processingTime: Cell,
                                   queryType: Cell, notification: Cell)

  /** The call to the external assistant either throws (unreachable, timed
      out, an error status) or returns, with a `data` that may be falsy. */
  datatype Remote = Threw | Returned(data: Option<RemoteData>)

  /** The optional fields copied from the assistant's answer. */
  datatype Extra = ProcessingTime | QueryType | Notification

  datatype Reply =
    | Required(error: string)
    | Chat(response: Cell, sessionId: Cell, chatbotType: string,
           processingTime: Option<Cell>, queryType: Option<Cell>, notification: Option<Cell>)
    | Failed(error: string)

  datatype Response = Response(status: nat, reply: Reply)

  /** The `ChatLog` document of the authenticated route. */
  datatype LogEntry = LogEntry(userId: nat, message: Cell, response: Cell, sessionId: Cell, chatbotType: string)

  /** `langchainResponse.data && langchainResponse.data.success` */
  predicate Answered(remote: Remote) {
    remote.Returned? && remote.data.Some? && Truthy(remote.data.value.success)
  }

  function ExtraOf(d: RemoteData, f: Extra): Cell {
    match f
    case ProcessingTime => d.processingTime
    case QueryType => d.queryType
    case Notification => d.notification
    }

  /** A field of the answer, copied when the call returned a body holding a
      truthy value for it, whether or not that answer was used. */
  function Copied(remote: Remote, f: Extra): Option<Cell> {
    if remote.Returned? && remote.data.Some? && Truthy(ExtraOf(remote.data.value, f))
    then Some(ExtraOf(remote.data.value, f)) else None
  }

  /** The `chatbotType` the route reports. */
  function Label(endpoint: Endpoint, usedLangChain: bool): string {
    if !usedLangChain then RULE_BASED
    else if endpoint == TestQuery then "langchain-gemini-2.5-flash" else "langchain"
  }

  /** The session id after the destructuring default. */
  function Session(endpoint: Endpoint, given: Cell, freshId: string): Cell {
    if given != Undefined then given
    else if endpoint == TestQuery then Str(TEST_SESSION) else Str(freshId)
  }

  /** The rule-based reply of the inner `try`, and the canned reply of its
      `catch` when `processQuery` rejects or `message.toLowerCase()` throws
      on a message that is not text. */
  method Fallback(message: Cell, db: Db) returns (response: Cell)
    ensures message.Str? && ProcessQuery(Lower(message.s), db).Success? ==>
      response == Str(ProcessQuery(Lower(message.s), db).value)
    ensures !(message.Str? && ProcessQuery(Lower(message.s), db).Success?) ==> response == Str(CANNED)
  {
    if !message.Str? {
      return Str(CANNED);
    }
    var answer := ProcessQuery(Lower(message.s), db);
    if answer.Success? {
      response := Str(answer.value);
    } else {
      response := Str(CANNED);
    }
  }

  /** The optional fields copied onto the reply, each only when the
      assistant's body holds a truthy value for it. */
  method AddExtras(reply: Reply, d: RemoteData) returns (r: Reply)
    requires reply.Chat? && reply.processingTime.None? && reply.queryType.None? && reply.notification.None?
    ensures r == reply.(processingTime := Copied(Returned(Some(d)), ProcessingTime),
                        queryType := Copied(Returned(Some(d)), QueryType),
                        notification := Copied(Returned(Some(d)), Notification))
  {
    r := reply;
    if Truthy(d.processingTime) {
      r := r.(processingTime := Some(d.processingTime));
    }
    if Truthy(d.queryType) {
      r := r.(queryType := Some(d.queryType));
    }
    if Truthy(d.notification) {
      r := r.(notification := Some(d.notification));
    }
  }

  /** One request to either route: `remote` is what the external call did,
      `db` what the rule-based fallback reads, `freshId` the `uuidv4()` the
      authenticated route draws for a missing session id. */
  method HandleQuery(endpoint: Endpoint, body: Option<Body>, remote: Remote, db: Db, freshId: string, userId: nat)
    returns (resp: Response, log: Option<LogEntry>)
    // no body to destructure: the outer catch
    ensures body.None? ==> resp == Response(500, Failed(FAILED)) && log.None?
    // a falsy message is refused before anything is called
    ensures body.Some? && !Truthy(body.value.message) ==>
      resp == Response(400, Required(MESSAGE_REQUIRED)) && log.None?
    ensures body.Some? && Truthy(body.value.message) ==>
      var m := body.value.message;
      && resp.status == 200 && resp.reply.Chat?
      && resp.reply.sessionId == Session(endpoint, body.value.sessionId, freshId)
      // the assistant's answer is used exactly when it reports success
      && resp.reply.chatbotType == Label(endpoint, Answered(remote))
      && (Answered(remote) ==> resp.reply.response == remote.data.value.response)
      // otherwise the rule-based reply, and the canned one when that throws
      && (!Answered(remote) && m.Str? && ProcessQuery(Lower(m.s), db).Success? ==>
            resp.reply.response == Str(ProcessQuery(Lower(m.s), db).value))
      && (!Answered(remote) && !(m.Str? && ProcessQuery(Lower(m.s), db).Success?) ==>
            resp.reply.response == Str(CANNED))
      && resp.reply.processingTime == Copied(remote, ProcessingTime)
      && resp.reply.queryType == Copied(remote, QueryType)
      && resp.reply.notification == Copied(remote, Notification)
      // only the authenticated route logs, with the same reply and source
      && (endpoint == TestQuery ==> log.None?)
      && (endpoint == Query ==> log == Some(LogEntry(userId, m, resp.reply.response, resp.reply.sessionId,
                                                     Label(Query, Answered(remote)))))
  {
    log := None;
    if body.None? {
      return Response(500, Failed(FAILED)), None;
    }
    var message := body.value.message;
    var sessionId := Session(endpoint, body.value.sessionId, freshId);
    if !Truthy(message) {
      return Response(400, Required(MESSAGE_REQUIRED)), None;
    }
    var response := Undefined;
    var usedLangChain := false;
    var langchainResponse: Option<Option<RemoteData>> := None;
    var thrown := false;
    match remote {
      case Threw =>
        thrown := true;
      case Returned(data) =>
        langchainResponse := Some(data);
        if data.Some? && Truthy(data.value.success) {
          response := data.value.response;
          usedLangChain := true;
        } else {
          // 'LangChain response unsuccessful'
          thrown := true;
        }
    }
    if thrown {
      response := Fallback(message, db);
      usedLangChain := false;
    }
    if endpoint == Query {
      log := Some(LogEntry(userId, message, response, sessionId, Label(Query, usedLangChain)));
    }
    var reply := Chat(response, sessionId, Label(endpoint, usedLangChain), None, None, None);
    if langchainResponse.Some? && langchainResponse.value.Some? {
      reply := AddExtras(reply, langchainResponse.value.value);
    }
    resp := Response(200, reply);
  }
}
