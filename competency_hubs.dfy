/**
 * The `COMPETENCY_HUBS` table and the first-match classifier that assigns an
 * activity record to a hub by keyword (render_engine.py, `render_canvas`).
 */
module CompetencyHubs {
  import opened Common
  import opened Text

  datatype HubKey = GenAiAgents | DataEngineering | FrontendDev | BackendServices

  /** One hub: its caption (the source's "label"), its fixed centre on the canvas, its keywords and its colour. */
  datatype Hub = Hub(key: HubKey, caption: string, pos: (int, int), keywords: seq<string>, color: string)

  /** The table in declaration order; classification scans it in this order. */
  const Hubs: seq<Hub> := [
    Hub(GenAiAgents, "GenAI & Agents", (200, 200),
        ["langchain", "autogen", "llm", "agent", "fastapi", "genai"], "#00FFFF"),
    Hub(DataEngineering, "Data Engineering", (800, 200),
        ["spark", "kafka", "databricks", "etl", "pipeline", "oracle"], "#FF00FF"),
    Hub(FrontendDev, "Frontend", (200, 600),
        ["angular", "react", "frontend", "ui", "css", "typescript"], "#00FF00"),
    Hub(BackendServices, "Backend", (800, 600),
        ["java", "springboot", "microservice", "backend", "api", "server"], "#FFFF00")
  ]

  /** The dictionary key under which the source stores each hub. */
  function KeyName(key: HubKey): string {
    match key
    case GenAiAgents => "gen_ai_agents"
    case DataEngineering => "data_engineering"
    case FrontendDev => "frontend_dev"
    case BackendServices => "backend_services"
  }

  /** `any(k in name for k in hub["keywords"])`. */
  predicate HubMatches(hub: Hub, name: string) {
    exists k | k in hub.keywords :: Occurs(k, name)
  }

  /**
   * The index of the first hub at or after `from` that matches `name`:
   * it matches, no hub between `from` and it matches, and None means none does.
   */
  function FirstMatchFrom(hubs: seq<Hub>, name: string, from: nat): (r: Option<nat>)
    requires from <= |hubs|
    ensures r.Some? ==> from <= r.value < |hubs| && HubMatches(hubs[r.value], name)
    ensures r.Some? ==> forall j :: from <= j < r.value ==> !HubMatches(hubs[j], name)
    ensures r.None? <==> forall j :: from <= j < |hubs| ==> !HubMatches(hubs[j], name)
    decreases |hubs| - from
  {
    if from == |hubs| then None
    else if HubMatches(hubs[from], name) then Some(from)
    else FirstMatchFrom(hubs, name, from + 1)
  }

  /** The hub key an activity record with repository `repo` is drawn under, if any. */
  function Classify(repo: string): Option<HubKey> {
    match FirstMatchFrom(Hubs, Lower(repo), 0)
    case None => None
    case Some(i) => Some(Hubs[i].key)
  }

  /** The hub a key names: `COMPETENCY_HUBS[hub_key]`. */
  function HubOf(key: HubKey): (h: Hub)
    ensures h.key == key
  {
    match key
    case GenAiAgents => Hubs[0]
    case DataEngineering => Hubs[1]
    case FrontendDev => Hubs[2]
    case BackendServices => Hubs[3]
  }

  /**
   * The classification loop of `render_canvas`: scan the hubs in order and stop
   * at the first one with a keyword in the lowercased repository name.
   */
  method ClassifyRepo(repo: string) returns (hubKey: Option<HubKey>)
    ensures hubKey == Classify(repo)
  {
    var name := Lower(repo);
    hubKey := None;
    var i := 0;
    while i < |Hubs|
      invariant 0 <= i <= |Hubs|
      invariant hubKey == None
      invariant forall j :: 0 <= j < i ==> !HubMatches(Hubs[j], name)
    {
      if HubMatches(Hubs[i], name) {
        hubKey := Some(Hubs[i].key);
        return;
      }
      i := i + 1;
    }
  }

  /** The dictionary names of the hubs are pairwise distinct. */
  lemma KeyNamesDistinct(a: HubKey, b: HubKey)
    requires KeyName(a) == KeyName(b)
    ensures a == b
  {
    assert KeyName(a)[0] == KeyName(b)[0];
  }

  /** The hub looked up for a key is the table row carrying that key. */
  lemma HubOfIsRow(key: HubKey, i: nat)
    requires i < |Hubs| && Hubs[i].key == key
    ensures HubOf(key) == Hubs[i]
  {
  }

  /** The hub keys are pairwise distinct, so a key identifies its table position. */
  lemma KeysDistinct(i: nat, j: nat)
    requires i < |Hubs| && j < |Hubs| && Hubs[i].key == Hubs[j].key
    ensures i == j
  {
  }

  /** Soundness: a record is put under hub i only if one of hub i's keywords occurs in its lowercased name. */
  lemma ClassifySound(repo: string, i: nat)
    requires i < |Hubs| && Classify(repo) == Some(Hubs[i].key)
    ensures exists k :: k in Hubs[i].keywords && Occurs(k, Lower(repo))
  {
  }

  /** First match: hub i is chosen exactly when it matches and no hub declared before it does. */
  lemma ClassifyFirstMatch(repo: string, i: nat)
    requires i < |Hubs|
    ensures Classify(repo) == Some(Hubs[i].key) <==>
      HubMatches(Hubs[i], Lower(repo)) && forall j :: 0 <= j < i ==> !HubMatches(Hubs[j], Lower(repo))
  {
  }

  /** No keyword of any hub in `hubs` occurs in `name`. */
  predicate NoKeywordOccurs(hubs: seq<Hub>, name: string) {
    forall i, k :: 0 <= i < |hubs| && k in hubs[i].keywords ==> !Occurs(k, name)
  }

  /** Over any table: the scan finds nothing exactly when no keyword of any hub occurs in `name`. */
  lemma NoMatchIff(hubs: seq<Hub>, name: string)
    ensures FirstMatchFrom(hubs, name, 0).None? <==> NoKeywordOccurs(hubs, name)
  {
  }

  /** A record is dropped exactly when no keyword of any hub occurs in its lowercased name. */
  lemma ClassifyNone(repo: string)
    ensures Classify(repo) == None <==> NoKeywordOccurs(Hubs, Lower(repo))
  {
  }

  /** "fastapi" goes to the GenAI hub even though "api" is also a Backend keyword. */
  lemma FastApiGoesToGenAi()
    ensures HubMatches(Hubs[3], Lower("user/FastAPI-service"))
    ensures Classify("user/FastAPI-service") == Some(GenAiAgents)
  {
    var name := Lower("user/FastAPI-service");
    assert name == "user/fastapi-service";
    assert name[5..12] == "fastapi";
    assert OccursAt("fastapi", name, 5);
    assert name[9..12] == "api";
    assert OccursAt("api", name, 9);
    assert "fastapi" in Hubs[0].keywords;
    assert "api" in Hubs[3].keywords;
  }

  /** A repository named after LangChain belongs to the GenAI hub. */
  lemma LangchainGoesToGenAi()
    ensures Classify("user/langchain-bot") == Some(GenAiAgents)
  {
    var name := Lower("user/langchain-bot");
    assert name == "user/langchain-bot";
    assert name[5..14] == "langchain";
    assert OccursAt("langchain", name, 5);
    assert "langchain" in Hubs[0].keywords;
  }
}
