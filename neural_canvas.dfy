/**
 * The activity-node loop of `render_canvas` (render_engine.py): visit the
 * records newest-last, drop those no hub claims, and give each remaining one
 * a hub, a distance, a radius, an opacity, a class, a link and a tooltip.
 */
module NeuralCanvas {
  import opened Common
  import opened Text
  import opened CompetencyHubs
  import opened ActivityFeed
  import opened NodeStyle

  /** The slice `[:40]` applied to the first line of the first commit message. */
  const SummaryLength: nat := 40

  /** What is drawn for one activity record (its position is not modelled). */
  datatype ActivityNode = ActivityNode(
    hub: HubKey, fill: string, distance: real, radius: real, opacity: real,
    nodeClass: string, href: string, tooltip: string)

  /** `event["commits"][0]` on an empty commit list raises IndexError and aborts the render. */
  datatype RenderError = MissingCommit(repo: string)

  /** The tooltip line: the first line of the first commit message, cut to forty characters. */
  function CommitSummary(commits: seq<Commit>): (s: string)
    requires |commits| > 0
    ensures s <= commits[0].message
    ensures '\n' !in s
    ensures |s| <= SummaryLength
    ensures |s| < SummaryLength ==> |s| == |commits[0].message| || commits[0].message[|s|] == '\n'
  {
    Take(FirstLine(commits[0].message), SummaryLength)
  }

  /** The tooltip text `"{repo}\n{summary}..."`. */
  function Tooltip(repo: string, summary: string): (t: string)
    ensures |t| == |repo| + 1 + |summary| + 3
    ensures t[..|repo|] == repo && t[|repo|] == '\n'
    ensures t[|repo| + 1..|repo| + 1 + |summary|] == summary && t[|t| - 3..] == "..."
  {
    repo + "\n" + summary + "..."
  }

  /** The node for one record, or nothing when no hub claims it, or the IndexError. */
  function PlaceEvent(e: ActivityRecord, now: int, jitter: real): (r: Result<Option<ActivityNode>, RenderError>)
    ensures r == Ok(None) <==> Classify(e.repo) == None
    ensures r.Err? <==> Classify(e.repo).Some? && |e.commits| == 0
    ensures r.Ok? && r.value.Some? ==> Classify(e.repo) == Some(r.value.value.hub)
  {
    match Classify(e.repo)
    case None => Ok(None)
    case Some(key) =>
      if |e.commits| == 0 then Err(MissingCommit(e.repo))
      else
        var af := AgeFactor(now - e.timestamp);
        Ok(Some(ActivityNode(key, HubOf(key).color, Distance(af, jitter), Radius(af), Opacity(af),
                             NodeClass(af), e.url, Tooltip(e.repo, CommitSummary(e.commits)))))
  }

  /**
   * The nodes in the order they are drawn: the last record first. A failing
   * record stops the render, so the first failure in draw order is reported.
   */
  function DrawOrder(activity: seq<ActivityRecord>, now: int, jitters: seq<real>): Result<seq<ActivityNode>, RenderError>
    requires |jitters| == |activity|
    decreases |activity|
  {
    if activity == [] then Ok([])
    else
      match DrawOrder(activity[1..], now, jitters[1..])
      case Err(err) => Err(err)
      case Ok(later) =>
        match PlaceEvent(activity[0], now, jitters[0])
        case Err(err) => Err(err)
        case Ok(None) => Ok(later)
        case Ok(Some(node)) => Ok(later + [node])
  }

  /** Run `first`, then `second`, stopping at the first failure. */
  function Then(first: Result<seq<ActivityNode>, RenderError>, second: Result<seq<ActivityNode>, RenderError>): Result<seq<ActivityNode>, RenderError> {
    match first
    case Err(err) => Err(err)
    case Ok(a) =>
      match second
      case Err(err) => Err(err)
      case Ok(b) => Ok(a + b)
  }

  /** How many records some hub claims. */
  function ClassifiedCount(activity: seq<ActivityRecord>): nat {
    if activity == [] then 0
    else ClassifiedCount(activity[1..]) + if Classify(activity[0].repo).Some? then 1 else 0
  }

  /**
   * The body of the drawing loop for one record: classify it, skip it when no
   * hub claims it, otherwise compute its age factor and the values drawn from it.
   * It is the statement-by-statement counterpart of `PlaceEvent`, which specifies it.
   */
  method DrawEvent(event: ActivityRecord, now: int, jitter: real)
    returns (placed: Result<Option<ActivityNode>, RenderError>)
    ensures placed == PlaceEvent(event, now, jitter)
  {
    var hubKey := ClassifyRepo(event.repo);
    if hubKey.None? {
      return Ok(None);
    }
    var key := hubKey.value;
    assert Classify(event.repo) == Some(key);
    var hub := HubOf(key);
    var ageFactor := AgeFactor(now - event.timestamp);
    var distance := Distance(ageFactor, jitter);
    var radius := Radius(ageFactor);
    var opacity := Opacity(ageFactor);
    var nodeClass := BaseClass;
    if ageFactor > 0.8 {
      nodeClass := nodeClass + " " + RecentClass;
    }
    if |event.commits| == 0 {
      return Err(MissingCommit(event.repo));
    }
    var summary := Take(FirstLine(event.commits[0].message), SummaryLength);
    assert nodeClass == NodeClass(ageFactor);
    assert summary == CommitSummary(event.commits);
    placed := Ok(Some(ActivityNode(key, hub.color, distance, radius, opacity,
                                   nodeClass, event.url, Tooltip(event.repo, summary))));
  }

  /**
   * The drawing loop of `render_canvas`, `for event in reversed(activity)`;
   * `jitters[i]` stands for the `random.uniform(0.8, 1.2)` drawn for record i.
   */
  method RenderNodes(activity: seq<ActivityRecord>, now: int, jitters: seq<real>)
    returns (outcome: Result<seq<ActivityNode>, RenderError>)
    requires |jitters| == |activity|
    ensures outcome == DrawOrder(activity, now, jitters)
  {
    var nodes: seq<ActivityNode> := [];
    var i := |activity|;
    while i > 0
      invariant 0 <= i <= |activity|
      invariant DrawOrder(activity[i..], now, jitters[i..]) == Ok(nodes)
    {
      i := i - 1;
      assert activity[i..][1..] == activity[i + 1..] && jitters[i..][1..] == jitters[i + 1..];
      var placed := DrawEvent(activity[i], now, jitters[i]);
      match placed
      case Err(err) =>
        outcome := Err(err);
        FailureStopsRender(activity, now, jitters, i);
        return;
      case Ok(None) =>
      case Ok(Some(node)) =>
        nodes := nodes + [node];
    }
    outcome := Ok(nodes);
  }

  /** Once the suffix from `i` fails, the whole render fails with the same error. */
  lemma {:induction false} FailureStopsRender(activity: seq<ActivityRecord>, now: int, jitters: seq<real>, i: nat)
    requires |jitters| == |activity| && i <= |activity|
    requires DrawOrder(activity[i..], now, jitters[i..]).Err?
    ensures DrawOrder(activity, now, jitters) == DrawOrder(activity[i..], now, jitters[i..])
    decreases i
  {
    if i > 0 {
      FailureStopsRender(activity[1..], now, jitters[1..], i - 1);
      assert activity[1..][i - 1..] == activity[i..];
      assert jitters[1..][i - 1..] == jitters[i..];
    }
  }

  /** Rendering `a + b` draws all of `b` (later records) before any of `a`. */
  lemma {:induction false} DrawOrderAppend(a: seq<ActivityRecord>, ja: seq<real>,
                                           b: seq<ActivityRecord>, jb: seq<real>, now: int)
    requires |ja| == |a| && |jb| == |b|
    ensures DrawOrder(a + b, now, ja + jb) == Then(DrawOrder(b, now, jb), DrawOrder(a, now, ja))
    decreases |a|
  {
    if a == [] {
      assert a + b == b && ja + jb == jb;
      match DrawOrder(b, now, jb)
      case Err(_) =>
      case Ok(bs) =>
        assert bs + [] == bs;
    } else {
      assert (a + b)[1..] == a[1..] + b && (ja + jb)[1..] == ja[1..] + jb;
      assert (a + b)[0] == a[0] && (ja + jb)[0] == ja[0];
      DrawOrderAppend(a[1..], ja[1..], b, jb, now);
      match DrawOrder(b, now, jb)
      case Err(_) =>
      case Ok(bs) =>
        match DrawOrder(a[1..], now, ja[1..])
        case Err(_) =>
        case Ok(rest) =>
          match PlaceEvent(a[0], now, ja[0])
          case Err(_) =>
          case Ok(None) =>
          case Ok(Some(node)) =>
            assert bs + (rest + [node]) == (bs + rest) + [node];
    }
  }

  /** One record alone draws as its own node, or nothing, or fails. */
  lemma DrawOrderSingle(e: ActivityRecord, jitter: real, now: int)
    ensures DrawOrder([e], now, [jitter]) ==
      match PlaceEvent(e, now, jitter)
      case Err(err) => Err(err)
      case Ok(None) => Ok([])
      case Ok(Some(node)) => Ok([node])
  {
    assert [e][1..] == [] && [jitter][1..] == [];
    match PlaceEvent(e, now, jitter)
    case Err(_) =>
    case Ok(None) =>
    case Ok(Some(node)) =>
      assert [] + [node] == [node];
  }

  /** The render succeeds exactly when every record a hub claims has at least one commit. */
  lemma {:induction false} RenderSucceedsIff(activity: seq<ActivityRecord>, now: int, jitters: seq<real>)
    requires |jitters| == |activity|
    ensures DrawOrder(activity, now, jitters).Ok? <==>
      forall i :: 0 <= i < |activity| && Classify(activity[i].repo).Some? ==> |activity[i].commits| > 0
  {
    if activity != [] {
      RenderSucceedsIff(activity[1..], now, jitters[1..]);
      assert forall i :: 1 <= i < |activity| ==> activity[1..][i - 1] == activity[i];
    }
  }

  /** On success, one node is drawn per record that some hub claims, and no more. */
  lemma {:induction false} NodeCountIsClassifiedCount(activity: seq<ActivityRecord>, now: int, jitters: seq<real>)
    requires |jitters| == |activity|
    requires DrawOrder(activity, now, jitters).Ok?
    ensures |DrawOrder(activity, now, jitters).value| == ClassifiedCount(activity)
  {
    if activity != [] {
      NodeCountIsClassifiedCount(activity[1..], now, jitters[1..]);
    }
  }

  /** Every drawn node comes from one record, under the hub that record classifies to, linking to its commit. */
  lemma {:induction false} NodesComeFromRecords(activity: seq<ActivityRecord>, now: int, jitters: seq<real>, n: ActivityNode)
    requires |jitters| == |activity|
    requires DrawOrder(activity, now, jitters).Ok? && n in DrawOrder(activity, now, jitters).value
    ensures exists i :: (0 <= i < |activity| && PlaceEvent(activity[i], now, jitters[i]) == Ok(Some(n)) &&
                         Classify(activity[i].repo) == Some(n.hub) && n.href == activity[i].url)
  {
    var later := DrawOrder(activity[1..], now, jitters[1..]).value;
    if n in later {
      NodesComeFromRecords(activity[1..], now, jitters[1..], n);
      var i :| 0 <= i < |activity[1..]| && PlaceEvent(activity[1..][i], now, jitters[1..][i]) == Ok(Some(n)) &&
        Classify(activity[1..][i].repo) == Some(n.hub) && n.href == activity[1..][i].url;
      assert activity[1..][i] == activity[i + 1] && jitters[1..][i] == jitters[i + 1];
    } else {
      assert PlaceEvent(activity[0], now, jitters[0]) == Ok(Some(n));
    }
  }

  /**
   * For records no newer than `now` and jitters in [0.8, 1.2], every node lies
   * 40 to 136 units from its hub, with radius in [4, 8] and opacity in [0.6, 1].
   */
  lemma {:induction false} NodesWithinBounds(activity: seq<ActivityRecord>, now: int, jitters: seq<real>)
    requires |jitters| == |activity|
    requires forall i :: 0 <= i < |activity| ==> activity[i].timestamp <= now
    requires forall i :: 0 <= i < |jitters| ==> 0.8 <= jitters[i] <= 1.2
    requires DrawOrder(activity, now, jitters).Ok?
    ensures forall n :: n in DrawOrder(activity, now, jitters).value ==>
      40.0 <= n.distance <= 136.0 && 4.0 <= n.radius <= 8.0 && 0.6 <= n.opacity <= 1.0
  {
    if activity != [] {
      NodesWithinBounds(activity[1..], now, jitters[1..]);
    }
  }

  /**
   * A push to `user/langchain-bot` an hour ago is drawn as one pulsing node at
   * the GenAI hub, close to full size and full opacity.
   */
  lemma RecentLangchainPush(now: int, jitter: real)
    ensures var e := ActivityRecord("user/langchain-bot", now - 3600, [Commit("fix bug")], "https://github.com/user/langchain-bot/commit/abc");
      DrawOrder([e], now, [jitter]).Ok? &&
      |DrawOrder([e], now, [jitter]).value| == 1 &&
      var n := DrawOrder([e], now, [jitter]).value[0];
      n.hub == GenAiAgents && n.radius > 7.9 && n.opacity > 0.99 && Occurs(RecentClass, n.nodeClass)
  {
    var e := ActivityRecord("user/langchain-bot", now - 3600, [Commit("fix bug")], "https://github.com/user/langchain-bot/commit/abc");
    LangchainGoesToGenAi();
    var af := AgeFactor(now - e.timestamp);
    assert af == 1.0 - 3600.0 / 1209600.0;
    assert af > 0.99;
    DrawOrderSingle(e, jitter, now);
  }
}
