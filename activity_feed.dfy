/**
 * The event filter of `get_github_activity` (render_engine.py): keep the
 * push events newer than fourteen days, turn each into an activity record with
 * a commit link, and keep at most the first twenty.
 */
module ActivityFeed {
  import opened Text

  /** Seconds in the fourteen-day recency window. */
  const RecencyWindow: int := 14 * 24 * 3600

  /** The slice `events[:20]`. */
  const MaxEvents: nat := 20

  const PushEventType: string := "PushEvent"
  const GithubPrefix: string := "https://github.com/"
  const CommitInfix: string := "/commit/"

  datatype Commit = Commit(message: string)

  /**
   * One decoded record of the events endpoint: its `type`, its `created_at`
   * as whole seconds, `repo.name`, `payload.commits` and `payload.head`.
   */
  datatype RawEvent = RawEvent(kind: string, createdAt: int, repoName: string, commits: seq<Commit>, head: string)

  /** The record `get_github_activity` builds for a kept event. */
  datatype ActivityRecord = ActivityRecord(repo: string, timestamp: int, commits: seq<Commit>, url: string)

  /** The commit link of a record: the repository and the head commit, in that order. */
  function CommitUrl(repo: string, head: string): (url: string)
    ensures |url| == |GithubPrefix| + |repo| + |CommitInfix| + |head|
    ensures url[..|GithubPrefix|] == GithubPrefix
    ensures url[|GithubPrefix|..|GithubPrefix| + |repo|] == repo
    ensures url[|GithubPrefix| + |repo|..|GithubPrefix| + |repo| + |CommitInfix|] == CommitInfix
    ensures url[|GithubPrefix| + |repo| + |CommitInfix|..] == head
  {
    GithubPrefix + repo + CommitInfix + head
  }

  /** The cut-off `utcnow() - 14 days`. */
  function Since(now: int): int {
    now - RecencyWindow
  }

  /** An event is kept when it is a push and strictly newer than the cut-off. */
  predicate Qualifies(e: RawEvent, since: int) {
    e.kind == PushEventType && e.createdAt > since
  }

  function MakeRecord(e: RawEvent): ActivityRecord {
    ActivityRecord(e.repoName, e.createdAt, e.commits, CommitUrl(e.repoName, e.head))
  }

  /** The records of the qualifying events, in input order, before the slice. */
  function Recent(events: seq<RawEvent>, since: int): seq<ActivityRecord> {
    if events == [] then []
    else
      var last := events[|events| - 1];
      Recent(events[..|events| - 1], since) + if Qualifies(last, since) then [MakeRecord(last)] else []
  }

  /** The positions of the qualifying events, in input order. */
  function KeptIndices(events: seq<RawEvent>, since: int): seq<nat> {
    if events == [] then []
    else
      var n := |events| - 1;
      KeptIndices(events[..n], since) + if Qualifies(events[n], since) then [n] else []
  }

  /** What `get_github_activity` returns once the response is decoded. */
  function Feed(events: seq<RawEvent>, now: int): seq<ActivityRecord> {
    Take(Recent(events, Since(now)), MaxEvents)
  }

  /**
   * The loop of `get_github_activity`: append a record for each qualifying
   * event, then return the first twenty.
   */
  method GetGithubActivity(allEvents: seq<RawEvent>, now: int) returns (events: seq<ActivityRecord>)
    ensures events == Feed(allEvents, now)
    ensures |events| <= MaxEvents
  {
    var since := now - RecencyWindow;
    var kept: seq<ActivityRecord> := [];
    var i := 0;
    while i < |allEvents|
      invariant 0 <= i <= |allEvents|
      invariant kept == Recent(allEvents[..i], since)
    {
      var event := allEvents[i];
      assert allEvents[..i + 1][..i] == allEvents[..i];
      if event.kind == PushEventType && event.createdAt > since {
        kept := kept + [ActivityRecord(event.repoName, event.createdAt, event.commits,
                                       GithubPrefix + event.repoName + CommitInfix + event.head)];
      }
      i := i + 1;
    }
    assert allEvents[..i] == allEvents;
    events := if |kept| <= MaxEvents then kept else kept[..MaxEvents];
  }

  /**
   * The kept positions are increasing, each names a qualifying event, each
   * qualifying event is among them, and the records are built from those events
   * in that order.
   */
  lemma {:induction false} KeptIndicesSpec(events: seq<RawEvent>, since: int)
    ensures |KeptIndices(events, since)| == |Recent(events, since)|
    ensures forall k :: 0 <= k < |KeptIndices(events, since)| ==>
      KeptIndices(events, since)[k] < |events| &&
      Qualifies(events[KeptIndices(events, since)[k]], since) &&
      Recent(events, since)[k] == MakeRecord(events[KeptIndices(events, since)[k]])
    ensures forall k, l :: 0 <= k < l < |KeptIndices(events, since)| ==>
      KeptIndices(events, since)[k] < KeptIndices(events, since)[l]
    ensures forall i :: 0 <= i < |events| && Qualifies(events[i], since) ==> i in KeptIndices(events, since)
  {
    if events != [] {
      var n := |events| - 1;
      var front := events[..n];
      KeptIndicesSpec(front, since);
      assert forall i :: 0 <= i < n ==> front[i] == events[i];
    }
  }

  /** Filtering distributes over concatenation: the selection keeps the input order. */
  lemma {:induction false} RecentAppend(a: seq<RawEvent>, b: seq<RawEvent>, since: int)
    ensures Recent(a + b, since) == Recent(a, since) + Recent(b, since)
    decreases |b|
  {
    if b == [] {
      assert a + b == a;
    } else {
      var n := |b| - 1;
      assert (a + b)[..|a + b| - 1] == a + b[..n];
      RecentAppend(a, b[..n], since);
    }
  }

  /** A record is in the filtered list exactly when some qualifying event produces it. */
  lemma {:induction false} RecentMembers(events: seq<RawEvent>, since: int, r: ActivityRecord)
    ensures r in Recent(events, since) <==> exists e :: e in events && Qualifies(e, since) && MakeRecord(e) == r
  {
    if events != [] {
      var n := |events| - 1;
      RecentMembers(events[..n], since, r);
      assert events == events[..n] + [events[n]];
    }
  }

  /**
   * The feed holds at most twenty records, and they are exactly the first
   * (up to twenty) qualifying events, in input order, each copied from its event.
   */
  lemma FeedIsFirstQualifying(events: seq<RawEvent>, now: int)
    ensures |Feed(events, now)| <= MaxEvents
    ensures |Feed(events, now)| == if |KeptIndices(events, Since(now))| <= MaxEvents
                                   then |KeptIndices(events, Since(now))| else MaxEvents
    ensures forall k :: 0 <= k < |KeptIndices(events, Since(now))| ==> KeptIndices(events, Since(now))[k] < |events|
    ensures forall k :: 0 <= k < |Feed(events, now)| ==>
      var e := events[KeptIndices(events, Since(now))[k]];
      Qualifies(e, Since(now)) &&
      Feed(events, now)[k].repo == e.repoName &&
      Feed(events, now)[k].timestamp == e.createdAt &&
      Feed(events, now)[k].commits == e.commits &&
      Feed(events, now)[k].url == CommitUrl(e.repoName, e.head)
  {
  }
}
