# Activity canvas: a Dafny model of render_engine.py

This project models the data-driven part of the "neural canvas" generator in
`render_engine.py`. The generator reads a user's public GitHub events and draws
each recent push as a node next to one of four competency hubs. The model
covers:

- **The event feed** (`get_github_activity`). A loop keeps each `PushEvent`
  whose `created_at` is strictly later than `now - 14 days`. For each kept
  event it builds a record of the repository name, the timestamp, the commit
  list and the link `https://github.com/<repo>/commit/<head>`. It returns at
  most the first 20 records. See `activity_feed.dfy`.
- **The hub table and classifier**. `COMPETENCY_HUBS` lists four hubs in a
  fixed order: GenAI & Agents, Data Engineering, Frontend, Backend. A record
  belongs to the first hub that has a keyword occurring in the lowercased
  repository name. A record that matches no hub is skipped. See
  `competency_hubs.dfy`, and `text.dfy` for the string operations.
- **The age and visual-weight model**. The age factor is
  `1 - min(age / W, 1)`, with `W` equal to 14 days in seconds. From it come the
  distance from the hub `40 + 80 * af * jitter`, the radius `4 + 4 * af`, the
  opacity `0.6 + 0.4 * af`, and the extra `recent-node` class when `af > 0.8`.
  See `node_style.dfy`.
- **The drawing loop** of `render_canvas`. It visits the records in reverse
  order, classifies each one and computes its node values. The tooltip is the
  repository name followed by the first line of the first commit message, cut
  to 40 characters. A classified record with an empty commit list raises
  IndexError, which aborts the render. The model returns that as an error
  value. See `neural_canvas.dfy`.

Timestamps and "now" are whole seconds. The random jitter is a parameter:
`jitters[i]` belongs to record `i`. Reals are exact.

Notes on what the code does:

- The age factor is capped only at its upper end (line 117). A timestamp later
  than "now" gives a factor above 1.
- A `PushEvent` with an empty `commits` list is kept by the feed (lines
  59-65). If a hub claims it, indexing `[0]` on line 133 raises IndexError
  and the render stops. The model returns this as an error value.
- The commit link is always built from `payload.head` (line 64).
- When the feed is empty, the program prints a message and draws nothing
  (lines 150-153).
- The comment on line 118 says nodes spawn between 40 and 120 units out. With
  jitter up to 1.2 the distance reaches 136, and the model proves 136.
- The comment on line 115 says newer events are closer to the hub. Line 118
  does the opposite: inside the window a newer event has a larger age factor,
  and so, for a positive jitter, a larger distance. `NodeStyle.AgeFactorNonIncreasing`
  and `NodeStyle.DistanceMonotone` prove the code's behaviour.
- The comments "Limit to most recent 20 events" (line 68) and "Draw oldest
  first" (line 103) hold only if the events endpoint lists events newest
  first. The model does not assume any order of the response: it proves
  "the first 20 qualifying events in input order" and "reverse input order".

The clock value "now" can be taken as whole seconds without changing the
feed's choice. Every `created_at` is a whole second, so for an integer `ts`
and a fraction `0 <= f < 1`, `ts > n + f - W` holds exactly when
`ts > n - W`.

## Model

| member | source | states |
|---|---|---|
| `CompetencyHubs.HubMatches` | render_engine.py:106 | The `any(...)` test: some keyword of the hub occurs in the name. Its meaning is used by `FirstMatchFrom`, `ClassifySound` and `ClassifyNone`. |
| `CompetencyHubs.Classify` | render_engine.py:104-110 | The first-match classification: the key of the first hub, in table order, that matches the lowercased repository name, or None. Its meaning is stated by `ClassifyFirstMatch`, `ClassifySound` and `ClassifyNone`. |
| `CompetencyHubs.FirstMatchFrom` | render_engine.py:104-108 | The chosen index has a matching keyword. No hub before it in the table matches. The result is None exactly when no hub in the scanned range matches. |
| `CompetencyHubs.ClassifyRepo` | render_engine.py:104-110 | The loop over the hubs, with `break` at the first match, returns the first-match classification of the lowercased repository name, or None. |
| `CompetencyHubs.ClassifySound` | render_engine.py:104-108 | A record is put under hub i only if one of hub i's keywords is a substring of the lowercased repository name. |
| `CompetencyHubs.ClassifyFirstMatch` | render_engine.py:104-108 | Hub i is chosen if and only if it matches and no hub declared before it matches. Both directions are proved. |
| `CompetencyHubs.NoMatchIff` | render_engine.py:105-108 | For any hub table, the scan finds no hub exactly when no keyword of any hub occurs in the name. |
| `CompetencyHubs.ClassifyNone` | render_engine.py:105-110 | A record gets no hub, and so no node, exactly when no keyword of any hub is a substring of the lowercased repository name. |
| `CompetencyHubs.KeysDistinct` | render_engine.py:16-41 | The four hub keys are pairwise distinct, so a key identifies one row of the table. |
| `CompetencyHubs.HubOf` | render_engine.py:112 | Looking up a key returns the hub stored under that key. |
| `CompetencyHubs.HubOfIsRow` | render_engine.py:112 | The hub looked up for a key is the table row with that key, so a node's fill is its hub's colour (line 138). |
| `CompetencyHubs.KeyNamesDistinct` | render_engine.py:16-41 | The four dictionary names `gen_ai_agents`, `data_engineering`, `frontend_dev` and `backend_services` are pairwise distinct, so each names one hub. |
| `CompetencyHubs.FastApiGoesToGenAi` | render_engine.py:16-41 | "user/FastAPI-service" contains the Backend keyword "api", yet it goes to the GenAI hub because "fastapi" is in an earlier hub. |
| `CompetencyHubs.LangchainGoesToGenAi` | render_engine.py:17-22 | A repository named "user/langchain-bot" is classified to the GenAI hub. |
| `Text.LowerChar` | render_engine.py:106 | An upper-case ASCII letter becomes its lower-case partner (code point plus 32); any other character is kept. |
| `Text.Lower` | render_engine.py:106 | The lowercased name has the same length, no upper-case ASCII letter, and each character is `LowerChar` of the one in its place. |
| `Text.Occurs` | render_engine.py:106 | `k in s` holds exactly when `k` occurs in `s` as a contiguous slice at some index. |
| `Text.FirstLine` | render_engine.py:133 | `split('\n')[0]` is a prefix of the text with no line break, and it stops only at a line break or at the end of the text. |
| `Text.Take` | render_engine.py:68 | The slice `[:n]` is a prefix of its input, of length `min(n, len)`. |
| `ActivityFeed.Since` | render_engine.py:57 | The cut-off `now - 14 days` in seconds. Used by `Feed`, whose meaning `FeedIsFirstQualifying` states. |
| `ActivityFeed.Qualifies` | render_engine.py:59 | An event is kept when its type is `PushEvent` and its timestamp is strictly later than the cut-off. Used by `KeptIndicesSpec` and `RecentMembers`. |
| `ActivityFeed.MakeRecord` | render_engine.py:60-65 | The record built from a kept event: repository name, timestamp and commits copied, link from `CommitUrl`. Its fields are stated by `FeedIsFirstQualifying`. |
| `ActivityFeed.Recent` | render_engine.py:58-65 | The records of the qualifying events in input order, before the slice. Its meaning is stated by `KeptIndicesSpec`, `RecentAppend` and `RecentMembers`. |
| `ActivityFeed.Feed` | render_engine.py:57-68 | What `get_github_activity` returns: the first 20 of `Recent`. Its meaning is stated by `FeedIsFirstQualifying`; `GetGithubActivity` is proved equal to it. |
| `ActivityFeed.CommitUrl` | render_engine.py:64 | The link splits into four parts in order: `https://github.com/`, the repository name, `/commit/`, and the head commit. |
| `ActivityFeed.GetGithubActivity` | render_engine.py:57-68 | The loop result equals the first 20 records of the qualifying events, and it never has more than 20 entries. |
| `ActivityFeed.KeptIndicesSpec` | render_engine.py:58-65 | The filtered records are built from the qualifying events in input order. Every kept position names a `PushEvent` strictly newer than the cut-off, and every such event is kept. |
| `ActivityFeed.RecentAppend` | render_engine.py:58-65 | Filtering a concatenation is the concatenation of the filtered parts, so the filter preserves order. |
| `ActivityFeed.RecentMembers` | render_engine.py:58-65 | A record is in the filtered list exactly when some qualifying event produces it. |
| `ActivityFeed.FeedIsFirstQualifying` | render_engine.py:57-68 | The feed holds `min(20, number of qualifying events)` records. Record k is the k-th qualifying event, with `repo`, timestamp and `commits` copied unchanged and the link built from repo and head. |
| `NodeStyle.MinOne` | render_engine.py:117 | Python's `min(x, 1)`. Its effect is stated by the contract of `AgeFactor`. |
| `NodeStyle.AgeFactor` | render_engine.py:116-117 | The age factor is never negative. It is at most 1 for a non-negative age and above 1 for a future timestamp. It is 0 once the age reaches 14 days. |
| `NodeStyle.AgeFactorNonIncreasing` | render_engine.py:116-117 | An older event never has a larger age factor than a newer one, and a strictly smaller one when the newer event is still inside the window. |
| `NodeStyle.AgeFactorInsideWindow` | render_engine.py:117 | Inside the window the factor falls linearly: `af * W == W - age`. |
| `NodeStyle.Distance` | render_engine.py:118 | For `af` in [0, 1] and jitter in [0.8, 1.2], the distance is in [40, 136]. |
| `NodeStyle.DistanceRangeTight` | render_engine.py:118 | Both ends are reached: 40 for a factor of 0, and 136 (not 120) for a factor of 1 with jitter 1.2. |
| `NodeStyle.DistanceMonotone` | render_engine.py:118 | With a fixed non-negative jitter, a larger age factor never places a node closer to its hub, and with a positive jitter it places it strictly farther. |
| `NodeStyle.Radius` | render_engine.py:125 | For `af` in [0, 1] the radius is in [4, 8]. |
| `NodeStyle.Opacity` | render_engine.py:126 | For `af` in [0, 1] the opacity is in [0.6, 1.0]. |
| `NodeStyle.WeightMonotone` | render_engine.py:125-126 | The radius and the opacity never decrease as the age factor grows. |
| `NodeStyle.NodeClass` | render_engine.py:128-130 | The class always starts with `activity-node`. It contains `recent-node` exactly when `af > 0.8`. |
| `NodeStyle.NotRecent` | render_engine.py:128 | The plain `activity-node` class does not contain `recent-node`. |
| `NeuralCanvas.CommitSummary` | render_engine.py:133 | The summary is a prefix of the first commit's message, contains no line break and has at most 40 characters. If it is shorter than 40, it is the whole first line. |
| `NeuralCanvas.Tooltip` | render_engine.py:134 | The tooltip is the repository name, a line break, the summary and `...`, in that order. |
| `NeuralCanvas.DrawOrder` | render_engine.py:103-142 | The nodes of the reversed loop in draw order, or the error of the first record in draw order that raises IndexError. Its meaning is stated by `DrawOrderAppend`, `DrawOrderSingle`, `RenderSucceedsIff`, `NodeCountIsClassifiedCount`, `NodesComeFromRecords` and `NodesWithinBounds`; `RenderNodes` is proved equal to it. |
| `NeuralCanvas.PlaceEvent` | render_engine.py:104-134 | One record yields no node exactly when no hub claims it. It fails exactly when a hub claims it and its commit list is empty. A node it yields carries the record's classification. |
| `NeuralCanvas.DrawEvent` | render_engine.py:104-142 | The loop body for one record, statement by statement in the source's order (classify, compute age factor, distance, radius, opacity, class and tooltip), equals the per-record outcome `PlaceEvent` defines. |
| `NeuralCanvas.RenderNodes` | render_engine.py:102-142 | The reversed drawing loop, including the abort on an empty commit list, yields the draw-order outcome. |
| `NeuralCanvas.FailureStopsRender` | render_engine.py:133 | Once a later record fails, the whole render fails with that record's error. |
| `NeuralCanvas.DrawOrderAppend` | render_engine.py:103 | Rendering `a + b` draws all of `b` before any of `a`, so nodes come out in reverse record order. The first failure in that order wins. |
| `NeuralCanvas.DrawOrderSingle` | render_engine.py:103-142 | A single record draws exactly its own node, nothing, or its error. |
| `NeuralCanvas.RenderSucceedsIff` | render_engine.py:110-133 | The render succeeds exactly when every record that a hub claims has at least one commit. |
| `NeuralCanvas.NodeCountIsClassifiedCount` | render_engine.py:105-110 | On success, the number of nodes equals the number of records that some hub claims. |
| `NeuralCanvas.NodesComeFromRecords` | render_engine.py:104-132 | Every drawn node comes from one record. It sits under the hub that record classifies to and links to that record's commit URL. |
| `NeuralCanvas.NodesWithinBounds` | render_engine.py:116-126 | If no record is newer than "now" and every jitter is in [0.8, 1.2], every node lies 40 to 136 units from its hub, with radius in [4, 8] and opacity in [0.6, 1]. |
| `NeuralCanvas.RecentLangchainPush` | render_engine.py:103-130 | A push to `user/langchain-bot` one hour old draws one GenAI node with radius above 7.9, opacity above 0.99 and the `recent-node` class. |

## Left out

- The HTTP request, the token header, `raise_for_status` and the handler that turns a request failure into an empty list: this is network I/O. The model filters an already decoded sequence of events.
- JSON decoding and the KeyError raised by a record missing `type`, `created_at`, `repo.name`, `payload.commits` or `payload.head`: the model assumes well-formed records.
- `datetime.strptime` and `datetime.utcnow`: timestamps and both clock readings are whole seconds passed as parameters. The age factor therefore ignores the sub-second part of "now".
- `random.uniform`: the angle is left out, and the jitter is a parameter with one value per record. The source draws it only for classified records. The model does not track the order of draws.
- Node placement with `math.cos` and `math.sin`: this is floating-point trigonometry. A node's position is its hub centre plus an offset of length `distance`. Positions are not clamped to the canvas.
- Floating point: the model uses exact reals, so the bounds ignore rounding.
- Text.Lower: lowercases ASCII letters only. Python's `str.lower` also maps other Unicode letters, some of them to ASCII.
- The SVG drawing (background, central node, hub circles, labels, connection lines, link and circle elements), the CSS, `dwg.save()`, `print` and reading `sys.argv`: these are rendering and I/O with no data-dependent behaviour.
- The `__main__` block calls `render_canvas` only when the feed is non-empty, and otherwise prints a message. The model has no separate member for this choice.
- engine_foundry.py is not part of this model. It is a fixed module table plus straight-line drawing with random animation timings.
- CompetencyHubs.HubOf: its own contract states only that the returned hub has the requested key. The fact that it is the table row is the separate lemma `HubOfIsRow`, because putting it in the contract made the render loop's proof too costly.
