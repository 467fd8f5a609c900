# Jenkins Watchdog: a verified model

Jenkins Watchdog collects findings about Jenkins and its cluster, reduces them, lets a language model
investigate some of them, and streams what happens to a browser. Most of it is input and output; this
project models the deterministic cores and proves what they promise, for all inputs and all runs.

* `ToolOutput` - what a tool returns is rid of credentials and held to a budget before a model sees it.
* `AgentGroups`, `Dedup`, `Correlation`, `Pipeline` - findings are grouped, deduplicated, correlated, and
  keep their identity. `Findings` is the class that these passes rewrite in place, `Grouping` the
  insertion-ordered dictionary of lists that three of them walk.
* `Triage` - a model's answers dismiss findings, queue them, or relate them to each other.
* `Planning` (with `Ordering`) - the comparison with the last run, the gate, and the three investigation plans.
* `RunStore` - what is stored of a scan, and what the next one takes over.
* `ScanLock`, `ScanStream`, `Scheduler`, `ChatStream` - the protocols: a lock that expires, a background
  scan that tells an event stream, a loop that starts scans, a chat bridged over a queue.
* `LineDecoder`, `PortRegistry`, `LogLines`, `JsonRepair` - the stream decoder, the allocator of development
  ports, the extraction of error lines from a console log, and the repair of cut-off JSON.
* `Strings`, `Sequences` - substrings and lists, as far as the others need them.

What a pass does to objects is a method over `Finding` objects with loops and in-place changes; its
postcondition equates the objects' new values with a function of the old ones, and the theorems are about
that function. Protocols are functions from steps to states; their theorems are about every sequence of
steps. Regular expressions, hashing, `str.lower`, `str.strip`, `str.upper` and `json.loads` are parameters.

Where the code does not do what one would expect, the model follows the code, and a lemma says exactly
when it makes a difference:

* A credential can survive redaction, and only then, if it can be spliced together with one of the fixed marks
  (`RedactExact`, `BoundedExact`); a longer one that overlaps it leaves its tail behind, although the list is longest
  first (`LongestFirstReplacesWhole`, `OverlapExample`); the budget is overshot by up to 33 characters (`BudgetHolds`, `OvershootReached`).
* The correlation pass raises an exception, and the scan fails, when a Jenkins finding has a node and a cluster event
  has none, because the event's host is None then (`PassRaisesExactly`, `ControllerAndUnscheduledPod`).
* The node phase merges only what a Jenkins finding with a host is in; no check makes one, so that the phase only moves
  findings (`NodePhaseMovesOnly`).
* A fingerprint joins category, resource and symptom by colons. Two findings of one category can have the same one,
  whatever the digest, exactly if one's resource begins with the other's and a colon (`FingerprintExactly`,
  `CollideExactly`, `ApartExactly`). Identifiers of credentials, for instance, can be such (`CollidingPairComesOut`).
* A finding with both keywords suppresses itself (`BothKeywordsSuppress`), so a suppressed workload can vanish
  (`SuppressionExplained`, `WorkloadVanishes`). Replacing a representative forgets the notes it had (`NotesAreRight`,
  `EarlierSymptomLost`).
* Triage overwrites the correlated findings that the correlation passes have noted (`LinesForgotten`).
* The plans of the web page and the command line add new pipeline patterns of low severity, which the
  scheduler's plan does not (`RegularPlansAgree`, `LowPatternPlans`). The repository's README.md (lines 126-131) knows
  no such patterns, and says that what has been investigated with high confidence is skipped; the gate skips only
  ongoing findings for that, not new ones (`ScheduledAsDocumented`, `WebAsDocumented`, `SettledIsPlanned`).
* The date of first sight that is shown for a finding starts anew after seven days, even if the finding was there all
  the time (`FirstSeenExactly`).
* The lock excludes other scans only as long as every scan touches it within its lifetime and nobody
  releases it at startup under a running scan (`MutualExclusionExactly`).
* If the call that releases the lock raises, the end of the queue is never put (`RunScan`).
* Several clients that follow one scan share its queue: each event reaches one of them, and at most one of their
  streams ends (`ReadsAllExactly`, `OneStreamEnds`, `TwoClients`).
* An issue linked while a scan is being stored is lost, or undoes the scan (`BothKeptExactly`).
* Repairing cut-off JSON closes brackets before braces, whatever their order, and counts the delimiters inside strings
  (`RepairClosesExactly`, `BraceInBracketStaysOpen`, `BracketInStringBreaks`).
* Two port offsets that differ by 500 share a port (`CollideExact`), and an offset of 5754 or more raises an
  OverflowError instead of being skipped (`AllocateKeeps`).
* A limit of zero or less lines still gives one line (`LimitExact`), and the fallback lines come latest first
  (`ExtractErrorLines`).

## Model

| member | source | states |
|---|---|---|
| ToolOutput.SecretValues | src/jenkins_watchdog/reasoning/claude_agent.py:70-81 | The settings' stripped values of at least 8 characters, each once, no longer one after a shorter one. |
| ToolOutput.RedactText | src/jenkins_watchdog/reasoning/claude_agent.py:84-95 | The loop replaces one credential after the other, left to right. |
| ToolOutput.RedactRemoves | src/jenkins_watchdog/reasoning/claude_agent.py:84-95 | A listed credential that is apart from the mark is in no redacted text, wherever it is in the list: later replacements never recreate it. |
| ToolOutput.RedactExact | src/jenkins_watchdog/reasoning/claude_agent.py:84-95 | A credential is removed from all texts under all lists exactly when no text around the mark completes it. |
| ToolOutput.RedactJoin | src/jenkins_watchdog/reasoning/claude_agent.py:84-95 | Where no listed credential lies across a cut, redacting a text is redacting its parts. |
| ToolOutput.LongestFirstReplacesWhole | src/jenkins_watchdog/reasoning/claude_agent.py:70-95 | In any output, a credential of a longest-first list is replaced as a whole, and what is around it is redacted on its own, if the credentials are apart from the mark and neither it nor one listed before it lies across an end of it; shorter ones may. |
| ToolOutput.OverlapLeavesTail | src/jenkins_watchdog/reasoning/claude_agent.py:70-95 | A longer listed credential that overlaps the front of a credential leaves its tail behind, although the list is longest first. |
| ToolOutput.OverlapExample | src/jenkins_watchdog/reasoning/claude_agent.py:70-95 | Such a list and such an output. |
| ToolOutput.BoundedLength | src/jenkins_watchdog/reasoning/claude_agent.py:98-107 | How long a shortened value is: at most 33 characters above an exceeded limit, and the whole value at limit 1. |
| ToolOutput.BoundedExact | src/jenkins_watchdog/reasoning/claude_agent.py:98-107 | Eliding the middle never splices a string together, for all values and limits, exactly when no text around the marker completes it. |
| ToolOutput.ToolCallRecorder.Bound | src/jenkins_watchdog/reasoning/claude_agent.py:137-154 | Redacts, then issues the text whole, shortened or withheld according to what is left of the budget, and books its length. |
| ToolOutput.InvokeEach | src/jenkins_watchdog/reasoning/claude_agent.py:199-225 | A run of calls of one recorder books every tool, also one whose output is withheld, hands out the issues of the whole run, and its counter ends at their total cost. |
| ToolOutput.BudgetHolds | src/jenkins_watchdog/reasoning/claude_agent.py:51-52 | Over any run of calls, the returned characters never exceed the budget by more than 33. |
| ToolOutput.IssuedExactly | src/jenkins_watchdog/reasoning/claude_agent.py:137-154 | In any run, an output is withheld exactly if less than 2000 characters are left, or 4000 in a deep scan, and is whole exactly if it fits; otherwise it is shortened to what is left. |
| ToolOutput.OvershootReached | src/jenkins_watchdog/reasoning/claude_agent.py:98-107 | The overshoot of 33 is reached by a first output that does not fit. |
| ToolOutput.WholeThenWithheld | src/jenkins_watchdog/reasoning/claude_agent.py:137-154 | In any run, outputs are whole up to the first one that is not, and all later ones are withheld. |
| ToolOutput.AtMostOneCompacted | src/jenkins_watchdog/reasoning/claude_agent.py:137-154 | At most one output of a run is shortened. |
| ToolOutput.NoCredentialLeaves | src/jenkins_watchdog/reasoning/claude_agent.py:84-154 | In any run of calls, no output shows a listed credential that is apart from both marks and not in the notice. |
| ToolOutput.OrdinaryCredentialNeverLeaves | src/jenkins_watchdog/reasoning/claude_agent.py:84-154 | The same for a credential without brackets and line breaks that is no piece of the three fixed texts. |
| AgentGroups.GroupAgentFindings | src/jenkins_watchdog/checks/agent_utils.py:126-149 | The pass over objects yields the groups' values; findings that are not merged stay the same objects, merged ones are new, and no two are the same. |
| AgentGroups.MergeGroupOf | src/jenkins_watchdog/checks/agent_utils.py:101-123 | A merged finding is a new object, with the values of the group's primary rewritten for the group. |
| AgentGroups.GroupingKeepsAgents | src/jenkins_watchdog/checks/agent_utils.py:101-149 | The resources that findings speak for (their own, or a merged one's affected agents) are the same before and after, counted with repetition. |
| AgentGroups.GroupSizesAddUp | src/jenkins_watchdog/checks/agent_utils.py:101-149 | Group sizes and single findings add up to the findings that came in; a merged finding lists exactly its members' resources, in order, the first five as samples, and has their severity. |
| AgentGroups.SettledIsPermuted | src/jenkins_watchdog/checks/agent_utils.py:126-149 | If no two findings could be merged, the pass returns a permutation of its input. |
| AgentGroups.SecondPassMergesNothing | src/jenkins_watchdog/api/router.py:144-146 | After one pass and any filtering, reordering and noting of other symptoms, a second pass merges nothing. |
| AgentGroups.MergedExactly | src/jenkins_watchdog/checks/agent_utils.py:50-149 | Two findings are merged exactly if they are ungrouped findings about agents, and agree in pool (what follows the first slash of the resource, lowered and cut), class of symptom, and severity. |
| AgentGroups.MergedIsTold | src/jenkins_watchdog/checks/agent_utils.py:101-123 | A merged finding is the first member's, with namespace and pool for its resource, and a symptom that says how many agents of the pool are offline, and why, or what they have. |
| Findings.SuffixKeepsFingerprint | src/jenkins_watchdog/checks/base.py:19-23 | Appending " (" and any text to any symptom leaves the fingerprint as it is, whatever normalises and digests it. |
| Findings.FirstMax | src/jenkins_watchdog/api/router.py:163 | The position of the first greatest score, as `max` with a key finds it. |
| Findings.ScoresAreRanks | src/jenkins_watchdog/api/router.py:70-89 | The scores order findings as a table of ranks by category and severity does. |
| Findings.RankIsMonotone | src/jenkins_watchdog/api/router.py:70-89 | In one category a critical finding comes before a warning, and a warning before a low one; with one severity, the category decides. |
| Findings.DecimalIsNumber | src/jenkins_watchdog/api/router.py:170 | A count is written with digits that stand for it. |
| Dedup.RepsAreRight | src/jenkins_watchdog/api/router.py:108-121 | The one-pass fold meets the rule: one representative per resource, in first-appearance order, each graver than all earlier findings of its resource, and none graver than it. |
| Dedup.RepsExactly | src/jenkins_watchdog/api/router.py:108-121 | The representatives are exactly such findings: the first critical one of a resource, or else the first warning, or else the first low one. |
| Dedup.NotesAreRight | src/jenkins_watchdog/api/router.py:114-121 | A representative's note is the symptom of the one it replaced and of all later findings of the resource, with semicolons between, and of no earlier ones. |
| Dedup.EarlierSymptomLost | src/jenkins_watchdog/api/router.py:114-121 | Of three findings, the last of which is the worst, the second one's symptom is told of nowhere. |
| Dedup.SuppressionExplained | src/jenkins_watchdog/api/router.py:123-141 | A suppressed finding's workload shows an out-of-memory finding in the result exactly when one of its representatives has that keyword without the other. |
| Dedup.BothKeywordsSuppress | src/jenkins_watchdog/api/router.py:102-141 | A representative with both keywords is dropped. |
| Dedup.WorkloadVanishes | src/jenkins_watchdog/api/router.py:102-141 | Nothing comes out of a lone finding with both keywords. |
| Dedup.KeptExactly | src/jenkins_watchdog/api/router.py:92-141 | What comes out: exactly the first of each resource's gravest findings, unless it is in a crash loop and such a one of the same workload (namespace and name without the pod's own end) was killed for memory. |
| Dedup.KeptAreRight | src/jenkins_watchdog/api/router.py:108-141 | What comes out has different resources, and each finding is the first of its resource's gravest ones. |
| Dedup.KeepHighest | src/jenkins_watchdog/api/router.py:110-121 | The first loop over objects: dictionary, insertion order and rewritten notes are those of the fold. |
| Dedup.DeduplicateFindings | src/jenkins_watchdog/api/router.py:108-141 | The pass over objects returns the kept objects and changes nothing but the notes. |
| Correlation.MergedExactly | src/jenkins_watchdog/api/router.py:148-221 | Two findings are merged exactly if they are failed builds or pipelines with the same error signature, not empty; or are on the same node, by host or by the resource of a node, with a Jenkins finding on it. |
| Correlation.PrimaryIsBest | src/jenkins_watchdog/api/router.py:163-170 | A group becomes its first most urgent member, marked in its symptom, with the group's size, a line for each other member, and the node or the other members' jobs; nothing else of it changes. |
| Correlation.PhaseConserves | src/jenkins_watchdog/api/router.py:148-223 | In the signature and the node phase each finding is in exactly one group: it is the group's primary, which comes out, or the output names it. |
| Correlation.PhaseSize | src/jenkins_watchdog/api/router.py:148-223 | A phase puts out as many findings as go in, less the group size minus one of every merged group. |
| Correlation.PhaseKeepsFingerprints | src/jenkins_watchdog/api/router.py:163-219 | Each output has the fingerprint of the finding it was, and different outputs were different findings. |
| Correlation.MergeRelated | src/jenkins_watchdog/api/router.py:148-223 | A phase over objects returns its groups' primaries, the same objects, rewrites them and nothing else. |
| Correlation.AbsorbGroup | src/jenkins_watchdog/api/router.py:163-171 | The primary takes over the others' jobs, lines and number; the other objects stay as they are. |
| Correlation.LinkFindings | src/jenkins_watchdog/api/router.py:173-189 | The nested loops with their set of linked fingerprints leave exactly the first matching pairs linked, in order; or they raise an exception, at the first pair where a node is looked for in no host, and what was linked before stays. |
| Correlation.RaisesExactly | src/jenkins_watchdog/api/router.py:178-185 | If fingerprints differ, the loops raise an exception exactly if some Jenkins finding has a node and some cluster finding has None for its host. |
| Correlation.ClusterFindingsPass | src/jenkins_watchdog/api/router.py:146-171 | Cluster findings come to the linking as they went into the pass, all of them and no others. |
| Correlation.PassRaisesExactly | src/jenkins_watchdog/api/router.py:144-223 | If the fingerprints that come to the linking differ, the pass raises an exception exactly if a Jenkins finding with a node comes to it and a cluster finding with None for its host goes into the pass. |
| Correlation.ControllerAndUnscheduledPod | src/jenkins_watchdog/api/router.py:178-185 | It does so for a finding of the controller, which has a node, and an event without one. |
| Correlation.NodePhaseMovesOnly | src/jenkins_watchdog/api/router.py:191-221 | If no Jenkins finding has a host, the node phase returns its input in another order. |
| Correlation.MatchExactly | src/jenkins_watchdog/api/router.py:174-188 | A Jenkins finding matches a cluster finding exactly if the node where it was built, or else its own, is part of the other's host, object name or resource. |
| Correlation.LinkedOnce | src/jenkins_watchdog/api/router.py:176-189 | No fingerprint is linked twice. |
| Correlation.MatchIsLinked | src/jenkins_watchdog/api/router.py:176-189 | A fingerprint that matches anywhere is linked, there or earlier. |
| Correlation.LinkIsFirstMatch | src/jenkins_watchdog/api/router.py:176-189 | A cluster finding with a fingerprint of its own is linked exactly to the first Jenkins finding on its node. |
| Correlation.LinkedAreLinked | src/jenkins_watchdog/api/router.py:178-189 | The lines added to a finding are those of the cluster findings linked to it, and no others. |
| Correlation.CorrelationConserves | src/jenkins_watchdog/api/router.py:148-223 | Unless the pass raises an exception, each finding is to be seen in one of the phase between, as itself or by its line, which is to be seen in one that comes out. |
| Correlation.CorrelationSize | src/jenkins_watchdog/api/router.py:144-223 | The output count is the input count less what agent groups, signature groups and node groups absorb, unless linking raises an exception. |
| Correlation.CorrelateFindings | src/jenkins_watchdog/api/router.py:144-223 | The whole pass over objects yields the values of the three phases one after the other, on different objects, or the exception of the linking. |
| Pipeline.Reduce | src/jenkins_watchdog/api/router.py:337-353 | Grouping, filtering by dismissed fingerprints, deduplication and correlation over objects yield the values of the passes' composition, or its exception. |
| Pipeline.OpenIsExact | src/jenkins_watchdog/api/router.py:341-342 | The filter keeps exactly the findings whose fingerprint is not dismissed. |
| Pipeline.ReducedPrintsDiffer | src/jenkins_watchdog/api/router.py:337-353 | With an injective digest, all findings that come out of the pipeline have different fingerprints, if no category has a colon, and no deduplicated finding's resource begins with another one of its category and a colon. |
| Pipeline.ReducedRaisesExactly | src/jenkins_watchdog/api/router.py:337-353 | Then the pipeline raises an exception exactly if a Jenkins finding with a node comes to the linking, and a cluster finding with None for its host is among the deduplicated ones. |
| Pipeline.FingerprintExactly | src/jenkins_watchdog/checks/base.py:19-23 | With an injective digest and no colon in categories, two fingerprints are equal exactly if the categories are, and the resources and symptom classes are, or one resource goes on after a colon with what the other finding's symptom class begins with, up to another colon and its own. |
| Pipeline.CollideExactly | src/jenkins_watchdog/checks/base.py:19-23 | Some symptoms give findings with two resources of one category the same fingerprint exactly if one resource begins with the other one and a colon. |
| Pipeline.ApartExactly | src/jenkins_watchdog/checks/base.py:19-23 | For a whole list: whatever the symptoms, fingerprints of different resources differ exactly if there is no such pair. |
| Pipeline.ColonCollides | src/jenkins_watchdog/checks/base.py:19-23 | If the second resource goes on like that, the fingerprints are equal, whatever the digest. |
| Pipeline.CollidingPairComesOut | src/jenkins_watchdog/checks/credential_health.py:38-71 | The findings of two expired credentials with such identifiers come out of the pipeline as they went in, with one fingerprint. |
| Triage.TriageFindings | src/jenkins_watchdog/reasoning/triage.py:106-189 | The sorting over objects: when it fails, what it queues and dismisses, how it groups, and how it rewrites the primaries. |
| Triage.FindLast | src/jenkins_watchdog/reasoning/triage.py:194 | The last position of a character, or -1. |
| Triage.UnreadQueuesAll | src/jenkins_watchdog/reasoning/triage.py:192-204 | A reply in which no list can be read leaves every finding queued, in order, and as it is. |
| Triage.ReplyIsRead | src/jenkins_watchdog/reasoning/triage.py:192-204 | Otherwise the answers are the list between the reply's first opening and last closing bracket. |
| Triage.FailsExactly | src/jenkins_watchdog/reasoning/triage.py:140-158 | The sorting fails exactly if an answer is no object, or one that is looked at has an action that is no string. |
| Triage.NothingLostSilently | src/jenkins_watchdog/reasoning/triage.py:153-189 | A finding with an answer is dismissed exactly if it says DISMISS; it is related to finding g, which is queued or dismissed, or is itself g, if it says CORRELATE and g is its group; and it is queued by every other answer. |
| Triage.QueuedOnce | src/jenkins_watchdog/reasoning/triage.py:180-182 | No finding is queued twice, and none that is dismissed is queued. |
| Triage.DroppedExactly | src/jenkins_watchdog/api/router.py:364-365 | The findings dropped after triage are exactly those with the fingerprint of one whose answer says DISMISS. |
| Triage.FinishRewrites | src/jenkins_watchdog/reasoning/triage.py:180-186 | A primary's correlated findings become the lines of its related findings, and its group size one more than their number, whatever other groups do. |
| Triage.FinishLeaves | src/jenkins_watchdog/reasoning/triage.py:180-186 | A finding that is no primary stays as it is. |
| Triage.LinesForgotten | src/jenkins_watchdog/reasoning/triage.py:183-185 | A finding's earlier correlated findings survive exactly if no answer relates anything to it, or each is named again by one that is related now. |
| Triage.SelfRelationForgets | src/jenkins_watchdog/reasoning/triage.py:174-186 | A lone finding related to itself loses the line that it had. |
| Planning.DiffIsComplete | src/jenkins_watchdog/state.py:250-259 | Every current finding is new or ongoing, not both; a stored one is resolved exactly if it has a fingerprint that no current one has. |
| Planning.GateExactly | src/jenkins_watchdog/reasoning/gate.py:14-53 | For every finding, the gate lets through, but for offline agents outside k3s: in a deep scan critical and warning ones; else known critical ones without a confident investigation, and new ones that are critical, warning, or about failed builds, pipelines or the queue. |
| Planning.RegularGate | src/jenkins_watchdog/reasoning/gate.py:14-53 | For every finding that a regular plan may present, the gate passes it exactly if the policy (or the extra rule for patterns) does. |
| Planning.DeepIsPolicy | src/jenkins_watchdog/reasoning/gate.py:26-38 | In a deep scan, choosing and gating keep exactly the critical and warning findings but offline agents outside k3s. |
| Planning.RegularIsPolicy | src/jenkins_watchdog/api/router.py:399-413 | Choosing and gating give the policy's sequence, followed by the new pipeline patterns of low severity. |
| Planning.PlannedExactly | src/jenkins_watchdog/api/router.py:393-413 | With room for all, the plans hold exactly the findings that their mode wants: in default mode new critical and warning ones and ongoing critical ones without a confident investigation, but offline agents outside k3s; and, from the web page, new patterns of low severity. |
| Planning.RouterPlan | src/jenkins_watchdog/api/router.py:389-416 | The web page's plan is the first part of the policy's stable ranking, in all three modes. |
| Planning.BuildInvestigationPlan | src/jenkins_watchdog/cli.py:236-261 | The command line's plan is the first part of the same ranking. |
| Planning.SchedulerPlan | src/jenkins_watchdog/scheduler.py:142-160 | The scheduler's plan is the first part of the policy's ranking without the extra patterns, and at most 10 in a deep scan. |
| Planning.RankedIsStable | src/jenkins_watchdog/api/router.py:415 | A sequence is the plan's ranking exactly if it goes by rank and keeps findings of equal rank in their order. |
| Planning.RegularPlansAgree | src/jenkins_watchdog/scheduler.py:146-160 | The regular plans are equal exactly if the longer one has no new pipeline pattern of low severity (for a negative limit: exactly if it is empty). |
| Planning.WholePlansAgree | src/jenkins_watchdog/scheduler.py:146-156 | Before they are cut, the regular plans are equal exactly if no finding at all is such a pattern. |
| Planning.LowPatternPlans | src/jenkins_watchdog/scheduler.py:146-160 | A lone new regression of low severity is planned from the web page, and not by the scheduler. |
| Planning.ScheduledAsDocumented | src/jenkins_watchdog/scheduler.py:142-160 | The scheduler's regular plan is the documented one exactly if no new finding in it has been investigated with high confidence before (for a negative limit: none that could be planned, or nothing is left). |
| Planning.WebAsDocumented | src/jenkins_watchdog/api/router.py:399-416 | The regular plan of the web page is the documented one exactly if, also, it has no new pipeline pattern of low severity. |
| Planning.SettledIsPlanned | src/jenkins_watchdog/reasoning/gate.py:14-53 | A lone critical finding that is new again is planned, although its stored investigation has high confidence. |
| Planning.DeepPlanIsPrefix | src/jenkins_watchdog/scheduler.py:157-160 | The scheduler's deep plan is a prefix of the web page's, of its first 10 or of all. |
| Planning.PlanPrintsDiffer | src/jenkins_watchdog/api/router.py:393-416 | Every plan, of all modes and of the scheduler, of findings with different fingerprints has different fingerprints: no finding is planned twice. |
| Planning.ResultsAreKept | src/jenkins_watchdog/state.py:165-178 | Then each result is stored under its finding, and results stored for other fingerprints stay. |
| RunStore.Valkey.StoreRunResult | src/jenkins_watchdog/state.py:82-122 | The loops store an entry for each finding: new or ongoing by the comparison, the issue of the last scan, the date of first sight, which is set if it is missing. |
| RunStore.NewExactly | src/jenkins_watchdog/state.py:102-106 | In any run a finding is stored as new exactly if the last stored scan, unless cleared since, lacks its fingerprint. |
| RunStore.FirstSeenExactly | src/jenkins_watchdog/state.py:112-118 | In any run of scans the stored date of first sight is the true one exactly as long as it is less than seven days old. |
| RunStore.LinkSurvivesExactly | src/jenkins_watchdog/state.py:93-110 | A linked issue is still found after any scans and resets exactly if there was no reset and each scan saw the finding. |
| RunStore.BothKeptExactly | src/jenkins_watchdog/api/jira.py:181-188 | Of all orders in which a scan and a link read and write the stored findings, both survive exactly in those where one is over before the other begins. |
| RunStore.DoubleLosesLink | src/jenkins_watchdog/state.py:93-110 | If two stored findings share a fingerprint, the issue linked to it is not found. |
| ScanLock.Valkey.AcquireLock | src/jenkins_watchdog/state.py:41-44 | The key is set if it is missing or has expired, and only then the lock is got. |
| ScanLock.Valkey.RefreshLock | src/jenkins_watchdog/state.py:47-50 | A present key gets its whole lifetime again; a missing one stays missing. |
| ScanLock.Valkey.ReleaseLock | src/jenkins_watchdog/state.py:53-55 | The key is gone, whoever has set it. |
| ScanLock.Take | src/jenkins_watchdog/state.py:41-55 | Taking a step through the server's functions gives the next state. |
| ScanLock.AcquireExactly | src/jenkins_watchdog/state.py:41-44 | After any run, a scan that asks gets the lock exactly if the key is missing or has expired, and then for 300 seconds; else nothing changes. |
| ScanLock.FreeAfterRelease | src/jenkins_watchdog/state.py:53-55 | When a scan has released the lock, the next one gets it at once. |
| ScanLock.MutualExclusionExactly | src/jenkins_watchdog/state.py:41-55 | In all runs of UI and scheduler scans at most one is in its critical section, with the key present, exactly if scans touch the key within less than its lifetime and the startup release finds no active scan. |
| ScanLock.RunHolds | src/jenkins_watchdog/state.py:41-55 | In such runs the key's expiry is the one active scan's last touch plus the lifetime. |
| ScanLock.FreeWithinTtl | src/jenkins_watchdog/state.py:12-44 | After any run, when nobody touches the key for its lifetime, the next scan gets the lock. |
| ScanStream.Scan.RunScan | src/jenkins_watchdog/api/router.py:318-535 | For all outcomes of all calls: the stream is told to its end, with the detection, the plan and each investigation as its calls went, is complete only after both stores, is stopped exactly if a call was cancelled; the lock is released unless that call fails, and the queue closed unless one of the two does. |
| ScanStream.Scan.Body | src/jenkins_watchdog/api/router.py:327-509 | If the body returns, it has said the start, the detection, the plan, and for each planned investigation its start, progress and result, and no call has failed but those that cost one investigation; otherwise it has said a part of that. |
| ScanStream.Scan.Investigate | src/jenkins_watchdog/api/router.py:444-484 | After its progress, an investigation says that it is complete, or failed by an exception, or nothing if it has no result; a cancellation ends the scan. |
| ScanStream.InvestigationsAddUp | src/jenkins_watchdog/api/router.py:422-484 | Of a complete scan, the completed, the failed and the empty investigations add up to the plan. |
| ScanStream.Scan.Detect | src/jenkins_watchdog/api/router.py:337-387 | The events up to triage, by mode, in order, as far as the calls succeed. |
| ScanStream.FollowActiveScan | src/jenkins_watchdog/api/router.py:298-315 | However the queue serves several clients, each has read the events that it took, in order, and has ended exactly if it took the end. |
| ScanStream.ReadsWhatItTook | src/jenkins_watchdog/api/router.py:308-315 | What a client has read is what it has taken from the queue, in order, but for the end. |
| ScanStream.EveryItemIsTakenOnce | src/jenkins_watchdog/api/router.py:308-315 | Together, all clients have read the events that have been taken, each of them exactly once. |
| ScanStream.EndIsLast | src/jenkins_watchdog/api/router.py:308-315 | A client that has come to its end has read what it took before, and reads no more. |
| ScanStream.ReadsAllExactly | src/jenkins_watchdog/api/router.py:308-315 | A client reads the whole of a closed stream, and comes to its end, exactly if it takes every item. |
| ScanStream.OneStreamEnds | src/jenkins_watchdog/api/router.py:308-315 | At most one client's stream ends, and none if the queue is never closed. |
| ScanStream.TwoClients | src/jenkins_watchdog/api/router.py:237-238 | Two clients of one scan: one reads the start and never comes to an end, the other only the completion. |
| ScanStream.FollowReadsAll | src/jenkins_watchdog/api/router.py:298-315 | Of a closed queue, what comes before its end is every event, and the last is the only one that says how the scan ended. |
| Scheduler.Loop.Run | src/jenkins_watchdog/scheduler.py:18-60 | In every run each regular scan starts the regular interval after every earlier success and with no deep scan due, and each deep scan the deep interval after every deep success and the loop's begin; scans do not overlap. |
| Scheduler.Loop.Step | src/jenkins_watchdog/scheduler.py:38-60 | A turn starts a deep scan exactly if the deep interval has passed since what was noted of the last deep success, or the begin; or else a regular one exactly if the regular interval has passed since the last success; then it pauses for 30 seconds, or 60 after an exception. |
| Scheduler.Loop.RunScan | src/jenkins_watchdog/scheduler.py:42-51 | Only a scan that ran moves the two variables, a deep one both of them. |
| Scheduler.DueIsInTime | src/jenkins_watchdog/scheduler.py:42-48 | What the variables say is due is in time with respect to everything that has happened. |
| ChatStream.StreamChat | src/jenkins_watchdog/reasoning/chat_stream.py:62-114 | At any pace of the agent, the draining loop yields what is expected and extends the transcript exactly on success. |
| ChatStream.EveryInterleaving | src/jenkins_watchdog/reasoning/chat_stream.py:62-114 | In every interleaving of agent and generator, what is yielded is a start of what is expected, and all of it at the end; the transcript grows only then. |
| ChatStream.ExpectedIsRight | src/jenkins_watchdog/reasoning/chat_stream.py:92-114 | What is expected: the events in order up to one that cannot be written, one final frame, done exactly on success, and then any non-empty answer among the tokens. |
| ChatStream.EveryTurnEnds | src/jenkins_watchdog/reasoning/chat_stream.py:76-104 | No interleaving goes on for ever, and none gets stuck before the turn has ended. |
| ChatStream.StoredAlternates | src/jenkins_watchdog/api/router.py:813-888 | However chats and corrections overlap, succeed or fail, stored transcripts alternate and have even length. |
| ChatStream.StoresItsTurn | src/jenkins_watchdog/api/router.py:813-888 | What a successful chat or correction stores is the transcript that it has loaded and its own pair, whatever others store meanwhile; a failed one adds nothing. |
| LineDecoder.DecodeStream | frontend/src/services/api.ts:94-115 | However a text is cut into chunks, the events are those of its finished lines. |
| LineDecoder.SplitAppend | frontend/src/services/api.ts:102-104 | Splitting a longer text keeps the finished lines and goes on from the unfinished one. |
| LineDecoder.SplitJoins | frontend/src/services/api.ts:103 | Joining the pieces of a text gives the text. |
| LineDecoder.SplitOfJoin | frontend/src/services/api.ts:103 | Splitting joined lines gives the lines. |
| LineDecoder.RoundTrip | frontend/src/services/api.ts:106-113 | Decoding what the server frames, with either line end and pings between, gives the events in order. |
| LineDecoder.CutStream | frontend/src/services/api.ts:98-115 | A stream that breaks off yields a start of the whole stream's events. |
| PortRegistry.CollideExact | scripts/dev_state.py:30-45 | Two offsets share a port exactly if they are equal or 500 apart. |
| PortRegistry.SearchIsLeast | scripts/dev_state.py:93-100 | The search returns the least offset that is free and whose ports are, and raises exactly if there is none below the last possible port. |
| PortRegistry.SearchIsBounded | scripts/dev_state.py:93-100 | The offset found is at most the used offsets plus twice the busy ports. |
| PortRegistry.Registry.CmdAllocate | scripts/dev_state.py:84-105 | The command's loop leaves the registry that allocation specifies, and answers with its entry. |
| PortRegistry.Registry.CmdRelease | scripts/dev_state.py:120-125 | The worktree's entry is gone, and no other. |
| PortRegistry.AllocateKeeps | scripts/dev_state.py:84-105 | Allocation keeps all entries and the offsets distinct, is answered alike when repeated, and takes the least admissible offset. |
| PortRegistry.RunKeeps | scripts/dev_state.py:84-125 | Over any run of commands, offsets stay distinct and entries consistent. |
| PortRegistry.RunSeparatesPorts | scripts/dev_state.py:30-45 | After any run, two worktrees with offsets below 500 share no port. |
| LogLines.ExtractErrorLines | src/jenkins_watchdog/clients/log_analysis.py:32-73 | The two scans, the sort, the seen-set and the cap give the declarative result: last occurrence of each key, the last lines in console order, cut; or the quiet lines, latest first. |
| LogLines.TailIsEnd | src/jenkins_watchdog/clients/log_analysis.py:37 | What is looked at is the end of the console, of the length asked for. |
| LogLines.CandidatesExactly | src/jenkins_watchdog/clients/log_analysis.py:41-56 | What is looked for: stripped lines of at least five characters that match and are no noise; or else all that are neither blank nor noise. |
| LogLines.ResultIsBounded | src/jenkins_watchdog/clients/log_analysis.py:60-73 | The result has at most the limit's lines, of at most 500 characters, no two of which agree in the first 120. |
| LogLines.LimitExact | src/jenkins_watchdog/clients/log_analysis.py:66-70 | The limit is kept for all logs exactly if it is at least one. |
| LogLines.LatestErrorsKept | src/jenkins_watchdog/clients/log_analysis.py:60-73 | The result is the end of the deduplicated error lines, and its last line is the last error line. |
| JsonRepair.RepairTruncatedJson | src/jenkins_watchdog/reasoning/engine.py:312-330 | What is parsed: the text as it is, or else the repaired text, or else nothing. |
| JsonRepair.TrimExactly | src/jenkins_watchdog/reasoning/engine.py:318-320 | What is cut off first: the blanks at the end, and then one comma. |
| JsonRepair.RepairExact | src/jenkins_watchdog/reasoning/engine.py:318-325 | For text without delimiters and escapes inside strings, the repair closes all strings and delimiters exactly if nothing was closed out of turn, the open ones are braces outermost, then brackets, and the text does not end at an opening quote. |
| JsonRepair.RepairClosesExactly | src/jenkins_watchdog/reasoning/engine.py:318-325 | For any text, the repair closes all strings and delimiters exactly if nothing was closed out of turn, the quote is added just where a string is open, and the open delimiters are as many braces, and then brackets, as the raw counts are out of balance. |
| JsonRepair.BraceInBracketStaysOpen | src/jenkins_watchdog/reasoning/engine.py:318-325 | The repair leaves "[{" open. |
| JsonRepair.BracketInStringBreaks | src/jenkins_watchdog/reasoning/engine.py:318-325 | A bracket inside a string makes the repair close one too many. |
| JsonRepair.RepairKeepsText | src/jenkins_watchdog/reasoning/engine.py:318-325 | The repair keeps the text, but for blanks and one comma at its end, and only adds closing characters. |

## Left out

- Health checks, the clients of Jenkins, Kubernetes, Prometheus, GitHub, GitLab and Jira, and the tools: thin wrappers over remote interfaces.
- Sign-in, session tokens, SHA-256 and the process environment; the digest of a fingerprint is a parameter, and injective where that matters.
- Regular expressions, blanks, upper and lower case: parameters without assumed properties, except that a blank is blank.
- React pages, Helm charts, shell scripts, logging, prompts and printing.
- Streak, percentage and quantity helpers: they would add only easy members.
- Aliasing between findings: lists are taken to hold each object once, as the checks produce them. The controller's check gives one context dictionary to several findings, but all of one resource: deduplication lets one of them out, and a finding that replaces another has its note written anew, so what was noted on the others is never seen.
- Lists inside a finding's context are values. The context of a merged agent finding is a shallow copy in the code, but the finding that it shares its lists with does not come out of the pass.
- AgentGroups.GroupAgentFindings: `min_group_size` is fixed at its default of 2, and the two loops that set the agents aside and group them are one.
- Correlation.MergeRelated: the signature phase and the node phase are one method with a parameter for what differs; the code has them twice.
- Context values that are present but empty or None count as absent, except for a job's name and for a host that is None; contexts hold only the entries that the passes use.
- LineDecoder.DecodeStream: chunks are taken as decoded text; TextDecoder and the network are not modelled.
- PortRegistry.Registry.CmdAllocate: which ports are busy does not change during one search; the file lock and the file are not modelled.
- ScanLock.MutualExclusionExactly: time is in whole seconds, and a key is gone at its expiry; the flag that asks a scan to stop is not modelled.
- ScanStream.FollowActiveScan: the messages that keep a waiting client's connection alive.
- ScanStream.Scan.RunScan: a cancellation before the task's first step, after which nothing is told and the lock stays until it expires, and a failing call between acquiring the lock and starting the task.
- ScanStream.Scan.RunScan: the event that `trigger_scan` creates is a local variable there, so the checks of the module's own are never true and are left out.
- Scheduler.Loop.Run: the endless loop is modelled by all its finite parts; the configured intervals do not change.
- ChatStream.EveryInterleaving: a client that leaves in the middle of a turn ends the generator, which then yields and stores nothing more; the agent's task is not followed further.
- Planning.ResultsAreKept: the expiry of stored results.
- RunStore.LinkSurvivesExactly: scans, links and resets are whole steps here, and BothKeptExactly takes one scan and one link apart; dismissing and restoring a finding by hand, which also rewrite the stored findings, are not modelled.
- RunStore.Valkey.StoreRunResult: the record of the run, the incident keys and the scan history, which nothing modelled reads; and the expiry of the stored findings after seven days without a scan.
- Triage.TriageFindings: the prompt and the call; a call that fails or is not configured is the absent reply.
- JsonRepair.RepairTruncatedJson: JSON is read at the level of strings and delimiters only; which texts `json.loads` accepts is a parameter.
