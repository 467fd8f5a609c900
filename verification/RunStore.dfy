/** What is stored of a scan, and what the next scan takes over from it. Models store_run_result in
    src/jenkins_watchdog/state.py, and the linking of an issue in src/jenkins_watchdog/api/jira.py. */
module RunStore {
  import opened Sequences
  import opened Findings
  import Ordering
  import Planning

  /** How long the date of first sight is kept, in seconds; it is not renewed. */
  const FIRST_SEEN_TTL := 604800

  /** A stored finding: its fingerprint, whether the scan found it new, the issue linked to it, and when
      it was seen first and last. */
  datatype Entry = Entry(mark: string, isNew: bool, issue: Option<string>, firstSeen: int, lastSeen: int)

  /** The findings of the last scan, and for each fingerprint when its date of first sight was set. */
  datatype Store = Store(entries: seq<Entry>, seen: map<string, int>)

  /** The stored issue for a fingerprint: that of the last entry that has it. */
  function IssueOf(entries: seq<Entry>, mark: string): Option<string> {
    if entries == [] || mark == "" then None
    else if entries[|entries| - 1].mark == mark then entries[|entries| - 1].issue
    else IssueOf(entries[..|entries| - 1], mark)
  }

  function FirstSeen(seen: map<string, int>, mark: string, now: int): int {
    if mark in seen && now < seen[mark] + FIRST_SEEN_TTL then seen[mark] else now
  }

  /** The store after a scan. */
  function Record(s: Store, now: int, marks: seq<string>, newMarks: set<string>): (t: Store)
    ensures |t.entries| == |marks|
    ensures forall i | 0 <= i < |marks| ::
              t.entries[i] == Entry(marks[i], marks[i] in newMarks, IssueOf(s.entries, marks[i]),
                                    FirstSeen(s.seen, marks[i], now), now)
  {
    Store(seq(|marks|, i requires 0 <= i < |marks| =>
                Entry(marks[i], marks[i] in newMarks, IssueOf(s.entries, marks[i]),
                      FirstSeen(s.seen, marks[i], now), now)),
          map m | m in s.seen.Keys + (set k | k in marks) :: if m in marks then FirstSeen(s.seen, m, now) else s.seen[m])
  }

  /** Linking an issue changes the first entry that has the fingerprint. */
  function Attach(s: Store, mark: string, issue: string): Store {
    s.(entries := AttachTo(s.entries, mark, issue))
  }

  function AttachTo(entries: seq<Entry>, mark: string, issue: string): seq<Entry> {
    if entries == [] then []
    else if entries[0].mark == mark then [entries[0].(issue := Some(issue))] + entries[1..]
    else [entries[0]] + AttachTo(entries[1..], mark, issue)
  }

  class Valkey {
    var entries: seq<Entry>
    var seen: map<string, int>

    constructor ()
      ensures Contents() == Store([], map[])
    {
      entries, seen := [], map[];
    }

    function Contents(): Store
      reads this
    {
      Store(entries, seen)
    }

    /** The loops of the function: the issues of the last scan by fingerprint; then the entries of this
        one, and the dates of first sight that are missing. */
    method StoreRunResult(marks: seq<string>, newMarks: set<string>, now: int)
      modifies this
      ensures Contents() == Record(old(Contents()), now, marks, newMarks)
    {
      var previous: map<string, Option<string>> := map[];
      for i := 0 to |entries|
        invariant entries == old(entries) && seen == old(seen)
        invariant forall m :: (if m in previous then previous[m] else None) == IssueOf(entries[..i], m)
      {
        assert entries[..i + 1][..i] == entries[..i];
        if entries[i].mark != "" {
          previous := previous[entries[i].mark := entries[i].issue];
        }
      }
      assert entries[..|entries|] == entries;
      var enriched: seq<Entry> := [];
      for i := 0 to |marks|
        invariant entries == old(entries)
        invariant enriched == Record(old(Contents()), now, marks[..i], newMarks).entries
        invariant seen == Record(old(Contents()), now, marks[..i], newMarks).seen
      {
        var mark := marks[i];
        assert marks[..i + 1] == marks[..i] + [mark];
        RecordOne(old(Contents()), now, marks[..i], mark, newMarks);
        var issue := if mark in previous then previous[mark] else None;
        var first := FirstSeen(seen, mark, now);
        seen := seen[mark := first];
        enriched := enriched + [Entry(mark, mark in newMarks, issue, first, now)];
      }
      assert marks[..|marks|] == marks;
      entries := enriched;
    }
  }

  lemma RecordOne(s: Store, now: int, marks: seq<string>, mark: string, newMarks: set<string>)
    ensures var t := Record(s, now, marks, newMarks);
            Record(s, now, marks + [mark], newMarks)
            == Store(t.entries + [Entry(mark, mark in newMarks, IssueOf(s.entries, mark),
                                        FirstSeen(t.seen, mark, now), now)],
                     t.seen[mark := FirstSeen(t.seen, mark, now)])
  {
    hide IssueOf;
    SeenOne(s, now, marks, mark, newMarks);
    var t, u := Record(s, now, marks, newMarks), Record(s, now, marks + [mark], newMarks);
    forall i | 0 <= i < |marks|
      ensures u.entries[i] == t.entries[i]
    {
      assert (marks + [mark])[i] == marks[i];
    }
    assert u.entries == t.entries + [u.entries[|marks|]];
  }

  lemma SeenOne(s: Store, now: int, marks: seq<string>, mark: string, newMarks: set<string>)
    ensures var t := Record(s, now, marks, newMarks);
            && FirstSeen(t.seen, mark, now) == FirstSeen(s.seen, mark, now)
            && Record(s, now, marks + [mark], newMarks).seen == t.seen[mark := FirstSeen(t.seen, mark, now)]
  {
    hide IssueOf;
    var t, u := Record(s, now, marks, newMarks), Record(s, now, marks + [mark], newMarks);
    assert FirstSeen(t.seen, mark, now) == FirstSeen(s.seen, mark, now);
    hide FirstSeen;
    forall m
      ensures m in u.seen <==> m in t.seen || m == mark
      ensures m in u.seen ==> u.seen[m] == if m == mark then FirstSeen(s.seen, mark, now) else t.seen[m]
    {
      assert m in marks + [mark] <==> m in marks || m == mark;
    }
  }

  // ---------------------------------------------------------------- runs

  /** A scan is stored, an issue is linked, or all findings are cleared. */
  datatype Event =
    | Scan(now: int, marks: seq<string>, newMarks: set<string>)
    | Link(mark: string, issue: string)
    | Reset

  function Next(s: Store, e: Event): Store {
    match e
    case Scan(now, marks, newMarks) => Record(s, now, marks, newMarks)
    case Link(mark, issue) => Attach(s, mark, issue)
    case Reset => s.(entries := [])
  }

  function Run(s: Store, events: seq<Event>): Store {
    if events == [] then s else Next(Run(s, events[..|events| - 1]), events[|events| - 1])
  }

  /** Scans follow each other in time, and none is later than `now`. */
  predicate Ordered(events: seq<Event>, now: int) {
    forall i, j | 0 <= i <= j < |events| && events[i].Scan? && events[j].Scan? :: events[i].now <= events[j].now <= now
  }

  predicate Sees(e: Event, mark: string) {
    e.Scan? && mark in e.marks
  }

  /** When a finding really was seen first. */
  function FirstSight(events: seq<Event>, mark: string): Option<int> {
    if events == [] then None
    else
      var earlier := FirstSight(events[..|events| - 1], mark);
      if earlier.Some? || !Sees(events[|events| - 1], mark) then earlier else Some(events[|events| - 1].now)
  }

  lemma {:induction false} SeenSince(events: seq<Event>, mark: string, now: int)
    requires Ordered(events, now)
    ensures var seen, first := Run(Store([], map[]), events).seen, FirstSight(events, mark);
            && (mark in seen <==> first.Some?)
            && (first.Some? ==> first.value <= seen[mark] <= now)
            && (first.Some? && now < first.value + FIRST_SEEN_TTL ==> seen[mark] == first.value)
  {
    if events != [] {
      var front := events[..|events| - 1];
      SeenSince(front, mark, now);
      var last := events[|events| - 1];
      if Sees(last, mark) && FirstSight(front, mark).Some? {
        SeenSince(front, mark, last.now);
      }
    }
  }

  /** The date of first sight that a scan stores for a finding is the true one exactly as long as it is
      not older than the date is kept: then it starts anew, even if the finding was there all the time. */
  lemma FirstSeenExactly(events: seq<Event>, scan: Event, i: nat)
    requires scan.Scan? && i < |scan.marks| && Ordered(events, scan.now)
    ensures var first := FirstSight(events + [scan], scan.marks[i]);
            && first.Some? && first.value <= scan.now
            && (Run(Store([], map[]), events + [scan]).entries[i].firstSeen == first.value
                <==> scan.now < first.value + 7 * 24 * 60 * 60)
  {
    var mark := scan.marks[i];
    SeenSince(events, mark, scan.now);
    assert (events + [scan])[..|events|] == events;
  }

  // ---------------------------------------------------------------- the status

  function Marks(entries: seq<Entry>): (marks: seq<string>)
    ensures |marks| == |entries| && forall i | 0 <= i < |entries| :: marks[i] == entries[i].mark
  {
    seq(|entries|, i requires 0 <= i < |entries| => entries[i].mark)
  }

  function Prints(findings: seq<Data>, id: Identity): (marks: seq<string>)
    ensures |marks| == |findings| && forall i | 0 <= i < |findings| :: marks[i] == Fingerprint(findings[i], id)
  {
    seq(|findings|, i requires 0 <= i < |findings| => Fingerprint(findings[i], id))
  }

  /** The stored findings, as the comparison takes them. */
  function Previous(s: Store): (previous: seq<Planning.Stored>)
    ensures |previous| == |s.entries|
    ensures forall i | 0 <= i < |previous| :: previous[i].mark == Some(s.entries[i].mark)
  {
    seq(|s.entries|, i requires 0 <= i < |s.entries| => Planning.Stored(Some(s.entries[i].mark), ""))
  }

  /** Storing a scan after its comparison with the stored findings. */
  function Compared(s: Store, now: int, findings: seq<Data>, id: Identity): Event {
    var diff := Planning.ComputeDiff(Previous(s), findings, id);
    Scan(now, Prints(findings, id), set d | d in diff.new_ :: Fingerprint(d, id))
  }

  /** The fingerprints of the last scan, unless the findings have been cleared since. */
  function LastMarks(events: seq<Event>): seq<string> {
    if events == [] then []
    else
      match events[|events| - 1]
      case Scan(_, marks, _) => marks
      case Link(_, _) => LastMarks(events[..|events| - 1])
      case Reset => []
  }

  lemma {:induction false} AttachKeepsMarks(entries: seq<Entry>, mark: string, issue: string)
    ensures |AttachTo(entries, mark, issue)| == |entries|
    ensures forall i | 0 <= i < |entries| :: AttachTo(entries, mark, issue)[i].mark == entries[i].mark
  {
    if entries != [] && entries[0].mark != mark {
      var rest, after := entries[1..], AttachTo(entries[1..], mark, issue);
      AttachKeepsMarks(rest, mark, issue);
      forall i | 0 < i < |entries|
        ensures ([entries[0]] + after)[i].mark == entries[i].mark
      {
        assert ([entries[0]] + after)[i] == after[i - 1] && entries[i] == rest[i - 1];
      }
    }
  }

  lemma {:induction false} StoredAreLast(events: seq<Event>)
    ensures Marks(Run(Store([], map[]), events).entries) == LastMarks(events)
  {
    hide AttachTo, FirstSeen, IssueOf;
    if events != [] {
      var front, last := events[..|events| - 1], events[|events| - 1];
      StoredAreLast(front);
      if last.Link? {
        AttachKeepsMarks(Run(Store([], map[]), front).entries, last.mark, last.issue);
      }
    }
  }

  /** In every run a finding is stored as new exactly if the last scan, unless cleared since, did not have its
      fingerprint, whatever earlier scans had. (An empty fingerprint always is new.) */
  lemma NewExactly(events: seq<Event>, now: int, findings: seq<Data>, id: Identity, i: nat)
    requires i < |findings|
    ensures var scan := Compared(Run(Store([], map[]), events), now, findings, id);
            var entry := Run(Store([], map[]), events + [scan]).entries[i];
            && entry.mark == Fingerprint(findings[i], id)
            && (entry.isNew <==> entry.mark == "" || entry.mark !in LastMarks(events))
  {
    hide Fingerprint, IssueOf, FirstSeen;
    var s := Run(Store([], map[]), events);
    var scan := Compared(s, now, findings, id);
    assert (events + [scan])[..|events|] == events;
    StoredAreLast(events);
    ComparedIsNew(s, now, findings, id, i);
    assert Run(Store([], map[]), events + [scan]) == Record(s, now, scan.marks, scan.newMarks);
  }

  lemma ComparedIsNew(s: Store, now: int, findings: seq<Data>, id: Identity, i: nat)
    requires i < |findings|
    ensures var mark := Fingerprint(findings[i], id);
            mark in Compared(s, now, findings, id).newMarks <==> mark == "" || mark !in Marks(s.entries)
  {
    hide Fingerprint;
    var mark, known := Fingerprint(findings[i], id), Planning.Marks(Previous(s));
    var isNew := Planning.IsNew(known, id);
    assert mark in known <==> mark != "" && mark in Marks(s.entries) by {
      if k :| 0 <= k < |s.entries| && Marks(s.entries)[k] == mark {
        assert Previous(s)[k] in Previous(s);
      }
    }
    Ordering.InSelect(findings, isNew, findings[i]);
    forall d | d in Ordering.Select(findings, isNew)
      ensures Fingerprint(d, id) !in known
    {
      Ordering.InSelect(findings, isNew, d);
    }
  }

  // ---------------------------------------------------------------- linked issues

  predicate MarksDiffer(marks: seq<string>) {
    forall i, j | 0 <= i < j < |marks| :: marks[i] != marks[j]
  }

  lemma {:induction false} AttachedAt(entries: seq<Entry>, mark: string, issue: string, i: nat)
    requires i < |entries| && MarksDiffer(Marks(entries))
    ensures |AttachTo(entries, mark, issue)| == |entries|
    ensures AttachTo(entries, mark, issue)[i]
         == if entries[i].mark == mark then entries[i].(issue := Some(issue)) else entries[i]
  {
    var rest := entries[1..];
    assert forall k | 0 <= k < |rest| :: Marks(rest)[k] == Marks(entries)[k + 1];
    if entries[0].mark == mark {
      assert i > 0 ==> Marks(entries)[i] != Marks(entries)[0];
      assert |AttachTo(entries, mark, issue)| == |entries|;
    } else {
      if i > 0 {
        AttachedAt(rest, mark, issue, i - 1);
      } else if rest != [] {
        AttachedAt(rest, mark, issue, 0);
      }
    }
  }

  lemma {:induction false} IssueAt(entries: seq<Entry>, i: nat)
    requires i < |entries| && MarksDiffer(Marks(entries)) && entries[i].mark != ""
    ensures IssueOf(entries, entries[i].mark) == entries[i].issue
  {
    var front := entries[..|entries| - 1];
    assert forall k | 0 <= k < |front| :: Marks(front)[k] == Marks(entries)[k];
    if i < |front| {
      assert Marks(entries)[i] != Marks(entries)[|entries| - 1];
      IssueAt(front, i);
    }
  }

  lemma {:induction false} NoIssueFor(entries: seq<Entry>, mark: string)
    requires forall i | 0 <= i < |entries| :: entries[i].mark != mark
    ensures IssueOf(entries, mark) == None
  {
    if entries != [] {
      NoIssueFor(entries[..|entries| - 1], mark);
    }
  }

  /** Scans with different fingerprints, and resets. */
  predicate AreScans(events: seq<Event>) {
    forall e | e in events :: e.Reset? || (e.Scan? && MarksDiffer(e.marks))
  }

  predicate AllSee(events: seq<Event>, mark: string) {
    forall e | e in events :: Sees(e, mark)
  }

  /** The issue that the store has for a fingerprint after more scans: the same as before if each of them
      has seen the finding, and otherwise, or after a reset, none. */
  lemma {:induction false} LinkIsKept(s: Store, scans: seq<Event>, mark: string)
    requires mark != "" && AreScans(scans)
    ensures IssueOf(Run(s, scans).entries, mark) == if AllSee(scans, mark) then IssueOf(s.entries, mark) else None
  {
    hide Record, FirstSeen, IssueOf, MarksDiffer, Sees;
    if scans != [] {
      var front, last := scans[..|scans| - 1], scans[|scans| - 1];
      assert scans == front + [last] && last in scans && forall e | e in front :: e in scans;
      LinkIsKept(s, front, mark);
      assert AllSee(scans, mark) <==> AllSee(front, mark) && Sees(last, mark);
      OneMoreScan(Run(s, front), last, mark);
    }
  }

  lemma OneMoreScan(s: Store, scan: Event, mark: string)
    requires mark != "" && (scan.Reset? || (scan.Scan? && MarksDiffer(scan.marks)))
    ensures IssueOf(Next(s, scan).entries, mark) == if Sees(scan, mark) then IssueOf(s.entries, mark) else None
  {
    hide IssueOf, FirstSeen;
    var entries := Next(s, scan).entries;
    if Sees(scan, mark) {
      assert Marks(entries) == scan.marks;
      var i :| 0 <= i < |scan.marks| && scan.marks[i] == mark;
      IssueAt(entries, i);
    } else {
      NoIssueFor(entries, mark);
    }
  }

  /** Linking an issue to a stored finding, if fingerprints differ. */
  lemma Attached(s: Store, i: nat, issue: string)
    requires i < |s.entries| && MarksDiffer(Marks(s.entries)) && s.entries[i].mark != ""
    ensures var t := Attach(s, s.entries[i].mark, issue);
            && Marks(t.entries) == Marks(s.entries) && t.seen == s.seen
            && IssueOf(t.entries, s.entries[i].mark) == Some(issue)
            && forall k | 0 <= k < |s.entries| :: t.entries[k].lastSeen == s.entries[k].lastSeen
  {
    var mark := s.entries[i].mark;
    var t := Attach(s, mark, issue);
    forall k | 0 <= k < |s.entries|
      ensures |t.entries| == |s.entries| && t.entries[k].mark == s.entries[k].mark
      ensures t.entries[k].lastSeen == s.entries[k].lastSeen
    {
      AttachedAt(s.entries, mark, issue, k);
    }
    assert Marks(t.entries) == Marks(s.entries);
    AttachedAt(s.entries, mark, issue, i);
    IssueAt(t.entries, i);
  }

  /** An issue linked to a stored finding stays linked exactly as long as every scan sees the finding, and
      nothing is reset. */
  lemma LinkSurvivesExactly(s: Store, i: nat, issue: string, scans: seq<Event>)
    requires i < |s.entries| && MarksDiffer(Marks(s.entries)) && s.entries[i].mark != "" && AreScans(scans)
    ensures var mark := s.entries[i].mark;
            IssueOf(Run(Attach(s, mark, issue), scans).entries, mark) == Some(issue) <==> AllSee(scans, mark)
  {
    hide Attach, IssueOf;
    Attached(s, i, issue);
    LinkIsKept(Attach(s, s.entries[i].mark, issue), scans, s.entries[i].mark);
  }

  // ---------------------------------------------------------------- a scan and a link at the same time

  /** Storing a scan and linking an issue both read the stored findings, and write them back later. */
  datatype Half = ScanReads | ScanWrites | LinkReads | LinkWrites

  datatype Race = Race(store: Store, scanCopy: seq<Entry>, linkCopy: seq<Entry>)

  function NextHalf(r: Race, half: Half, scan: Event, link: Event): Race
    requires scan.Scan? && link.Link?
  {
    match half
    case ScanReads => r.(scanCopy := r.store.entries)
    case LinkReads => r.(linkCopy := r.store.entries)
    case ScanWrites => r.(store := Next(r.store.(entries := r.scanCopy), scan))
    case LinkWrites => r.(store := Next(r.store.(entries := r.linkCopy), link))
  }

  function RunHalves(r: Race, halves: seq<Half>, scan: Event, link: Event): Race
    requires scan.Scan? && link.Link?
    decreases |halves|
  {
    if halves == [] then r else RunHalves(NextHalf(r, halves[0], scan, link), halves[1..], scan, link)
  }

  function RunFour(r: Race, a: Half, b: Half, c: Half, d: Half, scan: Event, link: Event): Race
    requires scan.Scan? && link.Link?
  {
    NextHalf(NextHalf(NextHalf(NextHalf(r, a, scan, link), b, scan, link), c, scan, link), d, scan, link)
  }

  lemma RunFourIs(r: Race, a: Half, b: Half, c: Half, d: Half, scan: Event, link: Event)
    requires scan.Scan? && link.Link?
    ensures RunHalves(r, [a, b, c, d], scan, link) == RunFour(r, a, b, c, d, scan, link)
  {
    hide NextHalf;
    assert [a, b, c, d][1..] == [b, c, d] && [b, c, d][1..] == [c, d] && [c, d][1..] == [d] && [d][1..] == [];
    var r1 := NextHalf(r, a, scan, link);
    var r2 := NextHalf(r1, b, scan, link);
    var r3 := NextHalf(r2, c, scan, link);
    assert RunHalves(r, [a, b, c, d], scan, link) == RunHalves(r1, [b, c, d], scan, link);
    assert RunHalves(r1, [b, c, d], scan, link) == RunHalves(r2, [c, d], scan, link);
    assert RunHalves(r2, [c, d], scan, link) == RunHalves(r3, [d], scan, link);
    assert RunHalves(r3, [d], scan, link) == RunHalves(NextHalf(r3, d, scan, link), [], scan, link);
  }

  /** The orders in which the two can come: one after the other, in the first two. */
  const ORDERS: seq<seq<Half>> := [
    [LinkReads, LinkWrites, ScanReads, ScanWrites],
    [ScanReads, ScanWrites, LinkReads, LinkWrites],
    [LinkReads, ScanReads, LinkWrites, ScanWrites],
    [ScanReads, LinkReads, LinkWrites, ScanWrites],
    [LinkReads, ScanReads, ScanWrites, LinkWrites],
    [ScanReads, LinkReads, ScanWrites, LinkWrites]]

  /** Both have left their mark: the finding has the issue, and all findings are those of the scan. */
  predicate BothKept(s: Store, scan: Event, link: Event)
    requires scan.Scan? && link.Link?
  {
    && IssueOf(s.entries, link.mark) == Some(link.issue)
    && forall i | 0 <= i < |s.entries| :: s.entries[i].lastSeen == scan.now
  }

  /** The scan sees a finding that is stored from earlier, and the link is to it, as its first. */
  predicate Meet(s: Store, i: nat, scan: Event, link: Event) {
    && scan.Scan? && link.Link? && i < |s.entries| && s.entries[i].mark == link.mark != "" && link.mark in scan.marks
    && MarksDiffer(Marks(s.entries)) && MarksDiffer(scan.marks)
    && s.entries[i].lastSeen < scan.now && s.entries[i].issue == None
  }

  /** A scan and a link both survive exactly if one is over before the other begins: otherwise the one that
      writes last undoes the other. */
  lemma BothKeptExactly(s: Store, i: nat, scan: Event, link: Event, k: nat)
    requires Meet(s, i, scan, link) && k < |ORDERS|
    ensures BothKept(RunHalves(Race(s, [], []), ORDERS[k], scan, link).store, scan, link) <==> k < 2
  {
    hide RunHalves;
    var order := ORDERS[k];
    assert order == [order[0], order[1], order[2], order[3]];
    RunFourIs(Race(s, [], []), order[0], order[1], order[2], order[3], scan, link);
    RaceResult(s, scan, link, k);
    if k == 0 {
      LinkThenScan(s, i, scan, link);
    } else if k == 1 {
      ScanThenLink(s, i, scan, link);
    } else {
      OneIsUndone(s, i, scan, link);
    }
  }

  lemma RaceResult(s: Store, scan: Event, link: Event, k: nat)
    requires scan.Scan? && link.Link? && k < |ORDERS|
    ensures var o := ORDERS[k];
            RunFour(Race(s, [], []), o[0], o[1], o[2], o[3], scan, link).store ==
            if k == 0 then Next(Next(s, link), scan)
            else if k == 1 then Next(Next(s, scan), link)
            else if k < 4 then Next(s, scan)
            else Next(Next(s, scan).(entries := s.entries), link)
  {
    hide Record, AttachTo;
  }

  lemma LinkThenScan(s: Store, i: nat, scan: Event, link: Event)
    requires Meet(s, i, scan, link)
    ensures scan.Scan? && link.Link? && BothKept(Next(Next(s, link), scan), scan, link)
  {
    hide IssueOf, FirstSeen;
    Attached(s, i, link.issue);
    OneMoreScan(Next(s, link), scan, link.mark);
  }

  lemma ScanThenLink(s: Store, i: nat, scan: Event, link: Event)
    requires Meet(s, i, scan, link)
    ensures scan.Scan? && link.Link? && BothKept(Next(Next(s, scan), link), scan, link)
  {
    hide IssueOf, FirstSeen;
    var t := Next(s, scan);
    assert Marks(t.entries) == scan.marks;
    var k :| 0 <= k < |scan.marks| && scan.marks[k] == link.mark;
    Attached(t, k, link.issue);
  }

  lemma OneIsUndone(s: Store, i: nat, scan: Event, link: Event)
    requires Meet(s, i, scan, link)
    ensures scan.Scan? && link.Link? && !BothKept(Next(s, scan), scan, link)
    ensures !BothKept(Next(Next(s, scan).(entries := s.entries), link), scan, link)
  {
    hide IssueOf, FirstSeen, Record;
    IssueAt(s.entries, i);
    OneMoreScan(s, scan, link.mark);
    Attached(s, i, link.issue);
    var t := Next(Next(s, scan).(entries := s.entries), link);
    assert t.entries == Attach(s, link.mark, link.issue).entries && |Marks(t.entries)| == |Marks(s.entries)|;
    assert t.entries[i].lastSeen != scan.now;
  }

  /** If two stored findings share a fingerprint, the next scan does not find the issue linked to it. */
  lemma DoubleLosesLink(mark: string, issue: string, now: int)
    requires mark != ""
    ensures var s := Record(Store([], map[]), now, [mark, mark], {});
            IssueOf(Attach(s, mark, issue).entries, mark) == None
  {
    var s := Record(Store([], map[]), now, [mark, mark], {});
    assert s.entries[0].mark == mark && s.entries[1].issue == None;
    assert AttachTo(s.entries, mark, issue)[1] == s.entries[1];
  }
}
