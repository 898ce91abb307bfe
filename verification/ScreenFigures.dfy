/** What rollups hold, told apart from how they are added up: figures are numbers of pods and sums over them, a
    severity is the worst of its parts, and issues are those of the parts, each once and in alphabetical order. */
module ScreenFigures {
  import opened CatalogProtocol
  import opened Options
  import opened Ordering
  import opened ScreenModel
  import opened ScreenScope

  // ----- figures -----

  function InPhase(phase: Phase, p: Item -> bool): Item -> bool
  {
    (x: Item) => p(x) && x.body.PodBody? && x.body.phase == phase
  }

  function WithIssue(i: Issue, p: Item -> bool): Item -> bool
  {
    (x: Item) => p(x) && x.body.PodBody? && i in x.body.issues
  }

  function RestartsOf(p: Item -> bool): Item -> int
  {
    (x: Item) => if p(x) && x.body.PodBody? then x.body.restarts else 0
  }

  function CpuOf(p: Item -> bool): Item -> int
  {
    (x: Item) => if p(x) && x.body.PodBody? then x.body.cpuRequest else 0
  }

  function MemoryOf(p: Item -> bool): Item -> int
  {
    (x: Item) => if p(x) && x.body.PodBody? then x.body.memoryRequest else 0
  }

  /** The figures are those of the pods among xs that satisfy p: how many there are, how many in each phase and with
      each of the two issues, and what they add up to in restarts and requests. */
  predicate PodFigures(c: Counts, xs: seq<Item>, p: Item -> bool)
  {
    && c.pods == Count(p, xs)
    && c.running == Count(InPhase(Phase.Running, p), xs)
    && c.pending == Count(InPhase(Phase.Pending, p), xs)
    && c.failed == Count(InPhase(Phase.Failed, p), xs)
    && c.crashLoops == Count(WithIssue(CrashLoopBackOff, p), xs)
    && c.imagePulls == Count(WithIssue(ImagePullBackOff, p), xs)
    && c.restarts == SumOf(RestartsOf(p), xs)
    && c.cpuRequest == SumOf(CpuOf(p), xs)
    && c.memoryRequest == SumOf(MemoryOf(p), xs)
  }

  predicate NoWorkloads(c: Counts)
  {
    c.workloads == 0 && c.badWorkloads == 0
  }

  function PartsOf(q: Item -> bool, xs: seq<Item>): seq<Tally>
  {
    Map(PodPart, Filter(q, xs))
  }

  lemma OneMorePart(q: Item -> bool, xs: seq<Item>)
    requires xs != []
    ensures var before, x := xs[..|xs| - 1], xs[|xs| - 1];
      PartsOf(q, xs) == if q(x) then PartsOf(q, before) + [PodPart(x)] else PartsOf(q, before)
  {
  }

  lemma TotalSnoc(t: Tally, parts: seq<Tally>, part: Tally)
    ensures Total(t, parts + [part]) == Add(Total(t, parts), part)
  {
    assert (parts + [part])[..|parts|] == parts;
  }

  /** Totals of pods, from a total that has none yet. */
  lemma {:induction false} TotalFigures(t: Tally, q: Item -> bool, xs: seq<Item>)
    requires t.counts == NoCounts && forall x :: x in xs && q(x) ==> x.body.PodBody?
    ensures PodFigures(Total(t, PartsOf(q, xs)).counts, xs, q) && NoWorkloads(Total(t, PartsOf(q, xs)).counts)
    decreases |xs|
  {
    if xs != [] {
      var before, x := xs[..|xs| - 1], xs[|xs| - 1];
      assert x in xs;
      TotalFigures(t, q, before);
      OneMorePart(q, xs);
      if q(x) {
        TotalSnoc(t, PartsOf(q, before), PodPart(x));
      }
    }
  }

  lemma {:induction false} SumSame<T(!new)>(f: T -> int, g: T -> int, s: seq<T>)
    requires forall x :: x in s ==> f(x) == g(x)
    ensures SumOf(f, s) == SumOf(g, s)
    decreases |s|
  {
    if s != [] {
      SumSame(f, g, s[..|s| - 1]);
      assert s[|s| - 1] in s;
    }
  }

  function AsNumber<T>(p: T -> bool): T -> int
  {
    (x: T) => if p(x) then 1 else 0
  }

  /** Counts and sums over an arrangement of the same resources, with conditions that agree on them. */
  lemma CountSame<T(!new)>(p: T -> bool, q: T -> bool, s: seq<T>, t: seq<T>)
    requires multiset(s) == multiset(t) && forall x :: x in s ==> (p(x) <==> q(x))
    ensures Count(p, s) == Count(q, t)
  {
    CountIsASum(p, AsNumber(p), s);
    CountIsASum(q, AsNumber(q), t);
    SumSame(AsNumber(p), AsNumber(q), s);
    SumForgetsOrder(AsNumber(q), s, t);
  }

  lemma SumSameOver<T(!new)>(f: T -> int, g: T -> int, s: seq<T>, t: seq<T>)
    requires multiset(s) == multiset(t) && forall x :: x in s ==> f(x) == g(x)
    ensures SumOf(f, s) == SumOf(g, t)
  {
    SumSame(f, g, s);
    SumForgetsOrder(g, s, t);
  }

  lemma SameFigures(c: Counts, p: Item -> bool, q: Item -> bool, s: seq<Item>, t: seq<Item>)
    requires PodFigures(c, s, p) && multiset(s) == multiset(t) && forall x :: x in s ==> (p(x) <==> q(x))
    ensures PodFigures(c, t, q)
  {
    CountSame(p, q, s, t);
    CountSame(InPhase(Phase.Running, p), InPhase(Phase.Running, q), s, t);
    CountSame(InPhase(Phase.Pending, p), InPhase(Phase.Pending, q), s, t);
    CountSame(InPhase(Phase.Failed, p), InPhase(Phase.Failed, q), s, t);
    CountSame(WithIssue(CrashLoopBackOff, p), WithIssue(CrashLoopBackOff, q), s, t);
    CountSame(WithIssue(ImagePullBackOff, p), WithIssue(ImagePullBackOff, q), s, t);
    SumSameOver(RestartsOf(p), RestartsOf(q), s, t);
    SumSameOver(CpuOf(p), CpuOf(q), s, t);
    SumSameOver(MemoryOf(p), MemoryOf(q), s, t);
  }

  // ----- severities and issues -----

  /** From healthy to critical. */
  predicate NoWorse(a: Severity, b: Severity)
  {
    match b
    case Healthy => a in {Severity.Healthy}
    case Undetermined => a in {Severity.Healthy, Severity.Undetermined}
    case Progressing => a in {Severity.Healthy, Severity.Undetermined, Severity.Progressing}
    case Warning => a in {Severity.Healthy, Severity.Undetermined, Severity.Progressing, Severity.Warning}
    case Degraded => a != Severity.Critical
    case Critical => true
  }

  lemma NoWorseIsRank(a: Severity, b: Severity)
    ensures NoWorse(a, b) <==> Rank(a) <= Rank(b)
    ensures a == b <==> Rank(a) == Rank(b)
  {
  }

  function IssueText(i: Issue): string
  {
    match i
    case CrashLoopBackOff => "CrashLoopBackOff"
    case ImagePullBackOff => "ImagePullBackOff"
    case OOMKilled => "OOMKilled"
    case PendingTooLong => "Pending"
    case ProbeFailed => "ProbeFailed"
    case ReplicaMismatch => "ReplicaMismatch"
    case Restarting => "Restarting"
    case RolloutStalled => "RolloutStalled"
  }

  /** Each issue once, in alphabetical order. */
  predicate Alphabetical(issues: seq<Issue>)
  {
    forall a, b :: 0 <= a < b < |issues| ==> Less(IssueText(issues[a]), IssueText(issues[b]))
  }

  lemma FirstLetters(a: Issue, b: Issue)
    requires IssueRank(a) < IssueRank(b)
    ensures Less(IssueText(a), IssueText(b))
  {
    var s, t := IssueText(a), IssueText(b);
    if s[0] == t[0] {
      if s[1] == t[1] {
        assert s == "ReplicaMismatch" && t == "Restarting";
        assert s[2] < t[2] && Less(s[2..], t[2..]);
        assert s[1..][1..] == s[2..] && t[1..][1..] == t[2..] && Less(s[1..], t[1..]);
      } else {
        assert Less(s[1..], t[1..]);
      }
    }
  }

  lemma SettledIsAlphabetical(t: Tally)
    requires NoRepeats(t.issues)
    ensures Alphabetical(Settled(t).issues) && forall i :: i in Settled(t).issues <==> i in t.issues
    ensures Settled(t).counts == t.counts && Settled(t).severity == t.severity
  {
    SortSorts(t.issues, IssueAtMost);
    SameCollection(Settled(t).issues, t.issues);
    var s := Settled(t).issues;
    forall a, b | 0 <= a < b < |s| ensures Less(IssueText(s[a]), IssueText(s[b])) {
      SortedNoRepeats(s, t.issues, a, b);
      FirstLetters(s[a], s[b]);
    }
  }

  lemma TwiceCounts<T>(s: seq<T>, a: nat, b: nat)
    requires a < b < |s| && s[a] == s[b]
    ensures multiset(s)[s[a]] >= 2
  {
    assert s == s[..a] + [s[a]] + s[a + 1..b] + [s[b]] + s[b + 1..];
  }

  lemma PermutedNoRepeats<T>(s: seq<T>, t: seq<T>, a: nat, b: nat)
    requires multiset(s) == multiset(t) && NoRepeats(t) && a < b < |s|
    ensures s[a] != s[b]
  {
    NoRepeatsCounts(t, s[a]);
    if s[a] == s[b] {
      TwiceCounts(s, a, b);
      assert false;
    }
  }

  lemma SortedNoRepeats(s: seq<Issue>, t: seq<Issue>, a: nat, b: nat)
    requires multiset(s) == multiset(t) && NoRepeats(t) && Sorted(s, IssueAtMost) && a < b < |s|
    ensures IssueRank(s[a]) < IssueRank(s[b])
  {
    PermutedNoRepeats(s, t, a, b);
    assert IssueAtMost(s[a], s[b]);
  }

  /** Over all the parts. */
  ghost predicate Worst(sev: Severity, t: Tally, parts: seq<Tally>)
  {
    && NoWorse(t.severity, sev) && (forall x :: x in parts ==> NoWorse(x.severity, sev))
    && (sev == t.severity || exists x :: x in parts && sev == x.severity)
  }

  ghost predicate Union(issues: seq<Issue>, t: Tally, parts: seq<Tally>)
  {
    NoRepeats(issues) && forall i :: i in issues <==> i in t.issues || exists x :: x in parts && i in x.issues
  }

  lemma {:induction false} TotalState(t: Tally, parts: seq<Tally>)
    requires NoRepeats(t.issues)
    ensures Worst(Total(t, parts).severity, t, parts) && Union(Total(t, parts).issues, t, parts)
    decreases |parts|
  {
    if parts != [] {
      var before, x := parts[..|parts| - 1], parts[|parts| - 1];
      assert parts == before + [x];
      TotalState(t, before);
      MergeFacts(Total(t, before).issues, x.issues);
      OneMoreWorst(t, before, x);
    }
  }

  lemma OneMoreWorst(t: Tally, before: seq<Tally>, x: Tally)
    requires Worst(Total(t, before).severity, t, before)
    ensures Worst(WorseOf(Total(t, before).severity, x.severity), t, before + [x])
  {
    forall a: Severity, b: Severity ensures NoWorse(a, b) <==> Rank(a) <= Rank(b) {
      NoWorseIsRank(a, b);
    }
  }
}
