/** The submission semantics of a pipeline, on values: which jobs are handed to
    qsub in which order, which ids each job holds on, and how failures stop the
    run. The jobs are named by keys `K`; the heap model in PipeRunner uses the
    job objects themselves as keys, so sharing a job between two pipelines is
    sharing a key here. */
module Pipeline {
  import opened Text
  import opened Jobs

  // ---------------------------------------------------------------- pipelines

  /** A submittable unit: one job, a `GESeriesJob` or a `GEParallelJob`.
      The job lists of the two combinators are never changed after
      construction, so they are values. */
  datatype Node<K> =
    | Atomic(job: K)
    | Series(stages: seq<Node<K>>, asArray: bool)
    | Parallel(branches: seq<Node<K>>, asArray: bool)

  /** The number of constructors in a pipeline, a termination measure. */
  function Size<K>(n: Node<K>): (s: nat)
    ensures s >= 1
    decreases n, 1
  {
    match n
    case Atomic(_) => 1
    case Series(st, _) => 1 + SizeList(st)
    case Parallel(bs, _) => 1 + SizeList(bs)
  }

  function SizeList<K>(ns: seq<Node<K>>): (s: nat)
    ensures ns != [] ==> s == Size(ns[0]) + SizeList(ns[1..])
    decreases ns, 0
  {
    if ns == [] then 0 else Size(ns[0]) + SizeList(ns[1..])
  }

  /** Every job a pipeline names is one of `ks`. */
  ghost predicate AtomsIn<K>(n: Node<K>, ks: set<K>)
  {
    match n
    case Atomic(k) => k in ks
    case Series(st, _) => forall m :: m in st ==> AtomsIn(m, ks)
    case Parallel(bs, _) => forall m :: m in bs ==> AtomsIn(m, ks)
  }

  ghost predicate EdgesIn<K>(edges: seq<(Node<K>, bool)>, ks: set<K>)
  {
    forall i :: 0 <= i < |edges| ==> AtomsIn(edges[i].0, ks)
  }

  // ---------------------------------------------------------------- the state of a job

  /** The fields of a `GEJob` that change after construction: `array`, the two
      hold lists, `next_job`, `job_id` and `commandline` (empty until
      `_build_command` first runs). */
  datatype JobState<K> = JobState(
    conf: JobConfig,
    arrayRange: Option<string>,
    holdJid: seq<Jid>,
    holdJidAd: seq<Jid>,
    nextJob: seq<(Node<K>, bool)>,
    jobId: Option<int>,
    commandline: seq<string>)

  /** A job as `__init__` leaves it. */
  function Initial<K>(j: NewJob): (s: JobState<K>)
    ensures s.conf == j.conf && s.arrayRange == j.arrayRange
    ensures s.holdJid == j.holdJid && s.holdJidAd == j.holdJidAd
    ensures s.nextJob == [] && s.jobId.None? && s.commandline == []
  {
    JobState(j.conf, j.arrayRange, j.holdJid, j.holdJidAd, [], None, [])
  }

  /** `hs` appended to the hold list `append_hold_jid_ad` (when `ad`) or
      `append_hold_jid` extends. */
  function AddHolds<K>(s: JobState<K>, hs: seq<Jid>, ad: bool): (r: JobState<K>)
    ensures ad ==> r.holdJidAd == s.holdJidAd + hs && r.holdJid == s.holdJid
    ensures !ad ==> r.holdJid == s.holdJid + hs && r.holdJidAd == s.holdJidAd
    ensures r.(holdJid := s.holdJid, holdJidAd := s.holdJidAd) == s
  {
    if ad then s.(holdJidAd := s.holdJidAd + hs) else s.(holdJid := s.holdJid + hs)
  }

  /** `append_next_job`: one more successor at the end of `next_job`. */
  function AddSuccessor<K>(s: JobState<K>, n: Node<K>, ad: bool): (r: JobState<K>)
    ensures r.nextJob == s.nextJob + [(n, ad)]
    ensures r.(nextJob := s.nextJob) == s
  {
    s.(nextJob := s.nextJob + [(n, ad)])
  }

  // ---------------------------------------------------------------- the world

  /** Everything a submission reads and changes: the state of every job, the
      outputs qsub will print, one per call in order (None: qsub exits with an
      error status), and the record of the command lines qsub received. */
  datatype World<K> = World(jobs: map<K, JobState<K>>, responses: seq<Option<string>>, log: seq<(K, seq<string>)>)

  datatype SubmitError =
    | AlreadySubmitted(id: int)        // IOError of `submit`
    | QsubFailed(commandline: seq<string>)  // CalledProcessError of `check_output`
    | UnpackError(output: string)      // ValueError: the output has more than one '.'
    | BadJobId(text: string)           // ValueError of `int(job_id)`
    | NoFirstStage                     // IndexError: a hold forwarded to an empty series
    | NoStages                         // UnboundLocalError: an empty series submitted

  /** Every successor of every job is made of known jobs. */
  ghost predicate Closed<K>(w: World<K>)
  {
    forall k :: k in w.jobs ==> EdgesIn(w.jobs[k].nextJob, w.jobs.Keys)
  }

  /** The jobs without an id, a termination measure: each successful `submit`
      takes one away and nothing adds one. */
  ghost function Unsubmitted<K>(w: World<K>): set<K>
  {
    set k | k in w.jobs && w.jobs[k].jobId.None?
  }

  /** What any run of `submit` or a hold append keeps: the same jobs, the same
      configurations and successor lists, ids once set stay set together with
      the array range read with them, hold lists and the record only grow, and
      qsub outputs are consumed from the front. */
  ghost predicate Follows<K>(w: World<K>, w': World<K>)
  {
    && w'.jobs.Keys == w.jobs.Keys
    && (forall k :: k in w.jobs ==>
          && w'.jobs[k].conf == w.jobs[k].conf
          && w'.jobs[k].nextJob == w.jobs[k].nextJob
          && (w.jobs[k].jobId.Some? ==> w'.jobs[k].jobId == w.jobs[k].jobId
                                        && w'.jobs[k].arrayRange == w.jobs[k].arrayRange)
          && w.jobs[k].holdJid <= w'.jobs[k].holdJid
          && w.jobs[k].holdJidAd <= w'.jobs[k].holdJidAd)
    && w.log <= w'.log
    && |w'.responses| <= |w.responses|
    && w'.responses == w.responses[|w.responses| - |w'.responses|..]
  }

  lemma FollowsTrans<K>(a: World<K>, b: World<K>, c: World<K>)
    requires Follows(a, b) && Follows(b, c)
    ensures Follows(a, c)
  {
    var n := |a.responses| - |b.responses|;
    assert c.responses == a.responses[n..][|b.responses| - |c.responses|..];
  }

  lemma FollowsKeeps<K>(w: World<K>, w': World<K>)
    requires Follows(w, w') && Closed(w)
    ensures Closed(w') && Unsubmitted(w') <= Unsubmitted(w)
  {
  }

  /** Hold appends change only hold lists. */
  ghost predicate OnlyHolds<K>(jobs: map<K, JobState<K>>, jobs': map<K, JobState<K>>)
  {
    && jobs'.Keys == jobs.Keys
    && forall k :: k in jobs ==>
         && jobs'[k].(holdJid := jobs[k].holdJid, holdJidAd := jobs[k].holdJidAd) == jobs[k]
         && jobs[k].holdJid <= jobs'[k].holdJid
         && jobs[k].holdJidAd <= jobs'[k].holdJidAd
  }

  lemma OnlyHoldsFollows<K>(w: World<K>, jobs': map<K, JobState<K>>)
    requires OnlyHolds(w.jobs, jobs') && Closed(w)
    ensures Follows(w, w.(jobs := jobs')) && Closed(w.(jobs := jobs'))
    ensures Unsubmitted(w.(jobs := jobs')) == Unsubmitted(w)
  {
    var w' := w.(jobs := jobs');
    forall k | k in w.jobs
      ensures w'.jobs[k].conf == w.jobs[k].conf && w'.jobs[k].nextJob == w.jobs[k].nextJob
      ensures w'.jobs[k].jobId == w.jobs[k].jobId && w'.jobs[k].arrayRange == w.jobs[k].arrayRange
    {
      assert w'.jobs[k].(holdJid := w.jobs[k].holdJid, holdJidAd := w.jobs[k].holdJidAd) == w.jobs[k];
    }
    assert w.responses[0..] == w.responses;
  }

  /** Replacing one job's state by one that keeps its configuration, its
      successors, its id if set, and extends its hold lists. */
  lemma SetJobFollows<K>(w: World<K>, k: K, s: JobState<K>)
    requires k in w.jobs && Closed(w)
    requires s.conf == w.jobs[k].conf && s.nextJob == w.jobs[k].nextJob
    requires s.holdJid == w.jobs[k].holdJid && s.holdJidAd == w.jobs[k].holdJidAd
    requires w.jobs[k].jobId.Some? ==> s.jobId == w.jobs[k].jobId && s.arrayRange == w.jobs[k].arrayRange
    ensures Follows(w, w.(jobs := w.jobs[k := s])) && Closed(w.(jobs := w.jobs[k := s]))
  {
    assert w.responses[0..] == w.responses;
  }

  // ---------------------------------------------------------------- appending holds

  /** `append_hold_jid(v)` (or `append_hold_jid_ad(v)` when `ad`) on a pipeline:
      a job appends `iter_or_item2list(v)`, a series forwards to its first
      stage (an IndexError when it has none), a parallel job forwards to
      every branch in order. */
  function Append<K>(jobs: map<K, JobState<K>>, n: Node<K>, v: PyValue<Jid>, ad: bool)
    : (r: (map<K, JobState<K>>, Result<(), SubmitError>))
    requires AtomsIn(n, jobs.Keys)
    ensures OnlyHolds(jobs, r.0)
    decreases n, 1
  {
    match n
    case Atomic(k) => (jobs[k := AddHolds(jobs[k], Flatten(v), ad)], Ok(()))
    case Series(st, _) => if st == [] then (jobs, Err(NoFirstStage)) else Append(jobs, st[0], v, ad)
    case Parallel(bs, _) => AppendAll(jobs, bs, v, ad)
  }

  function AppendAll<K>(jobs: map<K, JobState<K>>, bs: seq<Node<K>>, v: PyValue<Jid>, ad: bool)
    : (r: (map<K, JobState<K>>, Result<(), SubmitError>))
    requires forall m :: m in bs ==> AtomsIn(m, jobs.Keys)
    ensures OnlyHolds(jobs, r.0)
    decreases bs, 0
  {
    if bs == [] then (jobs, Ok(()))
    else
      var (jobs1, a) := Append(jobs, bs[0], v, ad);
      if a.Err? then (jobs1, a) else AppendAll(jobs1, bs[1..], v, ad)
  }

  /** The jobs a hold reaches, with repetitions, or None when it runs into an
      empty series: the job itself, the gate of a series' first stage, the
      gates of all branches of a parallel job. */
  function Gate<K>(n: Node<K>): Option<seq<K>>
    decreases n, 1
  {
    match n
    case Atomic(k) => Some([k])
    case Series(st, _) => if st == [] then None else Gate(st[0])
    case Parallel(bs, _) => GateAll(bs)
  }

  function GateAll<K>(bs: seq<Node<K>>): Option<seq<K>>
    decreases bs, 0
  {
    if bs == [] then Some([])
    else
      match Gate(bs[0])
      case None => None
      case Some(g) =>
        match GateAll(bs[1..])
        case None => None
        case Some(h) => Some(g + h)
  }

  /** `c` copies of `xs`, one after another. */
  function Repeat<T>(xs: seq<T>, c: nat): (r: seq<T>)
    ensures |r| == |xs| * c
  {
    if c == 0 then [] else xs + Repeat(xs, c - 1)
  }

  lemma {:induction false} RepeatAdd<T>(xs: seq<T>, a: nat, b: nat)
    ensures Repeat(xs, a) + Repeat(xs, b) == Repeat(xs, a + b)
  {
    if a > 0 {
      RepeatAdd(xs, a - 1, b);
      assert Repeat(xs, a) + Repeat(xs, b) == xs + (Repeat(xs, a - 1) + Repeat(xs, b));
    }
  }

  /** The hold lists after a hold reaches each job of `g` once per occurrence. */
  ghost predicate Reached<K>(jobs: map<K, JobState<K>>, jobs': map<K, JobState<K>>, g: seq<K>, hs: seq<Jid>, ad: bool)
  {
    && jobs'.Keys == jobs.Keys
    && forall k :: k in jobs ==> jobs'[k] == AddHolds(jobs[k], Repeat(hs, multiset(g)[k]), ad)
  }

  lemma AddHoldsTwice<K>(s: JobState<K>, x: seq<Jid>, y: seq<Jid>, ad: bool)
    ensures AddHolds(AddHolds(s, x, ad), y, ad) == AddHolds(s, x + y, ad)
  {
    if ad {
      assert s.holdJidAd + x + y == s.holdJidAd + (x + y);
    } else {
      assert s.holdJid + x + y == s.holdJid + (x + y);
    }
  }

  lemma ReachedTrans<K>(a: map<K, JobState<K>>, b: map<K, JobState<K>>, c: map<K, JobState<K>>,
                        g: seq<K>, h: seq<K>, hs: seq<Jid>, ad: bool)
    requires Reached(a, b, g, hs, ad) && Reached(b, c, h, hs, ad)
    ensures Reached(a, c, g + h, hs, ad)
  {
    forall k | k in a
      ensures c[k] == AddHolds(a[k], Repeat(hs, multiset(g + h)[k]), ad)
    {
      var x, y := Repeat(hs, multiset(g)[k]), Repeat(hs, multiset(h)[k]);
      assert c[k] == AddHolds(AddHolds(a[k], x, ad), y, ad);
      AddHoldsTwice(a[k], x, y, ad);
      RepeatAdd(hs, multiset(g)[k], multiset(h)[k]);
      assert multiset(g + h)[k] == multiset(g)[k] + multiset(h)[k];
    }
  }

  lemma ReachedNothing<K>(jobs: map<K, JobState<K>>, hs: seq<Jid>, ad: bool)
    ensures Reached(jobs, jobs, [], hs, ad)
  {
    forall k | k in jobs ensures jobs[k] == AddHolds(jobs[k], Repeat(hs, 0), ad) {
      assert jobs[k].(holdJid := jobs[k].holdJid + []) == jobs[k];
      assert jobs[k].(holdJidAd := jobs[k].holdJidAd + []) == jobs[k];
    }
  }

  /** Series gate only their head, parallel jobs gate every branch: a hold
      append succeeds exactly when it meets no empty series, and then every
      job receives the flattened ids once for each time the gate reaches it,
      on the chosen list, and nothing else changes. */
  lemma {:induction false} AppendGate<K>(jobs: map<K, JobState<K>>, n: Node<K>, v: PyValue<Jid>, ad: bool)
    requires AtomsIn(n, jobs.Keys)
    ensures Append(jobs, n, v, ad).1.Ok? <==> Gate(n).Some?
    ensures Gate(n).Some? ==> Reached(jobs, Append(jobs, n, v, ad).0, Gate(n).value, Flatten(v), ad)
    decreases n, 1
  {
    match n
    case Atomic(k) =>
      forall j | j in jobs
        ensures Append(jobs, n, v, ad).0[j] == AddHolds(jobs[j], Repeat(Flatten(v), multiset([k])[j]), ad)
      {
        if j != k {
          assert jobs[j].(holdJid := jobs[j].holdJid) == jobs[j];
          assert jobs[j].(holdJidAd := jobs[j].holdJidAd) == jobs[j];
        }
      }
    case Series(st, _) =>
      if st != [] {
        AppendGate(jobs, st[0], v, ad);
      }
    case Parallel(bs, _) =>
      AppendAllGate(jobs, bs, v, ad);
  }

  lemma {:induction false} AppendAllGate<K>(jobs: map<K, JobState<K>>, bs: seq<Node<K>>, v: PyValue<Jid>, ad: bool)
    requires forall m :: m in bs ==> AtomsIn(m, jobs.Keys)
    ensures AppendAll(jobs, bs, v, ad).1.Ok? <==> GateAll(bs).Some?
    ensures GateAll(bs).Some? ==> Reached(jobs, AppendAll(jobs, bs, v, ad).0, GateAll(bs).value, Flatten(v), ad)
    decreases bs, 0
  {
    if bs == [] {
      ReachedNothing(jobs, Flatten(v), ad);
    } else {
      assert bs[0] in bs;
      AppendGate(jobs, bs[0], v, ad);
      var (jobs1, a) := Append(jobs, bs[0], v, ad);
      if a.Ok? {
        assert forall m :: m in bs[1..] ==> AtomsIn(m, jobs1.Keys);
        AppendAllGate(jobs1, bs[1..], v, ad);
        assert AppendAll(jobs, bs, v, ad) == AppendAll(jobs1, bs[1..], v, ad);
        if GateAll(bs).Some? {
          assert GateAll(bs).value == Gate(bs[0]).value + GateAll(bs[1..]).value;
          ReachedTrans(jobs, jobs1, AppendAll(jobs1, bs[1..], v, ad).0, Gate(bs[0]).value, GateAll(bs[1..]).value, Flatten(v), ad);
        }
      } else {
        assert AppendAll(jobs, bs, v, ad).1.Err? && GateAll(bs).None?;
      }
    }
  }

  // ---------------------------------------------------------------- qsub

  /** What `check_output` returns for the next call: None when qsub fails (or
      no output is left to hand out). */
  function NextOutput(rs: seq<Option<string>>): (out: Option<string>)
    ensures out.Some? ==> rs != [] && rs[0] == out
  {
    if rs == [] then None else rs[0]
  }

  function Consume(rs: seq<Option<string>>): (rest: seq<Option<string>>)
    ensures rs != [] ==> rest == rs[1..]
    ensures rs == [] ==> rest == []
  {
    if rs == [] then [] else rs[1..]
  }

  /** How `submit` reads qsub's terse output: with a '.', the job id and the
      array range around the only '.' (a ValueError for more than one); without
      one, the whole output is the job id and the array becomes None. Trailing
      whitespace is stripped first. */
  function ParseOutput(out: string): (r: Result<(string, Option<string>), SubmitError>)
  {
    if '.' in out then
      var parts := Split(RStrip(out), '.');
      if |parts| == 2 then Ok((parts[0], Some(parts[1]))) else Err(UnpackError(out))
    else Ok((RStrip(out), None))
  }

  lemma RStripLine(s: string)
    requires s != [] && !IsSpace(s[|s| - 1])
    ensures RStrip(s + "\n") == s
  {
    var t := s + "\n";
    assert t[..|t| - 1] == s;
  }

  /** qsub's answer `N` for a plain job reads back as id text `str(N)` and no
      array. */
  lemma ParseOutputPlain(n: int)
    ensures ParseOutput(IntToString(n) + "\n") == Ok((IntToString(n), None))
    ensures ParseInt(IntToString(n)) == Some(n)
  {
    var d := IntToString(n);
    IntToStringShape(n);
    RStripLine(d);
    assert '.' !in d + "\n";
    ParseIntToString(n);
  }

  /** qsub's answer `N.R` for an array job reads back as id `N` and array `R`. */
  lemma ParseOutputArray(n: int, range: string)
    requires '.' !in range && (range == [] || !IsSpace(range[|range| - 1]))
    ensures ParseOutput(IntToString(n) + "." + range + "\n") == Ok((IntToString(n), Some(range)))
  {
    var d := IntToString(n);
    IntToStringShape(n);
    var s := d + "." + range;
    assert s[|s| - 1] == if range == [] then '.' else range[|range| - 1];
    RStripLine(s);
    assert s + "\n" == d + "." + range + "\n";
    assert s[|d|] == '.';
    SplitPrefix(d, range, '.');
    SplitNoSep(range, '.');
    assert s == d + ['.'] + range;
  }

  /** `str(n)` is a non-empty run of digits after an optional '-'. */
  lemma IntToStringShape(n: int)
    ensures var d := IntToString(n); d != [] && '.' !in d && !IsSpace(d[|d| - 1])
  {
    var d := IntToString(n);
    var m: nat := if n < 0 then -n else n;
    var e := NatToString(m);
    assert IsDigit(e[|e| - 1]);
    assert d == (if n < 0 then "-" + e else e);
    assert d[|d| - 1] == e[|e| - 1];
    forall i | 0 <= i < |d| ensures d[i] != '.' {
      if n < 0 && i > 0 { assert d[i] == e[i - 1]; }
      else if n >= 0 { assert IsDigit(e[i]); }
    }
  }

  // ---------------------------------------------------------------- submitting

  /** `GEJob.submit`. A job with an id is refused and nothing changes.
      Otherwise the command line is built and handed to qsub; its output gives
      the array range and the id; then every successor in `next_job` order
      first receives the id as a hold and is then submitted. The result is
      the id, or the first error, with the state reached at that point. */
  function SubmitJob<K>(w: World<K>, k: K): (r: (World<K>, Result<PyValue<Jid>, SubmitError>))
    requires Closed(w) && k in w.jobs
    ensures Follows(w, r.0) && Closed(r.0)
    ensures r.1.Ok? ==> r.0.jobs[k].jobId.Some? && r.1.value == Item(Num(r.0.jobs[k].jobId.value))
    decreases Unsubmitted(w), 0, 0, 1
  {
    var st := w.jobs[k];
    if st.jobId.Some? then
      assert w.responses[0..] == w.responses;
      (w, Err(AlreadySubmitted(st.jobId.value)))
    else
      var w1 := Issue(w, k);
      var out := NextOutput(w.responses);
      if out.None? then (w1, Err(QsubFailed(CommandLineOf(st))))
      else
        match ParseOutput(out.value)
        case Err(e) => (w1, Err(e))
        case Ok((idText, arr)) =>
          match ParseInt(idText)
          case None => (Assign(w1, k, arr, None), Err(BadJobId(idText)))
          case Some(id) =>
            FollowsKeeps(w, w1);
            var r := Submitted(w1, k, arr, id);
            FollowsTrans(w, w1, r.0);
            r
  }

  /** The rest of `submit` once qsub's output gave the id: the array range
      and the id are stored, then the successors follow. */
  function Submitted<K>(w1: World<K>, k: K, arr: Option<string>, id: int): (r: (World<K>, Result<PyValue<Jid>, SubmitError>))
    requires Closed(w1) && k in w1.jobs && w1.jobs[k].jobId.None?
    ensures Follows(w1, r.0) && Closed(r.0)
    ensures r.1.Ok? ==> r.0.jobs[k].jobId == Some(id) && r.1.value == Item(Num(id))
    decreases Unsubmitted(w1), 0, 0, 0
  {
    var w3 := Assign(w1, k, arr, Some(id));
    var (w4, e) := SubmitSuccessors(w3, w1.jobs[k].nextJob, id);
    FollowsTrans(w1, w3, w4);
    (w4, if e.Err? then Err(e.error) else Ok(Item(Num(id))))
  }

  /** The command line `_build_command` gives a job in a state. */
  function CommandLineOf<K>(st: JobState<K>): seq<string>
  {
    CommandLine(st.conf, st.arrayRange, st.holdJid, st.holdJidAd)
  }

  /** The first half of `submit`: the command line is stored, qsub receives
      it and consumes one output. */
  function Issue<K>(w: World<K>, k: K): (w1: World<K>)
    requires k in w.jobs && Closed(w)
    ensures w1 == World(w.jobs[k := w.jobs[k].(commandline := CommandLineOf(w.jobs[k]))],
                        Consume(w.responses), w.log + [(k, CommandLineOf(w.jobs[k]))])
    ensures Follows(w, w1) && Closed(w1)
  {
    var st := w.jobs[k];
    var w0 := w.(jobs := w.jobs[k := st.(commandline := CommandLineOf(st))]);
    SetJobFollows(w, k, st.(commandline := CommandLineOf(st)));
    var w1 := w0.(responses := Consume(w.responses), log := w.log + [(k, CommandLineOf(st))]);
    assert w.responses == [] || w1.responses == w.responses[1..];
    w1
  }

  /** The second half: `array` and `job_id` take the values read from the
      output (the id is None when `int()` fails after `array` is stored). */
  function Assign<K>(w: World<K>, k: K, arr: Option<string>, id: Option<int>): (w2: World<K>)
    requires k in w.jobs && w.jobs[k].jobId.None? && Closed(w)
    ensures w2 == w.(jobs := w.jobs[k := w.jobs[k].(arrayRange := arr, jobId := id)])
    ensures Follows(w, w2) && Closed(w2)
    ensures id.Some? ==> Unsubmitted(w2) < Unsubmitted(w)
  {
    var w2 := w.(jobs := w.jobs[k := w.jobs[k].(arrayRange := arr, jobId := id)]);
    SetJobFollows(w, k, w.jobs[k].(arrayRange := arr, jobId := id));
    assert k in Unsubmitted(w);
    assert id.Some? ==> k !in Unsubmitted(w2);
    w2
  }

  /** The loop over `next_job` in `submit`: for each successor in order, the
      hold on `id` (on `hold_jid_ad` when the pair's flag is set), then its
      submission. */
  function SubmitSuccessors<K>(w: World<K>, edges: seq<(Node<K>, bool)>, id: int)
    : (r: (World<K>, Result<(), SubmitError>))
    requires Closed(w) && EdgesIn(edges, w.jobs.Keys)
    ensures Follows(w, r.0) && Closed(r.0)
    decreases Unsubmitted(w), 2, |edges|, 0
  {
    if edges == [] then
      assert w.responses[0..] == w.responses;
      (w, Ok(()))
    else
      var (jobs1, a) := Append(w.jobs, edges[0].0, Item(Num(id)), edges[0].1);
      var w1 := w.(jobs := jobs1);
      OnlyHoldsFollows(w, jobs1);
      if a.Err? then (w1, Err(a.error))
      else
        var (w2, v) := SubmitNode(w1, edges[0].0);
        FollowsTrans(w, w1, w2);
        FollowsKeeps(w1, w2);
        if v.Err? then (w2, Err(v.error))
        else
          var (w3, e) := SubmitSuccessors(w2, edges[1..], id);
          FollowsTrans(w, w2, w3);
          (w3, e)
  }

  /** `submit` on any pipeline. A series submits its stages in order, hands
      each stage's result to the next stage as a hold (on `hold_jid_ad` when
      the series is an array series) and returns the last result; a series
      without stages fails. A parallel job submits its branches in order and
      returns the tuple of their results. */
  function SubmitNode<K>(w: World<K>, n: Node<K>): (r: (World<K>, Result<PyValue<Jid>, SubmitError>))
    requires Closed(w) && AtomsIn(n, w.jobs.Keys)
    ensures Follows(w, r.0) && Closed(r.0)
    decreases Unsubmitted(w), 1, Size(n), 0
  {
    match n
    case Atomic(k) => SubmitJob(w, k)
    case Series(st, ad) =>
      if st == [] then
        assert w.responses[0..] == w.responses;
        (w, Err(NoStages))
      else SubmitStages(w, st, ad)
    case Parallel(bs, _) =>
      var (w1, r) := SubmitBranches(w, bs);
      (w1, if r.Err? then Err(r.error) else Ok(Iterable(r.value)))
  }

  /** The stages loop of `GESeriesJob.submit` from some stage on. */
  function SubmitStages<K>(w: World<K>, st: seq<Node<K>>, ad: bool): (r: (World<K>, Result<PyValue<Jid>, SubmitError>))
    requires Closed(w) && st != [] && forall m :: m in st ==> AtomsIn(m, w.jobs.Keys)
    ensures Follows(w, r.0) && Closed(r.0)
    decreases Unsubmitted(w), 1, SizeList(st), 1
  {
    var (w1, h) := SubmitNode(w, st[0]);
    FollowsKeeps(w, w1);
    if h.Err? || |st| == 1 then (w1, h)
    else
      var (jobs2, a) := Append(w1.jobs, st[1], h.value, ad);
      var w2 := w1.(jobs := jobs2);
      OnlyHoldsFollows(w1, jobs2);
      FollowsTrans(w, w1, w2);
      if a.Err? then (w2, Err(a.error))
      else
        assert forall m :: m in st[1..] ==> AtomsIn(m, w2.jobs.Keys);
        var (w3, r) := SubmitStages(w2, st[1..], ad);
        FollowsTrans(w, w2, w3);
        (w3, r)
  }

  /** The generator of `GEParallelJob.submit` from some branch on. */
  function SubmitBranches<K>(w: World<K>, bs: seq<Node<K>>): (r: (World<K>, Result<seq<PyValue<Jid>>, SubmitError>))
    requires Closed(w) && forall m :: m in bs ==> AtomsIn(m, w.jobs.Keys)
    ensures Follows(w, r.0) && Closed(r.0)
    ensures r.1.Ok? ==> |r.1.value| == |bs|
    decreases Unsubmitted(w), 1, SizeList(bs), 1
  {
    if bs == [] then
      assert w.responses[0..] == w.responses;
      (w, Ok([]))
    else
      var (w1, h) := SubmitNode(w, bs[0]);
      FollowsKeeps(w, w1);
      if h.Err? then (w1, Err(h.error))
      else
        var (w2, r) := SubmitBranches(w1, bs[1..]);
        FollowsTrans(w, w1, w2);
        (w2, if r.Err? then r else Ok([h.value] + r.value))
  }

  // ---------------------------------------------------------------- what a submission guarantees

  /** A second `submit` of a job is refused with its id, and nothing changes. */
  lemma ResubmitRefused<K>(w: World<K>, k: K)
    requires Closed(w) && k in w.jobs && w.jobs[k].jobId.Some?
    ensures SubmitJob(w, k) == (w, Err(AlreadySubmitted(w.jobs[k].jobId.value)))
  {
  }

  /** A first `submit` whose qsub output reads back as id `id` and array
      range `arr`: the command line is issued, the two fields are stored, then
      the successors run; the result is the id unless a successor fails. */
  lemma SubmitJobReads<K>(w: World<K>, k: K, out: string, idText: string, arr: Option<string>, id: int)
    requires Closed(w) && k in w.jobs && w.jobs[k].jobId.None?
    requires NextOutput(w.responses) == Some(out) && ParseOutput(out) == Ok((idText, arr))
    requires ParseInt(idText) == Some(id)
    ensures var w3 := Assign(Issue(w, k), k, arr, Some(id));
            && w3.jobs[k].jobId == Some(id) && w3.jobs[k].arrayRange == arr
            && |w3.log| == |w.log| + 1 && w3.log[|w.log|] == (k, CommandLineOf(w.jobs[k]))
            && EdgesIn(w.jobs[k].nextJob, w3.jobs.Keys)
            && var r := SubmitSuccessors(w3, w.jobs[k].nextJob, id);
            SubmitJob(w, k) == (r.0, if r.1.Err? then Err(r.1.error) else Ok(Item(Num(id))))
  {
    var w1 := Issue(w, k);
    var w3 := Assign(w1, k, arr, Some(id));
    var r := SubmitSuccessors(w3, w.jobs[k].nextJob, id);
    assert SubmitJob(w, k) == (r.0, if r.1.Err? then Err(r.1.error) else Ok(Item(Num(id))));
  }

  /** A first `submit` whose qsub prints `N` stores the command line built
      from the job's state, hands exactly that to qsub, and leaves the job with
      id N and no array range, whatever its successors do; when they go
      through, the result is N. */
  lemma SubmitReadsId<K>(w: World<K>, k: K, n: int)
    requires Closed(w) && k in w.jobs && w.jobs[k].jobId.None?
    requires NextOutput(w.responses) == Some(IntToString(n) + "\n")
    ensures var r := SubmitJob(w, k);
            && |r.0.log| > |w.log| && r.0.log[|w.log|] == (k, CommandLineOf(w.jobs[k]))
            && r.0.jobs[k].jobId == Some(n) && r.0.jobs[k].arrayRange == None
            && (r.1.Ok? ==> r.1.value == Item(Num(n)))
  {
    ParseOutputPlain(n);
    SubmitJobReads(w, k, IntToString(n) + "\n", IntToString(n), None, n);
  }

  /** With qsub printing `N.R`, the id becomes N and the array range R. */
  lemma SubmitReadsArray<K>(w: World<K>, k: K, n: int, range: string)
    requires Closed(w) && k in w.jobs && w.jobs[k].jobId.None?
    requires '.' !in range && (range == [] || !IsSpace(range[|range| - 1]))
    requires NextOutput(w.responses) == Some(IntToString(n) + "." + range + "\n")
    ensures var r := SubmitJob(w, k);
            && r.0.jobs[k].jobId == Some(n) && r.0.jobs[k].arrayRange == Some(range)
            && (r.1.Ok? ==> r.1.value == Item(Num(n)))
  {
    ParseOutputArray(n, range);
    ParseIntToString(n);
    SubmitJobReads(w, k, IntToString(n) + "." + range + "\n", IntToString(n), Some(range), n);
  }

  /** One turn of the successor loop, given what the hold and the
      successor's submission gave: the loop stops at a failed submission and
      otherwise goes on with the rest of the edges; the successor's run is
      part of the record of the loop either way. */
  lemma SuccessorsStep<K>(w: World<K>, edges: seq<(Node<K>, bool)>, id: int,
                          jobs1: map<K, JobState<K>>, w2: World<K>, v: Result<PyValue<Jid>, SubmitError>)
    requires Closed(w) && EdgesIn(edges, w.jobs.Keys) && edges != []
    requires Append(w.jobs, edges[0].0, Item(Num(id)), edges[0].1).0 == jobs1
    requires Append(w.jobs, edges[0].0, Item(Num(id)), edges[0].1).1.Ok?
    requires Closed(w.(jobs := jobs1)) && AtomsIn(edges[0].0, jobs1.Keys)
    requires SubmitNode(w.(jobs := jobs1), edges[0].0) == (w2, v)
    ensures Closed(w2) && w2.jobs.Keys == w.jobs.Keys && EdgesIn(edges[1..], w2.jobs.Keys)
    ensures v.Err? ==> SubmitSuccessors(w, edges, id) == (w2, Err(v.error))
    ensures v.Ok? ==> SubmitSuccessors(w, edges, id) == SubmitSuccessors(w2, edges[1..], id)
    ensures w2.log <= SubmitSuccessors(w, edges, id).0.log
  {
    if v.Ok? {
      var r := SubmitSuccessors(w2, edges[1..], id);
      assert SubmitSuccessors(w, edges, id) == r;
    } else {
      assert SubmitSuccessors(w, edges, id) == (w2, Err(v.error));
    }
  }

  /** The world after the first `i` turns of the successor loop when all of
      them went through, None when one of them failed. */
  function SuccessorsUpTo<K>(w: World<K>, edges: seq<(Node<K>, bool)>, id: int, i: nat): (r: Option<World<K>>)
    requires Closed(w) && EdgesIn(edges, w.jobs.Keys) && i <= |edges|
    ensures r.Some? ==> Closed(r.value) && r.value.jobs.Keys == w.jobs.Keys
    decreases i
  {
    if i == 0 then Some(w)
    else
      var (jobs1, a) := Append(w.jobs, edges[0].0, Item(Num(id)), edges[0].1);
      OnlyHoldsFollows(w, jobs1);
      if a.Err? then None
      else
        var (w2, v) := SubmitNode(w.(jobs := jobs1), edges[0].0);
        if v.Err? then None else SuccessorsUpTo(w2, edges[1..], id, i - 1)
  }

  /** Once the first `i` turns went through, the run of the whole loop is the
      run of the edges from `i` on. */
  lemma {:induction false} SuccessorsResume<K>(w: World<K>, edges: seq<(Node<K>, bool)>, id: int, i: nat)
    requires Closed(w) && EdgesIn(edges, w.jobs.Keys) && i <= |edges|
    requires SuccessorsUpTo(w, edges, id, i).Some?
    ensures var wi := SuccessorsUpTo(w, edges, id, i).value;
            && EdgesIn(edges[i..], wi.jobs.Keys)
            && SubmitSuccessors(w, edges, id) == SubmitSuccessors(wi, edges[i..], id)
    decreases i
  {
    if i == 0 {
      assert edges[0..] == edges;
    } else {
      SuccessorsResumeStep(w, edges, id, i);
      var w2 := SuccessorsUpTo(w, edges, id, 1).value;
      assert edges[1..][i - 1..] == edges[i..];
      SuccessorsResume(w2, edges[1..], id, i - 1);
    }
  }

  /** The first turn of the loop, when it and `i - 1` more went through. */
  lemma SuccessorsResumeStep<K>(w: World<K>, edges: seq<(Node<K>, bool)>, id: int, i: nat)
    requires Closed(w) && EdgesIn(edges, w.jobs.Keys) && 1 <= i <= |edges|
    requires SuccessorsUpTo(w, edges, id, i).Some?
    ensures SuccessorsUpTo(w, edges, id, 1).Some?
    ensures var w2 := SuccessorsUpTo(w, edges, id, 1).value;
            && EdgesIn(edges[1..], w2.jobs.Keys)
            && SuccessorsUpTo(w, edges, id, i) == SuccessorsUpTo(w2, edges[1..], id, i - 1)
            && SubmitSuccessors(w, edges, id) == SubmitSuccessors(w2, edges[1..], id)
  {
    var (jobs1, a) := Append(w.jobs, edges[0].0, Item(Num(id)), edges[0].1);
    OnlyHoldsFollows(w, jobs1);
    var (w2, v) := SubmitNode(w.(jobs := jobs1), edges[0].0);
    assert v.Ok? && SuccessorsUpTo(w, edges, id, i) == SuccessorsUpTo(w2, edges[1..], id, i - 1);
    assert SuccessorsUpTo(w, edges, id, 1) == SuccessorsUpTo(w2, edges[1..], id, 0) == Some(w2);
    SuccessorsStep(w, edges, id, jobs1, w2, v);
  }


  /** Turn `i` of the successor loop, once the turns before it went through:
      every job the successor's gate reaches receives the id on the list the
      edge names, once for each time the gate reaches it, before the
      successor is submitted; that submission is part of the record of the
      loop. */
  lemma SuccessorReached<K>(w: World<K>, edges: seq<(Node<K>, bool)>, id: int, i: nat)
    requires Closed(w) && EdgesIn(edges, w.jobs.Keys) && i < |edges|
    requires SuccessorsUpTo(w, edges, id, i).Some? && Gate(edges[i].0).Some?
    ensures var wi := SuccessorsUpTo(w, edges, id, i).value;
            && AtomsIn(edges[i].0, wi.jobs.Keys)
            && var (jobs1, a) := Append(wi.jobs, edges[i].0, Item(Num(id)), edges[i].1);
            && a.Ok? && Reached(wi.jobs, jobs1, Gate(edges[i].0).value, [Num(id)], edges[i].1)
            && Closed(wi.(jobs := jobs1)) && AtomsIn(edges[i].0, jobs1.Keys)
            && SubmitNode(wi.(jobs := jobs1), edges[i].0).0.log <= SubmitSuccessors(w, edges, id).0.log
  {
    var wi := SuccessorsUpTo(w, edges, id, i).value;
    SuccessorsResume(w, edges, id, i);
    var rest := edges[i..];
    assert rest[0] == edges[i];
    assert AtomsIn(edges[i].0, wi.jobs.Keys);
    AppendGate(wi.jobs, edges[i].0, Item(Num(id)), edges[i].1);
    assert Flatten(Item(Num(id))) == [Num(id)];
    var (jobs1, a) := Append(wi.jobs, edges[i].0, Item(Num(id)), edges[i].1);
    OnlyHoldsFollows(wi, jobs1);
    var (w2, v) := SubmitNode(wi.(jobs := jobs1), edges[i].0);
    SuccessorsStep(wi, rest, id, jobs1, w2, v);
  }

  /** A job successor at turn `i` that has no id yet is handed to qsub right
      after it receives the hold on `id`: its command line carries the id on
      the list the edge names. */
  lemma SuccessorHoldsAt<K>(w: World<K>, edges: seq<(Node<K>, bool)>, id: int, i: nat, j: K)
    requires Closed(w) && EdgesIn(edges, w.jobs.Keys) && i < |edges|
    requires SuccessorsUpTo(w, edges, id, i).Some?
    requires edges[i].0 == Atomic(j) && j in w.jobs && SuccessorsUpTo(w, edges, id, i).value.jobs[j].jobId.None?
    ensures var wi := SuccessorsUpTo(w, edges, id, i).value;
            var r := SubmitSuccessors(w, edges, id);
            |r.0.log| > |wi.log| && r.0.log[|wi.log|] == (j, CommandLineOf(AddHolds(wi.jobs[j], [Num(id)], edges[i].1)))
  {
    var wi := SuccessorsUpTo(w, edges, id, i).value;
    SuccessorsResume(w, edges, id, i);
    assert edges[i..][0] == edges[i];
    SuccessorHoldsFirst(wi, edges[i..], id, j);
  }

  /** After a stage and the hold on the next one, the remaining stages are
      made of known jobs. */
  lemma StagesRestIn<K>(w: World<K>, st: seq<Node<K>>, w1: World<K>, jobs2: map<K, JobState<K>>)
    requires Closed(w) && st != [] && forall m :: m in st ==> AtomsIn(m, w.jobs.Keys)
    requires Follows(w, w1) && Closed(w1) && OnlyHolds(w1.jobs, jobs2)
    ensures Closed(w1.(jobs := jobs2)) && (forall m :: m in st[1..] ==> AtomsIn(m, jobs2.Keys))
  {
    OnlyHoldsFollows(w1, jobs2);
    forall m | m in st[1..] ensures AtomsIn(m, jobs2.Keys) {
      assert m in st;
    }
  }

  /** One turn of the series loop, given what the stage's submission and the
      hold on the next stage gave: the series goes on from the next stage. */
  lemma StagesStep<K>(w: World<K>, st: seq<Node<K>>, ad: bool, w1: World<K>, h: PyValue<Jid>, jobs2: map<K, JobState<K>>)
    requires Closed(w) && |st| >= 2 && forall m :: m in st ==> AtomsIn(m, w.jobs.Keys)
    requires SubmitNode(w, st[0]) == (w1, Ok(h))
    requires AtomsIn(st[1], w1.jobs.Keys)
    requires Append(w1.jobs, st[1], h, ad).0 == jobs2 && Append(w1.jobs, st[1], h, ad).1.Ok?
    ensures Closed(w1.(jobs := jobs2)) && (forall m :: m in st[1..] ==> AtomsIn(m, jobs2.Keys))
    ensures SubmitStages(w, st, ad) == SubmitStages(w1.(jobs := jobs2), st[1..], ad)
  {
    var w2 := w1.(jobs := jobs2);
    StagesRestIn(w, st, w1, jobs2);
    var r := SubmitStages(w2, st[1..], ad);
    assert SubmitStages(w, st, ad) == r;
  }

  /** The series loop stops after a stage that failed or after the last one. */
  lemma StagesStop<K>(w: World<K>, st: seq<Node<K>>, ad: bool, w1: World<K>, h: Result<PyValue<Jid>, SubmitError>)
    requires Closed(w) && st != [] && forall m :: m in st ==> AtomsIn(m, w.jobs.Keys)
    requires SubmitNode(w, st[0]) == (w1, h) && (h.Err? || |st| == 1)
    ensures SubmitStages(w, st, ad) == (w1, h)
  {
  }

  /** The series loop stops when the hold on the next stage fails. */
  lemma StagesHoldFails<K>(w: World<K>, st: seq<Node<K>>, ad: bool, w1: World<K>, h: PyValue<Jid>)
    requires Closed(w) && |st| >= 2 && forall m :: m in st ==> AtomsIn(m, w.jobs.Keys)
    requires SubmitNode(w, st[0]) == (w1, Ok(h))
    requires AtomsIn(st[1], w1.jobs.Keys) && Append(w1.jobs, st[1], h, ad).1.Err?
    ensures SubmitStages(w, st, ad) == (w1.(jobs := Append(w1.jobs, st[1], h, ad).0), Err(Append(w1.jobs, st[1], h, ad).1.error))
  {
  }

  /** The first successor, when it is a job without an id, is handed to qsub
      right after it receives the hold on `id`. */
  lemma SuccessorHoldsFirst<K>(w: World<K>, edges: seq<(Node<K>, bool)>, id: int, j: K)
    requires Closed(w) && EdgesIn(edges, w.jobs.Keys)
    requires edges != [] && edges[0].0 == Atomic(j) && j in w.jobs && w.jobs[j].jobId.None?
    ensures var r := SubmitSuccessors(w, edges, id);
            var held := AddHolds(w.jobs[j], [Num(id)], edges[0].1);
            |r.0.log| > |w.log| && r.0.log[|w.log|] == (j, CommandLineOf(held))
  {
    var held := AddHolds(w.jobs[j], [Num(id)], edges[0].1);
    assert Flatten(Item(Num(id))) == [Num(id)];
    var (jobs1, a) := Append(w.jobs, edges[0].0, Item(Num(id)), edges[0].1);
    assert jobs1 == w.jobs[j := held];
    OnlyHoldsFollows(w, jobs1);
    var w1 := w.(jobs := jobs1);
    var (w2, v) := SubmitNode(w1, edges[0].0);
    SuccessorsStep(w, edges, id, jobs1, w2, v);
    assert SubmitNode(w1, Atomic(j)) == SubmitJob(w1, j);
    SubmitLogsFirst(w1, j);
  }

  /** Whatever happens next, a job without an id is recorded as given to qsub
      first, with the command line of its current state. */
  lemma SubmitLogsFirst<K>(w: World<K>, k: K)
    requires Closed(w) && k in w.jobs && w.jobs[k].jobId.None?
    ensures var r := SubmitJob(w, k);
            |r.0.log| > |w.log| && r.0.log[|w.log|] == (k, CommandLineOf(w.jobs[k]))
  {
    var w1 := Issue(w, k);
    assert w1.log[|w.log|] == (k, CommandLineOf(w.jobs[k]));
    var out := NextOutput(w.responses);
    if out.Some? && ParseOutput(out.value).Ok? {
      var (idText, arr) := ParseOutput(out.value).value;
      if ParseInt(idText).Some? {
        SubmitJobReads(w, k, out.value, idText, arr, ParseInt(idText).value);
      }
    }
  }

  /** In a series, the stage after a job stage that went through is handed to
      qsub with that stage's result among its holds. */
  lemma StageHandsOn<K>(w: World<K>, st: seq<Node<K>>, ad: bool, b: K, w1: World<K>, h: PyValue<Jid>)
    requires Closed(w) && |st| >= 2 && forall m :: m in st ==> AtomsIn(m, w.jobs.Keys)
    requires st[1] == Atomic(b) && b in w.jobs
    requires SubmitNode(w, st[0]) == (w1, Ok(h)) && b in w1.jobs && w1.jobs[b].jobId.None?
    ensures var r := SubmitStages(w, st, ad);
            |r.0.log| > |w1.log| && r.0.log[|w1.log|] == (b, CommandLineOf(AddHolds(w1.jobs[b], Flatten(h), ad)))
  {
    var held := AddHolds(w1.jobs[b], Flatten(h), ad);
    var jobs2 := Append(w1.jobs, st[1], h, ad).0;
    assert jobs2 == w1.jobs[b := held];
    StagesStep(w, st, ad, w1, h, jobs2);
    var w2 := w1.(jobs := jobs2);
    assert st[1..][0] == Atomic(b);
    StagesFirstLog(w2, st[1..], ad, b);
  }

  /** A series whose first stage is a job without an id hands that job to
      qsub first. */
  lemma StagesFirstLog<K>(w: World<K>, st: seq<Node<K>>, ad: bool, b: K)
    requires Closed(w) && st != [] && forall m :: m in st ==> AtomsIn(m, w.jobs.Keys)
    requires st[0] == Atomic(b) && b in w.jobs && w.jobs[b].jobId.None?
    ensures var r := SubmitStages(w, st, ad);
            |r.0.log| > |w.log| && r.0.log[|w.log|] == (b, CommandLineOf(w.jobs[b]))
  {
    var rb := SubmitJob(w, b);
    assert SubmitNode(w, st[0]) == rb;
    SubmitLogsFirst(w, b);
    StagesLogPrefix(w, st, ad);
  }

  /** The record of a series run starts with the record of its first stage. */
  lemma StagesLogPrefix<K>(w: World<K>, st: seq<Node<K>>, ad: bool)
    requires Closed(w) && st != [] && forall m :: m in st ==> AtomsIn(m, w.jobs.Keys)
    ensures SubmitNode(w, st[0]).0.log <= SubmitStages(w, st, ad).0.log
  {
    var (w1, h) := SubmitNode(w, st[0]);
    if h.Err? || |st| == 1 {
      StagesStop(w, st, ad, w1, h);
    } else {
      assert st[1] in st;
      FollowsKeeps(w, w1);
      var (jobs2, a) := Append(w1.jobs, st[1], h.value, ad);
      if a.Err? {
        StagesHoldFails(w, st, ad, w1, h.value);
      } else {
        StagesStep(w, st, ad, w1, h.value, jobs2);
        OnlyHoldsFollows(w1, jobs2);
        assert w1.log == w1.(jobs := jobs2).log;
      }
    }
  }


  // ---------------------------------------------------------------- what a submission returns

  /** `v` is what `submit` on `n` returns, read in `w`: a job's id, the
      result of a series' last stage, the tuple of a parallel job's branch
      results in branch order. */
  ghost predicate Returned<K>(w: World<K>, n: Node<K>, v: PyValue<Jid>)
    decreases n
  {
    match n
    case Atomic(k) => k in w.jobs && w.jobs[k].jobId.Some? && v == Item(Num(w.jobs[k].jobId.value))
    case Series(st, _) => st != [] && Returned(w, st[|st| - 1], v)
    case Parallel(bs, _) =>
      v.Iterable? && |v.elems| == |bs| && forall i :: 0 <= i < |bs| ==> Returned(w, bs[i], v.elems[i])
  }

  /** What a submission returned stays true while ids only get set. */
  lemma {:induction false} ReturnedFollows<K>(w: World<K>, w': World<K>, n: Node<K>, v: PyValue<Jid>)
    requires Follows(w, w') && Returned(w, n, v)
    ensures Returned(w', n, v)
    decreases n
  {
    match n
    case Atomic(k) =>
    case Series(st, _) =>
      ReturnedFollows(w, w', st[|st| - 1], v);
    case Parallel(bs, _) =>
      forall i | 0 <= i < |bs| ensures Returned(w', bs[i], v.elems[i]) {
        ReturnedFollows(w, w', bs[i], v.elems[i]);
      }
  }

  /** A pipeline's size bounds the size of each of its parts. */
  lemma {:induction false} SizeListAt<K>(ns: seq<Node<K>>, i: nat)
    requires i < |ns|
    ensures Size(ns[i]) <= SizeList(ns)
  {
    if i > 0 {
      SizeListAt(ns[1..], i - 1);
    }
  }

  /** The state after a series' first stage and the hold on the next stage,
      when both went through; None otherwise. */
  function StageThen<K>(w: World<K>, st: seq<Node<K>>, ad: bool): (r: Option<World<K>>)
    requires Closed(w) && |st| >= 2 && forall m :: m in st ==> AtomsIn(m, w.jobs.Keys)
    ensures r.Some? ==> Closed(r.value) && r.value.jobs.Keys == w.jobs.Keys
                        && forall m :: m in st[1..] ==> AtomsIn(m, r.value.jobs.Keys)
  {
    assert st[0] in st && st[1] in st;
    var (w1, h) := SubmitNode(w, st[0]);
    if h.Err? then None
    else
      var (jobs2, a) := Append(w1.jobs, st[1], h.value, ad);
      if a.Err? then None
      else
        StagesRestIn(w, st, w1, jobs2);
        Some(w1.(jobs := jobs2))
  }

  /** A series goes on from the state after its first stage and hold, and
      fails when one of them fails. */
  lemma StagesThen<K>(w: World<K>, st: seq<Node<K>>, ad: bool)
    requires Closed(w) && |st| >= 2 && forall m :: m in st ==> AtomsIn(m, w.jobs.Keys)
    ensures StageThen(w, st, ad).None? ==> SubmitStages(w, st, ad).1.Err?
    ensures StageThen(w, st, ad).Some? ==> SubmitStages(w, st, ad) == SubmitStages(StageThen(w, st, ad).value, st[1..], ad)
  {
    assert st[0] in st && st[1] in st;
    var (w1, h) := SubmitNode(w, st[0]);
    if h.Err? {
      StagesStop(w, st, ad, w1, h);
    } else {
      FollowsKeeps(w, w1);
      var (jobs2, a) := Append(w1.jobs, st[1], h.value, ad);
      if a.Err? {
        StagesHoldFails(w, st, ad, w1, h.value);
      } else {
        StagesStep(w, st, ad, w1, h.value, jobs2);
      }
    }
  }

  /** The state in which stage `i` of a series is submitted, when every
      earlier stage and the hold on the stage after it went through; None
      otherwise. */
  function StagesUpTo<K>(w: World<K>, st: seq<Node<K>>, ad: bool, i: nat): (r: Option<World<K>>)
    requires Closed(w) && i < |st| && forall m :: m in st ==> AtomsIn(m, w.jobs.Keys)
    ensures r.Some? ==> && Closed(r.value) && r.value.jobs.Keys == w.jobs.Keys
                        && AtomsIn(st[i], r.value.jobs.Keys)
                        && forall m :: m in st[i..] ==> AtomsIn(m, r.value.jobs.Keys)
    decreases i
  {
    if i == 0 then
      assert st[0..] == st && st[0] in st;
      Some(w)
    else
      var t := StageThen(w, st, ad);
      if t.None? then None
      else
        assert st[1..][i - 1..] == st[i..];
        StagesUpTo(t.value, st[1..], ad, i - 1)
  }

  /** Once the stages before `i` went through, the series runs on as the
      stages from `i` on. */
  lemma {:induction false} StagesResume<K>(w: World<K>, st: seq<Node<K>>, ad: bool, i: nat)
    requires Closed(w) && i < |st| && forall m :: m in st ==> AtomsIn(m, w.jobs.Keys)
    requires StagesUpTo(w, st, ad, i).Some?
    ensures SubmitStages(w, st, ad) == SubmitStages(StagesUpTo(w, st, ad, i).value, st[i..], ad)
    decreases i
  {
    if i == 0 {
      assert st[0..] == st;
      assert StagesUpTo(w, st, ad, 0) == Some(w);
    } else {
      StagesThen(w, st, ad);
      var t := StageThen(w, st, ad).value;
      assert st[1..][i - 1..] == st[i..];
      assert StagesUpTo(w, st, ad, i) == StagesUpTo(t, st[1..], ad, i - 1);
      StagesResume(t, st[1..], ad, i - 1);
    }
  }

  /** The state for stage `k + 1` is the one after stage `k` and the hold on
      stage `k + 1`. */
  lemma {:induction false} StagesUpToNext<K>(w: World<K>, st: seq<Node<K>>, ad: bool, k: nat)
    requires Closed(w) && k + 1 < |st| && forall m :: m in st ==> AtomsIn(m, w.jobs.Keys)
    requires StagesUpTo(w, st, ad, k).Some?
    ensures StagesUpTo(w, st, ad, k + 1) == StageThen(StagesUpTo(w, st, ad, k).value, st[k..], ad)
    decreases k
  {
    if k == 0 {
      assert st[0..] == st;
    } else {
      var t := StageThen(w, st, ad).value;
      assert st[1..][k - 1..] == st[k..];
      StagesUpToNext(t, st[1..], ad, k - 1);
    }
  }

  /** Stage `k + 1` of a series, once stage `k` went through with result
      `h`: the hold on it goes through exactly when it meets no empty series,
      and then every job its gate reaches receives `h` flattened, on the list
      the series picks, once per time the gate reaches it; stage `k + 1` is
      then submitted from that state, and its submission is part of the record
      of the series. */
  lemma StageReached<K>(w: World<K>, st: seq<Node<K>>, ad: bool, k: nat)
    requires Closed(w) && k + 1 < |st| && forall m :: m in st ==> AtomsIn(m, w.jobs.Keys)
    requires StagesUpTo(w, st, ad, k).Some?
    requires SubmitNode(StagesUpTo(w, st, ad, k).value, st[k]).1.Ok?
    ensures var wk := StagesUpTo(w, st, ad, k).value;
            var (w1, h) := SubmitNode(wk, st[k]);
            && AtomsIn(st[k + 1], w1.jobs.Keys)
            && var (jobs2, a) := Append(w1.jobs, st[k + 1], h.value, ad);
            && (a.Ok? <==> Gate(st[k + 1]).Some?)
            && (a.Ok? ==> && Reached(w1.jobs, jobs2, Gate(st[k + 1]).value, Flatten(h.value), ad)
                          && StagesUpTo(w, st, ad, k + 1) == Some(w1.(jobs := jobs2))
                          && SubmitNode(w1.(jobs := jobs2), st[k + 1]).0.log <= SubmitStages(w, st, ad).0.log)
  {
    var wk := StagesUpTo(w, st, ad, k).value;
    var rest := st[k..];
    assert rest[0] == st[k] && rest[1] == st[k + 1] && st[k + 1] in rest;
    var (w1, h) := SubmitNode(wk, st[k]);
    FollowsKeeps(wk, w1);
    AppendGate(w1.jobs, st[k + 1], h.value, ad);
    StagesUpToNext(w, st, ad, k);
    var (jobs2, a) := Append(w1.jobs, st[k + 1], h.value, ad);
    if a.Ok? {
      assert StageThen(wk, rest, ad) == Some(w1.(jobs := jobs2));
      StagesResume(w, st, ad, k + 1);
      StagesLogPrefix(w1.(jobs := jobs2), st[k + 1..], ad);
      assert st[k + 1..][0] == st[k + 1];
    }
  }

  /** A job stage `k + 1` without an id, after stage `k` went through with
      result `h`, is handed to qsub with `h` flattened on the hold list the
      series picks. */
  lemma StageHoldsAt<K>(w: World<K>, st: seq<Node<K>>, ad: bool, k: nat, b: K)
    requires Closed(w) && k + 1 < |st| && forall m :: m in st ==> AtomsIn(m, w.jobs.Keys)
    requires StagesUpTo(w, st, ad, k).Some?
    requires SubmitNode(StagesUpTo(w, st, ad, k).value, st[k]).1.Ok?
    requires st[k + 1] == Atomic(b) && b in w.jobs && SubmitNode(StagesUpTo(w, st, ad, k).value, st[k]).0.jobs[b].jobId.None?
    ensures var (w1, h) := SubmitNode(StagesUpTo(w, st, ad, k).value, st[k]);
            var r := SubmitStages(w, st, ad);
            |r.0.log| > |w1.log| && r.0.log[|w1.log|] == (b, CommandLineOf(AddHolds(w1.jobs[b], Flatten(h.value), ad)))
  {
    var wk := StagesUpTo(w, st, ad, k).value;
    var (w1, h) := SubmitNode(wk, st[k]);
    StageReached(w, st, ad, k);
    var held := AddHolds(w1.jobs[b], Flatten(h.value), ad);
    var jobs2 := Append(w1.jobs, st[k + 1], h.value, ad).0;
    assert jobs2 == w1.jobs[b := held];
    var w2 := w1.(jobs := jobs2);
    StagesResume(w, st, ad, k + 1);
    assert st[k + 1..][0] == Atomic(b);
    StagesFirstLog(w2, st[k + 1..], ad, b);
  }

  /** A series of one stage runs as that stage. */
  lemma StagesSingle<K>(w: World<K>, st: seq<Node<K>>, ad: bool)
    requires Closed(w) && |st| == 1 && forall m :: m in st ==> AtomsIn(m, w.jobs.Keys)
    ensures AtomsIn(st[0], w.jobs.Keys) && SubmitStages(w, st, ad) == SubmitNode(w, st[0])
  {
    assert st[0] in st;
    var (w1, h) := SubmitNode(w, st[0]);
    StagesStop(w, st, ad, w1, h);
  }

  /** `SubmitBranches` is the first branch, then the others unless it failed. */
  lemma BranchesUnfold<K>(w: World<K>, bs: seq<Node<K>>)
    requires Closed(w) && bs != [] && forall m :: m in bs ==> AtomsIn(m, w.jobs.Keys)
    ensures AtomsIn(bs[0], w.jobs.Keys)
    ensures var sn := SubmitNode(w, bs[0]);
            && (sn.1.Err? ==> SubmitBranches(w, bs) == (sn.0, Err(sn.1.error)))
            && (sn.1.Ok? ==> Closed(sn.0) && Unsubmitted(sn.0) <= Unsubmitted(w) && sn.0.jobs.Keys == w.jobs.Keys
                             && (forall m :: m in bs[1..] ==> AtomsIn(m, sn.0.jobs.Keys))
                             && var rest := SubmitBranches(sn.0, bs[1..]);
                             SubmitBranches(w, bs) == (rest.0, if rest.1.Err? then rest.1 else Ok([sn.1.value] + rest.1.value)))
  {
    var sn := SubmitNode(w, bs[0]);
    FollowsKeeps(w, sn.0);
  }

  /** `submit` on any pipeline that goes through returns what `Returned`
      says, read in the state the submission leaves. */
  lemma {:induction false} NodeReturns<K>(w: World<K>, n: Node<K>)
    requires Closed(w) && AtomsIn(n, w.jobs.Keys)
    ensures var r := SubmitNode(w, n); r.1.Ok? ==> Returned(r.0, n, r.1.value)
    decreases Size(n), 0
  {
    match n
    case Atomic(k) =>
    case Series(st, ad) =>
      if st != [] {
        StagesReturnLast(w, st, ad);
      }
    case Parallel(bs, _) =>
      BranchesReturn(w, bs);
  }

  /** A parallel job that goes through returns one result per branch, in
      branch order, each what that branch's submission returned. */
  lemma {:induction false} BranchesReturn<K>(w: World<K>, bs: seq<Node<K>>)
    requires Closed(w) && forall m :: m in bs ==> AtomsIn(m, w.jobs.Keys)
    ensures var r := SubmitBranches(w, bs);
            r.1.Ok? ==> |r.1.value| == |bs| && forall i :: 0 <= i < |bs| ==> Returned(r.0, bs[i], r.1.value[i])
    decreases SizeList(bs), 1
  {
    if bs != [] {
      BranchesUnfold(w, bs);
      NodeReturns(w, bs[0]);
      var (w1, h) := SubmitNode(w, bs[0]);
      if h.Ok? {
        BranchesReturn(w1, bs[1..]);
        var (w2, r) := SubmitBranches(w1, bs[1..]);
        if r.Ok? {
          ReturnedCons(w1, w2, bs, h.value, r.value);
        }
      }
    }
  }

  /** The first branch's result, still true after the later branches ran, in
      front of theirs. */
  lemma ReturnedCons<K>(w1: World<K>, w2: World<K>, bs: seq<Node<K>>, h: PyValue<Jid>, vs: seq<PyValue<Jid>>)
    requires bs != [] && Follows(w1, w2) && Returned(w1, bs[0], h)
    requires |vs| == |bs| - 1 && forall i :: 0 <= i < |vs| ==> Returned(w2, bs[1..][i], vs[i])
    ensures |[h] + vs| == |bs| && forall i :: 0 <= i < |bs| ==> Returned(w2, bs[i], ([h] + vs)[i])
  {
    ReturnedFollows(w1, w2, bs[0], h);
    forall i | 0 <= i < |bs| ensures Returned(w2, bs[i], ([h] + vs)[i]) {
      if i > 0 {
        assert bs[1..][i - 1] == bs[i];
      }
    }
  }

  /** A series that goes through returns its last stage's result. */
  lemma {:induction false} StagesReturnLast<K>(w: World<K>, st: seq<Node<K>>, ad: bool)
    requires Closed(w) && st != [] && forall m :: m in st ==> AtomsIn(m, w.jobs.Keys)
    ensures var r := SubmitStages(w, st, ad);
            r.1.Ok? ==> Returned(r.0, st[|st| - 1], r.1.value)
    decreases SizeList(st), 1
  {
    if |st| == 1 {
      StagesSingle(w, st, ad);
      NodeReturns(w, st[0]);
    } else {
      LaterStagesReturnLast(w, st, ad);
    }
  }

  /** The case of `StagesReturnLast` with a later stage: the series returns
      what the rest of it returns once the first stage went through. */
  lemma {:induction false} LaterStagesReturnLast<K>(w: World<K>, st: seq<Node<K>>, ad: bool)
    requires Closed(w) && |st| >= 2 && forall m :: m in st ==> AtomsIn(m, w.jobs.Keys)
    ensures var r := SubmitStages(w, st, ad);
            r.1.Ok? ==> Returned(r.0, st[|st| - 1], r.1.value)
    decreases SizeList(st), 0
  {
    StagesThen(w, st, ad);
    var w2 := StageThen(w, st, ad);
    if w2.Some? {
      assert st[1..][|st| - 2] == st[|st| - 1];
      StagesReturnLast(w2.value, st[1..], ad);
    }
  }


  /** A series whose last stage is a job returns that job's id, as qsub
      gave it. */
  lemma SeriesReturnsLastId<K>(w: World<K>, st: seq<Node<K>>, ad: bool, k: K)
    requires Closed(w) && st != [] && forall m :: m in st ==> AtomsIn(m, w.jobs.Keys)
    requires st[|st| - 1] == Atomic(k)
    ensures var r := SubmitNode(w, Series(st, ad));
            r.1.Ok? ==> k in r.0.jobs && r.0.jobs[k].jobId.Some? && r.1.value == Item(Num(r.0.jobs[k].jobId.value))
  {
    StagesReturnLast(w, st, ad);
    assert SubmitNode(w, Series(st, ad)) == SubmitStages(w, st, ad);
  }

  /** The result of a parallel job, handed on as a hold, flattens to the
      holds of its branches in order: the next stage of a series waits on
      every branch. */
  lemma ParallelHoldsAll<K>(vs: seq<PyValue<Jid>>, i: nat)
    requires i < |vs|
    ensures forall x :: x in Flatten(vs[i]) ==> x in Flatten(Iterable(vs))
  {
    FlattenTuple(vs, i);
    FlattenTuple(vs[i..], 1);
    assert vs[i..][..1] == [vs[i]];
    assert FlattenAll([vs[i]]) == FlattenAll([]) + Flatten(vs[i]);
  }

  // ---------------------------------------------------------------- each job is handed to qsub at most once

  /** The jobs recorded after `w` all had no id in `w`, and none is recorded twice. */
  ghost predicate FreshRuns<K>(w: World<K>, w': World<K>)
  {
    && (forall i :: |w.log| <= i < |w'.log| ==> w'.log[i].0 in Unsubmitted(w))
    && (forall i, j :: |w.log| <= i < j < |w'.log| ==> w'.log[i].0 != w'.log[j].0)
  }

  /** Every job recorded after `w` has an id in `w'`. */
  ghost predicate Settled<K>(w: World<K>, w': World<K>)
  {
    forall i :: |w.log| <= i < |w'.log| ==> w'.log[i].0 in w'.jobs && w'.jobs[w'.log[i].0].jobId.Some?
  }

  lemma FreshCompose<K>(a: World<K>, b: World<K>, c: World<K>)
    requires Follows(a, b) && Follows(b, c)
    requires FreshRuns(a, b) && Settled(a, b) && FreshRuns(b, c)
    ensures FreshRuns(a, c)
    ensures Settled(b, c) ==> Settled(a, c)
  {
    assert Unsubmitted(b) <= Unsubmitted(a);
    forall i, j | |a.log| <= i < j < |c.log|
      ensures c.log[i].0 != c.log[j].0
    {
      if j < |b.log| {
        assert c.log[i] == b.log[i] && c.log[j] == b.log[j];
      } else if i < |b.log| {
        assert c.log[i] == b.log[i];
        assert c.log[j].0 in Unsubmitted(b);
      }
    }
    forall i | |a.log| <= i < |b.log|
      ensures c.log[i].0 in Unsubmitted(a) && c.log[i].0 in c.jobs && c.jobs[c.log[i].0].jobId.Some?
    {
      assert c.log[i] == b.log[i];
    }
  }

  /** Nothing recorded: both hold trivially. */
  lemma NoRuns<K>(w: World<K>, w': World<K>)
    requires w'.log == w.log
    ensures FreshRuns(w, w') && Settled(w, w')
  {
  }

  /** A state that recorded one job more, a job that had no id in `w`. */
  lemma OneRun<K>(w: World<K>, w': World<K>, k: K, c: seq<string>)
    requires w'.log == w.log + [(k, c)] && k in w.jobs && w.jobs[k].jobId.None?
    ensures FreshRuns(w, w')
    ensures k in w'.jobs && w'.jobs[k].jobId.Some? ==> Settled(w, w')
  {
    assert w'.log[|w.log|].0 == k;
    assert k in Unsubmitted(w);
  }

  /** Within one `submit`, qsub receives each job at most once, and only jobs
      that had no id: a job with an id is refused before its command line is
      handed on, and a job gets its id before any successor is submitted. */
  lemma {:induction false} OnceJob<K>(w: World<K>, k: K)
    requires Closed(w) && k in w.jobs
    ensures FreshRuns(w, SubmitJob(w, k).0)
    ensures SubmitJob(w, k).1.Ok? ==> Settled(w, SubmitJob(w, k).0)
    decreases Unsubmitted(w), 0, 0, 2
  {
    var st := w.jobs[k];
    if st.jobId.Some? {
      NoRuns(w, w);
    } else {
      var w1 := Issue(w, k);
      OneRun(w, w1, k, CommandLineOf(st));
      var out := NextOutput(w.responses);
      if out.None? {
        assert SubmitJob(w, k).0 == w1;
      } else if ParseOutput(out.value).Err? {
        assert SubmitJob(w, k).0 == w1;
      } else {
        OnceParsed(w, k, out.value);
      }
    }
  }

  /** The part of `OnceJob` after qsub's output was read: the job is
      recorded once, whether or not `int()` accepts the id. */
  lemma {:induction false} OnceParsed<K>(w: World<K>, k: K, out: string)
    requires Closed(w) && k in w.jobs && w.jobs[k].jobId.None?
    requires NextOutput(w.responses) == Some(out) && ParseOutput(out).Ok?
    ensures FreshRuns(w, SubmitJob(w, k).0)
    ensures SubmitJob(w, k).1.Ok? ==> Settled(w, SubmitJob(w, k).0)
    decreases Unsubmitted(w), 0, 0, 1
  {
    var st := w.jobs[k];
    var w1 := Issue(w, k);
    var (idText, arr) := ParseOutput(out).value;
    if ParseInt(idText).None? {
      var w2 := Assign(w1, k, arr, None);
      assert SubmitJob(w, k).0 == w2;
      OneRun(w, w2, k, CommandLineOf(st));
    } else {
      OnceNumbered(w, k, arr, ParseInt(idText).value);
      assert SubmitJob(w, k) == Submitted(w1, k, arr, ParseInt(idText).value);
    }
  }

  /** The part of `OnceParsed` where qsub's output gave the id `id`. */
  lemma {:induction false} OnceNumbered<K>(w: World<K>, k: K, arr: Option<string>, id: int)
    requires Closed(w) && k in w.jobs && w.jobs[k].jobId.None?
    ensures var r := Submitted(Issue(w, k), k, arr, id);
            FreshRuns(w, r.0) && (r.1.Ok? ==> Settled(w, r.0))
    decreases Unsubmitted(w), 0, 0, 0
  {
    var st := w.jobs[k];
    var w1 := Issue(w, k);
    FollowsKeeps(w, w1);
    var w3 := Assign(w1, k, arr, Some(id));
    FollowsTrans(w, w1, w3);
    OneRun(w, w3, k, CommandLineOf(st));
    OnceAfterId(w, w3, st.nextJob, id);
  }

  /** Once a job has its id, its successors are submitted without handing
      qsub any job twice. */
  lemma {:induction false} OnceAfterId<K>(w: World<K>, w3: World<K>, edges: seq<(Node<K>, bool)>, id: int)
    requires Closed(w3) && EdgesIn(edges, w3.jobs.Keys)
    requires Follows(w, w3) && FreshRuns(w, w3) && Settled(w, w3)
    ensures FreshRuns(w, SubmitSuccessors(w3, edges, id).0)
    ensures SubmitSuccessors(w3, edges, id).1.Ok? ==> Settled(w, SubmitSuccessors(w3, edges, id).0)
    decreases Unsubmitted(w3), 3, 0, 0
  {
    OnceSuccessors(w3, edges, id);
    var (w4, e) := SubmitSuccessors(w3, edges, id);
    FreshCompose(w, w3, w4);
  }

  lemma {:induction false} OnceSuccessors<K>(w: World<K>, edges: seq<(Node<K>, bool)>, id: int)
    requires Closed(w) && EdgesIn(edges, w.jobs.Keys)
    ensures FreshRuns(w, SubmitSuccessors(w, edges, id).0)
    ensures SubmitSuccessors(w, edges, id).1.Ok? ==> Settled(w, SubmitSuccessors(w, edges, id).0)
    decreases Unsubmitted(w), 2, |edges|, 0
  {
    if edges == [] {
      NoRuns(w, w);
    } else {
      var (jobs1, a) := Append(w.jobs, edges[0].0, Item(Num(id)), edges[0].1);
      var w1 := w.(jobs := jobs1);
      OnlyHoldsFollows(w, jobs1);
      NoRuns(w, w1);
      if a.Err? {
        assert SubmitSuccessors(w, edges, id).0 == w1;
      } else {
        OnceNode(w1, edges[0].0);
        var (w2, v) := SubmitNode(w1, edges[0].0);
        FreshCompose(w, w1, w2);
        if v.Err? {
          assert SubmitSuccessors(w, edges, id) == (w2, Err(v.error));
        } else {
          FollowsTrans(w, w1, w2);
          FollowsKeeps(w1, w2);
          OnceSuccessors(w2, edges[1..], id);
          var r := SubmitSuccessors(w2, edges[1..], id);
          FreshCompose(w, w2, r.0);
          assert SubmitSuccessors(w, edges, id) == r;
        }
      }
    }
  }

  lemma {:induction false} OnceNode<K>(w: World<K>, n: Node<K>)
    requires Closed(w) && AtomsIn(n, w.jobs.Keys)
    ensures FreshRuns(w, SubmitNode(w, n).0)
    ensures SubmitNode(w, n).1.Ok? ==> Settled(w, SubmitNode(w, n).0)
    decreases Unsubmitted(w), 1, Size(n), 0
  {
    match n
    case Atomic(k) =>
      OnceJob(w, k);
    case Series(st, ad) =>
      if st == [] {
        NoRuns(w, w);
      } else {
        OnceStages(w, st, ad);
      }
    case Parallel(bs, _) =>
      OnceBranches(w, bs);
  }

  lemma {:induction false} OnceStages<K>(w: World<K>, st: seq<Node<K>>, ad: bool)
    requires Closed(w) && st != [] && forall m :: m in st ==> AtomsIn(m, w.jobs.Keys)
    ensures FreshRuns(w, SubmitStages(w, st, ad).0)
    ensures SubmitStages(w, st, ad).1.Ok? ==> Settled(w, SubmitStages(w, st, ad).0)
    decreases Unsubmitted(w), 1, SizeList(st), 1
  {
    assert st[0] in st;
    OnceNode(w, st[0]);
    var (w1, h) := SubmitNode(w, st[0]);
    FollowsKeeps(w, w1);
    if h.Err? || |st| == 1 {
      assert SubmitStages(w, st, ad) == (w1, h);
    } else {
      OnceLaterStages(w, w1, h.value, st, ad);
    }
  }

  /** The stages after the first: the first stage's result is handed to the
      second, then the rest of the series runs from there. */
  lemma {:induction false} OnceLaterStages<K>(w: World<K>, w1: World<K>, v: PyValue<Jid>, st: seq<Node<K>>, ad: bool)
    requires Closed(w) && |st| >= 2 && forall m :: m in st ==> AtomsIn(m, w.jobs.Keys)
    requires SubmitNode(w, st[0]) == (w1, Ok(v))
    requires Follows(w, w1) && Closed(w1) && FreshRuns(w, w1) && Settled(w, w1)
    ensures FreshRuns(w, SubmitStages(w, st, ad).0)
    ensures SubmitStages(w, st, ad).1.Ok? ==> Settled(w, SubmitStages(w, st, ad).0)
    decreases Unsubmitted(w), 1, SizeList(st), 0
  {
    assert st[1] in st;
    FollowsKeeps(w, w1);
    var (jobs2, a) := Append(w1.jobs, st[1], v, ad);
    HoldKeepsRuns(w, w1, jobs2);
    if a.Err? {
      StagesHoldFails(w, st, ad, w1, v);
    } else {
      OnceHeld(w, w1, v, st, ad, jobs2);
    }
  }

  /** The case of `OnceLaterStages` where the hold on the second stage went
      through. */
  lemma {:induction false} OnceHeld<K>(w: World<K>, w1: World<K>, v: PyValue<Jid>, st: seq<Node<K>>, ad: bool, jobs2: map<K, JobState<K>>)
    requires Closed(w) && |st| >= 2 && forall m :: m in st ==> AtomsIn(m, w.jobs.Keys)
    requires SubmitNode(w, st[0]) == (w1, Ok(v)) && Closed(w1) && AtomsIn(st[1], w1.jobs.Keys)
    requires Append(w1.jobs, st[1], v, ad).0 == jobs2 && Append(w1.jobs, st[1], v, ad).1.Ok?
    requires Follows(w, w1.(jobs := jobs2)) && FreshRuns(w, w1.(jobs := jobs2)) && Settled(w, w1.(jobs := jobs2))
    ensures FreshRuns(w, SubmitStages(w, st, ad).0)
    ensures SubmitStages(w, st, ad).1.Ok? ==> Settled(w, SubmitStages(w, st, ad).0)
    decreases Unsubmitted(w), 1, SizeList(st), 0, 1
  {
    StagesStep(w, st, ad, w1, v, jobs2);
    FollowsKeeps(w, w1.(jobs := jobs2));
    OnceRestStages(w, w1.(jobs := jobs2), st[1..], ad);
  }

  /** Adding holds records no job and takes no id away. */
  lemma HoldKeepsRuns<K>(w: World<K>, w1: World<K>, jobs2: map<K, JobState<K>>)
    requires Closed(w1) && OnlyHolds(w1.jobs, jobs2)
    requires Follows(w, w1) && FreshRuns(w, w1) && Settled(w, w1)
    ensures Follows(w, w1.(jobs := jobs2)) && FreshRuns(w, w1.(jobs := jobs2)) && Settled(w, w1.(jobs := jobs2))
  {
    var w2 := w1.(jobs := jobs2);
    OnlyHoldsFollows(w1, jobs2);
    NoRuns(w1, w2);
    FreshCompose(w, w1, w2);
    FollowsTrans(w, w1, w2);
  }

  /** The rest of a series, run after the stages that went before. */
  lemma {:induction false} OnceRestStages<K>(w: World<K>, w2: World<K>, st: seq<Node<K>>, ad: bool)
    requires Closed(w2) && st != [] && forall m :: m in st ==> AtomsIn(m, w2.jobs.Keys)
    requires Follows(w, w2) && FreshRuns(w, w2) && Settled(w, w2)
    ensures FreshRuns(w, SubmitStages(w2, st, ad).0)
    ensures SubmitStages(w2, st, ad).1.Ok? ==> Settled(w, SubmitStages(w2, st, ad).0)
    decreases Unsubmitted(w2), 1, SizeList(st), 2
  {
    OnceStages(w2, st, ad);
    FreshCompose(w, w2, SubmitStages(w2, st, ad).0);
  }

  lemma {:induction false} OnceBranches<K>(w: World<K>, bs: seq<Node<K>>)
    requires Closed(w) && forall m :: m in bs ==> AtomsIn(m, w.jobs.Keys)
    ensures FreshRuns(w, SubmitBranches(w, bs).0)
    ensures SubmitBranches(w, bs).1.Ok? ==> Settled(w, SubmitBranches(w, bs).0)
    decreases Unsubmitted(w), 1, SizeList(bs), 1
  {
    if bs == [] {
      NoRuns(w, w);
    } else {
      assert bs[0] in bs;
      OnceNode(w, bs[0]);
      var (w1, h) := SubmitNode(w, bs[0]);
      FollowsKeeps(w, w1);
      if h.Err? {
        assert SubmitBranches(w, bs).0 == w1;
      } else {
        assert forall m :: m in bs[1..] ==> AtomsIn(m, w1.jobs.Keys);
        OnceBranches(w1, bs[1..]);
        var (w2, r) := SubmitBranches(w1, bs[1..]);
        FreshCompose(w, w1, w2);
        assert SubmitBranches(w, bs) == (w2, if r.Err? then r else Ok([h.value] + r.value));
      }
    }
  }
}
