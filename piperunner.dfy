/** The objects of `piperunner.py` as they live on the heap: a `GEJob` whose
    fields its methods update, the series and parallel combinators that
    forward to the jobs they hold, and qsub as an object that hands out one
    output per call. Every method here is proved to leave the heap, seen
    through `WorldOf`, exactly as the functions of `Pipeline` say. */
module PipeRunner {
  import opened Text
  import opened PyDict
  import opened QsubCommand
  import opened Jobs
  import opened Pipeline

  /** `subprocess.check_output` on qsub: the outputs it will print, one per
      call (None: qsub exits with an error status), and, for the proofs, the
      command lines it has received and from which job. */
  class Qsub {
    var responses: seq<Option<string>>
    ghost var log: seq<(GEJob, seq<string>)>

    constructor (responses: seq<Option<string>>)
      ensures this.responses == responses && log == []
    {
      this.responses := responses;
      log := [];
    }

    method CheckOutput(cmd: seq<string>, ghost who: GEJob) returns (out: Option<string>)
      modifies this
      ensures out == NextOutput(old(responses)) && responses == Consume(old(responses))
      ensures log == old(log) + [(who, cmd)]
    {
      out := NextOutput(responses);
      responses := Consume(responses);
      log := log + [(who, cmd)];
    }
  }

  /** A Grid Engine job. The options fixed by `__init__` are `conf`; the
      fields below it are those that change afterwards. */
  class GEJob {
    var conf: JobConfig
    var arrayRange: Option<string>
    var holdJid: seq<Jid>
    var holdJidAd: seq<Jid>
    var nextJob: seq<(Node<GEJob>, bool)>
    var jobId: Option<int>
    var commandline: seq<string>

    function State(): JobState<GEJob>
      reads this
    {
      JobState(conf, arrayRange, holdJid, holdJidAd, nextJob, jobId, commandline)
    }

    /** `__init__`, once `Jobs.Construct` has accepted the arguments: no id,
        no successors, no command line yet. */
    constructor (j: NewJob)
      ensures State() == Initial(j)
    {
      conf := j.conf;
      arrayRange := j.arrayRange;
      holdJid := j.holdJid;
      holdJidAd := j.holdJidAd;
      nextJob := [];
      jobId := None;
      commandline := [];
    }

    method AppendHoldJid(v: PyValue<Jid>)
      modifies this
      ensures State() == AddHolds(old(State()), Flatten(v), false)
    {
      holdJid := holdJid + Flatten(v);
    }

    method AppendHoldJidAd(v: PyValue<Jid>)
      modifies this
      ensures State() == AddHolds(old(State()), Flatten(v), true)
    {
      holdJidAd := holdJidAd + Flatten(v);
    }

    method AppendNextJob(n: Node<GEJob>, asArray: bool)
      modifies this
      ensures State() == AddSuccessor(old(State()), n, asArray)
    {
      nextJob := nextJob + [(n, asArray)];
    }

    /** `_build_command`: the five option tables in order, then `-binding`,
        `-pe`, the command and its arguments. The line is gathered in a local
        and stored once; nothing reads the field in between. */
    method BuildCommand()
      modifies this
      ensures State() == old(State()).(commandline := CommandLineOf(old(State())))
    {
      var c := conf;
      var options := RenderSimple([], SimpleTable(c, arrayRange));
      assert options == RenderAll(SimpleTable(c, arrayRange), SimpleTokens);
      options := RenderYesNo(options, YesNoTable(c));
      options := RenderFlags(options, FlagTable(c));
      options := RenderCommas(options, CommaTable(c, holdJid, holdJidAd));
      options := RenderKvs(options, KvTable(c));
      commandline := RenderTail(["qsub"] + options, c);
    }

    /** `submit`: refused once the job has an id; otherwise the command line
        is built and handed to qsub, the output gives `array` and `job_id`,
        and then each successor in `next_job` order receives the id as a hold
        and is submitted. */
    method Submit(s: Qsub, ghost U: set<GEJob>) returns (r: Result<PyValue<Jid>, SubmitError>)
      requires this in U && Closed(WorldOf(U, s))
      modifies U, s
      ensures (WorldOf(U, s), r) == SubmitJob(old(WorldOf(U, s)), this)
      decreases Unsubmitted(WorldOf(U, s)), 0, 0, 0
    {
      ghost var w := WorldOf(U, s);
      if jobId.Some? {
        r := Err(AlreadySubmitted(jobId.value));
        assert w.responses[0..] == w.responses;
        return;
      }
      var out := SendCommand(s, U);
      ghost var w1 := WorldOf(U, s);
      if out.None? {
        r := Err(QsubFailed(commandline));
        return;
      }
      var parsed := ParseOutput(out.value);
      if parsed.Err? {
        r := Err(parsed.error);
        return;
      }
      var id := ParseInt(parsed.value.0);
      RecordOutput(parsed.value.1, id, s, U);
      if id.None? {
        r := Err(BadJobId(parsed.value.0));
        return;
      }
      ghost var w3 := WorldOf(U, s);
      FollowsKeeps(w, w1);
      var e := SubmitSuccessorsLoop(nextJob, id.value, s, U);
      r := if e.Err? then Err(e.error) else Ok(Item(Num(id.value)));
    }

    /** The first half of `submit`: `_build_command`, then qsub receives the
        command line and prints one output. */
    method SendCommand(s: Qsub, ghost U: set<GEJob>) returns (out: Option<string>)
      requires this in U && Closed(WorldOf(U, s))
      modifies this, s
      ensures out == NextOutput(old(s.responses)) && commandline == CommandLineOf(old(State()))
      ensures WorldOf(U, s) == Issue(old(WorldOf(U, s)), this)
    {
      BuildCommand();
      assert Snap(U) == old(Snap(U))[this := State()];
      out := s.CheckOutput(commandline, this);
    }

    /** The output read back: `array` first, then `job_id` (None when `int()`
        fails, which leaves it as it was). */
    method RecordOutput(arr: Option<string>, id: Option<int>, s: Qsub, ghost U: set<GEJob>)
      requires this in U && Closed(WorldOf(U, s)) && jobId.None?
      modifies this
      ensures WorldOf(U, s) == Assign(old(WorldOf(U, s)), this, arr, id)
    {
      arrayRange := arr;
      jobId := id;
      assert Snap(U) == old(Snap(U))[this := State()];
    }
  }

  /** The loop over `next_job` in `submit`. */
  method SubmitSuccessorsLoop(edges: seq<(Node<GEJob>, bool)>, id: int, s: Qsub, ghost U: set<GEJob>)
    returns (r: Result<(), SubmitError>)
    requires Closed(WorldOf(U, s)) && EdgesIn(edges, U)
    modifies U, s
    ensures (WorldOf(U, s), r) == SubmitSuccessors(old(WorldOf(U, s)), edges, id)
    decreases Unsubmitted(WorldOf(U, s)), 2, |edges|, 1
  {
    ghost var w := WorldOf(U, s);
    assert edges[0..] == edges;
    var i := 0;
    while i < |edges|
      invariant 0 <= i <= |edges|
      invariant Closed(WorldOf(U, s)) && EdgesIn(edges[i..], U)
      invariant Unsubmitted(WorldOf(U, s)) <= Unsubmitted(w)
      invariant SubmitSuccessors(WorldOf(U, s), edges[i..], id) == SubmitSuccessors(w, edges, id)
      decreases |edges| - i
    {
      SuccessorsFrom(WorldOf(U, s), edges, i, id);
      var e := SubmitSuccessor(edges[i].0, edges[i].1, id, s, U);
      if e.Err? {
        r := e;
        return;
      }
      i := i + 1;
    }
    assert edges[i..] == [];
    r := Ok(());
  }

  /** One turn of that loop: the successor receives the hold on `id` (on
      `hold_jid_ad` when `asArray`), then it is submitted. */
  method SubmitSuccessor(next: Node<GEJob>, asArray: bool, id: int, s: Qsub, ghost U: set<GEJob>)
    returns (r: Result<(), SubmitError>)
    requires Closed(WorldOf(U, s)) && AtomsIn(next, U)
    modifies U, s
    ensures (WorldOf(U, s), r) == SuccessorStep(old(WorldOf(U, s)), next, asArray, id)
    decreases Unsubmitted(WorldOf(U, s)), 2, 0, 0
  {
    ghost var w := WorldOf(U, s);
    var held := HoldPipeline(next, Item(Num(id)), asArray, U);
    if held.Err? {
      r := held;
      return;
    }
    OnlyHoldsFollows(w, Snap(U));
    var v := SubmitPipeline(next, s, U);
    r := if v.Err? then Err(v.error) else Ok(());
  }

  /** What one turn of the successor loop does to the world. */
  ghost function SuccessorStep(w: World<GEJob>, next: Node<GEJob>, asArray: bool, id: int)
    : (r: (World<GEJob>, Result<(), SubmitError>))
    requires Closed(w) && AtomsIn(next, w.jobs.Keys)
    ensures Closed(r.0) && r.0.jobs.Keys == w.jobs.Keys && Unsubmitted(r.0) <= Unsubmitted(w)
  {
    var ap := Append(w.jobs, next, Item(Num(id)), asArray);
    var w1 := w.(jobs := ap.0);
    OnlyHoldsFollows(w, ap.0);
    if ap.1.Err? then (w1, ap.1)
    else
      var sn := Pipeline.SubmitNode(w1, next);
      FollowsKeeps(w1, sn.0);
      (sn.0, if sn.1.Err? then Err(sn.1.error) else Ok(()))
  }

  /** `SubmitSuccessors` is the step, then the rest of the edges unless the
      step failed. */
  lemma SuccessorsUnfold(w: World<GEJob>, edges: seq<(Node<GEJob>, bool)>, id: int)
    requires Closed(w) && EdgesIn(edges, w.jobs.Keys) && edges != []
    ensures AtomsIn(edges[0].0, w.jobs.Keys)
    ensures var st := SuccessorStep(w, edges[0].0, edges[0].1, id);
            && EdgesIn(edges[1..], st.0.jobs.Keys)
            && SubmitSuccessors(w, edges, id) == (if st.1.Err? then st else SubmitSuccessors(st.0, edges[1..], id))
  {
    var ap := Append(w.jobs, edges[0].0, Item(Num(id)), edges[0].1);
    var w1 := w.(jobs := ap.0);
    OnlyHoldsFollows(w, ap.0);
    if ap.1.Ok? {
      var sn := Pipeline.SubmitNode(w1, edges[0].0);
      FollowsKeeps(w1, sn.0);
    }
  }

  /** `SuccessorsUnfold` at edge `i`. */
  lemma SuccessorsFrom(w: World<GEJob>, edges: seq<(Node<GEJob>, bool)>, i: nat, id: int)
    requires Closed(w) && i < |edges| && EdgesIn(edges[i..], w.jobs.Keys)
    ensures AtomsIn(edges[i].0, w.jobs.Keys)
    ensures var st := SuccessorStep(w, edges[i].0, edges[i].1, id);
            && EdgesIn(edges[i + 1..], st.0.jobs.Keys)
            && SubmitSuccessors(w, edges[i..], id) == (if st.1.Err? then st else SubmitSuccessors(st.0, edges[i + 1..], id))
  {
    var rest := edges[i..];
    assert rest[0] == edges[i] && rest[1..] == edges[i + 1..];
    SuccessorsUnfold(w, rest, id);
  }

  // ---------------------------------------------------------------- the loops of `_build_command`

  /** The end of `_build_command`: `-binding` with its words when given, `-pe`
      with the first parallel environment when there is one, the command, and
      its arguments when there are any. */
  method RenderTail(cl: seq<string>, c: JobConfig) returns (out: seq<string>)
    ensures out == cl + BindingTokens(c.binding) + PeTokens(c.parallelEnv) + [c.command] + c.args
  {
    out := cl;
    if |c.binding| > 0 {
      out := out + (["-binding"] + c.binding);
    }
    assert out == cl + BindingTokens(c.binding);
    ghost var o1 := out;
    if |c.parallelEnv| > 0 {
      var (k, v) := c.parallelEnv[0];
      out := out + ["-pe", k, Join(v, ',')];
    }
    assert out == o1 + PeTokens(c.parallelEnv);
    out := out + [c.command];
    ghost var o3 := out;
    if |c.args| > 0 {
      out := out + c.args;
    }
    assert out == o3 + c.args;
  }

  /** The `simpleargs` loop: `-X value` for every value that is not None. */
  method RenderSimple(cl: seq<string>, t: seq<(string, Option<string>)>) returns (out: seq<string>)
    ensures out == cl + RenderAll(t, SimpleTokens)
  {
    out := cl;
    for i := 0 to |t|
      invariant out == cl + RenderAll(t[..i], SimpleTokens)
    {
      var (flag, val) := t[i];
      if val.Some? {
        out := out + [flag, val.value];
      }
      RenderAllSnoc(t[..i], t[i], SimpleTokens);
      assert t[..i + 1] == t[..i] + [t[i]];
    }
    assert t[..|t|] == t;
  }

  /** The `ynargs` loop: `-X yes` for True, `-X no` for False. */
  method RenderYesNo(cl: seq<string>, t: seq<(string, Option<bool>)>) returns (out: seq<string>)
    ensures out == cl + RenderAll(t, YesNoTokens)
  {
    out := cl;
    for i := 0 to |t|
      invariant out == cl + RenderAll(t[..i], YesNoTokens)
    {
      var (flag, val) := t[i];
      if val == Some(true) {
        out := out + [flag, "yes"];
      } else if val == Some(false) {
        out := out + [flag, "no"];
      }
      RenderAllSnoc(t[..i], t[i], YesNoTokens);
      assert t[..i + 1] == t[..i] + [t[i]];
    }
    assert t[..|t|] == t;
  }

  /** The `flagvals` loop: a bare `-X` for every True. */
  method RenderFlags(cl: seq<string>, t: seq<(string, bool)>) returns (out: seq<string>)
    ensures out == cl + RenderAll(t, FlagTokens)
  {
    out := cl;
    for i := 0 to |t|
      invariant out == cl + RenderAll(t[..i], FlagTokens)
    {
      var (flag, val) := t[i];
      if val {
        out := out + [flag];
      }
      RenderAllSnoc(t[..i], t[i], FlagTokens);
      assert t[..i + 1] == t[..i] + [t[i]];
    }
    assert t[..|t|] == t;
  }

  /** The `commasepargs` loop: `-X a,b,...` for every non-empty list. */
  method RenderCommas(cl: seq<string>, t: seq<(string, seq<string>)>) returns (out: seq<string>)
    ensures out == cl + RenderAll(t, CommaTokens)
  {
    out := cl;
    for i := 0 to |t|
      invariant out == cl + RenderAll(t[..i], CommaTokens)
    {
      var (flag, val) := t[i];
      if |val| > 0 {
        out := out + [flag, Join(val, ',')];
      }
      RenderAllSnoc(t[..i], t[i], CommaTokens);
      assert t[..i + 1] == t[..i] + [t[i]];
    }
    assert t[..|t|] == t;
  }

  /** The `kvargs` loop: `-X k=v,...` for every non-empty dictionary. */
  method RenderKvs(cl: seq<string>, t: seq<(string, Dict<string, string>)>) returns (out: seq<string>)
    ensures out == cl + RenderAll(t, KvTokens)
  {
    out := cl;
    for i := 0 to |t|
      invariant out == cl + RenderAll(t[..i], KvTokens)
    {
      var (flag, val) := t[i];
      if |val| > 0 {
        out := out + [flag, Join(KvPieces(val), ',')];
      }
      RenderAllSnoc(t[..i], t[i], KvTokens);
      assert t[..i + 1] == t[..i] + [t[i]];
    }
    assert t[..|t|] == t;
  }

  /** The state of every job of `U`. */
  ghost function Snap(U: set<GEJob>): (m: map<GEJob, JobState<GEJob>>)
    reads U
    ensures m.Keys == U
  {
    map j | j in U :: j.State()
  }

  /** The heap as the world `Pipeline` speaks of: the jobs of `U`, what qsub
      will print and what it has received. */
  ghost function WorldOf(U: set<GEJob>, s: Qsub): World<GEJob>
    reads U, s
  {
    World(Snap(U), s.responses, s.log)
  }

  /** `submit` on any pipeline node. */
  method SubmitPipeline(n: Node<GEJob>, s: Qsub, ghost U: set<GEJob>) returns (r: Result<PyValue<Jid>, SubmitError>)
    requires AtomsIn(n, U) && Closed(WorldOf(U, s))
    modifies U, s
    ensures (WorldOf(U, s), r) == Pipeline.SubmitNode(old(WorldOf(U, s)), n)
    decreases Unsubmitted(WorldOf(U, s)), 1, Size(n), 0
  {
    match n
    case Atomic(j) =>
      r := j.Submit(s, U);
    case Series(stages, asArray) =>
      r := SubmitSeries(stages, asArray, s, U);
    case Parallel(branches, _) =>
      r := SubmitParallel(branches, s, U);
  }

  /** `GESeriesJob.submit`: the stages in order, each handing its result to
      the next as a hold; the result is the last stage's. A series without
      stages fails, as `hold_jid` is then never bound. */
  method SubmitSeries(stages: seq<Node<GEJob>>, asArray: bool, s: Qsub, ghost U: set<GEJob>)
    returns (r: Result<PyValue<Jid>, SubmitError>)
    requires (forall m :: m in stages ==> AtomsIn(m, U)) && Closed(WorldOf(U, s))
    modifies U, s
    ensures (WorldOf(U, s), r) == Pipeline.SubmitNode(old(WorldOf(U, s)), Series(stages, asArray))
    decreases Unsubmitted(WorldOf(U, s)), 1, SizeList(stages), 3
  {
    if stages == [] {
      ghost var w := WorldOf(U, s);
      assert w.responses[0..] == w.responses;
      r := Err(NoStages);
      return;
    }
    r := SubmitEach(stages, asArray, s, U);
  }

  /** The loop of `GESeriesJob.submit` over a non-empty series: each stage is
      submitted, and its result is added as a hold to the next one. */
  method SubmitEach(stages: seq<Node<GEJob>>, asArray: bool, s: Qsub, ghost U: set<GEJob>)
    returns (r: Result<PyValue<Jid>, SubmitError>)
    requires stages != [] && (forall m :: m in stages ==> AtomsIn(m, U)) && Closed(WorldOf(U, s))
    modifies U, s
    ensures (WorldOf(U, s), r) == SubmitStages(old(WorldOf(U, s)), stages, asArray)
    decreases Unsubmitted(WorldOf(U, s)), 1, SizeList(stages), 2
  {
    ghost var w := WorldOf(U, s);
    ghost var goal := SubmitStages(w, stages, asArray);
    assert stages[0..] == stages;
    var hold: PyValue<Jid>;
    var i := 0;
    while true
      invariant 0 <= i < |stages|
      invariant Closed(WorldOf(U, s)) && Unsubmitted(WorldOf(U, s)) <= Unsubmitted(w)
      invariant forall m :: m in stages[i..] ==> AtomsIn(m, U)
      invariant SubmitStages(WorldOf(U, s), stages[i..], asArray) == goal
      decreases |stages| - i
    {
      ghost var wi := WorldOf(U, s);
      assert Unsubmitted(wi) <= Unsubmitted(w);
      SizeListAt(stages, i);
      var h := SubmitStage(stages, i, asArray, s, U);
      if h.Err? {
        r := h;
        return;
      }
      if i + 1 == |stages| {
        hold := h.value;
        break;
      }
      i := i + 1;
    }
    r := Ok(hold);
  }

  /** One turn of that loop: stage `i` is submitted and, when there is a next
      stage, it receives the result as a hold. What is left of the series
      afterwards is the rest of the stages. */
  method SubmitStage(stages: seq<Node<GEJob>>, i: nat, asArray: bool, s: Qsub, ghost U: set<GEJob>)
    returns (h: Result<PyValue<Jid>, SubmitError>)
    requires i < |stages| && Closed(WorldOf(U, s)) && forall m :: m in stages[i..] ==> AtomsIn(m, U)
    modifies U, s
    ensures Closed(WorldOf(U, s)) && Unsubmitted(WorldOf(U, s)) <= Unsubmitted(old(WorldOf(U, s)))
    ensures h.Err? || i + 1 == |stages| ==>
              (WorldOf(U, s), h) == SubmitStages(old(WorldOf(U, s)), stages[i..], asArray)
    ensures h.Ok? && i + 1 < |stages| ==>
              && (forall m :: m in stages[i + 1..] ==> AtomsIn(m, U))
              && SubmitStages(WorldOf(U, s), stages[i + 1..], asArray) == SubmitStages(old(WorldOf(U, s)), stages[i..], asArray)
    decreases Unsubmitted(WorldOf(U, s)), 1, Size(stages[i]), 1
  {
    ghost var w := WorldOf(U, s);
    ghost var rest := stages[i..];
    assert rest[0] == stages[i] && (|rest| > 1 ==> rest[1] == stages[i + 1] && rest[1..] == stages[i + 1..]);
    var hold := SubmitPipeline(stages[i], s, U);
    ghost var w1 := WorldOf(U, s);
    StageSubmitted(w, rest, asArray, w1, hold);
    h := hold;
    if hold.Ok? && i + 1 < |stages| {
      var a := HoldPipeline(stages[i + 1], hold.value, asArray, U);
      ghost var w2 := WorldOf(U, s);
      StageHeld(w, rest, asArray, w1, hold.value, w2.jobs, a);
      if a.Err? {
        h := Err(a.error);
      }
    }
  }

  /** The first half of a turn of the series loop: the stage's submission. */
  lemma StageSubmitted(w: World<GEJob>, st: seq<Node<GEJob>>, ad: bool, w1: World<GEJob>, h: Result<PyValue<Jid>, SubmitError>)
    requires Closed(w) && st != [] && forall m :: m in st ==> AtomsIn(m, w.jobs.Keys)
    requires (w1, h) == Pipeline.SubmitNode(w, st[0])
    ensures Closed(w1) && Unsubmitted(w1) <= Unsubmitted(w) && w1.jobs.Keys == w.jobs.Keys
    ensures h.Err? || |st| == 1 ==> SubmitStages(w, st, ad) == (w1, h)
  {
    FollowsKeeps(w, w1);
  }

  /** The second half: the next stage receives the result as a hold. */
  lemma StageHeld<K>(w: World<K>, st: seq<Node<K>>, ad: bool, w1: World<K>, v: PyValue<Jid>,
                     jobs2: map<K, JobState<K>>, a: Result<(), SubmitError>)
    requires Closed(w) && |st| > 1 && forall m :: m in st ==> AtomsIn(m, w.jobs.Keys)
    requires (w1, Ok(v)) == Pipeline.SubmitNode(w, st[0])
    requires AtomsIn(st[1], w1.jobs.Keys) && (jobs2, a) == Append(w1.jobs, st[1], v, ad)
    ensures Closed(w1.(jobs := jobs2)) && Unsubmitted(w1.(jobs := jobs2)) <= Unsubmitted(w)
    ensures a.Err? ==> SubmitStages(w, st, ad) == (w1.(jobs := jobs2), Err(a.error))
    ensures a.Ok? ==> (forall m :: m in st[1..] ==> AtomsIn(m, jobs2.Keys))
                      && SubmitStages(w, st, ad) == SubmitStages(w1.(jobs := jobs2), st[1..], ad)
  {
    HoldKeeps(w, w1, jobs2);
    if a.Ok? {
      StagesStep(w, st, ad, w1, v, jobs2);
    } else {
      StagesHoldFails(w, st, ad, w1, v);
    }
  }

  /** A submission followed by hold appends leaves no job newly without id. */
  lemma HoldKeeps<K>(w: World<K>, w1: World<K>, jobs2: map<K, JobState<K>>)
    requires Closed(w) && Follows(w, w1) && OnlyHolds(w1.jobs, jobs2)
    ensures Closed(w1.(jobs := jobs2)) && Unsubmitted(w1.(jobs := jobs2)) <= Unsubmitted(w)
  {
    FollowsKeeps(w, w1);
    OnlyHoldsFollows(w1, jobs2);
  }

  /** `GEParallelJob.submit`: the tuple of the branches' results. */
  method SubmitParallel(branches: seq<Node<GEJob>>, s: Qsub, ghost U: set<GEJob>)
    returns (r: Result<PyValue<Jid>, SubmitError>)
    requires (forall m :: m in branches ==> AtomsIn(m, U)) && Closed(WorldOf(U, s))
    modifies U, s
    ensures var (w', rs) := SubmitBranches(old(WorldOf(U, s)), branches);
            WorldOf(U, s) == w' && r == (if rs.Err? then Err(rs.error) else Ok(Iterable(rs.value)))
    decreases Unsubmitted(WorldOf(U, s)), 1, SizeList(branches), 2
  {
    ghost var w := WorldOf(U, s);
    var results: seq<PyValue<Jid>> := [];
    assert branches[0..] == branches;
    ghost var all := SubmitBranches(w, branches);
    assert all.1.Ok? ==> [] + all.1.value == all.1.value;
    var i := 0;
    while i < |branches|
      invariant 0 <= i <= |branches|
      invariant Closed(WorldOf(U, s)) && Unsubmitted(WorldOf(U, s)) <= Unsubmitted(w)
      invariant forall m :: m in branches[i..] ==> AtomsIn(m, U)
      invariant all == Prefixed(results, SubmitBranches(WorldOf(U, s), branches[i..]))
      decreases |branches| - i
    {
      ghost var wi := WorldOf(U, s);
      SizeListAt(branches, i);
      var h := SubmitBranch(branches, i, s, U);
      if h.Err? {
        r := Err(h.error);
        return;
      }
      ghost var more := SubmitBranches(WorldOf(U, s), branches[i + 1..]);
      assert SubmitBranches(wi, branches[i..]) == (more.0, if more.1.Err? then more.1 else Ok([h.value] + more.1.value));
      PrefixedCons(results, h.value, more);
      results := results + [h.value];
      i := i + 1;
    }
    assert branches[i..] == [];
    assert results + [] == results;
    r := Ok(Iterable(results));
  }

  /** One turn of that loop: branch `i` is submitted; what is left of the
      branches afterwards is the rest of them. */
  method SubmitBranch(branches: seq<Node<GEJob>>, i: nat, s: Qsub, ghost U: set<GEJob>)
    returns (h: Result<PyValue<Jid>, SubmitError>)
    requires i < |branches| && Closed(WorldOf(U, s)) && forall m :: m in branches[i..] ==> AtomsIn(m, U)
    modifies U, s
    ensures Closed(WorldOf(U, s)) && Unsubmitted(WorldOf(U, s)) <= Unsubmitted(old(WorldOf(U, s)))
    ensures h.Err? ==> SubmitBranches(old(WorldOf(U, s)), branches[i..]) == (WorldOf(U, s), Err(h.error))
    ensures h.Ok? ==>
              && (forall m :: m in branches[i + 1..] ==> AtomsIn(m, U))
              && var rest := SubmitBranches(WorldOf(U, s), branches[i + 1..]);
                 SubmitBranches(old(WorldOf(U, s)), branches[i..])
                   == (rest.0, if rest.1.Err? then rest.1 else Ok([h.value] + rest.1.value))
    decreases Unsubmitted(WorldOf(U, s)), 1, Size(branches[i]), 1
  {
    ghost var w := WorldOf(U, s);
    ghost var rest := branches[i..];
    BranchesUnfold(w, rest);
    assert rest[0] == branches[i] && rest[1..] == branches[i + 1..];
    h := SubmitPipeline(branches[i], s, U);
  }

  /** The branch results gathered so far in front of those still to come. */
  ghost function Prefixed(done: seq<PyValue<Jid>>, r: (World<GEJob>, Result<seq<PyValue<Jid>>, SubmitError>))
    : (World<GEJob>, Result<seq<PyValue<Jid>>, SubmitError>)
  {
    (r.0, if r.1.Err? then r.1 else Ok(done + r.1.value))
  }

  lemma PrefixedCons(done: seq<PyValue<Jid>>, h: PyValue<Jid>, r: (World<GEJob>, Result<seq<PyValue<Jid>>, SubmitError>))
    ensures Prefixed(done, (r.0, if r.1.Err? then r.1 else Ok([h] + r.1.value))) == Prefixed(done + [h], r)
  {
    if r.1.Ok? {
      assert done + ([h] + r.1.value) == (done + [h]) + r.1.value;
    }
  }

  /** `append_hold_jid` (or `append_hold_jid_ad` when `asArray`) on any
      pipeline node: a job extends its own list, a series forwards to its
      first stage, a parallel job to every branch. */
  method HoldPipeline(n: Node<GEJob>, v: PyValue<Jid>, asArray: bool, ghost U: set<GEJob>)
    returns (r: Result<(), SubmitError>)
    requires AtomsIn(n, U)
    modifies U
    ensures (Snap(U), r) == Append(old(Snap(U)), n, v, asArray)
    decreases Size(n), 0
  {
    match n
    case Atomic(j) =>
      if asArray {
        j.AppendHoldJidAd(v);
      } else {
        j.AppendHoldJid(v);
      }
      assert Snap(U) == old(Snap(U))[j := j.State()];
      r := Ok(());
    case Series(stages, _) =>
      if stages == [] {
        r := Err(NoFirstStage);
      } else {
        r := HoldPipeline(stages[0], v, asArray, U);
      }
    case Parallel(branches, _) =>
      r := HoldParallel(branches, v, asArray, U);
  }

  method HoldParallel(branches: seq<Node<GEJob>>, v: PyValue<Jid>, asArray: bool, ghost U: set<GEJob>)
    returns (r: Result<(), SubmitError>)
    requires forall m :: m in branches ==> AtomsIn(m, U)
    modifies U
    ensures (Snap(U), r) == AppendAll(old(Snap(U)), branches, v, asArray)
    decreases SizeList(branches), 1
  {
    ghost var jobs := Snap(U);
    assert branches[0..] == branches;
    var i := 0;
    while i < |branches|
      invariant 0 <= i <= |branches|
      invariant AppendAll(Snap(U), branches[i..], v, asArray) == AppendAll(jobs, branches, v, asArray)
      decreases |branches| - i
    {
      SizeListAt(branches, i);
      var a := HoldPipeline(branches[i], v, asArray, U);
      assert branches[i..][1..] == branches[i + 1..];
      if a.Err? {
        r := a;
        return;
      }
      i := i + 1;
    }
    r := Ok(());
  }
}
