/** The value side of a Grid Engine job (`GEJob` in piperunner.py): the keyword
    arguments it is built from, the fields the constructor derives from them,
    the checks that make construction fail, and the qsub command line
    `_build_command` writes from those fields. */
module Jobs {
  import opened Text
  import opened PyDict
  import opened QsubCommand

  // ---------------------------------------------------------------- iter_or_item2list

  /** A value handed to `iter_or_item2list`: None, a single item (a string is a
      single item), or an iterable such as a list or a tuple of further values. */
  datatype PyValue<T> = PyNone | Item(item: T) | Iterable(elems: seq<PyValue<T>>)

  /** `iter_or_item2list`: None gives no items, an item gives itself, an iterable
      gives the concatenation of its elements' lists, left to right. */
  function Flatten<T>(v: PyValue<T>): seq<T>
    decreases v, 1
  {
    match v
    case PyNone => []
    case Item(x) => [x]
    case Iterable(es) => FlattenAll(es)
  }

  /** `reduce(lambda a, b: a + b, map(iter_or_item2list, es), [])`. */
  function FlattenAll<T>(es: seq<PyValue<T>>): seq<T>
    decreases es, 0
  {
    if es == [] then [] else FlattenAll(es[..|es| - 1]) + Flatten(es[|es| - 1])
  }

  /** Every element of a list as a single item. */
  function Items<T>(xs: seq<T>): (r: seq<PyValue<T>>)
    ensures |r| == |xs|
    ensures forall i :: 0 <= i < |xs| ==> r[i] == Item(xs[i])
  {
    if xs == [] then [] else Items(xs[..|xs| - 1]) + [Item(xs[|xs| - 1])]
  }

  /** Flattening two runs of values one after the other. */
  lemma {:induction false} FlattenAllAppend<T>(a: seq<PyValue<T>>, b: seq<PyValue<T>>)
    ensures FlattenAll(a + b) == FlattenAll(a) + FlattenAll(b)
    decreases |b|
  {
    if b == [] {
      assert a + b == a;
    } else {
      var n := |b| - 1;
      FlattenAllAppend(a, b[..n]);
      assert (a + b)[..|a + b| - 1] == a + b[..n];
      assert (a + b)[|a + b| - 1] == b[n];
    }
  }

  /** A list of plain items flattens to itself. */
  lemma {:induction false} FlattenItems<T>(xs: seq<T>)
    ensures Flatten(Iterable(Items(xs))) == xs
    decreases |xs|
  {
    if xs != [] {
      var n := |xs| - 1;
      var its := Items(xs);
      FlattenItems(xs[..n]);
      assert its[..n] == Items(xs[..n]);
      assert FlattenAll(its) == FlattenAll(its[..n]) + Flatten(its[n]);
      assert xs[..n] + [xs[n]] == xs;
    }
  }

  /** `iter_or_item2list` is idempotent: flattening its result changes nothing. */
  lemma FlattenIdempotent<T>(v: PyValue<T>)
    ensures Flatten(Iterable(Items(Flatten(v)))) == Flatten(v)
  {
    FlattenItems(Flatten(v));
  }

  /** A tuple of results, as `GEParallelJob.submit` returns, flattens to the
      concatenation of the results' own lists. */
  lemma {:induction false} FlattenTuple<T>(es: seq<PyValue<T>>, i: nat)
    requires i <= |es|
    ensures FlattenAll(es) == FlattenAll(es[..i]) + FlattenAll(es[i..])
  {
    FlattenAllAppend(es[..i], es[i..]);
    assert es[..i] + es[i..] == es;
  }

  // ---------------------------------------------------------------- job ids

  /** An entry of a hold list: the integer id a submission returned, or any
      text the caller passed in. */
  datatype Jid = Num(n: int) | Name(s: string)

  /** `str(jid)`. */
  function JidText(j: Jid): string
  {
    match j
    case Num(n) => IntToString(n)
    case Name(s) => s
  }

  function JidTexts(js: seq<Jid>): (r: seq<string>)
    ensures |r| == |js|
    ensures forall i :: 0 <= i < |js| ==> r[i] == JidText(js[i])
  {
    if js == [] then [] else [JidText(js[0])] + JidTexts(js[1..])
  }

  // ---------------------------------------------------------------- construction

  /** The keyword arguments of `GEJob.__init__`. Keys absent from a call are
      PyNone / None; `terse`, `verbose` and the extra keyword arguments are
      stored by the source but never used, so they are not fields here. */
  datatype JobArgs = JobArgs(
    command: string,
    args: Option<seq<string>>,
    optionfile: Option<string>,
    exectime: Option<string>,
    additionalContexts: Dict<string, string>,
    arId: Option<string>,
    accountString: Option<string>,
    binary: Option<bool>,
    binding: seq<string>,
    checkpoint: Option<string>,
    ckpt: Option<string>,
    clear: Option<bool>,
    cwd: Option<bool>,
    prefixString: Option<string>,
    deleteContexts: PyValue<string>,
    display: Option<string>,
    deadline: Option<string>,
    stderr: PyValue<string>,
    hard: Option<bool>,
    hold: Option<bool>,
    holdJid: PyValue<Jid>,
    holdJidAd: PyValue<Jid>,
    stdin: PyValue<string>,
    join: Option<bool>,
    jobShare: Option<string>,
    jsv: Option<string>,
    resource: Dict<string, string>,
    mem: Option<string>,
    mail: Option<string>,
    mailAddress: PyValue<string>,
    masterq: PyValue<string>,
    notify: Option<bool>,
    now: Option<bool>,
    name: Option<string>,
    stdout: PyValue<string>,
    projectName: Option<string>,
    priority: Option<string>,
    parallelEnv: Dict<string, seq<string>>,
    slot: Option<string>,
    pty: Option<bool>,
    queue: PyValue<string>,
    reservation: Option<bool>,
    rerun: Option<bool>,
    setContexts: Dict<string, string>,
    shell: Option<bool>,
    soft: Option<bool>,
    sync: Option<bool>,
    interpreter: PyValue<string>,
    arrayRange: Option<string>,
    maxRunning: Option<string>,
    username: PyValue<string>,
    envVars: Dict<string, string>,
    verify: Option<bool>,
    allval: Option<bool>,
    validationLevel: Option<string>,
    workingDir: Option<string>)

  /** The fields of a constructed job that submission never changes. */
  datatype JobConfig = JobConfig(
    command: string,
    args: seq<string>,
    optionfile: Option<string>,
    exectime: Option<string>,
    additionalContexts: Dict<string, string>,
    arId: Option<string>,
    accountString: Option<string>,
    binary: Option<bool>,
    binding: seq<string>,
    checkpoint: Option<string>,
    ckpt: Option<string>,
    clear: Option<bool>,
    cwd: Option<bool>,
    prefixString: Option<string>,
    deleteContexts: seq<string>,
    display: Option<string>,
    deadline: Option<string>,
    stderr: seq<string>,
    hard: Option<bool>,
    hold: Option<bool>,
    stdin: seq<string>,
    join: Option<bool>,
    jobShare: Option<string>,
    jsv: Option<string>,
    resource: Dict<string, string>,
    mail: Option<string>,
    mailAddress: seq<string>,
    masterq: seq<string>,
    notify: Option<bool>,
    now: Option<bool>,
    name: string,
    stdout: seq<string>,
    projectName: Option<string>,
    priority: Option<string>,
    parallelEnv: Dict<string, seq<string>>,
    pty: Option<bool>,
    queue: seq<string>,
    reservation: Option<bool>,
    rerun: Option<bool>,
    setContexts: Dict<string, string>,
    shell: Option<bool>,
    soft: Option<bool>,
    sync: Option<bool>,
    interpreter: seq<string>,
    maxRunning: Option<string>,
    username: seq<string>,
    envVars: Dict<string, string>,
    verify: Option<bool>,
    allval: Option<bool>,
    validationLevel: Option<string>,
    workingDir: Option<string>)

  /** What a freshly constructed job holds: its fixed configuration and the
      initial values of the fields that `append_hold_jid`, `append_hold_jid_ad`
      and `submit` change later. */
  datatype NewJob = NewJob(conf: JobConfig, arrayRange: Option<string>, holdJid: seq<Jid>, holdJidAd: seq<Jid>)

  datatype JobError = NotFound(command: string) | InvalidName(name: string)

  /** The process-wide defaults `GEJob.default_mail` and `GEJob.default_mail_address`. */
  datatype MailDefaults = MailDefaults(mail: Option<string>, address: PyValue<string>)

  /** The values the class declares for them. */
  const SourceMailDefaults := MailDefaults(Some("n"), PyNone)

  /** Python truthiness of an optional text: None and '' are false. */
  predicate Truthy(s: Option<string>)
  {
    s.Some? && s.value != ""
  }

  /** The job name: the given one, or the basename of the command. */
  function JobName(a: JobArgs): string
  {
    if a.name.None? then Basename(a.command) else a.name.value
  }

  /** `resource`, with `s_vmem` and `mem_req` both set to `mem` when it is given. */
  function Resource(a: JobArgs): (d: Dict<string, string>)
    ensures !Truthy(a.mem) ==> d == a.resource
    ensures Truthy(a.mem) ==> Lookup(d, "s_vmem") == Some(a.mem.value) && Lookup(d, "mem_req") == Some(a.mem.value)
    ensures Truthy(a.mem) ==> forall k :: k != "s_vmem" && k != "mem_req" ==> Lookup(d, k) == Lookup(a.resource, k)
  {
    if Truthy(a.mem) then Set(Set(a.resource, "s_vmem", a.mem.value), "mem_req", a.mem.value)
    else a.resource
  }

  /** `parallel_env`, replaced by `{def_slot: [slot]}` when a slot count is given. */
  function ParallelEnv(a: JobArgs): Dict<string, seq<string>>
  {
    if Truthy(a.slot) then [("def_slot", [a.slot.value])] else a.parallelEnv
  }

  /** `GEJob.__init__`. `found` stands for "the command is a file, or a file of
      that name is on PATH", which the source asks of the file system. */
  function Construct(found: bool, defaults: MailDefaults, a: JobArgs): (r: Result<NewJob, JobError>)
    ensures r == Err(NotFound(a.command)) <==> !found
    ensures r.Err? && r.error.InvalidName? <==> found && StartsWithDigit(JobName(a))
    ensures r.Ok? ==> r.value.conf.name == JobName(a) && !StartsWithDigit(r.value.conf.name)
    ensures r.Ok? ==> r.value.conf.command == a.command
    ensures r.Ok? ==> r.value.conf.args == (if a.args.None? then [] else a.args.value)
    ensures r.Ok? ==> r.value.holdJid == Flatten(a.holdJid) && r.value.holdJidAd == Flatten(a.holdJidAd)
    ensures r.Ok? ==> r.value.arrayRange == a.arrayRange
    ensures r.Ok? ==> r.value.conf.mail == (if a.mail.None? then defaults.mail else a.mail)
    ensures r.Ok? ==> r.value.conf.mailAddress == Flatten(if a.mailAddress.PyNone? then defaults.address else a.mailAddress)
    ensures r.Ok? ==> r.value.conf.resource == Resource(a) && r.value.conf.parallelEnv == ParallelEnv(a)
    ensures r.Ok? ==> r.value.conf.envVars == a.envVars
  {
    if !found then Err(NotFound(a.command))
    else
      var name := JobName(a);
      if StartsWithDigit(name) then Err(InvalidName(name))
      else
        var conf := JobConfig(
          a.command,
          if a.args.None? then [] else a.args.value,
          a.optionfile, a.exectime, a.additionalContexts, a.arId, a.accountString,
          a.binary, a.binding, a.checkpoint, a.ckpt, a.clear, a.cwd, a.prefixString,
          Flatten(a.deleteContexts), a.display, a.deadline, Flatten(a.stderr),
          a.hard, a.hold, Flatten(a.stdin), a.join, a.jobShare, a.jsv,
          Resource(a),
          if a.mail.None? then defaults.mail else a.mail,
          Flatten(if a.mailAddress.PyNone? then defaults.address else a.mailAddress),
          Flatten(a.masterq), a.notify, a.now, name, Flatten(a.stdout),
          a.projectName, a.priority, ParallelEnv(a), a.pty, Flatten(a.queue),
          a.reservation, a.rerun, a.setContexts, a.shell, a.soft, a.sync,
          Flatten(a.interpreter), a.maxRunning, Flatten(a.username), a.envVars,
          a.verify, a.allval, a.validationLevel, a.workingDir);
        Ok(NewJob(conf, a.arrayRange, Flatten(a.holdJid), Flatten(a.holdJidAd)))
  }

  // ---------------------------------------------------------------- _build_command

  /** The options written as `-X value` when not None, in `_build_command`'s order.
      `array` is a field `submit` rewrites, so it is passed separately. */
  function SimpleTable(c: JobConfig, arrayRange: Option<string>): (t: seq<(string, Option<string>)>)
    ensures Keys(t) == SimpleFlags
  {
    Pair(SimpleFlags,
         [c.optionfile, c.exectime, c.arId, c.accountString, c.checkpoint, c.ckpt, c.prefixString, c.display,
          c.deadline, c.jobShare, c.jsv, c.mail, Some(c.name), c.projectName, c.priority, arrayRange,
          c.maxRunning, c.validationLevel, c.workingDir])
  }

  const SimpleFlags: seq<string> :=
    ["-@", "-a", "-ar", "-A", "-c", "-ckpt", "-C", "-display", "-dl", "-js", "-jsv",
     "-m", "-N", "-P", "-p", "-t", "-tc", "-w", "-wd"]

  /** The options written as `-X yes` / `-X no`. */
  function YesNoTable(c: JobConfig): (t: seq<(string, Option<bool>)>)
    ensures Keys(t) == YesNoFlags
  {
    Pair(YesNoFlags, [c.binary, c.join, c.now, c.pty, c.reservation, c.rerun, c.shell, c.sync])
  }

  const YesNoFlags: seq<string> := ["-b", "-j", "-now", "-pty", "-R", "-r", "-shell", "-sync"]

  /** The options written as a bare `-X` when the value `is True`; `terse` is
      always True. */
  function FlagTable(c: JobConfig): (t: seq<(string, bool)>)
    ensures Keys(t) == FlagFlags
  {
    Pair(FlagFlags,
         [c.clear == Some(true), c.cwd == Some(true), c.hard == Some(true), c.hold == Some(true),
          c.notify == Some(true), c.soft == Some(true), true, c.verify == Some(true), c.allval == Some(true)])
  }

  const FlagFlags: seq<string> := ["-clear", "-cwd", "-hard", "-h", "-notify", "-soft", "-terse", "-verify", "-V"]

  /** The options written as `-X a,b,...` when the list is not empty; the two
      hold lists are fields that change, so they are passed separately. */
  function CommaTable(c: JobConfig, holdJid: seq<Jid>, holdJidAd: seq<Jid>): (t: seq<(string, seq<string>)>)
    ensures Keys(t) == CommaFlags
  {
    Pair(CommaFlags,
         [c.deleteContexts, c.stderr, JidTexts(holdJid), JidTexts(holdJidAd), c.stdin, c.mailAddress,
          c.masterq, c.stdout, c.queue, c.interpreter, c.username])
  }

  const CommaFlags: seq<string> :=
    ["-dc", "-e", "-hold_jid", "-hold_jid_ad", "-i", "-M", "-masterq", "-o", "-q", "-S", "-u"]

  /** The options written as `-X k=v,...` when the dictionary is not empty. */
  function KvTable(c: JobConfig): (t: seq<(string, Dict<string, string>)>)
    ensures Keys(t) == KvFlags
  {
    Pair(KvFlags, [c.setContexts, c.envVars, c.additionalContexts, c.resource])
  }

  const KvFlags: seq<string> := ["-sc", "-v", "-ac", "-l"]

  /** Everything `_build_command` writes before `-binding`: the five tables in order. */
  function OptionTokens(c: JobConfig, arrayRange: Option<string>, holdJid: seq<Jid>, holdJidAd: seq<Jid>): seq<string>
  {
    RenderAll(SimpleTable(c, arrayRange), SimpleTokens)
    + RenderAll(YesNoTable(c), YesNoTokens)
    + RenderAll(FlagTable(c), FlagTokens)
    + RenderAll(CommaTable(c, holdJid, holdJidAd), CommaTokens)
    + RenderAll(KvTable(c), KvTokens)
  }

  /** The qsub command line `_build_command` leaves in `commandline`. */
  function CommandLine(c: JobConfig, arrayRange: Option<string>, holdJid: seq<Jid>, holdJidAd: seq<Jid>): seq<string>
  {
    ["qsub"] + OptionTokens(c, arrayRange, holdJid, holdJidAd)
    + BindingTokens(c.binding) + PeTokens(c.parallelEnv) + [c.command] + c.args
  }

  /** The command line starts with `qsub` and ends with the command and its arguments. */
  lemma CommandLineEnds(c: JobConfig, arrayRange: Option<string>, holdJid: seq<Jid>, holdJidAd: seq<Jid>)
    ensures var cmd := CommandLine(c, arrayRange, holdJid, holdJidAd);
            |cmd| > |c.args| + 1 && cmd[0] == "qsub" && cmd[|cmd| - |c.args| - 1..] == [c.command] + c.args
  {
    var cmd := CommandLine(c, arrayRange, holdJid, holdJidAd);
    var mid := OptionTokens(c, arrayRange, holdJid, holdJidAd) + BindingTokens(c.binding) + PeTokens(c.parallelEnv);
    assert cmd == ["qsub"] + mid + ([c.command] + c.args);
  }

  // ---------------------------------------------------------------- reading the command line back

  /** The option values the qsub parser reads from a command line, table by table. */
  datatype OptionValues = OptionValues(
    simple: seq<Option<string>>,
    yesno: seq<Option<bool>>,
    flags: seq<bool>,
    lists: seq<seq<string>>,
    dicts: seq<Dict<string, string>>)

  /** The five tables read back in `_build_command`'s order with the qsub option
      actions, and the tokens that follow them. */
  function DecodeOptions(toks: seq<string>): Result<(OptionValues, seq<string>), QsubParse.ParseError>
  {
    var s := DecodeSimple(SimpleFlags, toks);
    var y := DecodeYesNo(YesNoFlags, s.1);
    if y.Err? then Err(y.error)
    else
      var f := DecodeFlags(FlagFlags, y.value.1);
      var l := DecodeComma(CommaFlags, f.1);
      var d := DecodeKv(KvFlags, l.1);
      Ok((OptionValues(s.0, y.value.0, f.0, l.0, d.0), d.1))
  }

  /** The values a job's tables hold. */
  function TableValues(c: JobConfig, arrayRange: Option<string>, holdJid: seq<Jid>, holdJidAd: seq<Jid>): OptionValues
  {
    OptionValues(Values(SimpleTable(c, arrayRange)), Values(YesNoTable(c)), Values(FlagTable(c)),
                 Values(CommaTable(c, holdJid, holdJidAd)), Values(KvTable(c)))
  }

  /** What follows the options: binding, parallel environment, command, arguments. */
  function TailTokens(c: JobConfig): seq<string>
  {
    BindingTokens(c.binding) + PeTokens(c.parallelEnv) + [c.command] + c.args
  }

  /** The flags that can follow each table: those of the later tables, then
      `-binding` and `-pe`. */
  const AfterKv: seq<string> := ["-binding", "-pe"]
  const AfterComma: seq<string> := KvFlags + AfterKv
  const AfterFlag: seq<string> := CommaFlags + AfterComma
  const AfterYesNo: seq<string> := FlagFlags + AfterFlag
  const AfterSimple: seq<string> := YesNoFlags + AfterYesNo

  /** Every option flag `_build_command` can write. */
  const OptionFlags: seq<string> := SimpleFlags + AfterSimple

  /** The text of `toks`, if any, starts with one of `fs`. */
  predicate HeadIn(toks: seq<string>, fs: seq<string>)
  {
    toks == [] || toks[0] in fs
  }

  predicate Disjoint(a: seq<string>, b: seq<string>)
  {
    forall i, j :: 0 <= i < |a| && 0 <= j < |b| ==> a[i] != b[j]
  }

  predicate Distinct(a: seq<string>)
  {
    forall i, j :: 0 <= i < j < |a| ==> a[i] != a[j]
  }

  lemma DistinctTable<V>(t: seq<(string, V)>)
    requires Distinct(Keys(t))
    ensures DistinctFlags(t)
  {
  }

  // `SimpleFlags` in three parts, so that each pairwise check stays small.
  const SimpleFlags1: seq<string> := ["-@", "-a", "-ar", "-A", "-c", "-ckpt", "-C"]
  const SimpleFlags2: seq<string> := ["-display", "-dl", "-js", "-jsv", "-m", "-N"]
  const SimpleFlags3: seq<string> := ["-P", "-p", "-t", "-tc", "-w", "-wd"]

  lemma SimpleFlags1Distinct() ensures Distinct(SimpleFlags1) { }
  lemma SimpleFlags23Distinct() ensures Distinct(SimpleFlags2) && Distinct(SimpleFlags3) { }
  lemma SimpleFlags12Apart() ensures Disjoint(SimpleFlags1, SimpleFlags2) { }
  lemma SimpleFlags13Apart() ensures Disjoint(SimpleFlags1, SimpleFlags3) { }
  lemma SimpleFlags23Apart() ensures Disjoint(SimpleFlags2, SimpleFlags3) { }

  lemma DistinctJoin(a: seq<string>, b: seq<string>)
    requires Distinct(a) && Distinct(b) && Disjoint(a, b)
    ensures Distinct(a + b)
  {
    forall i, j | 0 <= i < j < |a + b| ensures (a + b)[i] != (a + b)[j] {
      if j >= |a| {
        assert (a + b)[j] == b[j - |a|];
        if i >= |a| {
          assert (a + b)[i] == b[i - |a|];
        }
      }
    }
  }

  lemma DisjointJoin(a: seq<string>, b: seq<string>, c: seq<string>)
    requires Disjoint(a, c) && Disjoint(b, c)
    ensures Disjoint(a + b, c)
  {
    forall i, j | 0 <= i < |a + b| && 0 <= j < |c| ensures (a + b)[i] != c[j] {
      if i >= |a| {
        assert (a + b)[i] == b[i - |a|];
      }
    }
  }

  lemma SimpleFlagsDistinct() ensures Distinct(SimpleFlags)
  {
    SimpleFlags1Distinct();
    SimpleFlags23Distinct();
    SimpleFlags12Apart();
    SimpleFlags13Apart();
    SimpleFlags23Apart();
    DistinctJoin(SimpleFlags1, SimpleFlags2);
    DisjointJoin(SimpleFlags1, SimpleFlags2, SimpleFlags3);
    DistinctJoin(SimpleFlags1 + SimpleFlags2, SimpleFlags3);
    assert SimpleFlags == SimpleFlags1 + SimpleFlags2 + SimpleFlags3;
  }
  lemma SimpleYesNoApart() ensures Disjoint(SimpleFlags, YesNoFlags) { }
  lemma SimpleFlagApart() ensures Disjoint(SimpleFlags, FlagFlags) { }
  lemma SimpleCommaApart() ensures Disjoint(SimpleFlags, CommaFlags) { }
  lemma SimpleKvApart() ensures Disjoint(SimpleFlags, KvFlags) && Disjoint(SimpleFlags, AfterKv) { }
  lemma YesNoFlagsApart() ensures Distinct(YesNoFlags) && Disjoint(YesNoFlags, AfterYesNo) { }
  lemma FlagFlagsApart() ensures Distinct(FlagFlags) && Disjoint(FlagFlags, AfterFlag) { }
  lemma CommaFlagsApart() ensures Distinct(CommaFlags) && Disjoint(CommaFlags, AfterComma) { }
  lemma KvFlagsApart() ensures Distinct(KvFlags) && Disjoint(KvFlags, AfterKv) { }

  lemma DisjointConcat(a: seq<string>, b: seq<string>, c: seq<string>)
    requires Disjoint(a, b) && Disjoint(a, c)
    ensures Disjoint(a, b + c)
  {
    forall i, j | 0 <= i < |a| && 0 <= j < |b + c| ensures a[i] != (b + c)[j] {
      if j >= |b| {
        assert (b + c)[j] == c[j - |b|];
      }
    }
  }

  lemma SimpleFlagsApart() ensures Disjoint(SimpleFlags, AfterSimple)
  {
    SimpleYesNoApart();
    SimpleFlagApart();
    SimpleCommaApart();
    SimpleKvApart();
    DisjointConcat(SimpleFlags, KvFlags, AfterKv);
    DisjointConcat(SimpleFlags, CommaFlags, AfterComma);
    DisjointConcat(SimpleFlags, FlagFlags, AfterFlag);
    DisjointConcat(SimpleFlags, YesNoFlags, AfterYesNo);
  }

  /** One step of reading the tables back: if the next table's rendering starts
      with one of its flags and what follows starts with a later flag or the
      command, then the text after the current table does not start with one of
      the current table's flags. */
  lemma NextRest(r: seq<string>, rest: seq<string>, fs: seq<string>, later: seq<string>, own: seq<string>, cmd: string)
    requires HeadIn(r, fs) && HeadIn(rest, later + [cmd])
    requires Disjoint(own, fs + later) && cmd !in own
    ensures HeadIn(r + rest, (fs + later) + [cmd])
    ensures r + rest == [] || (r + rest)[0] !in own
  {
    if r != [] {
      assert (r + rest)[0] == r[0];
      var j :| 0 <= j < |fs| && fs[j] == r[0];
      assert (fs + later)[j] == r[0];
      assert ((fs + later) + [cmd])[j] == r[0];
    } else {
      assert r + rest == rest;
      if rest != [] && rest[0] != cmd {
        var j :| 0 <= j < |later + [cmd]| && (later + [cmd])[j] == rest[0];
        assert j < |later|;
        assert (fs + later)[|fs| + j] == rest[0];
        assert ((fs + later) + [cmd])[|fs| + j] == rest[0];
      }
    }
  }

  /** The tail starts with `-binding`, `-pe` or the command. */
  lemma TailHead(c: JobConfig)
    ensures HeadIn(TailTokens(c), AfterKv + [c.command])
  {
    var t := TailTokens(c);
    if c.binding != [] {
      assert t[0] == "-binding";
    } else if c.parallelEnv != [] {
      assert t[0] == "-pe";
    } else {
      assert t[0] == c.command;
    }
  }

  lemma TailMissesKv(c: JobConfig)
    requires c.command !in KvFlags
    ensures TailTokens(c) == [] || TailTokens(c)[0] !in KvFlags
  {
    TailHead(c);
    KvFlagsApart();
  }

  /** No two entries of a table share a flag. */
  lemma TablesDistinct(c: JobConfig, arrayRange: Option<string>, holdJid: seq<Jid>, holdJidAd: seq<Jid>)
    ensures DistinctFlags(SimpleTable(c, arrayRange)) && DistinctFlags(YesNoTable(c)) && DistinctFlags(FlagTable(c))
    ensures DistinctFlags(CommaTable(c, holdJid, holdJidAd)) && DistinctFlags(KvTable(c))
  {
    SimpleFlagsDistinct();
    YesNoFlagsApart();
    FlagFlagsApart();
    CommaFlagsApart();
    KvFlagsApart();
    DistinctTable(SimpleTable(c, arrayRange));
    DistinctTable(YesNoTable(c));
    DistinctTable(FlagTable(c));
    DistinctTable(CommaTable(c, holdJid, holdJidAd));
    DistinctTable(KvTable(c));
  }

  /** What follows each table does not start with one of that table's flags. */
  lemma RestsMiss(c: JobConfig, rs: seq<string>, ry: seq<string>, rf: seq<string>, rc: seq<string>, rk: seq<string>)
    requires c.command !in OptionFlags
    requires HeadIn(ry, YesNoFlags) && HeadIn(rf, FlagFlags) && HeadIn(rc, CommaFlags) && HeadIn(rk, KvFlags)
    ensures var tail := TailTokens(c);
            && (tail == [] || tail[0] !in KvFlags)
            && (rk + tail == [] || (rk + tail)[0] !in CommaFlags)
            && (rc + (rk + tail) == [] || (rc + (rk + tail))[0] !in FlagFlags)
            && (rf + (rc + (rk + tail)) == [] || (rf + (rc + (rk + tail)))[0] !in YesNoFlags)
            && (ry + (rf + (rc + (rk + tail))) == [] || (ry + (rf + (rc + (rk + tail))))[0] !in SimpleFlags)
  {
    var tail := TailTokens(c);
    var cmd := c.command;
    assert cmd !in SimpleFlags && cmd !in YesNoFlags && cmd !in FlagFlags && cmd !in CommaFlags && cmd !in KvFlags;
    SimpleFlagsApart();
    YesNoFlagsApart();
    FlagFlagsApart();
    CommaFlagsApart();
    TailHead(c);
    TailMissesKv(c);
    NextRest(rk, tail, KvFlags, AfterKv, CommaFlags, cmd);
    NextRest(rc, rk + tail, CommaFlags, AfterComma, FlagFlags, cmd);
    NextRest(rf, rc + (rk + tail), FlagFlags, AfterFlag, YesNoFlags, cmd);
    NextRest(ry, rf + (rc + (rk + tail)), YesNoFlags, AfterYesNo, SimpleFlags, cmd);
  }

  /** After `qsub` come the five rendered tables, then the tail. */
  lemma DropHead<T>(x: T, rs: seq<T>, ry: seq<T>, rf: seq<T>, rc: seq<T>, rk: seq<T>, tail: seq<T>)
    ensures ([x] + (rs + ry + rf + rc + rk) + tail)[1..] == rs + (ry + (rf + (rc + (rk + tail))))
  {
  }

  lemma CommandLineSplit(c: JobConfig, arrayRange: Option<string>, holdJid: seq<Jid>, holdJidAd: seq<Jid>)
    ensures CommandLine(c, arrayRange, holdJid, holdJidAd)[1..]
            == RenderAll(SimpleTable(c, arrayRange), SimpleTokens) + (RenderAll(YesNoTable(c), YesNoTokens)
               + (RenderAll(FlagTable(c), FlagTokens) + (RenderAll(CommaTable(c, holdJid, holdJidAd), CommaTokens)
               + (RenderAll(KvTable(c), KvTokens) + TailTokens(c)))))
  {
    var rs, ry, rf := RenderAll(SimpleTable(c, arrayRange), SimpleTokens), RenderAll(YesNoTable(c), YesNoTokens),
                      RenderAll(FlagTable(c), FlagTokens);
    var rc, rk := RenderAll(CommaTable(c, holdJid, holdJidAd), CommaTokens), RenderAll(KvTable(c), KvTokens);
    var b, p, tl := BindingTokens(c.binding), PeTokens(c.parallelEnv), [c.command] + c.args;
    assert OptionTokens(c, arrayRange, holdJid, holdJidAd) == rs + ry + rf + rc + rk;
    assert TailTokens(c) == b + p + tl;
    assert CommandLine(c, arrayRange, holdJid, holdJidAd) == ["qsub"] + (rs + ry + rf + rc + rk) + (b + p + tl);
    DropHead("qsub", rs, ry, rf, rc, rk, b + p + tl);
  }

  /** Five rendered tables in a row decode table by table, as long as what
      follows each one does not start with one of its flags. */
  lemma {:induction false} DecodeChain(st: seq<(string, Option<string>)>, yt: seq<(string, Option<bool>)>, ft: seq<(string, bool)>,
                    ct: seq<(string, seq<string>)>, kt: seq<(string, Dict<string, string>)>, tail: seq<string>)
    requires Keys(st) == SimpleFlags && Keys(yt) == YesNoFlags && Keys(ft) == FlagFlags
    requires Keys(ct) == CommaFlags && Keys(kt) == KvFlags
    requires DistinctFlags(st) && DistinctFlags(yt) && DistinctFlags(ft) && DistinctFlags(ct) && DistinctFlags(kt)
    requires AllCommaFree(ct) && AllPlain(kt)
    requires var rk := RenderAll(kt, KvTokens) + tail;
             var rc := RenderAll(ct, CommaTokens) + rk;
             var rf := RenderAll(ft, FlagTokens) + rc;
             var ry := RenderAll(yt, YesNoTokens) + rf;
             && (tail == [] || tail[0] !in KvFlags)
             && (rk == [] || rk[0] !in CommaFlags)
             && (rc == [] || rc[0] !in FlagFlags)
             && (rf == [] || rf[0] !in YesNoFlags)
             && (ry == [] || ry[0] !in SimpleFlags)
    ensures DecodeOptions(RenderAll(st, SimpleTokens) + (RenderAll(yt, YesNoTokens) + (RenderAll(ft, FlagTokens)
              + (RenderAll(ct, CommaTokens) + (RenderAll(kt, KvTokens) + tail)))))
            == Ok((OptionValues(Values(st), Values(yt), Values(ft), Values(ct), Values(kt)), tail))
  {
    var rk := RenderAll(kt, KvTokens) + tail;
    var rc := RenderAll(ct, CommaTokens) + rk;
    var rf := RenderAll(ft, FlagTokens) + rc;
    var ry := RenderAll(yt, YesNoTokens) + rf;
    KvRoundTrip(kt, tail);
    CommaRoundTrip(ct, rk);
    FlagRoundTrip(ft, rc);
    YesNoRoundTrip(yt, rf);
    SimpleRoundTrip(st, ry);
  }

  /** `_build_command` and the qsub option parser are inverse on the options:
      reading the command line after `qsub` gives back the value of every
      simple, yes/no, flag, comma-list and key/value option, and leaves exactly
      the binding, parallel environment, command and arguments. This needs the
      command not to look like an option, no comma in list items, and keys and
      values free of ',' and '='. */
  lemma {:induction false} CommandLineDecodes(c: JobConfig, arrayRange: Option<string>, holdJid: seq<Jid>, holdJidAd: seq<Jid>)
    requires c.command !in OptionFlags
    requires AllCommaFree(CommaTable(c, holdJid, holdJidAd))
    requires AllPlain(KvTable(c))
    ensures DecodeOptions(CommandLine(c, arrayRange, holdJid, holdJidAd)[1..])
            == Ok((TableValues(c, arrayRange, holdJid, holdJidAd), TailTokens(c)))
  {
    var st, yt, ft, ct, kt := SimpleTable(c, arrayRange), YesNoTable(c), FlagTable(c), CommaTable(c, holdJid, holdJidAd), KvTable(c);
    var rs, ry, rf, rc, rk := RenderAll(st, SimpleTokens), RenderAll(yt, YesNoTokens), RenderAll(ft, FlagTokens),
                              RenderAll(ct, CommaTokens), RenderAll(kt, KvTokens);
    var tail := TailTokens(c);
    CommandLineSplit(c, arrayRange, holdJid, holdJidAd);
    YesNoHead(yt);
    FlagHead(ft);
    CommaHead(ct);
    KvHead(kt);
    RestsMiss(c, rs, ry, rf, rc, rk);
    TablesDistinct(c, arrayRange, holdJid, holdJidAd);
    DecodeChain(st, yt, ft, ct, kt, tail);
  }
}
