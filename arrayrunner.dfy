/** The array-task side of the runner: which task of an array job this is,
    which contiguous slice of the combination sweep that task owns, and how
    the sweep is rebuilt from the per-slot argument lists. */
module ArrayRunner {
  import opened Text

  datatype RunnerError = KeyError(key: string) | ZeroDivisionError

  const TaskIdVar: string := "SGE_TASK_ID"
  const TaskLastVar: string := "SGE_TASK_LAST"

  // ---------------------------------------------------------------- get_job_number

  /** `get_job_number`: the 0-based task number and task count. Without a
      task id the process is the single task of one; a task id without a task
      count raises KeyError (the read is outside the try); a value that is not a
      number falls back to the single task of one. */
  function GetJobNumber(env: map<string, string>): (r: Result<(int, int), RunnerError>)
    ensures TaskIdVar !in env ==> r == Ok((0, 1))
    ensures TaskIdVar in env && TaskLastVar !in env ==> r == Err(KeyError(TaskLastVar))
    ensures TaskIdVar in env && TaskLastVar in env ==>
              r.Ok? &&
              (if ParseInt(env[TaskIdVar]).Some? && ParseInt(env[TaskLastVar]).Some?
               then r.value == (ParseInt(env[TaskIdVar]).value - 1, ParseInt(env[TaskLastVar]).value)
               else r.value == (0, 1))
  {
    if TaskIdVar !in env then Ok((0, 1))
    else if TaskLastVar !in env then Err(KeyError(TaskLastVar))
    else
      match (ParseInt(env[TaskIdVar]), ParseInt(env[TaskLastVar]))
      case (Some(id), Some(last)) => Ok((id - 1, last))
      case _ => Ok((0, 1))
  }

  /** The scheduler writes task `t + 1` of `n` as decimal text; reading it back
      gives task number `t` of `n`. */
  lemma GetJobNumberOfTask(env: map<string, string>, t: int, n: int)
    requires TaskIdVar in env && env[TaskIdVar] == IntToString(t + 1)
    requires TaskLastVar in env && env[TaskLastVar] == IntToString(n)
    ensures GetJobNumber(env) == Ok((t, n))
  {
    ParseIntToString(t + 1);
    ParseIntToString(n);
  }

  // ---------------------------------------------------------------- slice_by_jobnumber

  /** `int(x)` of a quotient: division truncated toward zero. */
  function TruncDiv(a: int, b: int): (q: int)
    requires b != 0
    ensures a >= 0 && b > 0 ==> q == a / b
  {
    var m := (if a < 0 then -a else a) / (if b < 0 then -b else b);
    if (a >= 0) == (b > 0) then m else -m
  }

  /** `int(float(len) / jobs * k)`, in exact arithmetic. */
  function Bound(len: nat, k: int, jobs: int): int
    requires jobs != 0
  {
    TruncDiv(len * k, jobs)
  }

  /** How a Python slice bound is normalised against a length `n`. */
  function PyIndex(i: int, n: nat): (r: nat)
    ensures r <= n
    ensures 0 <= i <= n ==> r == i
  {
    if i < 0 then (if i + n < 0 then 0 else i + n) else if i > n then n else i
  }

  /** `s[a:b]`. */
  function PySlice<T>(s: seq<T>, a: int, b: int): seq<T>
  {
    var lo := PyIndex(a, |s|);
    var hi := PyIndex(b, |s|);
    if lo <= hi then s[lo..hi] else []
  }

  /** `slice_by_jobnumber` for task `num` of `jobs`: the final task takes the
      rest of the sequence, every other task the range between its bound and the
      next one. A task count of zero divides by zero. */
  function SliceByJobNumber<T>(s: seq<T>, num: int, jobs: int): (r: Result<seq<T>, RunnerError>)
    ensures r.Err? <==> jobs == 0
  {
    if jobs == 0 then Err(ZeroDivisionError)
    else if num != jobs - 1 then Ok(PySlice(s, Bound(|s|, num, jobs), Bound(|s|, num + 1, jobs)))
    else Ok(s[PyIndex(Bound(|s|, num, jobs), |s|)..])
  }

  /** `slice_by_jobnumber(sequence)` as the runner calls it: its task number
      comes from the environment. */
  function SliceForTask<T>(env: map<string, string>, s: seq<T>): (r: Result<seq<T>, RunnerError>)
    ensures TaskIdVar !in env ==> r == Ok(s)
  {
    match GetJobNumber(env)
    case Err(e) => Err(e)
    case Ok((num, jobs)) => SliceByJobNumber(s, num, jobs)
  }

  // ---------------------------------------------------------------- partition

  /** Where the slice of task `k` starts: floor(len * k / jobs). */
  function Start(len: nat, k: nat, jobs: nat): nat
    requires jobs >= 1
  {
    len * k / jobs
  }

  /** Where the slice of task `k` ends: the next start, or the end for the final task. */
  function End(len: nat, k: nat, jobs: nat): nat
    requires jobs >= 1
  {
    if k == jobs - 1 then len else Start(len, k + 1, jobs)
  }

  lemma MulPos(m: int, d: int)
    requires m > 0 && d >= 1
    ensures m * d >= m
  {
    assert m * d == m + m * (d - 1);
  }

  lemma DivMono(a: int, b: int, c: int)
    requires 0 <= a <= b && c > 0
    ensures a / c <= b / c
  {
    var qa, ra := a / c, a % c;
    var qb, rb := b / c, b % c;
    assert a == c * qa + ra && b == c * qb + rb;
    if qa > qb {
      assert c * (qa - qb) == c * qa - c * qb;
      MulPos(c, qa - qb);
    }
  }

  /** Floor division of a sum loses at most one against the sum of the floors. */
  lemma {:induction false} DivSum(x: int, y: int, m: int)
    requires x >= 0 && y >= 0 && m > 0
    ensures x / m + y / m <= (x + y) / m <= x / m + y / m + 1
  {
    var qx, rx := x / m, x % m;
    var qy, ry := y / m, y % m;
    assert x == m * qx + rx && 0 <= rx < m;
    assert y == m * qy + ry && 0 <= ry < m;
    assert x + y == m * (qx + qy) + (rx + ry);
    if rx + ry < m {
      DivUnique(x + y, m, qx + qy, rx + ry);
    } else {
      assert x + y == m * (qx + qy + 1) + (rx + ry - m);
      DivUnique(x + y, m, qx + qy + 1, rx + ry - m);
    }
  }

  lemma DivUnique(n: int, m: int, q: int, r: int)
    requires m > 0 && 0 <= r < m && n == m * q + r
    ensures n / m == q
  {
    var q', r' := n / m, n % m;
    assert n == m * q' + r' && 0 <= r' < m;
    if q' < q {
      assert m * (q - q') == m * q - m * q';
      MulPos(m, q - q');
    } else if q' > q {
      assert m * (q' - q) == m * q' - m * q;
      MulPos(m, q' - q);
    }
  }

  /** Task bounds are ordered and stay inside the sequence. */
  lemma {:induction false} StartBounds(len: nat, k: nat, jobs: nat)
    requires jobs >= 1 && k <= jobs
    ensures Start(len, k, jobs) <= len
    ensures k == 0 ==> Start(len, k, jobs) == 0
    ensures k == jobs ==> Start(len, k, jobs) == len
    ensures k < jobs ==> Start(len, k, jobs) <= Start(len, k + 1, jobs)
  {
    MulLe(len, k, jobs);
    DivMono(len * k, len * jobs, jobs);
    MulDivCancel(len, jobs);
    if k < jobs {
      MulLe(len, k, k + 1);
      DivMono(len * k, len * (k + 1), jobs);
    }
  }

  lemma MulLe(a: nat, b: nat, c: nat)
    requires b <= c
    ensures a * b <= a * c
  {
    assert a * c == a * b + a * (c - b);
  }

  lemma MulDivCancel(a: nat, m: nat)
    requires m >= 1
    ensures a * m / m == a
  {
    DivUnique(a * m, m, a, 0);
  }

  /** For non-negative task numbers the truncated bound is the floor. */
  lemma BoundIsStart(len: nat, k: nat, jobs: nat)
    requires jobs >= 1
    ensures Bound(len, k, jobs) == Start(len, k, jobs)
  {
    var p := len * k;
    assert p >= 0;
    assert TruncDiv(p, jobs) == p / jobs;
  }

  /** For a task number in range, `slice_by_jobnumber` is the range from the
      task's start to its end. */
  lemma TaskSliceRange<T>(s: seq<T>, num: nat, jobs: nat)
    requires 0 <= num < jobs
    ensures Start(|s|, num, jobs) <= End(|s|, num, jobs) <= |s|
    ensures SliceByJobNumber(s, num, jobs) == Ok(s[Start(|s|, num, jobs)..End(|s|, num, jobs)])
  {
    StartBounds(|s|, num, jobs);
    StartBounds(|s|, num + 1, jobs);
    BoundIsStart(|s|, num, jobs);
    BoundIsStart(|s|, num + 1, jobs);
    var a := Start(|s|, num, jobs);
    var b := Start(|s|, num + 1, jobs);
    assert PyIndex(a, |s|) == a;
    assert PyIndex(b, |s|) == b;
    if num == jobs - 1 {
      assert SliceByJobNumber(s, num, jobs) == Ok(s[a..]);
      assert s[a..] == s[a..|s|];
    } else {
      assert PySlice(s, a, b) == s[a..b];
      assert SliceByJobNumber(s, num, jobs) == Ok(s[a..b]);
    }
  }

  /** The slices of tasks 0 .. k-1, concatenated in task order. */
  function SlicesUpTo<T>(s: seq<T>, k: nat, jobs: nat): seq<T>
    requires k <= jobs
  {
    if k == 0 then []
    else
      match SliceByJobNumber(s, k - 1, jobs)
      case Ok(piece) => SlicesUpTo(s, k - 1, jobs) + piece
      case Err(_) => []
  }

  lemma SlicesUpToStep<T>(s: seq<T>, k: nat, jobs: nat, piece: seq<T>)
    requires 1 <= k <= jobs && SliceByJobNumber(s, k - 1, jobs) == Ok(piece)
    ensures SlicesUpTo(s, k, jobs) == SlicesUpTo(s, k - 1, jobs) + piece
  {
  }

  lemma PrefixConcat<T>(s: seq<T>, a: nat, b: nat)
    requires a <= b <= |s|
    ensures s[..a] + s[a..b] == s[..b]
  {
  }

  /** The first k slices are contiguous and ordered: together they are exactly
      the prefix up to the start of task k. */
  lemma {:induction false} SlicesPrefix<T>(s: seq<T>, k: nat, jobs: nat)
    requires 1 <= jobs && k <= jobs
    ensures k < jobs ==> Start(|s|, k, jobs) <= |s| && SlicesUpTo(s, k, jobs) == s[..Start(|s|, k, jobs)]
    ensures k == jobs ==> SlicesUpTo(s, k, jobs) == s
  {
    StartBounds(|s|, k, jobs);
    if k == 0 {
      assert s[..0] == [];
    } else {
      SlicesPrefix(s, k - 1, jobs);
      TaskSliceRange(s, k - 1, jobs);
      var a := Start(|s|, k - 1, jobs);
      var b := End(|s|, k - 1, jobs);
      SlicesUpToStep(s, k, jobs, s[a..b]);
      PrefixConcat(s, a, b);
      if k == jobs {
        assert b == |s|;
        assert s[..|s|] == s;
      } else {
        assert b == Start(|s|, k, jobs);
      }
    }
  }

  /** Tasks 0 .. jobs-1 partition the sequence: their slices concatenate
      to the whole sequence. */
  lemma SlicesCover<T>(s: seq<T>, jobs: nat)
    requires jobs >= 1
    ensures SlicesUpTo(s, jobs, jobs) == s
  {
    SlicesPrefix(s, jobs, jobs);
  }

  /** Each task's slice has floor(len / jobs) or one more element. */
  lemma SliceSize<T>(s: seq<T>, num: nat, jobs: nat)
    requires 0 <= num < jobs
    ensures var size := End(|s|, num, jobs) - Start(|s|, num, jobs);
            |s| / jobs <= size <= |s| / jobs + 1
  {
    var len := |s|;
    if num < jobs - 1 {
      assert len * (num + 1) == len * num + len;
      DivSum(len * num, len, jobs);
    } else {
      assert len * jobs == len * num + len;
      DivSum(len * num, len, jobs);
      DivUnique(len * jobs, jobs, len, 0);
    }
  }

  /** With a single task, that task gets the whole sequence. */
  lemma SingleTaskWhole<T>(s: seq<T>)
    ensures SliceByJobNumber(s, 0, 1) == Ok(s)
  {
  }

  /** Seven elements over three tasks give slices of two, two and three. */
  lemma SevenOverThree()
    ensures SliceByJobNumber("abcdefg", 0, 3) == Ok("ab")
    ensures SliceByJobNumber("abcdefg", 1, 3) == Ok("cd")
    ensures SliceByJobNumber("abcdefg", 2, 3) == Ok("efg")
  {
    var s := "abcdefg";
    TaskSliceRange(s, 0, 3);
    TaskSliceRange(s, 1, 3);
    TaskSliceRange(s, 2, 3);
    assert Start(7, 1, 3) == 2 && Start(7, 2, 3) == 4;
    assert s[0..2] == "ab" && s[2..4] == "cd" && s[4..7] == "efg";
  }

  /** With as many tasks as combinations, task t gets exactly combination t. */
  lemma OneCombinationPerTask<T>(s: seq<T>, t: nat)
    requires t < |s|
    ensures SliceByJobNumber(s, t, |s|) == Ok([s[t]])
  {
    TaskSliceRange(s, t, |s|);
    DivUnique(|s| * t, |s|, t, 0);
    DivUnique(|s| * (t + 1), |s|, t + 1, 0);
    assert Start(|s|, t, |s|) == t;
    assert End(|s|, t, |s|) == t + 1;
    assert s[t..t + 1] == [s[t]];
  }

  // ---------------------------------------------------------------- combinations

  /** The length of the shortest list. */
  function MinLength<T>(lists: seq<seq<T>>): (m: nat)
    requires |lists| >= 1
    ensures forall j :: 0 <= j < |lists| ==> m <= |lists[j]|
    ensures exists j :: 0 <= j < |lists| && m == |lists[j]|
  {
    if |lists| == 1 then |lists[0]|
    else
      var rest := MinLength(lists[1..]);
      assert forall j :: 1 <= j < |lists| ==> lists[1..][j - 1] == lists[j];
      if |lists[0]| <= rest then |lists[0]| else rest
  }

  /** `zip(*slots)`: the i-th combination holds the i-th value of every slot,
      up to the shortest slot. */
  function Zip<T>(slots: seq<seq<T>>): (combos: seq<seq<T>>)
    requires |slots| >= 1
    ensures |combos| == MinLength(slots)
    ensures forall i :: 0 <= i < |combos| ==> |combos[i]| == |slots|
    ensures forall i, j :: 0 <= i < |combos| && 0 <= j < |slots| ==> combos[i][j] == slots[j][i]
  {
    var m := MinLength(slots);
    seq(m, i requires 0 <= i < m => seq(|slots|, j requires 0 <= j < |slots| => slots[j][i]))
  }

  /** The combination step of the runner's main: no slots give no combinations,
      otherwise the slots are zipped. */
  function Combinations<T>(slots: seq<seq<T>>): (combos: seq<seq<T>>)
    ensures |slots| == 0 ==> combos == []
    ensures |slots| >= 1 ==> |combos| == MinLength(slots)
  {
    if |slots| == 0 then [] else Zip(slots)
  }
}
