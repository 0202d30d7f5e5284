/** `GEArrayJob.__init__`: a job that runs one command per combination of
    argument values, through the array runner script. */
module ArrayJob {
  import opened Text
  import opened PyDict
  import opened Jobs
  import ArrayRunner

  // ---------------------------------------------------------------- combinations

  /** The number of combinations `itertools.product` yields: the product of the
      lengths of the lists. */
  function Count<T>(slots: seq<seq<T>>): nat
  {
    if slots == [] then 1 else |slots[0]| * Count(slots[1..])
  }

  /** Every value of `xs`, in order, in front of every combination of `rest`. */
  function Extend<T>(xs: seq<T>, rest: seq<seq<T>>): (combos: seq<seq<T>>)
    ensures |combos| == |xs| * |rest|
    ensures forall i :: 0 <= i < |combos| ==> |combos[i]| >= 1 && combos[i][0] in xs && combos[i][1..] in rest
  {
    if xs == [] then []
    else
      var front := seq(|rest|, i requires 0 <= i < |rest| => [xs[0]] + rest[i]);
      assert forall i :: 0 <= i < |rest| ==> front[i][1..] == rest[i];
      var r := front + Extend(xs[1..], rest);
      assert |r| == |rest| + (|xs| - 1) * |rest| == |xs| * |rest|;
      r
  }

  /** `itertools.product(*slots)`: one value from every list, the first list
      varying slowest. */
  function Product<T>(slots: seq<seq<T>>): (combos: seq<seq<T>>)
    ensures |combos| == Count(slots)
    ensures forall i :: 0 <= i < |combos| ==> |combos[i]| == |slots|
  {
    if slots == [] then [[]] else Extend(slots[0], Product(slots[1..]))
  }

  lemma ExtendMembers<T>(xs: seq<T>, rest: seq<seq<T>>, c: seq<T>)
    ensures c in Extend(xs, rest) <==> |c| >= 1 && c[0] in xs && c[1..] in rest
  {
    if |c| >= 1 && c[0] in xs && c[1..] in rest {
      ExtendHas(xs, rest, c);
    }
  }

  lemma {:induction false} ExtendHas<T>(xs: seq<T>, rest: seq<seq<T>>, c: seq<T>)
    requires |c| >= 1 && c[0] in xs && c[1..] in rest
    ensures c in Extend(xs, rest)
  {
    var front := seq(|rest|, i requires 0 <= i < |rest| => [xs[0]] + rest[i]);
    assert Extend(xs, rest) == front + Extend(xs[1..], rest);
    if c[0] == xs[0] {
      var i :| 0 <= i < |rest| && rest[i] == c[1..];
      assert front[i] == c;
    } else {
      ExtendHas(xs[1..], rest, c);
    }
  }

  /** The product holds exactly the sequences that pick, for every list, one of
      its values. */
  lemma {:induction false} ProductMembers<T>(slots: seq<seq<T>>, c: seq<T>)
    ensures c in Product(slots) <==> |c| == |slots| && forall k :: 0 <= k < |slots| ==> c[k] in slots[k]
  {
    if slots != [] {
      ExtendMembers(slots[0], Product(slots[1..]), c);
      if |c| >= 1 {
        ProductMembers(slots[1..], c[1..]);
        if |c| == |slots| {
          if forall k :: 0 <= k < |slots| ==> c[k] in slots[k] {
            forall k | 0 <= k < |slots| - 1 ensures c[1..][k] in slots[1..][k] {
              assert c[k + 1] in slots[k + 1];
            }
          }
          if c[0] in slots[0] && c[1..] in Product(slots[1..]) {
            forall k | 0 <= k < |slots| ensures c[k] in slots[k] {
              if k > 0 {
                assert c[1..][k - 1] in slots[1..][k - 1];
              }
            }
          }
        }
      }
    }
  }

  /** The combinations before they are regrouped: the product of the lists, or
      the lists zipped together. */
  function Combos<T>(slots: seq<seq<T>>, combine: bool): (combos: seq<seq<T>>)
    ensures forall i :: 0 <= i < |combos| ==> |combos[i]| == |slots|
  {
    if combine then Product(slots) else ArrayRunner.Combinations(slots)
  }

  /** `zip(*combos)` for combinations of `width` values each: the k-th column
      holds the k-th value of every combination. */
  function Transpose<T>(combos: seq<seq<T>>, width: nat): (cols: seq<seq<T>>)
    requires forall i :: 0 <= i < |combos| ==> |combos[i]| == width
  {
    if combos == [] then []
    else seq(width, k requires 0 <= k < width => seq(|combos|, i requires 0 <= i < |combos| => combos[i][k]))
  }

  /** The argument lists as `GEArrayJob` keeps them: `zip(*product(*args))`
      with `make_combination`, `zip(*zip(*args))` without. */
  function Columns<T>(slots: seq<seq<T>>, combine: bool): (cols: seq<seq<T>>)
    ensures cols == [] <==> slots == [] || Combos(slots, combine) == []
    ensures cols != [] ==> |cols| == |slots|
    ensures forall k :: 0 <= k < |cols| ==> |cols[k]| == |Combos(slots, combine)|
    ensures forall k :: 0 <= k < |cols| ==> cols[k] != []
  {
    Transpose(Combos(slots, combine), |slots|)
  }

  /** Without `make_combination` every list is cut to the length of the
      shortest, and when one of them is empty no list is left at all. */
  lemma ZipColumns<T>(slots: seq<seq<T>>)
    ensures slots != [] && ArrayRunner.MinLength(slots) > 0 ==>
      Columns(slots, false) == seq(|slots|, k requires 0 <= k < |slots| => slots[k][..ArrayRunner.MinLength(slots)])
    ensures slots == [] || ArrayRunner.MinLength(slots) == 0 ==> Columns(slots, false) == []
  {
    if slots != [] && ArrayRunner.MinLength(slots) > 0 {
      var m := ArrayRunner.MinLength(slots);
      var zs := ArrayRunner.Zip(slots);
      var cols := Columns(slots, false);
      assert cols == Transpose(zs, |slots|);
      forall k | 0 <= k < |slots| ensures cols[k] == slots[k][..m] {
        forall i | 0 <= i < m ensures cols[k][i] == slots[k][i] {
          assert cols[k][i] == zs[i][k];
        }
      }
    }
  }

  /** With `make_combination` there is one column per list, as long as the
      number of combinations, unless some list is empty. */
  lemma ProductColumns<T>(slots: seq<seq<T>>)
    requires slots != []
    ensures Count(slots) > 0 ==> (|Columns(slots, true)| == |slots|
                                  && forall k :: 0 <= k < |slots| ==> |Columns(slots, true)[k]| == Count(slots))
    ensures Count(slots) == 0 ==> Columns(slots, true) == []
  {
  }

  /** The runner zips the columns it receives back into the combinations, so
      every combination becomes one array task; with no lists at all it gets
      no columns and so no combination. */
  lemma RunnerSeesCombinations<T>(slots: seq<seq<T>>, combine: bool)
    ensures ArrayRunner.Combinations(Columns(slots, combine)) == (if slots == [] then [] else Combos(slots, combine))
  {
    var combos := Combos(slots, combine);
    var cols := Columns(slots, combine);
    if slots != [] && combos != [] {
      var back := ArrayRunner.Combinations(cols);
      assert |back| == |combos| by {
        var m := ArrayRunner.MinLength(cols);
        var j :| 0 <= j < |cols| && m == |cols[j]|;
      }
      forall i | 0 <= i < |combos| ensures back[i] == combos[i] {
        assert |back[i]| == |slots|;
        forall k | 0 <= k < |slots| ensures back[i][k] == combos[i][k] {
          assert back[i][k] == cols[k][i];
        }
      }
    }
  }

  // ---------------------------------------------------------------- quoting

  /** `s.replace(c, repl)` for a one-character pattern. */
  function ReplaceChar(s: string, c: char, repl: string): (r: string)
    ensures c !in s ==> r == s
  {
    if s == [] then [] else (if s[0] == c then repl else [s[0]]) + ReplaceChar(s[1..], c, repl)
  }

  lemma {:induction false} ReplaceAppend(a: string, b: string, c: char, repl: string)
    ensures ReplaceChar(a + b, c, repl) == ReplaceChar(a, c, repl) + ReplaceChar(b, c, repl)
  {
    if a != [] {
      assert (a + b)[1..] == a[1..] + b;
      ReplaceAppend(a[1..], b, c, repl);
    } else {
      assert a + b == b;
    }
  }

  /** Replacing a character by itself changes nothing. */
  lemma {:induction false} ReplaceSame(s: string, c: char)
    ensures ReplaceChar(s, c, [c]) == s
  {
    if s != [] {
      ReplaceSame(s[1..], c);
      assert s == [s[0]] + s[1..];
    }
  }

  /** A value between double quotes as the source writes it,
      `'"{}"'.format(x.replace('"', '\"'))`. In a Python literal `'\"'` is the
      one-character text `"`, so the replacement puts back what it takes out. */
  function QuoteAsWritten(x: string): string
  {
    "\"" + ReplaceChar(x, '"', "\"") + "\""
  }

  /** The characters a backslash escapes between double quotes in a POSIX
      shell (section 2.2.3 of the POSIX Shell Command Language, "Double-Quotes"):
      the dollar sign, the backquote, the double quote and the backslash. The
      first two would otherwise start an expansion. */
  predicate Escapable(c: char)
  {
    c == '$' || c == '`' || c == '"' || c == '\\'
  }

  /** A value with every backslash, double quote, dollar sign and backquote
      escaped: `x.replace('\\', '\\\\').replace('"', '\\"').replace('$', '\\$')
      .replace('`', '\\`')`. */
  function Escaped(x: string): string
  {
    ReplaceChar(ReplaceChar(ReplaceChar(ReplaceChar(x, '\\', "\\\\"), '"', "\\\""), '$', "\\$"), '`', "\\`")
  }

  /** The quoting the replacement evidently means: the value between double
      quotes, escaped so that the shell that starts the job reads it back
      unchanged. Only the finding about `GEArrayJob.__init__` uses it; the job
      itself is built with `QuoteAsWritten`. */
  function Quote(x: string): string
  {
    "\"" + Escaped(x) + "\""
  }

  /** Every value quoted as `GEArrayJob.__init__` quotes it. */
  function QuoteAll(xs: seq<string>): (r: seq<string>)
    ensures |r| == |xs|
    ensures forall i :: 0 <= i < |xs| ==> r[i] == QuoteAsWritten(xs[i])
  {
    seq(|xs|, i requires 0 <= i < |xs| => QuoteAsWritten(xs[i]))
  }

  /** The text of a word that is one double-quoted string, as a POSIX shell
      reads it (section 2.2.3 of the POSIX Shell Command Language): inside the
      quotes a backslash before `$`, a backquote, `"` or `\\` is removed and the
      character after it is taken as it is, a backslash before a newline is
      removed with the newline, and any other backslash is kept. An unescaped
      `$` or backquote starts an expansion whose text depends on the
      environment: the reader does not follow it and gives None, so `Some(v)`
      means the word stands for `v` in every environment. None also when the
      quotes are not closed, or text follows the closing quote. */
  function ReadQuoted(w: string): Option<string>
  {
    if |w| >= 1 && w[0] == '"' then ReadBody(w[1..]) else None
  }

  function ReadBody(s: string): Option<string>
  {
    if s == [] then None
    else if s[0] == '"' then (if |s| == 1 then Some("") else None)
    else if s[0] == '$' || s[0] == '`' then None
    else if s[0] == '\\' && |s| >= 2 && s[1] == '\n' then ReadBody(s[2..])
    else if s[0] == '\\' && |s| >= 2 && Escapable(s[1]) then
      var rest := ReadBody(s[2..]);
      if rest.None? then None else Some([s[1]] + rest.value)
    else
      var rest := ReadBody(s[1..]);
      if rest.None? then None else Some([s[0]] + rest.value)
  }

  /** The escaped form of one character. */
  function EscapeChar(c: char): string
  {
    if Escapable(c) then ['\\', c] else [c]
  }

  /** Escaping a one-character text gives its escaped form. */
  lemma EscapeOne(c: char)
    ensures Escaped([c]) == EscapeChar(c)
  {
    var t := [c];
    assert ReplaceChar(t, '\\', "\\\\") == (if c == '\\' then "\\\\" else t);
    if c == '\\' {
      assert '"' !in "\\\\" && '$' !in "\\\\" && '`' !in "\\\\";
    } else {
      assert ReplaceChar(t, '"', "\\\"") == (if c == '"' then "\\\"" else t);
      if c == '"' {
        assert '$' !in "\\\"" && '`' !in "\\\"";
      } else {
        assert ReplaceChar(t, '$', "\\$") == (if c == '$' then "\\$" else t);
        if c == '$' {
          assert '`' !in "\\$";
        } else {
          assert ReplaceChar(t, '`', "\\`") == (if c == '`' then "\\`" else t);
        }
      }
    }
  }

  /** Escaping a concatenation escapes each part. */
  lemma EscapedAppend(a: string, b: string)
    ensures Escaped(a + b) == Escaped(a) + Escaped(b)
  {
    var a1, b1 := ReplaceChar(a, '\\', "\\\\"), ReplaceChar(b, '\\', "\\\\");
    ReplaceAppend(a, b, '\\', "\\\\");
    var a2, b2 := ReplaceChar(a1, '"', "\\\""), ReplaceChar(b1, '"', "\\\"");
    ReplaceAppend(a1, b1, '"', "\\\"");
    var a3, b3 := ReplaceChar(a2, '$', "\\$"), ReplaceChar(b2, '$', "\\$");
    ReplaceAppend(a2, b2, '$', "\\$");
    ReplaceAppend(a3, b3, '`', "\\`");
  }

  /** Escaping works character by character. */
  lemma EscapeFirst(x: string)
    requires x != []
    ensures Escaped(x) == EscapeChar(x[0]) + Escaped(x[1..])
  {
    assert x == [x[0]] + x[1..];
    EscapedAppend([x[0]], x[1..]);
    EscapeOne(x[0]);
  }

  /** The escaped body followed by the closing quote reads back as the value. */
  lemma {:induction false} ReadEscaped(x: string)
    ensures ReadBody(Escaped(x) + "\"") == Some(x)
  {
    if x == [] {
      assert Escaped(x) + "\"" == "\"";
    } else {
      EscapeFirst(x);
      ReadEscaped(x[1..]);
      ReadBodyStep(x[0], Escaped(x[1..]) + "\"", x[1..]);
      Assoc(EscapeChar(x[0]), Escaped(x[1..]), "\"");
      assert x == [x[0]] + x[1..];
    }
  }

  /** One escaped character in front of a body that reads back adds that
      character in front of what is read. */
  lemma ReadBodyStep(c: char, tail: string, v: string)
    requires ReadBody(tail) == Some(v)
    ensures ReadBody(EscapeChar(c) + tail) == Some([c] + v)
  {
    var s := EscapeChar(c) + tail;
    if Escapable(c) {
      assert s[2..] == tail;
    } else {
      assert s[1..] == tail;
    }
  }

  /** Every value survives the quoting: the shell reads the word back as the
      value, whatever characters it holds. */
  lemma QuoteRoundTrip(x: string)
    ensures ReadQuoted(Quote(x)) == Some(x)
  {
    ReadEscaped(x);
    assert Quote(x)[1..] == Escaped(x) + "\"";
  }

  /** The replacement as written leaves the value unchanged. */
  lemma QuoteAsWrittenPlain(x: string)
    ensures QuoteAsWritten(x) == "\"" + x + "\""
  {
    ReplaceSame(x, '"');
  }

  /** A value holding a double quote does not read back from the word the
      source writes: `a"b` becomes `"a"b"`, whose quotes are not balanced. */
  lemma QuoteAsWrittenBreaks()
    ensures ReadQuoted(QuoteAsWritten("a\"b")) != Some("a\"b")
  {
    QuoteAsWrittenPlain("a\"b");
    var w := QuoteAsWritten("a\"b");
    assert w == ['"', 'a', '"', 'b', '"'];
    assert w[1..] == ['a', '"', 'b', '"'];
    assert ReadBody(['"', 'b', '"']) == None;
    assert ReadBody(w[1..]) == None;
  }

  /** A value holding a dollar sign does not read back either: `$HOME`
      becomes `"$HOME"`, which the shell expands. */
  lemma QuoteAsWrittenExpands()
    ensures ReadQuoted(QuoteAsWritten("$HOME")) != Some("$HOME")
  {
    QuoteAsWrittenDollar("$HOME");
  }

  /** Any value that starts with a dollar sign is written as a word that
      starts an expansion. */
  lemma QuoteAsWrittenDollar(x: string)
    requires x != [] && x[0] == '$'
    ensures ReadQuoted(QuoteAsWritten(x)) == None
  {
    QuoteAsWrittenPlain(x);
    var w := QuoteAsWritten(x);
    assert w[0] == '"';
    assert w[1..] == x + "\"";
    assert w[1..][0] == '$';
  }

  /** For values without backslashes, double quotes, dollar signs and
      backquotes the correction changes nothing. */
  lemma QuoteAgrees(x: string)
    requires forall i :: 0 <= i < |x| ==> !Escapable(x[i])
    ensures Quote(x) == QuoteAsWritten(x)
  {
    assert '\\' !in x && '"' !in x && '$' !in x && '`' !in x;
    QuoteAsWrittenPlain(x);
  }

  // ---------------------------------------------------------------- the runner's options

  /** `-n` for the n-th argument list. */
  function SlotFlag(n: nat): (f: string)
    ensures IsOption(f) && f != "--"
  {
    var d := NatToString(n);
    assert forall i :: 0 <= i < |d| ==> d[i] != ' ' && d[i] != '-';
    assert ("-" + d)[1] == d[0];
    "-" + d
  }

  /** Lists of words under the runner's options: for list k the flag `-(k+1)`
      followed by the list's words, in list order. */
  function Options(cols: seq<seq<string>>): (r: seq<string>)
    decreases |cols|
  {
    if cols == [] then []
    else Options(cols[..|cols| - 1]) + [SlotFlag(|cols|)] + cols[|cols| - 1]
  }

  lemma OptionsSnoc(cols: seq<seq<string>>, col: seq<string>)
    ensures Options(cols + [col]) == Options(cols) + [SlotFlag(|cols| + 1)] + col
  {
    assert (cols + [col])[..|cols|] == cols;
  }

  /** Every column's values quoted. */
  function QuotedCols(cols: seq<seq<string>>): (r: seq<seq<string>>)
    ensures |r| == |cols| && forall k :: 0 <= k < |cols| ==> r[k] == QuoteAll(cols[k])
  {
    seq(|cols|, k requires 0 <= k < |cols| => QuoteAll(cols[k]))
  }

  /** The options that hand the columns to the runner, as the job's command
      line writes them: for column k the flag `-(k+1)` followed by the
      column's quoted values. */
  function SlotOptions(cols: seq<seq<string>>): seq<string>
  {
    Options(QuotedCols(cols))
  }

  lemma SlotOptionsSnoc(cols: seq<seq<string>>, col: seq<string>)
    ensures SlotOptions(cols + [col]) == SlotOptions(cols) + [SlotFlag(|cols| + 1)] + QuoteAll(col)
  {
    assert QuotedCols(cols + [col]) == QuotedCols(cols) + [QuoteAll(col)];
    OptionsSnoc(QuotedCols(cols), QuoteAll(col));
  }

  /** An option the runner's parser declares: `-1` .. `-99`, and the `-h`
      and `--help` argparse adds. */
  predicate Declared(o: string)
  {
    o == "-h" || o == "--help"
    || (2 <= |o| <= 3 && o[0] == '-' && AllDigits(o[1..]) && o[1] != '0')
  }

  /** The text of a word before its first '='. */
  function BeforeEq(t: string): string
  {
    Split(t, '=')[0]
  }

  /** A word the runner's argument parser takes for an option, as argparse's
      `_parse_optional` decides it with the options the runner declares (which
      look like negative numbers, so a negative number is an option too). A
      word that starts with '-' and is more than the bare '-' is an option,
      unless it holds a space and none of these matches it: its first two
      characters as a declared option (`-1 b` is `-1` with ` b` attached),
      its text before '=' as a declared option, or, for a word starting with
      `--`, its text before '=' as the start of `--help`. */
  predicate IsOption(t: string)
  {
    && |t| >= 2 && t[0] == '-'
    && (' ' !in t || Declared(t[..2]) || Declared(BeforeEq(t)) || (t[1] == '-' && BeforeEq(t) <= "--help"))
  }

  /** Words with a space that argparse still takes for an option: `-1 b`
      and `-h x` by their first two characters, `-1=a b` by its text before
      '='. */
  lemma SpacedOptions()
    ensures IsOption("-1 b") && IsOption("-h x") && IsOption("-1=a b")
  {
    assert "-1 b"[..2] == "-1";
    assert "-h x"[..2] == "-h";
    assert "-1=a b"[..2] == "-1";
  }

  /** A word with a space that matches no declared option is a value. */
  lemma SpacedValue()
    ensures !IsOption("-x y")
  {
    var w := "-x y";
    assert w[..2] == "-x" && !Declared("-x");
    assert BeforeEq(w) == w by {
      assert '=' !in w;
      SplitNoSep(w, '=');
    }
    assert |w| == 4 && w[1] == 'x';
    assert !Declared(w);
  }

  /** The name under which the parser keeps the words of the job's command. */
  const Commands := "commands"

  /** `gs` read before whatever the rest reads, or the rest's error. */
  function PrependGroups(gs: seq<(string, seq<string>)>, r: Option<seq<(string, seq<string>)>>)
    : Option<seq<(string, seq<string>)>>
  {
    if r.None? then None else Some(gs + r.value)
  }

  /** How the runner's argument parser reads the words it is given. `--`, or
      a word that is not an option, starts the `commands` positional, which is
      declared `nargs=argparse.REMAINDER` and so takes that word and every
      word after it. Any other option takes the words after it up to the next
      option; the options `-1` .. `-99` are declared `nargs="+"`, so an option
      that gets no word stops the parser with an error, None here. */
  function ReadOptions(toks: seq<string>): (r: Option<seq<(string, seq<string>)>>)
    decreases |toks|
  {
    if toks == [] then Some([])
    else if toks[0] == "--" || !IsOption(toks[0]) then Some([(Commands, toks)])
    else
      var n := RunLength(toks[1..]);
      if n == 0 then None
      else PrependGroups([(toks[0], toks[1..][..n])], ReadOptions(toks[1..][n..]))
  }

  /** The number of leading tokens that are not options. */
  function RunLength(toks: seq<string>): (n: nat)
    ensures n <= |toks|
  {
    if toks == [] || IsOption(toks[0]) then 0 else 1 + RunLength(toks[1..])
  }

  /** None of the words is an option. */
  predicate NoOptionWord(vals: seq<string>)
  {
    forall i :: 0 <= i < |vals| ==> !IsOption(vals[i])
  }

  /** No value of any column is an option. */
  predicate NoOptionValues(cols: seq<seq<string>>)
  {
    forall k, i :: 0 <= k < |cols| && 0 <= i < |cols[k]| ==> !IsOption(cols[k][i])
  }

  /** Every column holds at least one value, as `nargs="+"` asks. */
  predicate NoEmptyColumn(cols: seq<seq<string>>)
  {
    forall k :: 0 <= k < |cols| ==> cols[k] != []
  }

  lemma {:induction false} RunLengthValues(vals: seq<string>, rest: seq<string>)
    requires NoOptionWord(vals)
    requires rest == [] || IsOption(rest[0])
    ensures RunLength(vals + rest) == |vals|
    decreases |vals|
  {
    if vals == [] {
      assert vals + rest == rest;
    } else {
      assert (vals + rest)[0] == vals[0];
      assert (vals + rest)[1..] == vals[1..] + rest;
      RunLengthValues(vals[1..], rest);
    }
  }

  /** Option `-(k+1)` with the words of list k, for every list. */
  function Groups(cols: seq<seq<string>>): (g: seq<(string, seq<string>)>)
  {
    seq(|cols|, k requires 0 <= k < |cols| => (SlotFlag(k + 1), cols[k]))
  }

  /** One option followed by at least one value that is not an option is
      read as one group. */
  lemma ReadGroup(flag: string, vals: seq<string>, later: seq<string>)
    requires IsOption(flag) && flag != "--" && vals != []
    requires RunLength(vals + later) == |vals|
    ensures ReadOptions([flag] + vals + later) == PrependGroups([(flag, vals)], ReadOptions(later))
  {
    var toks := [flag] + vals + later;
    assert toks[0] == flag;
    assert toks[1..] == vals + later;
    assert toks[1..][..|vals|] == vals;
    assert toks[1..][|vals|..] == later;
  }

  lemma Assoc<T>(a: seq<T>, b: seq<T>, c: seq<T>)
    ensures a + b + c == a + (b + c)
  {
  }

  lemma Regroup<T>(a: seq<T>, b: seq<T>, c: seq<T>, d: seq<T>)
    ensures a + b + c + d == a + (b + c + d)
  {
  }

  /** Groups read in two steps are the groups of both, in order. */
  lemma PrependTwice(a: seq<(string, seq<string>)>, b: seq<(string, seq<string>)>, r: Option<seq<(string, seq<string>)>>)
    ensures PrependGroups(a, PrependGroups(b, r)) == PrependGroups(a + b, r)
  {
    if r.Some? {
      assert a + (b + r.value) == (a + b) + r.value;
    }
  }

  /** The columns before the last keep what is asked of all of them, and the
      last one is a run of values. */
  lemma InitColumns(cols: seq<seq<string>>)
    requires cols != [] && NoOptionValues(cols) && NoEmptyColumn(cols)
    ensures NoOptionValues(cols[..|cols| - 1]) && NoEmptyColumn(cols[..|cols| - 1])
    ensures cols[|cols| - 1] != []
    ensures NoOptionWord(cols[|cols| - 1])
  {
    var init := cols[..|cols| - 1];
    forall k, i | 0 <= k < |init| && 0 <= i < |init[k]| ensures !IsOption(init[k][i]) {
      assert init[k] == cols[k];
    }
    forall k | 0 <= k < |init| ensures init[k] != [] {
      assert init[k] == cols[k];
    }
  }

  /** The parser reads every list back under its own option when every list
      has a value and no value starts with '-', and whatever follows is read
      on its own. */
  lemma {:induction false} ReadEveryOption(cols: seq<seq<string>>, rest: seq<string>)
    requires NoOptionValues(cols) && NoEmptyColumn(cols)
    requires rest == [] || IsOption(rest[0])
    ensures ReadOptions(Options(cols) + rest) == PrependGroups(Groups(cols), ReadOptions(rest))
    decreases |cols|
  {
    if cols == [] {
      assert Options(cols) + rest == rest;
      assert Groups(cols) == [];
      if ReadOptions(rest).Some? {
        assert [] + ReadOptions(rest).value == ReadOptions(rest).value;
      }
    } else {
      var init, last := cols[..|cols| - 1], cols[|cols| - 1];
      var flag := SlotFlag(|cols|);
      InitColumns(cols);
      RunLengthValues(last, rest);
      ReadGroup(flag, last, rest);
      ReadEveryOption(init, [flag] + last + rest);
      Regroup(Options(init), [flag], last, rest);
      assert Groups(cols) == Groups(init) + [(flag, last)];
      PrependTwice(Groups(init), [(flag, last)], ReadOptions(rest));
    }
  }

  /** A quoted value starts with a double quote, never with '-'. */
  lemma QuotedNoOptions(cols: seq<seq<string>>)
    ensures NoOptionValues(QuotedCols(cols))
  {
  }

  /** The quoted words of columns that each hold a value group into one
      option per column, with the column's quoted values, and whatever option
      follows is read on its own. */
  lemma ReadSlotOptions(cols: seq<seq<string>>, rest: seq<string>)
    requires NoEmptyColumn(cols)
    requires rest == [] || IsOption(rest[0])
    ensures ReadOptions(SlotOptions(cols) + rest) == PrependGroups(Groups(QuotedCols(cols)), ReadOptions(rest))
  {
    QuotedNoOptions(cols);
    assert NoEmptyColumn(QuotedCols(cols));
    ReadEveryOption(QuotedCols(cols), rest);
  }

  // ---------------------------------------------------------------- what the shell hands the runner

  /** A character a POSIX shell takes as itself outside quotes. */
  predicate BareChar(c: char)
  {
    IsDigit(c) || ('a' <= c <= 'z') || ('A' <= c <= 'Z')
    || c == '-' || c == '_' || c == '.' || c == '/' || c == '+' || c == ',' || c == ':' || c == '@'
  }

  /** The text the shell that starts the job makes of one word of its
      command line: a double-quoted word as `ReadQuoted` reads it, a word of
      bare characters as itself. None for any other word, whose reading is not
      modelled. */
  function ShellWord(w: string): Option<string>
  {
    if |w| >= 1 && w[0] == '"' then ReadQuoted(w)
    else if forall i :: 0 <= i < |w| ==> BareChar(w[i]) then Some(w)
    else None
  }

  /** The shell reads the words `ws` as the texts `vs`, one for one. */
  predicate ShellReads(ws: seq<string>, vs: seq<string>)
  {
    |ws| == |vs| && forall i :: 0 <= i < |ws| ==> ShellWord(ws[i]) == Some(vs[i])
  }

  lemma ShellReadsAppend(a: seq<string>, x: seq<string>, b: seq<string>, y: seq<string>)
    requires ShellReads(a, x) && ShellReads(b, y)
    ensures ShellReads(a + b, x + y)
  {
    forall i | 0 <= i < |a + b| ensures ShellWord((a + b)[i]) == Some((x + y)[i]) {
      if i >= |a| {
        assert (a + b)[i] == b[i - |a|] && (x + y)[i] == y[i - |a|];
      }
    }
  }

  /** An option flag is a bare word. */
  lemma SlotFlagBare(n: nat)
    ensures ShellReads([SlotFlag(n)], [SlotFlag(n)])
  {
    var f := SlotFlag(n);
    assert f[0] == '-';
    forall i | 0 <= i < |f| ensures BareChar(f[i]) {
      if i > 0 {
        assert f[i] == NatToString(n)[i - 1];
      }
    }
  }

  /** A value is plain when none of its characters needs escaping between
      double quotes. */
  predicate Plain(v: string)
  {
    forall i :: 0 <= i < |v| ==> !Escapable(v[i])
  }

  /** Plain values come through the source's quoting unchanged. */
  lemma QuoteAllReads(vals: seq<string>)
    requires forall i :: 0 <= i < |vals| ==> Plain(vals[i])
    ensures ShellReads(QuoteAll(vals), vals)
  {
    forall i | 0 <= i < |vals| ensures ShellWord(QuoteAll(vals)[i]) == Some(vals[i]) {
      QuoteAgrees(vals[i]);
      QuoteRoundTrip(vals[i]);
    }
  }

  /** The shell hands the runner each flag as it is and each plain value as
      the value itself. */
  lemma {:induction false} SlotOptionsRead(cols: seq<seq<string>>)
    requires forall k, i :: 0 <= k < |cols| && 0 <= i < |cols[k]| ==> Plain(cols[k][i])
    ensures ShellReads(SlotOptions(cols), Options(cols))
    decreases |cols|
  {
    if cols == [] {
      assert SlotOptions(cols) == [] && Options(cols) == [];
    } else {
      var init, last := cols[..|cols| - 1], cols[|cols| - 1];
      assert cols == init + [last];
      SlotOptionsRead(init);
      SlotOptionsSnoc(init, last);
      SlotFlagBare(|cols|);
      QuoteAllReads(last);
      ShellReadsAppend(SlotOptions(init), Options(init), [SlotFlag(|cols|)], [SlotFlag(|cols|)]);
      ShellReadsAppend(SlotOptions(init) + [SlotFlag(|cols|)], Options(init) + [SlotFlag(|cols|)], QuoteAll(last), last);
    }
  }

  /** The runner receives its sweep back: for columns that each hold a
      value, with plain values none of which is an option, the shell turns
      the column options into the flags with the values themselves, and the
      runner's parser reads every column under its own option, in order, and
      hands `--` and every word after it to `commands`. */
  lemma RunnerReadsValues(cols: seq<seq<string>>, tail: seq<string>)
    requires NoEmptyColumn(cols)
    requires forall k, i :: 0 <= k < |cols| && 0 <= i < |cols[k]| ==> Plain(cols[k][i]) && !IsOption(cols[k][i])
    ensures ShellReads(SlotOptions(cols), Options(cols))
    ensures ReadOptions(Options(cols) + (["--"] + tail)) == Some(Groups(cols) + [(Commands, ["--"] + tail)])
  {
    SlotOptionsRead(cols);
    ReadEveryOption(cols, ["--"] + tail);
  }

  /** A value that is an option is not handed back: the column `["-5"]`
      reaches the runner as the words `-1 -5`, its parser takes `-5` for an
      option of its own, and `-1` is left without a value, which stops the
      parser with an error. */
  lemma RunnerRejectsDashValue()
    ensures ShellReads(SlotOptions([["-5"]]), Options([["-5"]]))
    ensures ReadOptions(Options([["-5"]]) + ["--", "cat"]) == None
  {
    var cols := [["-5"]];
    SlotOptionsRead(cols);
    assert Options(cols) == Options([]) + [SlotFlag(1)] + ["-5"];
    assert SlotFlag(1) == "-1";
    var toks := ["-1", "-5", "--", "cat"];
    assert Options(cols) + ["--", "cat"] == toks;
    assert IsOption(toks[1]);
    assert RunLength(toks[1..]) == 0;
  }

  /** A value with a space is still an option when its first two characters
      are one: the column `["-1 b"]` reaches the runner as `-1` and `-1 b`,
      and the first `-1` is left without a value. */
  lemma RunnerRejectsSpacedDashValue()
    ensures ReadOptions(Options([["-1 b"]]) + ["--", "cat"]) == None
  {
    assert Options([["-1 b"]]) == Options([]) + [SlotFlag(1)] + ["-1 b"];
    assert SlotFlag(1) == "-1";
    var toks := ["-1", "-1 b", "--", "cat"];
    assert Options([["-1 b"]]) + ["--", "cat"] == toks;
    SpacedOptions();
    assert RunLength(toks[1..]) == 0;
  }

  /** An empty column stops the parser too: `-1` directly followed by `--`
      gets no value. */
  lemma RunnerRejectsEmptyColumn(tail: seq<string>)
    ensures ReadOptions(Options([[]]) + (["--"] + tail)) == None
  {
    var toks := Options([[]]) + (["--"] + tail);
    assert Options([[]]) == Options([]) + [SlotFlag(1)] + [];
    assert toks[0] == SlotFlag(1);
    assert toks[1..] == ["--"] + tail;
    assert RunLength(toks[1..]) == 0;
  }

  /** The loop of `GEArrayJob.__init__` that builds the runner's command: the
      runner script, then every column under its flag. */
  method BuildArrayCommand(runner: string, cols: seq<seq<string>>) returns (cmd: seq<string>)
    ensures cmd == [runner] + SlotOptions(cols)
  {
    cmd := [runner];
    for i := 0 to |cols|
      invariant cmd == [runner] + SlotOptions(cols[..i])
    {
      SlotOptionsSnoc(cols[..i], cols[i]);
      assert cols[..i + 1] == cols[..i] + [cols[i]];
      cmd := cmd + [SlotFlag(i + 1)] + QuoteAll(cols[i]);
    }
    assert cols[..|cols|] == cols;
  }

  // ---------------------------------------------------------------- construction

  datatype ArrayJobError = JobFailed(cause: JobError) | NoCombinations

  /** `GEArrayJob.INTERPRETER`. */
  const Interpreter := "python"

  /** `os.environ.get(k, '')`. */
  function EnvGet(env: map<string, string>, k: string): string
  {
    if k in env then env[k] else ""
  }

  /** The arguments the job runs with: the runner's command, `--`, the original
      command and its quoted arguments. */
  function ArrayArgs(runner: string, cols: seq<seq<string>>, command: string, args: seq<string>): seq<string>
  {
    [runner] + SlotOptions(cols) + ["--", command] + QuoteAll(args)
  }

  /** `GEArrayJob.__init__`. `slots` are the lists given as `argN` for the N
      in 1 .. 99 that are present, in increasing N, with the missing ones
      skipped; their values are the texts `str()` gives. `env` stands for
      `os.environ`, `runner` for the path of the runner script and `found` for
      the file-system lookup of `GEJob.__init__`. */
  function NewArrayJob(found: bool, defaults: MailDefaults, a: JobArgs, slots: seq<seq<string>>, combine: bool,
                       env: map<string, string>, runner: string): (r: Result<NewJob, ArrayJobError>)
    ensures r.Err? && r.error.JobFailed? <==> Construct(found, defaults, a).Err?
    ensures r.Err? && r.error.JobFailed? ==> r.error.cause == Construct(found, defaults, a).error
    ensures r == Err(NoCombinations) <==>
              Construct(found, defaults, a).Ok? && !Truthy(a.arrayRange) && (slots == [] || Combos(slots, combine) == [])
    ensures r.Ok? ==> r.value.conf.command == Interpreter && r.value.conf.cwd == Some(true) && r.value.conf.binary == Some(true)
    ensures r.Ok? ==> r.value.conf.name == JobName(a) && r.value.holdJid == Flatten(a.holdJid) && r.value.holdJidAd == Flatten(a.holdJidAd)
    ensures r.Ok? ==> r.value.arrayRange == (if Truthy(a.arrayRange) then a.arrayRange
                                             else Some("1-" + NatToString(|Combos(slots, combine)|)))
    ensures r.Ok? ==> r.value.conf.args == ArrayArgs(runner, Columns(slots, combine), a.command,
                                                     if a.args.None? then [] else a.args.value)
  {
    var base := Construct(found, defaults, a);
    if base.Err? then Err(JobFailed(base.error))
    else
      var j := base.value;
      var cols := Columns(slots, combine);
      if !Truthy(j.arrayRange) && cols == [] then Err(NoCombinations)
      else
        var range := if Truthy(j.arrayRange) then j.arrayRange else Some("1-" + NatToString(|cols[0]|));
        var env1 := Set(Set(j.conf.envVars, "PATH", EnvGet(env, "PATH")), "LD_LIBRARY_PATH", EnvGet(env, "LD_LIBRARY_PATH"));
        var conf := j.conf.(command := Interpreter, args := ArrayArgs(runner, cols, j.conf.command, j.conf.args),
                            cwd := Some(true), binary := Some(true), envVars := env1);
        Ok(j.(conf := conf, arrayRange := range))
  }

  /** The job runs with the caller's `PATH` and `LD_LIBRARY_PATH`; every
      other variable keeps the value the arguments gave it. */
  lemma ArrayJobEnv(found: bool, defaults: MailDefaults, a: JobArgs, slots: seq<seq<string>>, combine: bool,
                    env: map<string, string>, runner: string, k: string)
    requires NewArrayJob(found, defaults, a, slots, combine, env, runner).Ok?
    ensures var vars := NewArrayJob(found, defaults, a, slots, combine, env, runner).value.conf.envVars;
            && Lookup(vars, "PATH") == Some(EnvGet(env, "PATH"))
            && Lookup(vars, "LD_LIBRARY_PATH") == Some(EnvGet(env, "LD_LIBRARY_PATH"))
            && (k != "PATH" && k != "LD_LIBRARY_PATH" ==> Lookup(vars, k) == Lookup(a.envVars, k))
  {
    var j := Construct(found, defaults, a).value;
    var path := Set(j.conf.envVars, "PATH", EnvGet(env, "PATH"));
    var vars := NewArrayJob(found, defaults, a, slots, combine, env, runner).value.conf.envVars;
    assert vars == Set(path, "LD_LIBRARY_PATH", EnvGet(env, "LD_LIBRARY_PATH"));
    assert j.conf.envVars == a.envVars;
  }

  /** The quoted words of the job's arguments, as qsub receives them, group
      into one option per column, in order, with the column's quoted values,
      and `--` with the original command and its arguments go to `commands`.
      No quoted word is an option, so none of them is taken for one. This
      asks every column to hold a value, which `Columns` guarantees. What the
      runner itself receives, once the shell has read the quotes, is what
      `RunnerReadsValues` and `RunnerRejectsDashValue` are about. */
  lemma RunnerReadsColumns(runner: string, cols: seq<seq<string>>, command: string, args: seq<string>)
    requires NoEmptyColumn(cols)
    ensures ReadOptions(ArrayArgs(runner, cols, command, args)[1..])
            == Some(Groups(QuotedCols(cols)) + [(Commands, ["--", command] + QuoteAll(args))])
  {
    var rest := ["--", command] + QuoteAll(args);
    assert ArrayArgs(runner, cols, command, args)[1..] == SlotOptions(cols) + rest;
    ReadSlotOptions(cols, rest);
  }
}
