/** How a job's options become qsub arguments. `_build_command` walks five
    tables of (flag, value) pairs and appends the tokens each entry renders to;
    this module gives the per-kind renderings and shows that the qsub option
    parser reads every table back to the values it was rendered from. */
module QsubCommand {
  import opened Text
  import opened PyDict
  import QsubParse

  /** The tokens a table renders to, entry by entry, in table order. */
  function RenderAll<E>(t: seq<E>, render: E -> seq<string>): seq<string>
  {
    if t == [] then [] else render(t[0]) + RenderAll(t[1..], render)
  }

  function Values<V>(t: seq<(string, V)>): (vs: seq<V>)
    ensures |vs| == |t|
    ensures forall i :: 0 <= i < |t| ==> vs[i] == t[i].1
  {
    if t == [] then [] else [t[0].1] + Values(t[1..])
  }

  /** The table that pairs every flag with the value in the same place. */
  function Pair<V>(fs: seq<string>, vs: seq<V>): (t: seq<(string, V)>)
    requires |fs| == |vs|
    ensures Keys(t) == fs && Values(t) == vs
  {
    seq(|fs|, i requires 0 <= i < |fs| => (fs[i], vs[i]))
  }

  predicate DistinctFlags<V>(t: seq<(string, V)>)
  {
    forall i, j :: 0 <= i < j < |t| ==> t[i].0 != t[j].0
  }

  /** Rendering one more entry appends that entry's tokens: what each pass of
      `_build_command`'s loops does. */
  lemma {:induction false} RenderAllSnoc<E>(t: seq<E>, e: E, render: E -> seq<string>)
    ensures RenderAll(t + [e], render) == RenderAll(t, render) + render(e)
  {
    if t == [] {
      assert [e][1..] == [];
    } else {
      RenderAllSnoc(t[1..], e, render);
      assert (t + [e])[1..] == t[1..] + [e];
    }
  }

  /** Entry i's tokens sit, contiguously, between those of the entries before
      and after it. */
  lemma {:induction false} RenderAllAt<E>(t: seq<E>, i: nat, render: E -> seq<string>)
    requires i < |t|
    ensures RenderAll(t, render) == RenderAll(t[..i], render) + render(t[i]) + RenderAll(t[i + 1..], render)
  {
    if i > 0 {
      RenderAllAt(t[1..], i - 1, render);
      assert t[1..][..i - 1] == t[1..i] == t[..i][1..];
      assert t[1..][i - 1] == t[i];
      assert t[1..][i..] == t[i + 1..];
    }
  }

  /** When every entry renders either nothing or its own flag first, a non-empty
      rendering starts with one of the table's flags. */
  lemma {:induction false} RenderAllFirst<V>(t: seq<(string, V)>, render: ((string, V)) -> seq<string>)
    requires forall e :: e in t ==> render(e) == [] || render(e)[0] == e.0
    ensures RenderAll(t, render) != [] ==> RenderAll(t, render)[0] in Keys(t)
  {
    if t != [] {
      assert t[0] in t;
      if render(t[0]) == [] {
        assert forall e :: e in t[1..] ==> e in t;
        RenderAllFirst(t[1..], render);
        assert forall f :: f in Keys(t[1..]) ==> f in Keys(t) by {
          forall f | f in Keys(t[1..]) ensures f in Keys(t) {
            var j :| 0 <= j < |t[1..]| && Keys(t[1..])[j] == f;
            assert Keys(t)[j + 1] == f;
          }
        }
      } else {
        assert Keys(t)[0] == t[0].0;
      }
    }
  }

  /** A table with distinct flags, split after its first entry. */
  lemma TableTail<V>(t: seq<(string, V)>)
    requires t != [] && DistinctFlags(t)
    ensures Keys(t) == [t[0].0] + Keys(t[1..]) && Values(t) == [t[0].1] + Values(t[1..])
    ensures DistinctFlags(t[1..]) && t[0].0 !in Keys(t[1..])
  {
    var tl := t[1..];
    assert Keys(t) == [t[0].0] + Keys(tl);
    assert Values(t) == [t[0].1] + Values(tl);
    forall j | 0 <= j < |tl| ensures Keys(tl)[j] != t[0].0 {
      assert tl[j] == t[j + 1];
    }
    forall i, j | 0 <= i < j < |tl| ensures tl[i].0 != tl[j].0 {
      assert tl[i] == t[i + 1] && tl[j] == t[j + 1];
    }
  }

  /** Rendering a table is rendering its first entry, then the rest. */
  lemma RenderFirst<E>(t: seq<E>, render: E -> seq<string>, rest: seq<string>)
    requires t != []
    ensures RenderAll(t, render) + rest == render(t[0]) + (RenderAll(t[1..], render) + rest)
  {
    assert RenderAll(t, render) == render(t[0]) + RenderAll(t[1..], render);
  }

  /** What the round trips below need about the rest of a table after its first
      entry: the flags and values split off, and the next token (if any) is not
      the first entry's flag, so an absent first option is read as absent. */
  lemma NextToken<V>(t: seq<(string, V)>, render: ((string, V)) -> seq<string>, rest: seq<string>)
    requires t != [] && DistinctFlags(t)
    requires forall e :: e in t ==> render(e) == [] || render(e)[0] == e.0
    requires rest == [] || rest[0] !in Keys(t)
    ensures Keys(t)[0] == t[0].0 && Keys(t)[1..] == Keys(t[1..])
    ensures Values(t) == [t[0].1] + Values(t[1..])
    ensures DistinctFlags(t[1..])
    ensures rest == [] || rest[0] !in Keys(t[1..])
    ensures RenderAll(t[1..], render) + rest == [] || (RenderAll(t[1..], render) + rest)[0] != t[0].0
  {
    TableTail(t);
    var tl := t[1..];
    assert forall e :: e in tl ==> e in t;
    RenderAllFirst(tl, render);
    var tail := RenderAll(tl, render);
    if tail != [] {
      assert (tail + rest)[0] == tail[0];
    } else {
      assert tail + rest == rest;
    }
  }

  // ---------------------------------------------------------------- simple options

  /** `-X value`, emitted only when the value is not None. */
  function SimpleTokens(e: (string, Option<string>)): seq<string>
  {
    match e.1
    case None => []
    case Some(v) => [e.0, v]
  }

  /** Reads a table of nargs=1 options back, in table order: an option is
      present when its flag is the next token. */
  function DecodeSimple(flags: seq<string>, toks: seq<string>): (seq<Option<string>>, seq<string>)
  {
    if flags == [] then ([], toks)
    else if |toks| >= 2 && toks[0] == flags[0] then
      var r := DecodeSimple(flags[1..], toks[2..]);
      ([Some(QsubParse.UnlistNargs1([toks[1]]))] + r.0, r.1)
    else
      var r := DecodeSimple(flags[1..], toks);
      ([None] + r.0, r.1)
  }

  /** One entry of the simple table: present when its flag is the next token. */
  lemma DecodeSimpleStep(flags: seq<string>, toks: seq<string>, v: Option<string>, after: seq<string>)
    requires flags != []
    requires v.Some? ==> toks == [flags[0], v.value] + after
    requires v.None? ==> toks == after && (after == [] || after[0] != flags[0])
    ensures DecodeSimple(flags, toks) == ([v] + DecodeSimple(flags[1..], after).0, DecodeSimple(flags[1..], after).1)
  {
    if v.Some? {
      assert toks[2..] == after;
    }
  }

  /** Every entry's tokens start with its flag. */
  lemma SimpleTokensLead(t: seq<(string, Option<string>)>)
    ensures forall e :: e in t ==> SimpleTokens(e) == [] || SimpleTokens(e)[0] == e.0
  {
  }

  /** The first entry of the table reads back, and the rest of the table is
      read from what follows it. */
  lemma SimpleEntry(t: seq<(string, Option<string>)>, rest: seq<string>)
    requires t != [] && DistinctFlags(t)
    requires rest == [] || rest[0] !in Keys(t)
    ensures DistinctFlags(t[1..]) && (rest == [] || rest[0] !in Keys(t[1..]))
    ensures Values(t) == [t[0].1] + Values(t[1..])
    ensures var after := DecodeSimple(Keys(t[1..]), RenderAll(t[1..], SimpleTokens) + rest);
            DecodeSimple(Keys(t), RenderAll(t, SimpleTokens) + rest) == ([t[0].1] + after.0, after.1)
  {
    SimpleTokensLead(t);
    NextToken(t, SimpleTokens, rest);
    RenderFirst(t, SimpleTokens, rest);
    var after := RenderAll(t[1..], SimpleTokens) + rest;
    if t[0].1.Some? {
      assert SimpleTokens(t[0]) + after == [Keys(t)[0], t[0].1.value] + after;
    } else {
      assert SimpleTokens(t[0]) + after == after;
    }
    DecodeSimpleStep(Keys(t), SimpleTokens(t[0]) + after, t[0].1, after);
  }

  /** Simple options round-trip: every value, None or not, is read back. */
  lemma {:induction false} SimpleRoundTrip(t: seq<(string, Option<string>)>, rest: seq<string>)
    requires DistinctFlags(t)
    requires rest == [] || rest[0] !in Keys(t)
    ensures DecodeSimple(Keys(t), RenderAll(t, SimpleTokens) + rest) == (Values(t), rest)
  {
    if t != [] {
      SimpleEntry(t, rest);
      SimpleRoundTrip(t[1..], rest);
    } else {
      assert RenderAll(t, SimpleTokens) + rest == rest;
    }
  }

  // ---------------------------------------------------------------- yes/no options

  /** The word `_build_command` writes for a yes/no option. */
  function YesNoWord(b: bool): string
  {
    if b then "yes" else "no"
  }

  /** `-X yes` for True, `-X no` for False, nothing for None. */
  function YesNoTokens(e: (string, Option<bool>)): seq<string>
  {
    match e.1
    case None => []
    case Some(b) => [e.0, YesNoWord(b)]
  }

  /** Reads a table of yes/no options back with the `yesno` action; the first
      word it rejects is the error. */
  function DecodeYesNo(flags: seq<string>, toks: seq<string>)
    : Result<(seq<Option<bool>>, seq<string>), QsubParse.ParseError>
  {
    if flags == [] then Ok(([], toks))
    else if |toks| >= 2 && toks[0] == flags[0] then
      var b := QsubParse.YesNo(flags[0], toks[1]);
      var r := DecodeYesNo(flags[1..], toks[2..]);
      if b.Err? then Err(b.error)
      else if r.Err? then r
      else Ok(([Some(b.value)] + r.value.0, r.value.1))
    else
      var r := DecodeYesNo(flags[1..], toks);
      if r.Err? then r else Ok(([None] + r.value.0, r.value.1))
  }

  /** The words written for True and False are the ones `yesno` accepts for them. */
  lemma YesNoWordAccepted(dest: string, b: bool)
    ensures QsubParse.YesNo(dest, YesNoWord(b)) == Ok(b)
  {
    if b {
      assert Lower("yes") == "yes";
    } else {
      assert Lower("no") == "no";
    }
  }

  /** One entry of the yes/no table. */
  lemma DecodeYesNoStep(flags: seq<string>, toks: seq<string>, v: Option<bool>, after: seq<string>)
    requires flags != []
    requires v.Some? ==> toks == [flags[0], YesNoWord(v.value)] + after
    requires v.None? ==> toks == after && (after == [] || after[0] != flags[0])
    ensures var r := DecodeYesNo(flags[1..], after);
            DecodeYesNo(flags, toks) == if r.Err? then r else Ok(([v] + r.value.0, r.value.1))
  {
    if v.Some? {
      assert toks[2..] == after;
      YesNoWordAccepted(flags[0], v.value);
    }
  }

  /** Every entry's tokens start with its flag. */
  lemma YesNoTokensLead(t: seq<(string, Option<bool>)>)
    ensures forall e :: e in t ==> YesNoTokens(e) == [] || YesNoTokens(e)[0] == e.0
  {
  }

  /** The first entry of the table reads back, and the rest of the table is
      read from what follows it. */
  lemma YesNoEntry(t: seq<(string, Option<bool>)>, rest: seq<string>)
    requires t != [] && DistinctFlags(t)
    requires rest == [] || rest[0] !in Keys(t)
    ensures DistinctFlags(t[1..]) && (rest == [] || rest[0] !in Keys(t[1..]))
    ensures Values(t) == [t[0].1] + Values(t[1..])
    ensures var after := DecodeYesNo(Keys(t[1..]), RenderAll(t[1..], YesNoTokens) + rest);
            DecodeYesNo(Keys(t), RenderAll(t, YesNoTokens) + rest)
              == if after.Err? then after else Ok(([t[0].1] + after.value.0, after.value.1))
  {
    YesNoTokensLead(t);
    NextToken(t, YesNoTokens, rest);
    RenderFirst(t, YesNoTokens, rest);
    var after := RenderAll(t[1..], YesNoTokens) + rest;
    if t[0].1.Some? {
      assert YesNoTokens(t[0]) + after == [Keys(t)[0], YesNoWord(t[0].1.value)] + after;
    } else {
      assert YesNoTokens(t[0]) + after == after;
    }
    DecodeYesNoStep(Keys(t), YesNoTokens(t[0]) + after, t[0].1, after);
  }

  /** Yes/no options round-trip through `yesno`. */
  lemma {:induction false} YesNoRoundTrip(t: seq<(string, Option<bool>)>, rest: seq<string>)
    requires DistinctFlags(t)
    requires rest == [] || rest[0] !in Keys(t)
    ensures DecodeYesNo(Keys(t), RenderAll(t, YesNoTokens) + rest) == Ok((Values(t), rest))
  {
    if t != [] {
      YesNoEntry(t, rest);
      YesNoRoundTrip(t[1..], rest);
    } else {
      assert RenderAll(t, YesNoTokens) + rest == rest;
    }
  }

  // ---------------------------------------------------------------- bare flags

  /** A bare `-X`, emitted only when the value is True. */
  function FlagTokens(e: (string, bool)): seq<string>
  {
    if e.1 then [e.0] else []
  }

  /** Reads a table of store_true options back. */
  function DecodeFlags(flags: seq<string>, toks: seq<string>): (seq<bool>, seq<string>)
  {
    if flags == [] then ([], toks)
    else if |toks| >= 1 && toks[0] == flags[0] then
      var r := DecodeFlags(flags[1..], toks[1..]);
      ([true] + r.0, r.1)
    else
      var r := DecodeFlags(flags[1..], toks);
      ([false] + r.0, r.1)
  }

  /** One entry of the flag table. */
  lemma DecodeFlagsStep(flags: seq<string>, toks: seq<string>, v: bool, after: seq<string>)
    requires flags != []
    requires v ==> toks == [flags[0]] + after
    requires !v ==> toks == after && (after == [] || after[0] != flags[0])
    ensures DecodeFlags(flags, toks) == ([v] + DecodeFlags(flags[1..], after).0, DecodeFlags(flags[1..], after).1)
  {
    if v {
      assert toks[1..] == after;
    }
  }

  /** Every entry's tokens start with its flag. */
  lemma FlagTokensLead(t: seq<(string, bool)>)
    ensures forall e :: e in t ==> FlagTokens(e) == [] || FlagTokens(e)[0] == e.0
  {
  }

  /** The first entry of the table reads back, and the rest of the table is
      read from what follows it. */
  lemma FlagEntry(t: seq<(string, bool)>, rest: seq<string>)
    requires t != [] && DistinctFlags(t)
    requires rest == [] || rest[0] !in Keys(t)
    ensures DistinctFlags(t[1..]) && (rest == [] || rest[0] !in Keys(t[1..]))
    ensures Values(t) == [t[0].1] + Values(t[1..])
    ensures var after := DecodeFlags(Keys(t[1..]), RenderAll(t[1..], FlagTokens) + rest);
            DecodeFlags(Keys(t), RenderAll(t, FlagTokens) + rest) == ([t[0].1] + after.0, after.1)
  {
    FlagTokensLead(t);
    NextToken(t, FlagTokens, rest);
    RenderFirst(t, FlagTokens, rest);
    var after := RenderAll(t[1..], FlagTokens) + rest;
    if t[0].1 {
      assert FlagTokens(t[0]) + after == [Keys(t)[0]] + after;
    } else {
      assert FlagTokens(t[0]) + after == after;
    }
    DecodeFlagsStep(Keys(t), FlagTokens(t[0]) + after, t[0].1, after);
  }

  /** Bare flags round-trip: a flag is read as set exactly when it was True. */
  lemma {:induction false} FlagRoundTrip(t: seq<(string, bool)>, rest: seq<string>)
    requires DistinctFlags(t)
    requires rest == [] || rest[0] !in Keys(t)
    ensures DecodeFlags(Keys(t), RenderAll(t, FlagTokens) + rest) == (Values(t), rest)
  {
    if t != [] {
      FlagEntry(t, rest);
      FlagRoundTrip(t[1..], rest);
    } else {
      assert RenderAll(t, FlagTokens) + rest == rest;
    }
  }

  // ---------------------------------------------------------------- comma lists

  /** `-X a,b,c`, emitted only when the list is not empty. */
  function CommaTokens(e: (string, seq<string>)): seq<string>
  {
    if |e.1| > 0 then [e.0, Join(e.1, ',')] else []
  }

  /** Reads a table of comma-list options back with `split_comma`. */
  function DecodeComma(flags: seq<string>, toks: seq<string>): (seq<seq<string>>, seq<string>)
  {
    if flags == [] then ([], toks)
    else if |toks| >= 2 && toks[0] == flags[0] then
      var r := DecodeComma(flags[1..], toks[2..]);
      ([QsubParse.SplitComma(toks[1])] + r.0, r.1)
    else
      var r := DecodeComma(flags[1..], toks);
      ([[]] + r.0, r.1)
  }

  predicate CommaFree(l: seq<string>)
  {
    forall i :: 0 <= i < |l| ==> ',' !in l[i]
  }

  /** No item of any list of the table holds a comma. */
  predicate AllCommaFree(t: seq<(string, seq<string>)>)
  {
    t == [] || (CommaFree(t[0].1) && AllCommaFree(t[1..]))
  }

  /** One entry of the comma-list table. */
  lemma DecodeCommaStep(flags: seq<string>, toks: seq<string>, v: seq<string>, after: seq<string>)
    requires flags != []
    requires |v| > 0 ==> CommaFree(v) && toks == [flags[0], Join(v, ',')] + after
    requires |v| == 0 ==> toks == after && (after == [] || after[0] != flags[0])
    ensures DecodeComma(flags, toks) == ([v] + DecodeComma(flags[1..], after).0, DecodeComma(flags[1..], after).1)
  {
    if |v| > 0 {
      assert toks[2..] == after;
      SplitJoin(v, ',');
    }
  }

  /** Every entry's tokens start with its flag. */
  lemma CommaTokensLead(t: seq<(string, seq<string>)>)
    ensures forall e :: e in t ==> CommaTokens(e) == [] || CommaTokens(e)[0] == e.0
  {
  }

  /** The first entry of the table reads back, and the rest of the table is
      read from what follows it. */
  lemma CommaEntry(t: seq<(string, seq<string>)>, rest: seq<string>)
    requires t != [] && DistinctFlags(t) && AllCommaFree(t)
    requires rest == [] || rest[0] !in Keys(t)
    ensures DistinctFlags(t[1..]) && AllCommaFree(t[1..]) && (rest == [] || rest[0] !in Keys(t[1..]))
    ensures Values(t) == [t[0].1] + Values(t[1..])
    ensures var after := DecodeComma(Keys(t[1..]), RenderAll(t[1..], CommaTokens) + rest);
            DecodeComma(Keys(t), RenderAll(t, CommaTokens) + rest) == ([t[0].1] + after.0, after.1)
  {
    CommaTokensLead(t);
    NextToken(t, CommaTokens, rest);
    RenderFirst(t, CommaTokens, rest);
    var after := RenderAll(t[1..], CommaTokens) + rest;
    if |t[0].1| > 0 {
      assert CommaTokens(t[0]) + after == [Keys(t)[0], Join(t[0].1, ',')] + after;
    } else {
      assert CommaTokens(t[0]) + after == after;
    }
    DecodeCommaStep(Keys(t), CommaTokens(t[0]) + after, t[0].1, after);
  }

  /** Comma lists round-trip through `split_comma` when no item holds a comma. */
  lemma {:induction false} CommaRoundTrip(t: seq<(string, seq<string>)>, rest: seq<string>)
    requires DistinctFlags(t)
    requires AllCommaFree(t)
    requires rest == [] || rest[0] !in Keys(t)
    ensures DecodeComma(Keys(t), RenderAll(t, CommaTokens) + rest) == (Values(t), rest)
  {
    if t != [] {
      CommaEntry(t, rest);
      CommaRoundTrip(t[1..], rest);
    } else {
      assert RenderAll(t, CommaTokens) + rest == rest;
    }
  }

  // ---------------------------------------------------------------- key/value options

  /** One dictionary entry: `k=v`, or the bare `k` when the value is empty. */
  function KvPiece(e: (string, string)): string
  {
    if e.1 != "" then e.0 + "=" + e.1 else e.0
  }

  function KvPieces(d: Dict<string, string>): (ps: seq<string>)
    ensures |ps| == |d|
    ensures forall i :: 0 <= i < |d| ==> ps[i] == KvPiece(d[i])
  {
    if d == [] then [] else [KvPiece(d[0])] + KvPieces(d[1..])
  }

  /** `-X k=v,k2,...`, emitted only when the dictionary is not empty. */
  function KvTokens(e: (string, Dict<string, string>)): seq<string>
  {
    if |e.1| > 0 then [e.0, Join(KvPieces(e.1), ',')] else []
  }

  /** Keys and values that survive the `k=v,...` syntax. */
  predicate PlainDict(d: Dict<string, string>)
  {
    DistinctKeys(d)
    && forall i :: 0 <= i < |d| ==> ',' !in d[i].0 && '=' !in d[i].0 && ',' !in d[i].1 && '=' !in d[i].1
  }

  /** Reads one rendered entry back. */
  lemma KvPieceParse(e: (string, string))
    requires '=' !in e.0 && '=' !in e.1
    ensures QsubParse.EqKey(KvPiece(e)) == e.0 && QsubParse.EqValue(KvPiece(e)) == e.1
  {
    if e.1 != "" {
      SplitPrefix(e.0, e.1, '=');
      SplitNoSep(e.1, '=');
      assert e.0 + "=" + e.1 == e.0 + ['='] + e.1;
    } else {
      QsubParse.EqValueBare(e.0);
    }
  }

  /** `parse_eq` rebuilds a dictionary from its rendered entries. */
  lemma KvPiecesSnoc(d: Dict<string, string>, e: (string, string))
    ensures KvPieces(d + [e]) == KvPieces(d) + [KvPiece(e)]
  {
  }

  lemma PlainDictInit(d: Dict<string, string>)
    requires PlainDict(d) && d != []
    ensures PlainDict(d[..|d| - 1])
    ensures d[|d| - 1].0 !in Keys(d[..|d| - 1])
  {
    var n := |d| - 1;
    var init := d[..n];
    forall i | 0 <= i < n ensures Keys(init)[i] != d[n].0 {
      assert init[i] == d[i];
    }
  }

  lemma {:induction false} EqDictOfPieces(d: Dict<string, string>)
    requires PlainDict(d)
    ensures QsubParse.EqDict(KvPieces(d)) == d
  {
    if d != [] {
      var n := |d| - 1;
      var init := d[..n];
      PlainDictInit(d);
      EqDictOfPieces(init);
      assert init + [d[n]] == d;
      KvPiecesSnoc(init, d[n]);
      QsubParse.EqDictSnoc(KvPieces(init), KvPiece(d[n]));
      KvPieceParse(d[n]);
      SetKeys(init, d[n].0, d[n].1);
    }
  }



  /** Reads a table of key/value options back with `parse_eq`. */
  function DecodeKv(flags: seq<string>, toks: seq<string>): (seq<Dict<string, string>>, seq<string>)
  {
    if flags == [] then ([], toks)
    else if |toks| >= 2 && toks[0] == flags[0] then
      var r := DecodeKv(flags[1..], toks[2..]);
      ([QsubParse.EqDict(Split(toks[1], ','))] + r.0, r.1)
    else
      var r := DecodeKv(flags[1..], toks);
      ([[]] + r.0, r.1)
  }

  /** One rendered dictionary parses back to itself. */
  lemma KvText(d: Dict<string, string>)
    requires PlainDict(d) && |d| > 0
    ensures QsubParse.EqDict(Split(Join(KvPieces(d), ','), ',')) == d
  {
    var ps := KvPieces(d);
    forall i | 0 <= i < |ps| ensures ',' !in ps[i] {
      assert ps[i] == KvPiece(d[i]);
    }
    SplitJoin(ps, ',');
    EqDictOfPieces(d);
  }

  /** Every dictionary of the table survives the `k=v` syntax. */
  predicate AllPlain(t: seq<(string, Dict<string, string>)>)
  {
    t == [] || (PlainDict(t[0].1) && AllPlain(t[1..]))
  }

  /** One entry of the key/value table. */
  lemma DecodeKvStep(flags: seq<string>, toks: seq<string>, v: Dict<string, string>, after: seq<string>)
    requires flags != []
    requires |v| > 0 ==> PlainDict(v) && toks == [flags[0], Join(KvPieces(v), ',')] + after
    requires |v| == 0 ==> toks == after && (after == [] || after[0] != flags[0])
    ensures DecodeKv(flags, toks) == ([v] + DecodeKv(flags[1..], after).0, DecodeKv(flags[1..], after).1)
  {
    if |v| > 0 {
      assert toks[2..] == after;
      KvText(v);
    }
  }

  /** Every entry's tokens start with its flag. */
  lemma KvTokensLead(t: seq<(string, Dict<string, string>)>)
    ensures forall e :: e in t ==> KvTokens(e) == [] || KvTokens(e)[0] == e.0
  {
  }

  /** The first entry of the table reads back, and the rest of the table is
      read from what follows it. */
  lemma KvEntry(t: seq<(string, Dict<string, string>)>, rest: seq<string>)
    requires t != [] && DistinctFlags(t) && AllPlain(t)
    requires rest == [] || rest[0] !in Keys(t)
    ensures DistinctFlags(t[1..]) && AllPlain(t[1..]) && (rest == [] || rest[0] !in Keys(t[1..]))
    ensures Values(t) == [t[0].1] + Values(t[1..])
    ensures var after := DecodeKv(Keys(t[1..]), RenderAll(t[1..], KvTokens) + rest);
            DecodeKv(Keys(t), RenderAll(t, KvTokens) + rest) == ([t[0].1] + after.0, after.1)
  {
    KvTokensLead(t);
    NextToken(t, KvTokens, rest);
    RenderFirst(t, KvTokens, rest);
    var after := RenderAll(t[1..], KvTokens) + rest;
    if |t[0].1| > 0 {
      assert KvTokens(t[0]) + after == [Keys(t)[0], Join(KvPieces(t[0].1), ',')] + after;
    } else {
      assert KvTokens(t[0]) + after == after;
    }
    DecodeKvStep(Keys(t), KvTokens(t[0]) + after, t[0].1, after);
  }

  /** Key/value options round-trip through `parse_eq`. */
  lemma {:induction false} KvRoundTrip(t: seq<(string, Dict<string, string>)>, rest: seq<string>)
    requires DistinctFlags(t)
    requires AllPlain(t)
    requires rest == [] || rest[0] !in Keys(t)
    ensures DecodeKv(Keys(t), RenderAll(t, KvTokens) + rest) == (Values(t), rest)
  {
    if t != [] {
      KvEntry(t, rest);
      KvRoundTrip(t[1..], rest);
    } else {
      assert RenderAll(t, KvTokens) + rest == rest;
    }
  }

  // ---------------------------------------------------------------- where a rendering starts

  /** A non-empty rendering of any table starts with one of its flags. */
  lemma SimpleHead(t: seq<(string, Option<string>)>)
    ensures RenderAll(t, SimpleTokens) != [] ==> RenderAll(t, SimpleTokens)[0] in Keys(t)
  {
    assert forall e :: SimpleTokens(e) == [] || SimpleTokens(e)[0] == e.0;
    RenderAllFirst(t, SimpleTokens);
  }

  lemma YesNoHead(t: seq<(string, Option<bool>)>)
    ensures RenderAll(t, YesNoTokens) != [] ==> RenderAll(t, YesNoTokens)[0] in Keys(t)
  {
    assert forall e :: YesNoTokens(e) == [] || YesNoTokens(e)[0] == e.0;
    RenderAllFirst(t, YesNoTokens);
  }

  lemma FlagHead(t: seq<(string, bool)>)
    ensures RenderAll(t, FlagTokens) != [] ==> RenderAll(t, FlagTokens)[0] in Keys(t)
  {
    assert forall e :: FlagTokens(e) == [] || FlagTokens(e)[0] == e.0;
    RenderAllFirst(t, FlagTokens);
  }

  lemma CommaHead(t: seq<(string, seq<string>)>)
    ensures RenderAll(t, CommaTokens) != [] ==> RenderAll(t, CommaTokens)[0] in Keys(t)
  {
    assert forall e :: CommaTokens(e) == [] || CommaTokens(e)[0] == e.0;
    RenderAllFirst(t, CommaTokens);
  }

  lemma KvHead(t: seq<(string, Dict<string, string>)>)
    ensures RenderAll(t, KvTokens) != [] ==> RenderAll(t, KvTokens)[0] in Keys(t)
  {
    assert forall e :: KvTokens(e) == [] || KvTokens(e)[0] == e.0;
    RenderAllFirst(t, KvTokens);
  }

  // ---------------------------------------------------------------- binding and parallel environment

  /** `-binding` followed by its one or two words, when given. */
  function BindingTokens(binding: seq<string>): seq<string>
  {
    if |binding| > 0 then ["-binding"] + binding else []
  }

  /** `-pe name slots`, from the first entry of the parallel-environment dictionary. */
  function PeTokens(pe: Dict<string, seq<string>>): seq<string>
  {
    if |pe| > 0 then ["-pe", pe[0].0, Join(pe[0].1, ',')] else []
  }

  /** A one-entry parallel environment round-trips through `parse_pe`. */
  lemma PeRoundTrip(pe: Dict<string, seq<string>>)
    requires |pe| == 1 && |pe[0].1| >= 1 && CommaFree(pe[0].1)
    ensures |PeTokens(pe)| == 3 && PeTokens(pe)[0] == "-pe"
    ensures QsubParse.ParsePe(PeTokens(pe)[1..]) == pe
  {
    SplitJoin(pe[0].1, ',');
    assert PeTokens(pe)[1..] == [pe[0].0, Join(pe[0].1, ',')];
  }
}
