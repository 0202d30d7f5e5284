/** The argparse actions of the qsub option parser. Each action stores one
    value on the namespace; here each is a function from the raw option text
    to that value, or to the ArgumentTypeError it raises. */
module QsubParse {
  import opened Text
  import opened PyDict

  datatype ParseError = ArgumentTypeError(msg: string)

  // ---------------------------------------------------------------- required_length

  /** `required_length(nmin, nmax)`: the value list is stored unchanged when its
      length lies between the bounds, and rejected otherwise. */
  function RequiredLength(dest: string, nmin: int, nmax: int, values: seq<string>)
    : (r: Result<seq<string>, ParseError>)
    ensures r.Ok? <==> nmin <= |values| <= nmax
    ensures r.Ok? ==> r.value == values
  {
    if nmin <= |values| <= nmax then Ok(values)
    else Err(ArgumentTypeError("argument \"" + dest + "\" requires between "
                               + IntToString(nmin) + " and " + IntToString(nmax) + " arguments"))
  }

  // ---------------------------------------------------------------- yesno

  /** `yesno`: any case of a non-empty prefix of "yes" is true, any case of a
      non-empty prefix of "no" is false, everything else is rejected. */
  function YesNo(dest: string, value: string): (r: Result<bool, ParseError>)
    ensures r == Ok(true) <==> 1 <= |value| <= 3 && Lower(value) == "yes"[..|value|]
    ensures r == Ok(false) <==> 1 <= |value| <= 2 && Lower(value) == "no"[..|value|]
    ensures r.Err? <==> !(1 <= |value| <= 3 && Lower(value) == "yes"[..|value|])
                        && !(1 <= |value| <= 2 && Lower(value) == "no"[..|value|])
  {
    var v := Lower(value);
    if v == "y" || v == "ye" || v == "yes" then Ok(true)
    else if v == "n" || v == "no" then Ok(false)
    else Err(ArgumentTypeError("argument \"" + dest + "\" accepts only y[es]|n[o]"))
  }

  // ---------------------------------------------------------------- split_comma

  /** `split_comma`: the comma-separated pieces, which join back to the input. */
  function SplitComma(value: string): (r: seq<string>)
    ensures |r| >= 1
    ensures forall i :: 0 <= i < |r| ==> ',' !in r[i]
    ensures Join(r, ',') == value
  {
    JoinSplit(value, ',');
    Split(value, ',')
  }

  // ---------------------------------------------------------------- parse_pe

  /** `parse_pe` (nargs=2): a one-entry dictionary from the environment name to
      the comma-separated slot list. */
  function ParsePe(values: seq<string>): (r: Dict<string, seq<string>>)
    requires |values| == 2
    ensures |r| == 1 && r[0].0 == values[0]
    ensures Join(r[0].1, ',') == values[1]
  {
    [(values[0], SplitComma(values[1]))]
  }

  // ---------------------------------------------------------------- unlist_nargs1

  /** `unlist_nargs1` (nargs=1): the one-element list is unwrapped. */
  function UnlistNargs1(values: seq<string>): (r: string)
    requires |values| == 1
    ensures [r] == values
  {
    values[0]
  }

  // ---------------------------------------------------------------- parse_eq

  /** The key of a `k=v` piece: the text before the first '='. */
  function EqKey(piece: string): string
  {
    Split(piece, '=')[0]
  }

  /** The value of a piece: '' for a bare `k`, otherwise the text between the
      first and the second '='. */
  function EqValue(piece: string): string
  {
    var parts := Split(piece, '=');
    if |parts| == 1 then "" else parts[1]
  }

  /** The assignment each piece stands for. */
  function EqPairs(pieces: seq<string>): (ps: seq<(string, string)>)
    ensures |ps| == |pieces|
    ensures forall i :: 0 <= i < |pieces| ==> ps[i] == (EqKey(pieces[i]), EqValue(pieces[i]))
  {
    seq(|pieces|, i requires 0 <= i < |pieces| => (EqKey(pieces[i]), EqValue(pieces[i])))
  }

  /** The dictionary parse_eq builds from its pieces, one assignment per piece. */
  function EqDict(pieces: seq<string>): Dict<string, string>
  {
    Assigned(EqPairs(pieces))
  }

  /** One more piece is one more assignment. */
  lemma EqDictSnoc(pieces: seq<string>, p: string)
    ensures EqDict(pieces + [p]) == Set(EqDict(pieces), EqKey(p), EqValue(p))
  {
    assert EqPairs(pieces + [p]) == EqPairs(pieces) + [(EqKey(p), EqValue(p))];
    AssignedSnoc(EqPairs(pieces), (EqKey(p), EqValue(p)));
  }

  /** `parse_eq`: fills a dictionary from `k=v,k2,...`, one piece at a time. */
  method ParseEq(values: string) returns (d: Dict<string, string>)
    ensures d == EqDict(Split(values, ','))
  {
    d := [];
    var pieces := Split(values, ',');
    assert EqPairs(pieces[..0]) == [];
    for i := 0 to |pieces|
      invariant d == EqDict(pieces[..i])
    {
      var splited := Split(pieces[i], '=');
      if |splited| == 1 {
        d := Set(d, splited[0], "");
      } else {
        d := Set(d, splited[0], splited[1]);
      }
      EqDictSnoc(pieces[..i], pieces[i]);
      assert pieces[..i + 1] == pieces[..i] + [pieces[i]];
    }
    assert pieces[..|pieces|] == pieces;
  }

  /** The piece with key `k` that no later piece overrides. */
  ghost predicate LastWithKey(pieces: seq<string>, k: string, i: int)
  {
    0 <= i < |pieces| && EqKey(pieces[i]) == k
    && forall j :: i < j < |pieces| ==> EqKey(pieces[j]) != k
  }

  /** A key is present exactly when some piece names it. */
  lemma EqDictHasKey(pieces: seq<string>, k: string)
    ensures Lookup(EqDict(pieces), k).Some? <==> exists i :: 0 <= i < |pieces| && EqKey(pieces[i]) == k
  {
    var ps := EqPairs(pieces);
    AssignedHasKey(ps, k);
    if exists i :: 0 <= i < |pieces| && EqKey(pieces[i]) == k {
      var i :| 0 <= i < |pieces| && EqKey(pieces[i]) == k;
      assert ps[i].0 == k;
    }
    if exists i :: 0 <= i < |ps| && ps[i].0 == k {
      var i :| 0 <= i < |ps| && ps[i].0 == k;
      assert EqKey(pieces[i]) == k;
    }
  }

  /** A key holds the value of the last piece naming it: later duplicates
      overwrite earlier ones. */
  lemma EqDictLastWins(pieces: seq<string>, k: string, i: int)
    requires LastWithKey(pieces, k, i)
    ensures Lookup(EqDict(pieces), k) == Some(EqValue(pieces[i]))
  {
    var ps := EqPairs(pieces);
    forall j | i < j < |ps| ensures ps[j].0 != k {
      assert ps[j].0 == EqKey(pieces[j]);
    }
    AssignedLastWins(ps, k, i);
  }

  /** The keys of the parsed dictionary are distinct. */
  lemma EqDictDistinct(pieces: seq<string>)
    ensures DistinctKeys(EqDict(pieces))
  {
    AssignedDistinct(EqPairs(pieces));
  }

  /** Extra '=' signs: only the text between the first and second '=' is kept. */
  lemma EqValueExtra(k: string, v: string, w: string)
    requires '=' !in k && '=' !in v
    ensures EqKey(k + "=" + v + "=" + w) == k
    ensures EqValue(k + "=" + v + "=" + w) == v
  {
    SplitPrefix(k, v + "=" + w, '=');
    SplitPrefix(v, w, '=');
    assert k + "=" + v + "=" + w == k + ['='] + (v + "=" + w);
    assert v + "=" + w == v + ['='] + w;
  }

  /** A bare key maps to the empty value. */
  lemma EqValueBare(k: string)
    requires '=' !in k
    ensures EqKey(k) == k && EqValue(k) == ""
  {
    SplitNoSep(k, '=');
  }
}
