/** The loosely-typed parameter mapping the kernels read, and the shared
    input validation of `exponential_fit` and `cubic_spline`. */
module Parameters {
  import opened Wrappers

  /** `numbers` holds the scalar parameters that are present, already
      converted with `float()` (tol, omega, a11 .. a33); `maxIter` is
      "max_iter" converted with `int()`, if present; `xValues` and
      `yValues` are the raw comma-separated strings, if present. */
  datatype Params = Params(numbers: map<string, real>, maxIter: Option<int>, xValues: Option<string>, yValues: Option<string>)

  /** A request that gives no parameter at all. */
  const NoParams: Params := Params(map[], None, None, None)

  const DefaultTol: real := 0.000001
  const DefaultMaxIter: int := 100
  const DefaultOmega: real := 0.8

  /** `float(params.get(key, default))`: the request's entries laid over
      the default. */
  function RealParam(p: Params, key: string, default: real): (r: real)
    ensures r == (map[key := default] + p.numbers)[key]
  {
    if key in p.numbers then p.numbers[key] else default
  }

  /** A scalar parameter depends on its own key only: a value given for
      it wins, and setting another key changes nothing. */
  lemma RealParamLaws(p: Params, key: string, other: string, default: real, v: real)
    ensures RealParam(p.(numbers := p.numbers[key := v]), key, default) == v
    ensures other != key ==>
      RealParam(p.(numbers := p.numbers[other := v]), key, default) == RealParam(p, key, default)
    ensures RealParam(NoParams, key, default) == default
  {
  }

  /** `int(params.get("max_iter", 100))`. */
  function MaxIterParam(p: Params): int
  {
    match p.maxIter
    case Some(n) => n
    case None => DefaultMaxIter
  }

  /** "max_iter" is read from its own entry only: a given value wins, the
      default is 100, and the other parameters do not matter. */
  lemma MaxIterParamLaws(p: Params, n: int, numbers: map<string, real>)
    ensures MaxIterParam(p.(maxIter := Some(n))) == n
    ensures MaxIterParam(NoParams) == DefaultMaxIter
    ensures MaxIterParam(p.(numbers := numbers)) == MaxIterParam(p)
  {
  }

  function Tol(p: Params): real
  {
    RealParam(p, "tol", DefaultTol)
  }

  /** The pieces joined back together with `sep` between them. */
  function Join(parts: seq<string>, sep: char): string
    requires |parts| >= 1
  {
    if |parts| == 1 then parts[0] else parts[0] + [sep] + Join(parts[1..], sep)
  }

  /** Python's `s.split(sep)`: the maximal runs between separators, with an
      empty piece at either end or between two adjacent separators. */
  function Split(s: string, sep: char): (parts: seq<string>)
    ensures |parts| >= 1
    decreases |s|
  {
    if |s| == 0 then [""]
    else
      var rest := Split(s[1..], sep);
      if s[0] == sep then [""] + rest
      else [[s[0]] + rest[0]] + rest[1..]
  }

  /** No piece of a split contains the separator. */
  predicate SeparatorFree(parts: seq<string>, sep: char)
  {
    forall i :: 0 <= i < |parts| ==> sep !in parts[i]
  }

  /** Splitting loses nothing: the pieces are separator-free, there is one
      more of them than there are separators, and joining them gives the
      string back. */
  lemma SplitJoin(s: string, sep: char)
    ensures SeparatorFree(Split(s, sep), sep)
    ensures |Split(s, sep)| == multiset(s)[sep] + 1
    ensures Join(Split(s, sep), sep) == s
  {
    SplitIsSeparatorFree(s, sep);
    SplitCount(s, sep);
    SplitJoinsBack(s, sep);
  }

  lemma {:induction false} SplitIsSeparatorFree(s: string, sep: char)
    ensures SeparatorFree(Split(s, sep), sep)
    decreases |s|
  {
    if |s| > 0 {
      var rest := Split(s[1..], sep);
      SplitIsSeparatorFree(s[1..], sep);
      if s[0] != sep {
        var parts := [[s[0]] + rest[0]] + rest[1..];
        forall i | 0 <= i < |parts| ensures sep !in parts[i] {
          if i == 0 {
            assert sep !in rest[0];
          } else {
            assert parts[i] == rest[i];
          }
        }
      }
    }
  }

  lemma {:induction false} SplitCount(s: string, sep: char)
    ensures |Split(s, sep)| == multiset(s)[sep] + 1
    decreases |s|
  {
    if |s| > 0 {
      SplitCount(s[1..], sep);
      assert s == [s[0]] + s[1..];
      assert multiset(s) == multiset([s[0]]) + multiset(s[1..]);
    }
  }

  lemma {:induction false} SplitJoinsBack(s: string, sep: char)
    ensures Join(Split(s, sep), sep) == s
    decreases |s|
  {
    if |s| > 0 {
      var rest := Split(s[1..], sep);
      SplitJoinsBack(s[1..], sep);
      assert s == [s[0]] + s[1..];
      if s[0] == sep {
        assert ([""] + rest)[1..] == rest;
      } else {
        var parts := [[s[0]] + rest[0]] + rest[1..];
        if |rest| > 1 {
          assert parts[1..] == rest[1..];
          assert Join(rest, sep) == rest[0] + [sep] + Join(rest[1..], sep);
        }
      }
    }
  }

  /** A separator-free string is a single piece. */
  lemma {:induction false} SplitNoSeparator(x: string, sep: char)
    requires sep !in x
    ensures Split(x, sep) == [x]
    decreases |x|
  {
    if |x| > 0 {
      assert sep !in x[1..];
      SplitNoSeparator(x[1..], sep);
      assert [x[0]] + x[1..] == x;
    }
  }

  /** A separator-free prefix followed by a separator is the first piece. */
  lemma {:induction false} SplitAfterPiece(x: string, y: string, sep: char)
    requires sep !in x
    ensures Split(x + [sep] + y, sep) == [x] + Split(y, sep)
    decreases |x|
  {
    var s := x + [sep] + y;
    if |x| == 0 {
      assert s[1..] == y;
    } else {
      assert s[1..] == x[1..] + [sep] + y;
      assert sep !in x[1..];
      SplitAfterPiece(x[1..], y, sep);
      assert [x[0]] + x[1..] == x;
    }
  }

  /** Splitting undoes joining separator-free pieces. */
  lemma {:induction false} JoinSplit(parts: seq<string>, sep: char)
    requires |parts| >= 1 && SeparatorFree(parts, sep)
    ensures Split(Join(parts, sep), sep) == parts
    decreases |parts|
  {
    assert sep !in parts[0];
    if |parts| == 1 {
      SplitNoSeparator(parts[0], sep);
    } else {
      assert SeparatorFree(parts[1..], sep) by {
        forall i | 0 <= i < |parts| - 1 ensures sep !in parts[1..][i] {
          assert parts[1..][i] == parts[i + 1];
        }
      }
      JoinSplit(parts[1..], sep);
      SplitAfterPiece(parts[0], Join(parts[1..], sep), sep);
      assert [parts[0]] + parts[1..] == parts;
    }
  }

  /** Every piece converts with `parse`. */
  predicate ParsesAll(parse: string -> Option<real>, parts: seq<string>)
  {
    forall i :: 0 <= i < |parts| ==> parse(parts[i]).Some?
  }

  /** `[float(x) for x in parts]`, which raises on the first piece that does
      not convert. */
  function ParseAll(parse: string -> Option<real>, parts: seq<string>): (r: Option<seq<real>>)
    ensures r.Some? <==> ParsesAll(parse, parts)
    ensures r.Some? ==> |r.value| == |parts| && forall i :: 0 <= i < |parts| ==> r.value[i] == parse(parts[i]).value
    decreases |parts|
  {
    if |parts| == 0 then Some([])
    else
      match parse(parts[0])
      case None => None
      case Some(x) =>
        match ParseAll(parse, parts[1..])
        case None =>
          assert forall i :: 1 <= i < |parts| ==> parts[i] == parts[1..][i - 1];
          None
        case Some(xs) =>
          assert forall i :: 1 <= i < |parts| ==> parts[i] == parts[1..][i - 1];
          Some([x] + xs)
  }

  const InvalidFormat: string := "Invalid input data format. Use commas to separate numbers."

  /** A list parameter split at commas, or the pieces of its default, each
      converted; None when a piece does not convert. */
  function SeriesOrDefault(raw: Option<string>, defaultPieces: seq<string>, parse: string -> Option<real>)
    : (r: Option<seq<real>>)
    ensures var pieces := if raw.Some? then Split(raw.value, ',') else defaultPieces;
      (r.Some? <==> ParsesAll(parse, pieces))
      && (r.Some? ==> |r.value| == |pieces| && forall i :: 0 <= i < |pieces| ==> r.value[i] == parse(pieces[i]).value)
    ensures raw.Some? && r.Some? ==> |r.value| == multiset(raw.value)[','] + 1
  {
    if raw.Some? then
      SplitJoin(raw.value, ',');
      ParseAll(parse, Split(raw.value, ','))
    else
      ParseAll(parse, defaultPieces)
  }

  /** The validation of `exponential_fit` and `cubic_spline`: both lists
      must convert (else the format error), and they must have equal
      lengths and at least two points (else `tooFew`). */
  function ValidatePairs(xs: Option<string>, ys: Option<string>, defaultX: seq<string>, defaultY: seq<string>,
                         parse: string -> Option<real>, tooFew: string)
    : (r: Result<(seq<real>, seq<real>)>)
    ensures var x, y := SeriesOrDefault(xs, defaultX, parse), SeriesOrDefault(ys, defaultY, parse);
      (r.Success? <==> x.Some? && y.Some? && |x.value| == |y.value| && |x.value| >= 2)
      && (r.Success? ==> r.value == (x.value, y.value))
      && (r.Failure? ==> r.error == if x.None? || y.None? then InvalidFormat else tooFew)
  {
    match (SeriesOrDefault(xs, defaultX, parse), SeriesOrDefault(ys, defaultY, parse))
    case (None, _) => Failure(InvalidFormat)
    case (_, None) => Failure(InvalidFormat)
    case (Some(x), Some(y)) =>
      if |x| != |y| || |x| < 2 then Failure(tooFew) else Success((x, y))
  }

  /** The pieces of the default list texts of `exponential_fit` and
      `cubic_spline`. */
  const ExpPiecesX: seq<string> := ["0", "1", "2", "3"]
  const ExpPiecesY: seq<string> := ["1", "2.71828", "7.38906", "20.0855"]
  const SplinePiecesX: seq<string> := ["0", "0.5", "1.0", "1.5"]
  const SplinePiecesY: seq<string> := ["0", "0.25", "0.75", "2.25"]

  /** The default texts themselves, "0,1,2,3", "1,2.71828,7.38906,20.0855",
      "0,0.5,1.0,1.5" and "0,0.25,0.75,2.25": their pieces joined by commas.
      The `Splits` lemmas below split each one back into its pieces. */
  const ExpDefaultX: string := Join(ExpPiecesX, ',')
  const ExpDefaultY: string := Join(ExpPiecesY, ',')
  const SplineDefaultX: string := Join(SplinePiecesX, ',')
  const SplineDefaultY: string := Join(SplinePiecesY, ',')

  lemma ExpXSplits()
    ensures Split(ExpDefaultX, ',') == ExpPiecesX
  {
    assert SeparatorFree(ExpPiecesX, ',');
    JoinSplit(ExpPiecesX, ',');
  }

  lemma ExpYSplits()
    ensures Split(ExpDefaultY, ',') == ExpPiecesY
  {
    assert SeparatorFree(ExpPiecesY, ',');
    JoinSplit(ExpPiecesY, ',');
  }

  lemma SplineXSplits()
    ensures Split(SplineDefaultX, ',') == SplinePiecesX
  {
    assert SeparatorFree(SplinePiecesX, ',');
    JoinSplit(SplinePiecesX, ',');
  }

  lemma SplineYSplits()
    ensures Split(SplineDefaultY, ',') == SplinePiecesY
  {
    assert SeparatorFree(SplinePiecesY, ',');
    JoinSplit(SplinePiecesY, ',');
  }

  /** A given list has fewer than two points exactly when it has no comma. */
  lemma TooFewMeansNoComma(raw: string, defaultPieces: seq<string>, parse: string -> Option<real>)
    requires SeriesOrDefault(Some(raw), defaultPieces, parse).Some?
    ensures |SeriesOrDefault(Some(raw), defaultPieces, parse).value| < 2 <==> ',' !in raw
  {
  }
}
