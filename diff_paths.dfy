/**
 * From a unified diff to the changed file paths (`getFilePaths`) and from
 * paths to component labels (`grabLabelsFromPaths`).  An index that Swift
 * would trap on is modelled as a `None` outcome.
 */
module DiffPaths {
  import opened Strings

  /** A diff line naming the new side of a file: it starts with `+++`. */
  predicate IsHeaderLine(line: string) {
    StartsWith(line, "+++")
  }

  /** The header lines of `lines`, in order. */
  function HeaderLines(lines: seq<string>): (r: seq<string>)
    ensures |r| <= |lines|
    ensures forall h :: h in r <==> h in lines && IsHeaderLine(h)
  {
    if lines == [] then []
    else
      var init, last := lines[..|lines| - 1], lines[|lines| - 1];
      assert lines == init + [last];
      HeaderLines(init) + if IsHeaderLine(last) then [last] else []
  }

  /**
   * The header lines of consecutive line lists are concatenated: the
   * filter keeps the order of the lines and each header line once per
   * occurrence.
   */
  lemma {:induction false} HeaderLinesAppend(xs: seq<string>, ys: seq<string>)
    ensures HeaderLines(xs + ys) == HeaderLines(xs) + HeaderLines(ys)
    decreases |ys|
  {
    if ys == [] {
      assert xs + ys == xs;
    } else {
      var init, last := ys[..|ys| - 1], ys[|ys| - 1];
      assert (xs + ys)[..|xs + ys| - 1] == xs + init;
      assert (xs + ys)[|xs + ys| - 1] == last;
      HeaderLinesAppend(xs, init);
      var tail := if IsHeaderLine(last) then [last] else [];
      assert HeaderLines(xs) + HeaderLines(init) + tail == HeaderLines(xs) + (HeaderLines(init) + tail);
    }
  }

  /** A single line is kept exactly when it is a header line. */
  lemma HeaderLinesSingle(line: string)
    ensures HeaderLines([line]) == if IsHeaderLine(line) then [line] else []
  {
    assert [line][..0] == [];
  }

  /**
   * The paths the loop of `getFilePaths` collects from the lines of a diff:
   * each header line minus its first 6 characters, or `None` when a header
   * line is shorter than 6 characters (the index `offsetBy: 6` traps).
   */
  function PathsOfLines(lines: seq<string>): Option<seq<string>>
  {
    if lines == [] then Some([])
    else
      var init, last := lines[..|lines| - 1], lines[|lines| - 1];
      match PathsOfLines(init)
      case None => None
      case Some(ps) =>
        if !IsHeaderLine(last) then Some(ps)
        else if |last| < 6 then None
        else Some(ps + [last[6..]])
  }

  /**
   * Exactly one path per header line, equal to that line minus its first 6
   * characters; a trap exactly when some header line is shorter than 6.
   */
  lemma {:induction false} PathsOfLinesSpec(lines: seq<string>)
    ensures PathsOfLines(lines).Some? <==> forall h :: h in HeaderLines(lines) ==> |h| >= 6
    ensures PathsOfLines(lines).Some? ==> |PathsOfLines(lines).value| == |HeaderLines(lines)|
    ensures PathsOfLines(lines).Some? ==> forall k :: 0 <= k < |HeaderLines(lines)| ==>
              PathsOfLines(lines).value[k] == HeaderLines(lines)[k][6..]
  {
    if lines != [] {
      var init, last := lines[..|lines| - 1], lines[|lines| - 1];
      PathsOfLinesSpec(init);
    }
  }

  /**
   * `getFilePaths`: `diff` is the body of the diff request, `None` when the
   * request threw (then no paths are collected).
   */
  method GetFilePaths(diff: Option<string>) returns (r: Option<seq<string>>)
    ensures diff.None? ==> r == Some([])
    ensures diff.Some? ==> r == PathsOfLines(Split(diff.value, '\n'))
  {
    if diff.None? {
      return Some([]);
    }
    var lines := Split(diff.value, '\n');
    var paths: seq<string> := [];
    for i := 0 to |lines|
      invariant PathsOfLines(lines[..i]) == Some(paths)
    {
      var line := lines[i];
      assert lines[..i + 1][..i] == lines[..i];
      if StartsWith(line, "+++") {
        if |line| < 6 {
          assert line in HeaderLines(lines);
          PathsOfLinesSpec(lines);
          return None;
        }
        paths := paths + [line[6..]];
      }
    }
    assert lines[..|lines|] == lines;
    r := Some(paths);
  }

  /** What one path contributes to the label list. */
  datatype PathLabel = NoLabel | Label(name: string) | Trap

  /**
   * `components/X/...` gives `[X]`, X being the second non-empty `/`-piece
   * (`Trap` when there is none: `slashed[1]` is out of range);
   * `catalog/...` gives `[Catalog]`; any other path gives nothing.
   */
  function LabelOfPath(path: string): PathLabel {
    if StartsWith(path, "components/") then
      var slashed := Split(path, '/');
      if |slashed| < 2 then Trap else Label("[" + slashed[1] + "]")
    else if StartsWith(path, "catalog/") then Label("[Catalog]")
    else NoLabel
  }

  /** A component directory name yields its bracketed label. */
  lemma {:induction false} ComponentPathLabel(x: string, rest: string)
    requires x != [] && '/' !in x
    ensures LabelOfPath("components/" + x + "/" + rest) == Label("[" + x + "]")
    ensures LabelOfPath("components/" + x) == Label("[" + x + "]")
  {
    var p := "components/" + x + "/" + rest;
    assert "components" + ['/'] + (x + ['/'] + rest) == p;
    SplitPiece("components", '/', x + ['/'] + rest);
    SplitSkipsSeparator('/', x + ['/'] + rest);
    SplitPiece(x, '/', rest);
    assert StartsWith(p, "components/");
    var q := "components/" + x;
    assert "components" + ['/'] + x == q;
    SplitPiece("components", '/', x);
    SplitSkipsSeparator('/', x);
    SplitLastPiece(x, '/');
    assert StartsWith(q, "components/");
  }

  /** The bare directory `components/` has no second piece and traps. */
  lemma BareComponentsTraps()
    ensures LabelOfPath("components/") == Trap
  {
    var p := "components/";
    assert "components" + ['/'] + [] == p;
    SplitPiece("components", '/', []);
    SplitSkipsSeparator('/', []);
  }

  /**
   * Every path under `catalog/` gives `[Catalog]` (it cannot also start
   * with `components/`), and a path under neither directory gives nothing.
   */
  lemma OtherPathLabels(p: string)
    ensures StartsWith(p, "catalog/") ==> LabelOfPath(p) == Label("[Catalog]")
    ensures !StartsWith(p, "components/") && !StartsWith(p, "catalog/") ==> LabelOfPath(p) == NoLabel
  {
    if StartsWith(p, "catalog/") {
      assert p[1] == "catalog/"[1] == 'a';
      assert "components/"[1] == 'o';
    }
  }

  /** The labels `grabLabelsFromPaths` collects, in path order, or `None` on a trap. */
  function LabelsOfPaths(paths: seq<string>): Option<seq<string>>
  {
    if paths == [] then Some([])
    else
      var init, last := paths[..|paths| - 1], paths[|paths| - 1];
      match LabelsOfPaths(init)
      case None => None
      case Some(ls) =>
        match LabelOfPath(last)
        case Trap => None
        case NoLabel => Some(ls)
        case Label(l) => Some(ls + [l])
  }

  /**
   * A trap exactly when some path traps; otherwise every label comes from a
   * path and every labelled path contributes its label.
   */
  lemma {:induction false} LabelsOfPathsSpec(paths: seq<string>)
    ensures LabelsOfPaths(paths).None? <==> exists k :: 0 <= k < |paths| && LabelOfPath(paths[k]).Trap?
    ensures LabelsOfPaths(paths).Some? ==> |LabelsOfPaths(paths).value| <= |paths|
    ensures LabelsOfPaths(paths).Some? ==> forall k :: 0 <= k < |paths| && LabelOfPath(paths[k]).Label? ==>
              LabelOfPath(paths[k]).name in LabelsOfPaths(paths).value
    ensures LabelsOfPaths(paths).Some? ==> forall l :: l in LabelsOfPaths(paths).value ==>
              exists k :: 0 <= k < |paths| && LabelOfPath(paths[k]) == Label(l)
  {
    if paths != [] {
      var init := paths[..|paths| - 1];
      assert forall k :: 0 <= k < |init| ==> init[k] == paths[k];
      LabelsOfPathsSpec(init);
    }
  }

  /** Labels of consecutive path lists are concatenated: output order follows input order. */
  lemma {:induction false} LabelsOfPathsAppend(xs: seq<string>, ys: seq<string>)
    requires LabelsOfPaths(xs).Some? && LabelsOfPaths(ys).Some?
    ensures LabelsOfPaths(xs + ys) == Some(LabelsOfPaths(xs).value + LabelsOfPaths(ys).value)
    decreases |ys|
  {
    if ys == [] {
      assert xs + ys == xs;
      assert LabelsOfPaths(xs).value + [] == LabelsOfPaths(xs).value;
    } else {
      var init, last := ys[..|ys| - 1], ys[|ys| - 1];
      assert (xs + ys)[..|xs + ys| - 1] == xs + init;
      assert (xs + ys)[|xs + ys| - 1] == last;
      assert LabelsOfPaths(init).Some? && !LabelOfPath(last).Trap?;
      LabelsOfPathsAppend(xs, init);
      var lx, li := LabelsOfPaths(xs).value, LabelsOfPaths(init).value;
      match LabelOfPath(last)
      case NoLabel =>
      case Label(l) =>
        assert lx + li + [l] == lx + (li + [l]);
    }
  }

  /** `grabLabelsFromPaths`. */
  method GrabLabelsFromPaths(paths: seq<string>) returns (r: Option<seq<string>>)
    ensures r == LabelsOfPaths(paths)
  {
    var labels: seq<string> := [];
    for i := 0 to |paths|
      invariant LabelsOfPaths(paths[..i]) == Some(labels)
    {
      var path := paths[i];
      assert paths[..i + 1][..i] == paths[..i];
      if StartsWith(path, "components/") {
        var slashed := Split(path, '/');
        if |slashed| < 2 {
          assert LabelOfPath(paths[i]).Trap?;
          LabelsOfPathsSpec(paths);
          return None;
        }
        labels := labels + ["[" + slashed[1] + "]"];
      } else if StartsWith(path, "catalog/") {
        labels := labels + ["[Catalog]"];
      }
    }
    assert paths[..|paths|] == paths;
    r := Some(labels);
  }

  /**
   * The set of component labels of the files a diff touches,
   * `Set(grabLabelsFromPaths(getFilePaths(...)))`, or `None` on a trap.
   */
  function PathLabelSet(diff: Option<string>): Option<set<string>> {
    var paths := if diff.None? then Some([]) else PathsOfLines(Split(diff.value, '\n'));
    match paths
    case None => None
    case Some(ps) =>
      match LabelsOfPaths(ps)
      case None => None
      case Some(ls) => Some(set l | l in ls)
  }
}
