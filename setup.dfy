/** `read_version_string` of setup.py, over the lines of the version file. */
module Setup {
  import opened Outcomes
  import opened Strings

  const VersionKey := "__version__"
  const NotFound := "Unable to find version string."

  /** `'"' if '"' in line else "'"`. */
  function Delimiter(line: string): (d: char)
    ensures d == '"' || d == '\''
    ensures d == '\'' <==> '"' !in line
  {
    if '"' in line then '"' else '\''
  }

  /** `line.split(delim)[1]` for the line that holds the version. */
  function VersionOf(line: string): (r: Outcome<string>)
    ensures r.Ok? <==> '"' in line || '\'' in line
    ensures r.Fail? ==> r == Fail(IndexError)
    ensures r.Ok? ==> Delimiter(line) !in r.value
  {
    var pieces := Split(line, Delimiter(line));
    assert Delimiter(line) in line ==> |pieces| >= 2 by {
      if Delimiter(line) in line { SplitHead(line, Delimiter(line)); }
    }
    if |pieces| >= 2 then Ok(pieces[1]) else Fail(IndexError)
  }

  /**
   * The version is the text between the first delimiter of the line and the next one (or the end of
   * the line, when it is not closed).
   */
  lemma VersionBetweenDelimiters(line: string)
    requires VersionOf(line).Ok?
    ensures var d, v := Delimiter(line), VersionOf(line).value;
            var pre := Split(line, d)[0];
            var end := |pre| + 1 + |v|;
            end <= |line| && line[..end] == pre + [d] + v && d !in pre
            && (end == |line| || line[end] == d)
  {
    var d := Delimiter(line);
    var pieces := Split(line, d);
    SplitHead(line, d);
    var pre, v, post := pieces[0], pieces[1], JoinRest(pieces[1..], d);
    assert line == pre + [d] + (v + post);
    Regroup(pre, [d], v, post);
    var end := |pre| + 1 + |v|;
    assert line[..end] == pre + [d] + v;
    assert line[end..] == post;
  }

  /** What follows the first piece of a join: nothing, or a delimiter. */
  function JoinRest(pieces: seq<string>, d: char): (post: string)
    requires |pieces| >= 1
    ensures Join(pieces, d) == pieces[0] + post
    ensures post == [] || post[0] == d
  {
    if |pieces| == 1 then [] else [d] + Join(pieces[1..], d)
  }

  lemma Regroup(a: string, b: string, c: string, e: string)
    ensures a + b + (c + e) == a + b + c + e
  {
  }

  /** The inverse: a version written between double quotes is read back as written. */
  lemma QuotedVersion(pre: string, v: string, post: string)
    requires '"' !in pre && '"' !in v
    ensures VersionOf(pre + ['"'] + v + ['"'] + post) == Ok(v)
  {
    var line := pre + ['"'] + v + ['"'] + post;
    assert line == pre + ['"'] + (v + ['"'] + post);
    assert line[|pre|] == '"';
    SplitAtFirst(pre, v + ['"'] + post, '"');
    SplitAtFirst(v, post, '"');
  }

  /** The same for single quotes, on a line without double quotes. */
  lemma SingleQuotedVersion(pre: string, v: string, post: string)
    requires '\'' !in pre && '\'' !in v
    requires '"' !in pre + ['\''] + v + ['\''] + post
    ensures VersionOf(pre + ['\''] + v + ['\''] + post) == Ok(v)
  {
    var line := pre + ['\''] + v + ['\''] + post;
    assert line == pre + ['\''] + (v + ['\''] + post);
    assert line[|pre|] == '\'';
    SplitAtFirst(pre, v + ['\''] + post, '\'');
    SplitAtFirst(v, post, '\'');
  }

  /**
   * `read_version_string`: the version of the first line that starts with `__version__`; a file
   * without such a line raises `RuntimeError`.
   */
  method ReadVersionString(lines: seq<string>) returns (r: Outcome<string>)
    ensures (forall i :: 0 <= i < |lines| ==> !StartsWith(lines[i], VersionKey))
              ==> r == Fail(RuntimeError(NotFound))
    ensures forall i :: 0 <= i < |lines| && StartsWith(lines[i], VersionKey)
                        && (forall j :: 0 <= j < i ==> !StartsWith(lines[j], VersionKey))
                        ==> r == VersionOf(lines[i])
  {
    var k := 0;
    while k < |lines|
      invariant 0 <= k <= |lines|
      invariant forall j :: 0 <= j < k ==> !StartsWith(lines[j], VersionKey)
    {
      if StartsWith(lines[k], VersionKey) {
        return VersionOf(lines[k]);
      }
      k := k + 1;
    }
    return Fail(RuntimeError(NotFound));
  }
}
