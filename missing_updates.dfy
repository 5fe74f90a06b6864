/**
 * The Rust client's list of missing Windows updates
 * (get_missing_windows_updates): the PowerShell output is split into lines
 * and the blank ones dropped; on Unix the list is always empty. Running
 * PowerShell is an input: its exit status and its output text.
 */
module MissingUpdates {
  import opened Wrappers

  /** `char::is_whitespace`: the Unicode White_Space characters. */
  predicate IsWhitespace(c: char) {
    c == ' ' || '\t' <= c <= '\r' || c == '\U{85}' || c == '\U{A0}' || c == '\U{1680}'
    || '\U{2000}' <= c <= '\U{200A}' || c == '\U{2028}' || c == '\U{2029}' || c == '\U{202F}'
    || c == '\U{205F}' || c == '\U{3000}'
  }

  /** `line.trim().is_empty()`: nothing but whitespace. */
  predicate Blank(line: string) {
    forall i :: 0 <= i < |line| ==> IsWhitespace(line[i])
  }

  function IndexOfNewline(s: string): (r: Option<nat>)
    ensures r.Some? ==> r.value < |s| && s[r.value] == '\n' && '\n' !in s[..r.value]
    ensures r.None? ==> '\n' !in s
  {
    if s == [] then None
    else if s[0] == '\n' then Some(0)
    else match IndexOfNewline(s[1..])
      case None => None
      case Some(k) => assert s[..k + 1] == [s[0]] + s[1..][..k]; Some(k + 1)
  }

  /** A line ended by `\r\n`, without its `\r`. */
  function StripCr(line: string): (r: string)
    ensures r == line || (line != [] && line[|line| - 1] == '\r' && r == line[..|line| - 1])
  {
    if line != [] && line[|line| - 1] == '\r' then line[..|line| - 1] else line
  }

  /**
   * `str::lines`: the text split at each `\n`, the `\r` of a `\r\n` ending
   * removed, and no empty last line after a final `\n`. A last line with no
   * `\n` is kept whole, a trailing `\r` included.
   */
  function Lines(s: string): (ls: seq<string>)
    ensures forall l :: l in ls ==> '\n' !in l
    ensures s != [] && '\n' !in s ==> ls == [s]
    decreases |s|
  {
    if s == [] then []
    else match IndexOfNewline(s)
      case None => [s]
      case Some(i) => [StripCr(s[..i])] + Lines(s[i + 1..])
  }

  /** Lines written out with a `\n` after each. */
  function JoinLines(ls: seq<string>): string {
    if ls == [] then [] else ls[0] + "\n" + JoinLines(ls[1..])
  }

  /** Reading back lines written out gives the same lines, when none holds a `\n` or ends in `\r`. */
  lemma {:induction false} LinesOfJoin(ls: seq<string>)
    requires forall l :: l in ls ==> '\n' !in l && (l == [] || l[|l| - 1] != '\r')
    ensures Lines(JoinLines(ls)) == ls
  {
    if ls != [] {
      var head := ls[0];
      var s := JoinLines(ls);
      var rest := JoinLines(ls[1..]);
      assert s == head + ("\n" + rest);
      FirstNewlineAfter(head, rest);
      assert s[..|head|] == head;
      assert s[|head| + 1..] == rest;
      assert StripCr(head) == head;
      assert Lines(s) == [head] + Lines(rest);
      assert forall l :: l in ls[1..] ==> l in ls;
      LinesOfJoin(ls[1..]);
      assert ls == [head] + ls[1..];
    }
  }

  lemma FirstNewlineAfter(head: string, rest: string)
    requires '\n' !in head
    ensures IndexOfNewline(head + ("\n" + rest)) == Some(|head|)
  {
    var s := head + ("\n" + rest);
    assert s[|head|] == '\n';
    assert s[..|head|] == head;
    assert forall k :: 0 <= k < |head| ==> s[k] == head[k];
    assert forall k :: |head| < k <= |s| ==> s[..k][|head|] == '\n';
  }

  /** `.filter(|line| !line.trim().is_empty())`: the non-blank lines, untrimmed and in order. */
  function NonBlank(ls: seq<string>): (r: seq<string>)
    ensures forall l :: l in r <==> l in ls && !Blank(l)
    ensures |r| <= |ls|
  {
    if ls == [] then []
    else (if Blank(ls[0]) then [] else [ls[0]]) + NonBlank(ls[1..])
  }

  /** The filter keeps order: filtering two batches one after the other is filtering them together. */
  lemma {:induction false} NonBlankAppend(a: seq<string>, b: seq<string>)
    ensures NonBlank(a + b) == NonBlank(a) + NonBlank(b)
  {
    if a != [] {
      assert (a + b)[1..] == a[1..] + b;
      NonBlankAppend(a[1..], b);
    } else {
      assert a + b == b;
    }
  }

  /** Filtering twice is filtering once. */
  lemma {:induction false} NonBlankIdempotent(ls: seq<string>)
    ensures NonBlank(NonBlank(ls)) == NonBlank(ls)
  {
    if ls != [] {
      NonBlankIdempotent(ls[1..]);
      if !Blank(ls[0]) {
        var r := NonBlank(ls);
        assert r == [ls[0]] + NonBlank(ls[1..]);
        assert r[0] == ls[0] && r[1..] == NonBlank(ls[1..]);
        assert NonBlank(r) == [r[0]] + NonBlank(r[1..]);
      } else {
        assert NonBlank(ls) == [] + NonBlank(ls[1..]) == NonBlank(ls[1..]);
      }
    }
  }

  /** What PowerShell returned: a failure to start, or its exit status and output. */
  datatype PowerShell = CouldNotStart(err: string) | Exited(success: bool, stdout: string, stderr: string)

  /**
   * `get_missing_windows_updates`: on Unix always the empty list; on
   * Windows an error when PowerShell cannot start or exits unsuccessfully,
   * otherwise the non-blank lines of its output, in order.
   */
  function GetMissingWindowsUpdates(windows: bool, ps: PowerShell): (r: Result<seq<string>, string>)
    ensures !windows ==> r == Ok([])
    ensures windows && ps.CouldNotStart? ==> r == Err("Failed to execute PowerShell: " + ps.err)
    ensures windows && ps.Exited? && !ps.success ==> r == Err("PowerShell script failed: " + ps.stderr)
    ensures windows && ps.Exited? && ps.success ==> r == Ok(NonBlank(Lines(ps.stdout)))
  {
    if !windows then Ok([])
    else match ps
      case CouldNotStart(e) => Err("Failed to execute PowerShell: " + e)
      case Exited(ok, out, err) => if !ok then Err("PowerShell script failed: " + err) else Ok(NonBlank(Lines(out)))
  }

  /** A list of titles written out one per line comes back as the non-blank titles, in order. */
  lemma TitlesComeBack(titles: seq<string>)
    requires forall l :: l in titles ==> '\n' !in l && (l == [] || l[|l| - 1] != '\r')
    ensures GetMissingWindowsUpdates(true, Exited(true, JoinLines(titles), "")) == Ok(NonBlank(titles))
  {
    LinesOfJoin(titles);
  }
}
