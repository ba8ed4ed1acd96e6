/**
 * `_clean_json_response`: the judge's reply with a surrounding Markdown
 * code fence removed, so that what is left can be handed to the JSON parser.
 */
module Fence {
  import opened Text

  const FENCE := "```"

  /**
   * Strips the reply; a reply that then opens with a fence loses its first
   * line, and its last line too when that line is a bare fence; the rejoined
   * lines are stripped once more.
   */
  function CleanJsonResponse(content: string): (r: string)
    ensures NoOuterSpace(r)
  {
    var c := Strip(content);
    if StartsWith(c, FENCE) then Unfence(c) else c
  }

  /** The lines of `c` without the opening line and without a closing fence line, rejoined and stripped. */
  function Unfence(c: string): (r: string)
    ensures NoOuterSpace(r)
  {
    Strip(Join(DropClosing(DropOpening(Split(c, '\n'))), "\n"))
  }

  /** The lines without the first, when the first opens with a fence. */
  function DropOpening(lines: seq<string>): (r: seq<string>)
    requires |lines| >= 1
  {
    if StartsWith(lines[0], FENCE) then lines[1..] else lines
  }

  /** The lines without the last, when the last is a bare fence up to white space. */
  function DropClosing(lines: seq<string>): (r: seq<string>)
  {
    if |lines| > 0 && Strip(lines[|lines| - 1]) == FENCE then lines[..|lines| - 1] else lines
  }

  /** A reply that does not open with a fence, once stripped, is only stripped. */
  lemma UnfencedIsStripped(content: string)
    requires !StartsWith(Strip(content), FENCE)
    ensures CleanJsonResponse(content) == Strip(content)
  {
  }

  /** Cleaning a cleaned reply that no longer opens with a fence changes nothing. */
  lemma CleanSettles(content: string)
    requires !StartsWith(CleanJsonResponse(content), FENCE)
    ensures CleanJsonResponse(CleanJsonResponse(content)) == CleanJsonResponse(content)
  {
    StripKeeps(CleanJsonResponse(content));
  }

  /** The first piece of a split runs up to the first separator. */
  lemma {:induction false} SplitHead(x: string, sep: char, y: string)
    requires sep !in x
    ensures Split(x + y, sep)[0] == x + Split(y, sep)[0]
  {
    if x != [] {
      assert (x + y)[1..] == x[1..] + y;
      SplitHead(x[1..], sep, y);
      assert [x[0]] + (x[1..] + Split(y, sep)[0]) == x + Split(y, sep)[0];
    } else {
      assert x + y == y;
    }
  }

  /**
   * A stripped reply that opens with a fence has a first line that opens
   * with a fence: the first-line test of the source always holds.
   */
  lemma FirstLineIsFence(c: string)
    requires StartsWith(c, FENCE)
    ensures StartsWith(Split(c, '\n')[0], FENCE)
    ensures Unfence(c) == Strip(Join(DropClosing(Split(c, '\n')[1..]), "\n"))
  {
    assert c == FENCE + c[3..];
    SplitHead(FENCE, '\n', c[3..]);
  }

  /**
   * Round trip: a body wrapped in a fence with a language tag on the
   * opening line comes back stripped.
   */
  lemma FencedBodyRecovered(tag: string, body: string)
    requires '\n' !in tag
    ensures CleanJsonResponse(FENCE + tag + "\n" + body + "\n" + FENCE) == Strip(body)
  {
    var head := FENCE + tag;
    assert StartsWith(head, FENCE) by {
      assert head[..3] == FENCE;
    }
    assert '\n' !in head by {
      assert forall k :: 0 <= k < |head| ==> head[k] == (if k < 3 then '`' else tag[k - 3]);
    }
    FencedLinesRecovered(head, body, FENCE + tag + "\n" + body + "\n" + FENCE);
  }

  /** The same round trip for any opening line that starts with a fence. */
  lemma FencedLinesRecovered(head: string, body: string, s: string)
    requires StartsWith(head, FENCE) && '\n' !in head
    requires s == head + "\n" + body + "\n" + FENCE
    ensures CleanJsonResponse(s) == Strip(body)
  {
    var bodyLines := Split(body, '\n');
    FencedReplyKept(head, body, s);
    FencedLines(head, body, s);
    JoinSplit(body, '\n');
    UnfenceClosed(s, bodyLines, body);
  }

  /** A stripped reply whose lines after the opening one end in a bare fence loses exactly those two lines. */
  lemma UnfenceClosed(s: string, bodyLines: seq<string>, body: string)
    requires Strip(s) == s && StartsWith(s, FENCE)
    requires DropOpening(Split(s, '\n')) == bodyLines + [FENCE]
    requires Join(bodyLines, "\n") == body
    ensures CleanJsonResponse(s) == Strip(body)
  {
    ClosingFenceDropped(bodyLines);
    assert Unfence(s) == Strip(body);
  }

  /** A last line that is exactly a fence is dropped. */
  lemma ClosingFenceDropped(lines: seq<string>)
    ensures DropClosing(lines + [FENCE]) == lines
  {
    StripKeeps(FENCE);
    assert (lines + [FENCE])[..|lines|] == lines;
  }

  /** A reply that opens and closes with a fence character is left alone by the first strip. */
  lemma FencedReplyKept(head: string, body: string, s: string)
    requires StartsWith(head, FENCE)
    requires s == head + "\n" + body + "\n" + FENCE
    ensures Strip(s) == s && StartsWith(s, FENCE)
  {
    assert s[..3] == head[..3];
    assert s[0] == head[0] == '`';
    assert s[|s| - 1] == '`';
    StripKeeps(s);
  }

  /** The lines of a fenced reply: the opening line, the body's lines, the closing fence. */
  lemma FencedLines(head: string, body: string, s: string)
    requires StartsWith(head, FENCE) && '\n' !in head
    requires s == head + "\n" + body + "\n" + FENCE
    ensures Split(s, '\n') == [head] + Split(body, '\n') + [FENCE]
    ensures DropOpening(Split(s, '\n')) == Split(body, '\n') + [FENCE]
  {
    FenceIsOneLine();
    SplitFramed(head, body, FENCE, '\n');
    OpeningLineDropped(head, Split(body, '\n') + [FENCE]);
  }

  /** A first line that opens with a fence is dropped. */
  lemma OpeningLineDropped(head: string, rest: seq<string>)
    requires StartsWith(head, FENCE)
    ensures DropOpening([head] + rest) == rest
  {
    assert ([head] + rest)[1..] == rest;
  }

  lemma FenceIsOneLine()
    ensures '\n' !in FENCE
  {
  }

  /** A text framed by two separator-free lines splits into the first, the lines between, and the last. */
  lemma SplitFramed(head: string, body: string, tail: string, sep: char)
    requires sep !in head && sep !in tail
    ensures Split(head + [sep] + body + [sep] + tail, sep) == [head] + Split(body, sep) + [tail]
  {
    assert head + [sep] + body + [sep] + tail == head + [sep] + (body + [sep] + tail);
    SplitAt(head, sep, body + [sep] + tail);
    SplitAt(body, sep, tail);
    SplitWithoutSep(head, sep);
    SplitWithoutSep(tail, sep);
  }

  /** Joining all but the last line is a prefix of joining them all. */
  lemma {:induction false} JoinInit(lines: seq<string>, sep: string)
    requires |lines| >= 2
    ensures Join(lines, sep) == Join(lines[..|lines| - 1], sep) + sep + lines[|lines| - 1]
  {
    if |lines| > 2 {
      JoinInit(lines[1..], sep);
      assert lines[1..][..|lines[1..]| - 1] == lines[..|lines| - 1][1..];
    }
  }

  /** A string contains `t` at position `i`. */
  predicate SliceAt(s: string, t: string, i: nat) {
    i + |t| <= |s| && forall k :: 0 <= k < |t| ==> s[i + k] == t[k]
  }

  lemma SliceTransitive(s: string, t: string, i: nat, u: string, j: nat)
    requires SliceAt(s, t, i) && SliceAt(t, u, j)
    ensures SliceAt(s, u, i + j)
  {
    forall k | 0 <= k < |u| ensures s[i + j + k] == u[k] {
      assert u[k] == t[j + k];
    }
  }

  /** `StripIsSlice` in the pointwise form used here, with the start as a result. */
  lemma StripSlice(s: string) returns (i: nat)
    ensures SliceAt(s, Strip(s), i)
  {
    StripIsSlice(s);
    var r := Strip(s);
    i :| 0 <= i <= |s| - |r| && r == s[i..i + |r|] && AllSpace(s[..i]) && AllSpace(s[i + |r|..]);
    forall k | 0 <= k < |r| ensures s[i + k] == r[k] {
      assert r[k] == s[i..i + |r|][k];
    }
  }

  /** The lines after the first, rejoined, are what follows the first newline. */
  lemma DropFirstLine(c: string, lines: seq<string>) returns (i: nat)
    requires lines == Split(c, '\n')
    ensures SliceAt(c, Join(lines[1..], "\n"), i)
  {
    JoinSplit(c, '\n');
    if |lines| == 1 {
      i := 0;
    } else {
      i := |lines[0]| + 1;
      assert c == lines[0] + "\n" + Join(lines[1..], "\n");
      assert c[i..] == Join(lines[1..], "\n");
    }
  }

  /** Dropping the last of several lines leaves a prefix of the joined text. */
  lemma DropLastLine(lines: seq<string>)
    requires |lines| >= 1
    ensures SliceAt(Join(lines, "\n"), Join(lines[..|lines| - 1], "\n"), 0)
  {
    if |lines| >= 2 {
      JoinInit(lines, "\n");
    }
  }

  /** Dropping a closing fence line leaves a prefix of the joined lines. */
  lemma ClosedPrefix(body: seq<string>)
    ensures SliceAt(Join(body, "\n"), Join(DropClosing(body), "\n"), 0)
  {
    if DropClosing(body) != body {
      DropLastLine(body);
    }
  }

  /** Unfencing keeps one contiguous piece of a reply that opens with a fence. */
  lemma UnfenceSlice(c: string) returns (j: nat)
    requires StartsWith(c, FENCE)
    ensures SliceAt(c, Unfence(c), j)
  {
    FirstLineIsFence(c);
    j := AfterFirstLineSlice(c);
  }

  /** Dropping the first line, then a closing fence line, then stripping keeps one contiguous piece. */
  lemma AfterFirstLineSlice(c: string) returns (j: nat)
    ensures SliceAt(c, Strip(Join(DropClosing(Split(c, '\n')[1..]), "\n")), j)
  {
    var lines := Split(c, '\n');
    var i := DropFirstLine(c, lines);
    j := ClosedSliceWithin(c, lines[1..], i);
  }

  /** A piece of lines found inside a text keeps its unfenced, stripped form inside that text. */
  lemma ClosedSliceWithin(c: string, body: seq<string>, i: nat) returns (j: nat)
    requires SliceAt(c, Join(body, "\n"), i)
    ensures SliceAt(c, Strip(Join(DropClosing(body), "\n")), j)
  {
    var k := ClosedSlice(body);
    j := i + k;
    SliceTransitive(c, Join(body, "\n"), i, Strip(Join(DropClosing(body), "\n")), k);
  }

  /** Dropping a closing fence line and stripping keeps one contiguous piece of the joined lines. */
  lemma ClosedSlice(body: seq<string>) returns (i: nat)
    ensures SliceAt(Join(body, "\n"), Strip(Join(DropClosing(body), "\n")), i)
  {
    ClosedPrefix(body);
    i := StripWithin(Join(body, "\n"), Join(DropClosing(body), "\n"), 0);
  }

  /** Stripping a piece of a text leaves a piece of that text. */
  lemma StripWithin(s: string, t: string, i: nat) returns (j: nat)
    requires SliceAt(s, t, i)
    ensures SliceAt(s, Strip(t), j)
  {
    var k := StripSlice(t);
    j := i + k;
    SliceTransitive(s, t, i, Strip(t), k);
  }

  /** The cleaned reply is one contiguous piece of the reply. */
  lemma CleanIsSlice(content: string)
    ensures exists i :: SliceAt(content, CleanJsonResponse(content), i)
  {
    var c := Strip(content);
    var i0 := StripSlice(content);
    if StartsWith(c, FENCE) {
      var j := UnfenceSlice(c);
      SliceTransitive(content, c, i0, Unfence(c), j);
      assert SliceAt(content, CleanJsonResponse(content), i0 + j);
    } else {
      assert SliceAt(content, CleanJsonResponse(content), i0);
    }
  }
}
