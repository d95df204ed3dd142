/**
 * The line framing both ends of the chat stream use: append a decoded chunk to the buffer,
 * `split('\n')`, keep the last piece as the new buffer and handle the complete lines.
 */
module LineFramer {
  import opened Text

  /** The index of the first '\n' of `s`, when there is one. */
  function NewlineIndex(s: string): (k: int)
    ensures -1 <= k < |s|
    ensures k >= 0 ==> s[k] == '\n' && '\n' !in s[..k]
    ensures k < 0 ==> '\n' !in s
  {
    if s == [] then -1
    else if s[0] == '\n' then 0
    else
      var k := NewlineIndex(s[1..]);
      assert s == [s[0]] + s[1..];
      if k < 0 then -1
      else
        assert s[..k + 1] == [s[0]] + s[1..][..k];
        k + 1
  }

  /** `s.split('\n')` */
  function Split(s: string): (r: seq<string>)
    ensures |r| >= 1
    decreases |s|
  {
    var k := NewlineIndex(s);
    if k < 0 then [s] else [s[..k]] + Split(s[k + 1..])
  }

  /** `lines.join('\n')` */
  function Join(ls: seq<string>): string
    decreases |ls|
  {
    if |ls| == 0 then "" else if |ls| == 1 then ls[0] else ls[0] + "\n" + Join(ls[1..])
  }

  predicate NoNewlines(ls: seq<string>) {
    forall i :: 0 <= i < |ls| ==> '\n' !in ls[i]
  }

  /** Splitting loses nothing and leaves no separator inside a piece. */
  lemma {:induction false} SplitJoin(s: string)
    ensures Join(Split(s)) == s
    ensures NoNewlines(Split(s))
    decreases |s|
  {
    var k := NewlineIndex(s);
    if k >= 0 {
      var rest := s[k + 1..];
      SplitJoin(rest);
      assert s == s[..k] + "\n" + rest;
      assert Split(s)[1..] == Split(rest);
    }
  }

  lemma {:induction false} NewlineOfJoin(ls: seq<string>)
    requires |ls| >= 2 && NoNewlines(ls)
    ensures NewlineIndex(Join(ls)) == |ls[0]|
  {
    var s := Join(ls);
    var k := NewlineIndex(s);
    assert s == ls[0] + ("\n" + Join(ls[1..]));
    assert s[|ls[0]|] == '\n';
    assert s[..|ls[0]|] == ls[0];
  }

  /** The lines a text splits into are the only newline-free ones that join back to it. */
  lemma {:induction false} SplitUnique(ls: seq<string>)
    requires |ls| >= 1 && NoNewlines(ls)
    ensures Split(Join(ls)) == ls
    decreases |ls|
  {
    if |ls| == 1 {
      assert '\n' !in ls[0];
    } else {
      var s := Join(ls);
      NewlineOfJoin(ls);
      assert s == ls[0] + ("\n" + Join(ls[1..]));
      assert s[..|ls[0]|] == ls[0];
      assert s[|ls[0]| + 1..] == Join(ls[1..]);
      SplitUnique(ls[1..]);
    }
  }

  lemma {:induction false} JoinAppend(a: seq<string>, b: seq<string>)
    requires |a| >= 1 && |b| >= 1
    ensures Join(a + b) == Join(a) + "\n" + Join(b)
    decreases |a|
  {
    if |a| == 1 {
      assert (a + b)[1..] == b;
    } else {
      assert (a + b)[1..] == a[1..] + b;
      JoinAppend(a[1..], b);
    }
  }

  /** One framing step: the complete lines, and the new buffer `lines.pop() || ''`. */
  function Frame(buffer: string, chunk: string): (r: (seq<string>, string))
    ensures NoNewlines(r.0) && '\n' !in r.1
    ensures Join(r.0 + [r.1]) == buffer + chunk
  {
    var ls := Split(buffer + chunk);
    SplitJoin(buffer + chunk);
    assert ls[..|ls| - 1] + [ls[|ls| - 1]] == ls;
    (ls[..|ls| - 1], ls[|ls| - 1])
  }

  /**
   * How the text is cut into chunks does not matter: framing `c1` then `c2` yields the same
   * complete lines and the same buffer as framing `c1 + c2` at once.
   */
  lemma ChunkBoundaryIrrelevant(buffer: string, c1: string, c2: string)
    ensures var (l1, r1) := Frame(buffer, c1);
      var (l2, r2) := Frame(r1, c2);
      Frame(buffer, c1 + c2) == (l1 + l2, r2)
  {
    var f1 := Frame(buffer, c1);
    var f2 := Frame(f1.1, c2);
    var tail := f2.0 + [f2.1];
    ConcatNoNewlines(f2.0, [f2.1]);
    ConcatNoNewlines(f1.0, f2.0);
    GlueJoin(f1.0, f1.1, tail, c2);
    assert f1.0 + tail == (f1.0 + f2.0) + [f2.1];
    assert buffer + (c1 + c2) == (buffer + c1) + c2;
    FrameUnique(buffer, c1 + c2, f1.0 + f2.0, f2.1);
  }

  /** The framing of a text is the only split into complete lines and a newline-free rest. */
  lemma FrameUnique(buffer: string, chunk: string, ls: seq<string>, rest: string)
    requires NoNewlines(ls) && '\n' !in rest && Join(ls + [rest]) == buffer + chunk
    ensures Frame(buffer, chunk) == (ls, rest)
  {
    var all := ls + [rest];
    ConcatNoNewlines(ls, [rest]);
    SplitUnique(all);
    assert all[..|all| - 1] == ls;
  }

  lemma ConcatNoNewlines(a: seq<string>, b: seq<string>)
    requires NoNewlines(a) && NoNewlines(b)
    ensures NoNewlines(a + b)
  {
    forall i | 0 <= i < |a + b| ensures '\n' !in (a + b)[i] {
      if i < |a| { assert (a + b)[i] == a[i]; } else { assert (a + b)[i] == b[i - |a|]; }
    }
  }

  /** Joining complete lines in front of a tail that continues the old partial line. */
  lemma GlueJoin(l1: seq<string>, r1: string, tail: seq<string>, c2: string)
    requires |tail| >= 1 && Join(tail) == r1 + c2
    ensures Join(l1 + tail) == Join(l1 + [r1]) + c2
  {
    if l1 == [] {
      assert l1 + tail == tail;
      assert l1 + [r1] == [r1];
    } else {
      JoinAppend(l1, tail);
      JoinAppend(l1, [r1]);
      assert Join([r1]) == r1;
    }
  }

  const DATA_PREFIX := "data: "
  const DONE := "[DONE]"

  /** `line.startsWith('data: ')` */
  predicate IsDataLine(line: string) {
    StartsWith(line, DATA_PREFIX)
  }

  /** `line.slice(6).trim()` */
  function Payload(line: string): string
    requires IsDataLine(line)
  {
    Trim(line[|DATA_PREFIX|..])
  }
}
