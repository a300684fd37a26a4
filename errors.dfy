/**
 * Go error values as the composer sees them: opaque leaf errors and the
 * aggregate built by `errors.Join`, plus the single error that an
 * `errgroup.Group` hands back from `Wait`.
 */
module Errors {
  import opened Wrappers

  /** An error value. `Failure` is any error a delivery handler returns
      (opaque to the composer); `Joined` is the value `errors.Join` builds. */
  datatype Error = Failure(text: string) | Joined(errs: seq<Error>)

  /** `err.Error()`: the text of a joined error is the texts of its
      constituents separated by newlines. */
  function Message(e: Error): (r: string)
    ensures e.Failure? ==> r == e.text
    ensures e.Joined? && |e.errs| == 1 ==> r == Message(e.errs[0])
    decreases e, 1
  {
    match e
    case Failure(t) => t
    case Joined(es) => JoinLines(es)
  }

  /** The texts of `es`, newline separated. */
  function JoinLines(es: seq<Error>): string
    decreases es, 0
  {
    if |es| == 0 then ""
    else if |es| == 1 then Message(es[0])
    else JoinLines(es[..|es| - 1]) + "\n" + Message(es[|es| - 1])
  }

  /** `errors.Unwrap`-style access to the constituents of an aggregate. */
  function Unwrap(e: Error): seq<Error>
  {
    match e
    case Failure(_) => []
    case Joined(es) => es
  }

  /** `errors.Join(errs...)` applied to a list of non-nil errors: nil exactly
      when there is nothing to join, otherwise one aggregate that keeps every
      constituent, in order. */
  function Join(errs: seq<Error>): (r: Option<Error>)
    ensures r == None <==> errs == []
    ensures r.Some? ==> Unwrap(r.value) == errs
  {
    if errs == [] then None else Some(Joined(errs))
  }

  /** `errgroup.Group.Wait()`: the group keeps only the first non-nil error
      that a task returned. Which failure arrives first depends on scheduling;
      `pick` stands for the scheduler and chooses among the failures. */
  function GroupWait(failures: seq<Error>, pick: seq<Error> -> nat): (r: Option<Error>)
    ensures r == None <==> failures == []
    ensures r.Some? ==> r.value in failures
  {
    if failures == [] then None
    else Some(failures[pick(failures) % |failures|])
  }

  /** Every failure is one the group may report: for each failing task there
      is a schedule under which its error is the one `Wait` returns. */
  lemma AnyFailureMayBeReported(failures: seq<Error>, e: Error)
    requires e in failures
    ensures exists pick: seq<Error> -> nat :: GroupWait(failures, pick) == Some(e)
  {
    var i :| 0 <= i < |failures| && failures[i] == e;
    var pick := (_: seq<Error>) => i;
    assert pick(failures) % |failures| == i;
    assert GroupWait(failures, pick) == Some(e);
  }

  /** The text of an aggregate contains the text of each constituent. */
  lemma {:induction false} JoinLinesMentions(es: seq<Error>, k: nat)
    requires k < |es|
    ensures exists pre: string, post: string :: JoinLines(es) == pre + Message(es[k]) + post
    decreases |es|
  {
    var n := |es|;
    if n == 1 {
      assert JoinLines(es) == [] + Message(es[0]) + [];
    } else if k == n - 1 {
      var pre := JoinLines(es[..n - 1]) + "\n";
      assert JoinLines(es) == pre + Message(es[k]) + [];
    } else {
      var front := es[..n - 1];
      assert front[k] == es[k];
      JoinLinesMentions(front, k);
      var pre, post :| JoinLines(front) == pre + Message(front[k]) + post;
      var post' := post + "\n" + Message(es[n - 1]);
      assert JoinLines(es) == pre + Message(es[k]) + post';
    }
  }

  /** The text of a joined error mentions every constituent's text. */
  lemma JoinMentionsEach(errs: seq<Error>, k: nat)
    requires k < |errs|
    ensures Join(errs).Some?
    ensures exists pre: string, post: string :: Message(Join(errs).value) == pre + Message(errs[k]) + post
  {
    JoinLinesMentions(errs, k);
  }

  /** Joining a joined error in place reads the same as joining its parts. */
  lemma JoinLinesInline(a: seq<Error>, m: seq<Error>, b: seq<Error>)
    requires m != []
    ensures JoinLines(a + [Joined(m)] + b) == JoinLines(a + m + b)
  {
    JoinLinesAppend(a, [Joined(m)] + b);
    JoinLinesAppend([Joined(m)], b);
    JoinLinesAppend(a, m + b);
    JoinLinesAppend(m, b);
    assert a + [Joined(m)] + b == a + ([Joined(m)] + b);
    assert a + m + b == a + (m + b);
    assert JoinLines([Joined(m)]) == JoinLines(m);
  }

  /** The text of a join of two non-empty lists is their texts, newline
      separated. */
  lemma {:induction false} JoinLinesAppend(a: seq<Error>, b: seq<Error>)
    ensures a != [] && b != [] ==> JoinLines(a + b) == JoinLines(a) + "\n" + JoinLines(b)
    ensures a == [] ==> JoinLines(a + b) == JoinLines(b)
    ensures b == [] ==> JoinLines(a + b) == JoinLines(a)
    decreases |b|
  {
    if a == [] {
      assert a + b == b;
    } else if b == [] {
      assert a + b == a;
    } else if |b| == 1 {
      assert (a + b)[..|a + b| - 1] == a;
    } else {
      var n := |b|;
      JoinLinesAppend(a, b[..n - 1]);
      assert (a + b)[..|a + b| - 1] == a + b[..n - 1];
    }
  }
}
