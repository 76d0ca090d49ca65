/** `render_latex` in mlabtex/core.py: render with sympy, fall back to
    matplotlib, and raise `RenderError` only when both renderers fail.
    The renderers themselves are outside the model; each is represented by
    the outcome it would have for the formula at hand. */
module Render {

  /** What one renderer does: it returns, or it raises with a message. */
  datatype Outcome = Done | Failed(msg: string)

  /** The outcomes of the two renderers for one formula. */
  datatype Runs = Runs(sympy: Outcome, mpl: Outcome)

  /** The renderers, in the order `render_latex` tries them. */
  datatype Renderer = Sympy | Mpl

  const Header := "Mlabtex: Could not render the latex-code..."

  /** The message of the `RenderError`, with `sep` for `os.linesep`. */
  function RenderErrorMessage(msg1: string, msg2: string, sep: string): (m: string)
    ensures |m| == |Header| + |msg1| + |msg2| + 3 * |sep|
    ensures m[..|Header|] == Header
  {
    Header + sep + msg1 + sep + msg2 + sep
  }

  predicate AnySucceeds(runs: Runs) {
    runs.sympy.Done? || runs.mpl.Done?
  }

  /** Runs the renderers as `render_latex` does and reports which of them ran. */
  method RenderLatex(runs: Runs, sep: string) returns (r: Outcome, ran: seq<Renderer>)
    ensures ran == if runs.sympy.Done? then [Sympy] else [Sympy, Mpl]
    ensures r.Done? <==> AnySucceeds(runs)
    ensures r.Failed? ==> r.msg == RenderErrorMessage(runs.sympy.msg, runs.mpl.msg, sep)
  {
    ran := [Sympy];
    if runs.sympy.Done? {
      r := Done;
      return;
    }
    ran := ran + [Mpl];
    if runs.mpl.Done? {
      r := Done;
    } else {
      r := Failed(RenderErrorMessage(runs.sympy.msg, runs.mpl.msg, sep));
    }
  }

  /** The error message starts with the header and ends with the separator,
      and carries the sympy message and then the matplotlib message, each
      right after a separator. */
  lemma MessageCarriesBoth(msg1: string, msg2: string, sep: string)
    ensures var m := RenderErrorMessage(msg1, msg2, sep);
      var at1 := |Header| + |sep|;
      var at2 := at1 + |msg1| + |sep|;
      |m| == at2 + |msg2| + |sep| &&
      m[..|Header|] == Header &&
      m[|Header|..at1] == sep &&
      m[at1..at1 + |msg1|] == msg1 &&
      m[at1 + |msg1|..at2] == sep &&
      m[at2..at2 + |msg2|] == msg2 &&
      m[at2 + |msg2|..] == sep
  {
    var m := RenderErrorMessage(msg1, msg2, sep);
    var at1 := |Header| + |sep|;
    var at2 := at1 + |msg1| + |sep|;
    assert m == (((((Header + sep) + msg1) + sep) + msg2) + sep);
    assert m[..at2 + |msg2|] == Header + sep + msg1 + sep + msg2;
    assert m[..at2] == Header + sep + msg1 + sep;
    assert m[..at1 + |msg1|] == Header + sep + msg1;
    assert m[..at1] == Header + sep;
  }

  /** Given the length of the first message, the error message determines
      both underlying messages. */
  lemma MessageDeterminesBoth(a1: string, a2: string, b1: string, b2: string, sep: string)
    requires |a1| == |b1|
    requires RenderErrorMessage(a1, a2, sep) == RenderErrorMessage(b1, b2, sep)
    ensures a1 == b1 && a2 == b2
  {
    MessageCarriesBoth(a1, a2, sep);
    MessageCarriesBoth(b1, b2, sep);
  }
}
