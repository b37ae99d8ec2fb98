/** The motion command (`Gcode` in controller.py) and its wire text.

    A command is a command word followed by optional X, Y and F words.  The
    Python code renders each number with `round(float(v), 4)` and `str`;
    that number-to-text conversion is a parameter `render` here, so that
    only the token structure is modelled. */
module GcodeText {
  import opened Options

  /** One motion command: the command word, the X and Y targets (absolute
      coordinates) and the feed rate, each of which may be `None`. */
  datatype Gcode = Gcode(cmd: string, x: Option<real>, y: Option<real>, feed: Option<real>)

  /** How a number is written on the wire. */
  type Renderer = real -> string

  /** The text of one optional numeric word: the letter followed by the
      rendered number, or nothing at all. */
  function Word(letter: char, v: Option<real>, render: Renderer): seq<string>
  {
    match v
    case None => []
    case Some(n) => [[letter] + render(n)]
  }

  /** 1 when the component is present, 0 when it is omitted. */
  function Present(v: Option<real>): nat
  {
    if v.Some? then 1 else 0
  }

  /** The words of a command, in wire order: the command word, then the X,
      Y and F words of exactly the present components, each the letter
      followed by the rendered number. */
  function Tokens(g: Gcode, render: Renderer): (toks: seq<string>)
    ensures |toks| == 1 + Present(g.x) + Present(g.y) + Present(g.feed)
    ensures toks[0] == g.cmd
    ensures g.x.Some? ==> toks[1] == ['X'] + render(g.x.value)
    ensures g.y.Some? ==> toks[1 + Present(g.x)] == ['Y'] + render(g.y.value)
    ensures g.feed.Some? ==> toks[1 + Present(g.x) + Present(g.y)] == ['F'] + render(g.feed.value)
  {
    [g.cmd] + Word('X', g.x, render) + Word('Y', g.y, render) + Word('F', g.feed, render)
  }

  /** `' '.join(toks)`: the words separated by single spaces.  The text
      starts with the first word, followed by a space when more words
      follow. */
  function Join(toks: seq<string>): (s: string)
    requires |toks| > 0
    ensures |toks[0]| <= |s| && s[..|toks[0]|] == toks[0]
    ensures |toks| > 1 ==> |s| > |toks[0]| && s[|toks[0]|] == ' '
    ensures |toks| == 1 ==> s == toks[0]
  {
    if |toks| == 1 then toks[0] else toks[0] + " " + Join(toks[1..])
  }

  /** The wire text of a command (the `code` property): it starts with the
      command word, and is exactly the command word when no component is
      present. */
  function Code(g: Gcode, render: Renderer): (s: string)
    ensures |g.cmd| <= |s| && s[..|g.cmd|] == g.cmd
    ensures |s| == |g.cmd| <==> g.x.None? && g.y.None? && g.feed.None?
  {
    Join(Tokens(g, render))
  }

  /** Splitting text at every single space; the inverse of `Join` on words
      that contain no space. */
  function Split(s: string): (r: seq<string>)
    ensures |r| > 0
  {
    if |s| == 0 then [""]
    else
      var rest := Split(s[1..]);
      if s[0] == ' ' then [""] + rest
      else [[s[0]] + rest[0]] + rest[1..]
  }

  /** The fields recovered from a command's text: the command word and the
      text of each numeric word that is present. */
  datatype Fields = Fields(cmd: string, x: Option<string>, y: Option<string>, feed: Option<string>)

  /** Takes the leading word if it starts with `letter`. */
  function TakeWord(letter: char, toks: seq<string>): (r: (Option<string>, seq<string>))
    ensures r.0.None? ==> r.1 == toks
    ensures r.0.Some? ==> |toks| > 0 && toks[0] == [letter] + r.0.value && r.1 == toks[1..]
  {
    if |toks| > 0 && |toks[0]| > 0 && toks[0][0] == letter then (Some(toks[0][1..]), toks[1..])
    else (None, toks)
  }

  /** Reads a command's text back: a command word, then optional X, Y and F
      words in that order, and nothing else. */
  function Parse(code: string): Option<Fields>
  {
    var toks := Split(code);
    var (x, t1) := TakeWord('X', toks[1..]);
    var (y, t2) := TakeWord('Y', t1);
    var (f, t3) := TakeWord('F', t2);
    if t3 == [] then Some(Fields(toks[0], x, y, f)) else None
  }

  /** The rendered text of an optional number. */
  function RenderOpt(v: Option<real>, render: Renderer): Option<string>
  {
    match v
    case None => None
    case Some(n) => Some(render(n))
  }

  /** A renderer whose output never contains a space. */
  ghost predicate SpaceFree(render: Renderer)
  {
    forall n :: ' ' !in render(n)
  }

  lemma {:induction false} SplitNoSpace(t: string)
    requires ' ' !in t
    ensures Split(t) == [t]
    decreases |t|
  {
    if |t| > 0 {
      SplitNoSpace(t[1..]);
      assert [t[0]] + t[1..] == t;
    }
  }

  lemma {:induction false} SplitAfterWord(t: string, u: string)
    requires ' ' !in t
    ensures Split(t + " " + u) == [t] + Split(u)
    decreases |t|
  {
    var s := t + " " + u;
    if |t| == 0 {
      assert s[1..] == u;
    } else {
      assert s[1..] == t[1..] + " " + u;
      SplitAfterWord(t[1..], u);
      assert [t[0]] + t[1..] == t;
    }
  }

  /** Splitting joined words gives the words back, provided no word holds a
      space. */
  lemma {:induction false} SplitJoin(toks: seq<string>)
    requires |toks| > 0
    requires forall k :: 0 <= k < |toks| ==> ' ' !in toks[k]
    ensures Split(Join(toks)) == toks
    decreases |toks|
  {
    if |toks| == 1 {
      SplitNoSpace(toks[0]);
    } else {
      SplitJoin(toks[1..]);
      SplitAfterWord(toks[0], Join(toks[1..]));
    }
  }

  /** The text of a command has one word per present component, in the
      order command, X, Y, F, and reading it back recovers the command word
      and the rendered value of exactly the components that are present. */
  lemma ParseCode(g: Gcode, render: Renderer)
    requires ' ' !in g.cmd
    requires SpaceFree(render)
    ensures Split(Code(g, render)) == Tokens(g, render)
    ensures Parse(Code(g, render)) == Some(Fields(g.cmd, RenderOpt(g.x, render), RenderOpt(g.y, render), RenderOpt(g.feed, render)))
  {
    var toks := Tokens(g, render);
    var wx, wy, wf := Word('X', g.x, render), Word('Y', g.y, render), Word('F', g.feed, render);
    assert toks == [g.cmd] + wx + wy + wf;
    forall k | 0 <= k < |toks|
      ensures ' ' !in toks[k]
    {
      if k > 0 {
        assert toks[k] in wx + wy + wf;
      }
    }
    SplitJoin(toks);
    assert toks[1..] == wx + wy + wf;
    TakeWordOf('X', g.x, render, wy + wf);
    TakeWordOf('Y', g.y, render, wf);
    TakeWordOf('F', g.feed, render, []);
  }

  /** Reading a word back: `TakeWord` returns the rendered number of a
      present component and passes over an absent one, provided the next
      word starts with another letter. */
  lemma TakeWordOf(letter: char, v: Option<real>, render: Renderer, rest: seq<string>)
    requires |rest| > 0 ==> |rest[0]| > 0 && rest[0][0] != letter
    ensures TakeWord(letter, Word(letter, v, render) + rest) == (RenderOpt(v, render), rest)
  {
    var toks := Word(letter, v, render) + rest;
    if v.Some? {
      assert toks[0] == [letter] + render(v.value);
      assert toks[0][1..] == render(v.value);
      assert toks[1..] == rest;
    } else {
      assert toks == rest;
    }
  }

  /** The present components of a command. */
  function Components(g: Gcode): set<real>
  {
    (if g.x.Some? then {g.x.value} else {}) + (if g.y.Some? then {g.y.value} else {})
    + (if g.feed.Some? then {g.feed.value} else {})
  }

  /** With a space-free renderer that tells the two commands' values apart,
      equal texts mean equal commands: the wire text determines the
      command. */
  lemma CodeInjective(g1: Gcode, g2: Gcode, render: Renderer)
    requires ' ' !in g1.cmd && ' ' !in g2.cmd
    requires SpaceFree(render)
    requires forall a, b :: a in Components(g1) && b in Components(g2) && render(a) == render(b) ==> a == b
    requires Code(g1, render) == Code(g2, render)
    ensures g1 == g2
  {
    ParseCode(g1, render);
    ParseCode(g2, render);
    var f1 := Fields(g1.cmd, RenderOpt(g1.x, render), RenderOpt(g1.y, render), RenderOpt(g1.feed, render));
    var f2 := Fields(g2.cmd, RenderOpt(g2.x, render), RenderOpt(g2.y, render), RenderOpt(g2.feed, render));
    assert Some(f1) == Some(f2);
    RenderOptInjective(g1.x, g2.x, render);
    RenderOptInjective(g1.y, g2.y, render);
    RenderOptInjective(g1.feed, g2.feed, render);
  }

  lemma RenderOptInjective(a: Option<real>, b: Option<real>, render: Renderer)
    requires a.Some? && b.Some? && render(a.value) == render(b.value) ==> a.value == b.value
    requires RenderOpt(a, render) == RenderOpt(b, render)
    ensures a == b
  {
  }
}
