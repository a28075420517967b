/** The read-only pane's lines: how a file's text is split into them, how many columns one
    takes, and what is drawn for its tabs. */
module EditorLines {
  import opened TextPieces

  const TAB_STOP: nat := 8

  type Width = char -> nat

  // ---- columns ----

  function After(width: Width, cols: nat, c: char): (r: nat) {
    cols + (if c == '\t' then TAB_STOP - cols % TAB_STOP else width(c))
  }

  function ColsFrom(width: Width, line: string, cols: nat): (r: nat)
    decreases |line|
  {
    if line == [] then cols else ColsFrom(width, line[1..], After(width, cols, line[0]))
  }

  method DisplayCols(width: Width, line: string) returns (cols: nat)
    ensures cols == ColsFrom(width, line, 0)
  {
    cols := 0;
    var i := 0;
    while i < |line|
      invariant i <= |line| && ColsFrom(width, line[i..], cols) == ColsFrom(width, line, 0)
    {
      cols := After(width, cols, line[i]);
      i := i + 1;
    }
  }

  function Spaces(n: nat): (s: string)
    ensures |s| == n && forall i :: 0 <= i < n ==> s[i] == ' '
  {
    if n == 0 then [] else [' '] + Spaces(n - 1)
  }

  /** What is drawn for one character that stands in column `cols`. */
  function Drawn(c: char, cols: nat): (s: string)
    ensures s != []
  {
    if c == '\t' then Spaces(TAB_STOP - cols % TAB_STOP) else [c]
  }

  function ExpandFrom(width: Width, line: string, cols: nat): (out: string)
    decreases |line|
  {
    if line == [] then [] else Drawn(line[0], cols) + ExpandFrom(width, line[1..], After(width, cols, line[0]))
  }

  lemma {:induction false} NoTabsExpandToThemselves(width: Width, line: string, cols: nat)
    requires '\t' !in line
    ensures ExpandFrom(width, line, cols) == line
    decreases |line|
  {
    if line != [] {
      NoTabsExpandToThemselves(width, line[1..], After(width, cols, line[0]));
    }
  }

  /** One character more of the line is drawn. */
  lemma ExpandStep(width: Width, line: string, i: nat, cols: nat, out: string)
    requires i < |line|
    ensures out + ExpandFrom(width, line[i..], cols)
      == (out + Drawn(line[i], cols)) + ExpandFrom(width, line[i + 1..], After(width, cols, line[i]))
  {
    hide Drawn;
    assert line[i..][1..] == line[i + 1..];
    var rest := ExpandFrom(width, line[i + 1..], After(width, cols, line[i]));
    assert out + (Drawn(line[i], cols) + rest) == (out + Drawn(line[i], cols)) + rest;
  }

  method ExpandTabs(width: Width, line: string) returns (out: string)
    ensures out == ExpandFrom(width, line, 0)
  {
    if '\t' !in line {
      NoTabsExpandToThemselves(width, line, 0);
      return line;
    }
    hide *;
    out := [];
    var cols: nat := 0;
    var i := 0;
    ExpandAll(width, line);
    while i < |line|
      invariant i <= |line| && out + ExpandFrom(width, line[i..], cols) == ExpandFrom(width, line, 0)
    {
      ExpandStep(width, line, i, cols, out);
      DrawnIs(width, line[i], cols);
      if line[i] == '\t' {
        var pad := TAB_STOP - cols % TAB_STOP;
        out := out + Spaces(pad);
        cols := cols + pad;
      } else {
        out := out + [line[i]];
        cols := cols + width(line[i]);
      }
      i := i + 1;
    }
    ExpandRest(width, line, cols, out);
  }

  lemma ExpandAll(width: Width, line: string)
    ensures [] + ExpandFrom(width, line[0..], 0) == ExpandFrom(width, line, 0)
  {
    hide ExpandFrom;
    assert line[0..] == line;
  }

  lemma ExpandRest(width: Width, line: string, cols: nat, out: string)
    ensures out + ExpandFrom(width, line[|line|..], cols) == out
  {
    assert ExpandFrom(width, [], cols) == [];
  }

  lemma DrawnIs(width: Width, c: char, cols: nat)
    ensures var pad := TAB_STOP - cols % TAB_STOP;
      && Drawn(c, cols) == (if c == '\t' then Spaces(pad) else [c])
      && After(width, cols, c) == cols + (if c == '\t' then pad else width(c))
  {}

  lemma {:induction false} ColsConcat(width: Width, a: string, b: string, cols: nat)
    ensures ColsFrom(width, a + b, cols) == ColsFrom(width, b, ColsFrom(width, a, cols))
    decreases |a|
  {
    if a == [] {
      assert a + b == b;
    } else {
      ColsConcat(width, a[1..], b, After(width, cols, a[0]));
      assert (a + b)[1..] == a[1..] + b;
    }
  }

  lemma {:induction false} ColsOfSpaces(width: Width, n: nat, cols: nat)
    requires width(' ') == 1
    ensures ColsFrom(width, Spaces(n), cols) == cols + n
    decreases n
  {
    if n > 0 {
      ColsOfSpaces(width, n - 1, cols + 1);
      assert Spaces(n)[1..] == Spaces(n - 1);
    }
  }

  /** Drawn with its tabs expanded, a line takes the columns it took, and has no tab left. */
  lemma {:induction false} ExpandKeepsColumns(width: Width, line: string, cols: nat)
    requires width(' ') == 1
    ensures var out := ExpandFrom(width, line, cols);
      ColsFrom(width, out, cols) == ColsFrom(width, line, cols) && '\t' !in out
    decreases |line|
  {
    if line != [] {
      var next := After(width, cols, line[0]);
      var head := Drawn(line[0], cols);
      ExpandKeepsColumns(width, line[1..], next);
      ColsConcat(width, head, ExpandFrom(width, line[1..], next), cols);
      if line[0] == '\t' {
        ColsOfSpaces(width, TAB_STOP - cols % TAB_STOP, cols);
      } else {
        assert head[1..] == [];
      }
    }
  }

  lemma {:induction false} ExpandConcat(width: Width, a: string, b: string, cols: nat)
    ensures ExpandFrom(width, a + b, cols) == ExpandFrom(width, a, cols) + ExpandFrom(width, b, ColsFrom(width, a, cols))
    decreases |a|
  {
    if a == [] {
      assert a + b == b;
    } else {
      hide Drawn, After;
      var next := After(width, cols, a[0]);
      ExpandConcat(width, a[1..], b, next);
      assert (a + b)[1..] == a[1..] + b;
      Associates(Drawn(a[0], cols), ExpandFrom(width, a[1..], next), ExpandFrom(width, b, ColsFrom(width, a, cols)));
    }
  }

  lemma Associates(a: string, b: string, c: string)
    ensures a + (b + c) == (a + b) + c
  {}

  lemma ExpandOne(width: Width, c: char, cols: nat)
    ensures ExpandFrom(width, [c], cols) == Drawn(c, cols)
    ensures ColsFrom(width, [c], cols) == After(width, cols, c)
  {
    hide Drawn, After;
    assert ExpandFrom(width, [], After(width, cols, c)) == [];
    assert [c][1..] == [] && Drawn(c, cols) + [] == Drawn(c, cols);
  }

  lemma StartsWith(out: string, a: string, b: string)
    requires out == a + b
    ensures a <= out
  {}

  lemma CutAt(line: string, i: nat)
    requires i <= |line|
    ensures line[..i] + line[i..] == line
  {}

  lemma PrefixIsDrawn(width: Width, a: string, b: string)
    ensures ExpandFrom(width, a, 0) <= ExpandFrom(width, a + b, 0)
  {
    hide *;
    ExpandConcat(width, a, b, 0);
    StartsWith(ExpandFrom(width, a + b, 0), ExpandFrom(width, a, 0), ExpandFrom(width, b, ColsFrom(width, a, 0)));
  }

  lemma LastIsDrawn(width: Width, line: string, i: nat)
    requires i < |line|
    ensures ExpandFrom(width, line[..i + 1], 0)
      == ExpandFrom(width, line[..i], 0) + Drawn(line[i], ColsFrom(width, line[..i], 0))
  {
    hide *;
    var a := line[..i];
    assert line[..i + 1] == a + [line[i]];
    ExpandConcat(width, a, [line[i]], 0);
    ExpandOne(width, line[i], ColsFrom(width, a, 0));
  }

  /** Where the line's i-th character is drawn: right after what is drawn for those before it,
      in the column it was counted at. There it stands as itself or, for a tab, as spaces to the
      next stop; and the next one's place is right after that, so nothing else is ever drawn. */
  lemma ExpandKeepsPlaces(width: Width, line: string, i: nat)
    requires width(' ') == 1 && i < |line|
    ensures var before, col := ExpandFrom(width, line[..i], 0), ColsFrom(width, line[..i], 0);
      && ColsFrom(width, before, 0) == col
      && ExpandFrom(width, line[..i + 1], 0) == before + Drawn(line[i], col)
      && before + Drawn(line[i], col) <= ExpandFrom(width, line, 0)
  {
    hide *;
    ExpandKeepsColumns(width, line[..i], 0);
    LastIsDrawn(width, line, i);
    CutAt(line, i + 1);
    PrefixIsDrawn(width, line[..i + 1], line[i + 1..]);
  }

  // ---- lines ----

  /** The lines of a file's text. */
  function Lines(text: string): (ls: seq<string>) {
    if text == [] then []
    else
      var ls := StripAll(Pieces(text));
      if text[|text| - 1] == '\n' then ls[..|ls| - 1] else ls
  }

  function Join(ls: seq<string>): (s: string) {
    if ls == [] then [] else if |ls| == 1 then ls[0] else ls[0] + ['\n'] + Join(ls[1..])
  }

  /** The text without the carriage returns that end a line. */
  function DropCr(text: string): (r: string) {
    if text == [] then []
    else if text[0] == '\r' && (|text| == 1 || text[1] == '\n') then DropCr(text[1..])
    else [text[0]] + DropCr(text[1..])
  }

  lemma {:induction false} JoinStripped(text: string)
    ensures Join(StripAll(Pieces(text))) == DropCr(text)
    decreases |text|
  {
    assert StripAll(Pieces([])) == [""] && Join([""]) == [] == DropCr([]);
    hide *;
    if text != [] {
      JoinStripped(text[1..]);
      if text[0] == '\n' {
        NewlineStripped(text);
      } else {
        CharStripped(text);
      }
    }
  }

  lemma StripHead(p: string, rest: seq<string>)
    ensures StripAll([p] + rest) == [StripCr(p)] + StripAll(rest)
  {
    assert ([p] + rest)[1..] == rest;
  }

  lemma NewlineStripped(text: string)
    requires text != [] && text[0] == '\n' && Join(StripAll(Pieces(text[1..]))) == DropCr(text[1..])
    ensures Join(StripAll(Pieces(text))) == DropCr(text)
  {
    hide StripAll;
    var rest := Pieces(text[1..]);
    StripHead("", rest);
    assert ([""] + StripAll(rest))[1..] == StripAll(rest);
  }

  lemma CharStripped(text: string)
    requires text != [] && text[0] != '\n' && Join(StripAll(Pieces(text[1..]))) == DropCr(text[1..])
    ensures Join(StripAll(Pieces(text))) == DropCr(text)
  {
    hide StripAll, Join, StripCr;
    var rest, c := Pieces(text[1..]), text[0];
    assert rest == [rest[0]] + rest[1..];
    StripHead(rest[0], rest[1..]);
    StripHead([c] + rest[0], rest[1..]);
    FirstPieceEmpty(text[1..]);
    StripGrows(c, rest[0]);
    if rest[0] != [] || c != '\r' {
      JoinGrows([StripCr(rest[0])] + StripAll(rest[1..]), c);
    }
  }

  lemma StripGrows(c: char, p: string)
    ensures StripCr([c] + p) == if p == [] && c == '\r' then [] else [c] + StripCr(p)
    ensures p == [] ==> StripCr(p) == []
  {}

  lemma JoinGrows(ls: seq<string>, c: char)
    requires ls != []
    ensures Join([[c] + ls[0]] + ls[1..]) == [c] + Join(ls)
  {
    assert ([[c] + ls[0]] + ls[1..])[1..] == ls[1..];
  }

  lemma FirstPieceEmpty(text: string)
    ensures Pieces(text)[0] == [] <==> text == [] || text[0] == '\n'
  {}

  /** Rejoined with newlines, the lines are the text, up to the carriage returns that ended
      lines and the newline that ended the file. */
  lemma LinesRejoin(text: string)
    ensures DropCr(text) == Join(Lines(text)) + (if text != [] && text[|text| - 1] == '\n' then ['\n'] else [])
  {
    assert DropCr([]) == [] == Join([]);
    hide Pieces, StripAll, Join, DropCr;
    JoinStripped(text);
    var ls := StripAll(Pieces(text));
    if text != [] && text[|text| - 1] == '\n' {
      LastPieceEmpty(text);
      assert ls[|ls| - 1] == StripCr([]);
      JoinLast(ls);
    }
  }

  lemma {:induction false} LastPieceEmpty(text: string)
    requires text != [] && text[|text| - 1] == '\n'
    ensures |Pieces(text)| >= 2 && Pieces(text)[|Pieces(text)| - 1] == []
    decreases |text|
  {
    if |text| > 1 {
      LastPieceEmpty(text[1..]);
    } else {
      assert text[1..] == [];
    }
  }

  lemma {:induction false} JoinLast(ls: seq<string>)
    requires |ls| >= 2 && ls[|ls| - 1] == []
    ensures Join(ls) == Join(ls[..|ls| - 1]) + ['\n']
    decreases |ls|
  {
    var init := ls[..|ls| - 1];
    if |ls| == 2 {
      assert ls[1..] == [ls[1]];
    } else {
      JoinLast(ls[1..]);
      assert init[1..] == ls[1..][..|ls| - 2];
    }
  }

  // ---- the pane ----

  /** A host's answer; `text` is its bytes, decoded. */
  datatype FileReply = FileReply(path: string, text: string, size: nat, truncated: bool, binary: bool, readonly: bool, hash: string, error: string)

  datatype LoadState = Loading | Ready | Failed(error: string)

  function Widest(width: Width, ls: seq<string>): (n: nat)
    ensures forall i :: 0 <= i < |ls| ==> ColsFrom(width, ls[i], 0) <= n
    ensures ls == [] ==> n == 0
    ensures ls != [] ==> exists i :: 0 <= i < |ls| && n == ColsFrom(width, ls[i], 0)
  {
    if ls == [] then 0
    else
      var rest, here := Widest(width, ls[1..]), ColsFrom(width, ls[0], 0);
      assert forall i :: 0 <= i < |ls[1..]| ==> ls[1..][i] == ls[i + 1];
      if rest > here then rest else here
  }

  class EditorPane {
    const width: Width
    var path: string
    var size: nat
    var truncated: bool
    var binary: bool
    var readonly: bool
    var hash: string
    var lines: seq<string>
    var widestCols: nat
    var state: LoadState

    constructor (width: Width, path: string)
      ensures this.width == width && this.path == path && lines == [] && widestCols == 0 && state == Loading
    {
      this.width := width;
      this.path := path;
      size, truncated, binary, readonly, hash := 0, false, false, false, "";
      lines, widestCols, state := [], 0, Loading;
    }

    /** Fill from a host's answer; an error changes nothing but the state. */
    method Apply(reply: FileReply)
      modifies this
      ensures reply.error != [] ==>
        && state == Failed(reply.error) && lines == old(lines) && path == old(path) && size == old(size)
        && truncated == old(truncated) && binary == old(binary) && readonly == old(readonly)
        && hash == old(hash) && widestCols == old(widestCols)
      ensures reply.error == [] ==>
        && state == Ready && path == reply.path && size == reply.size && hash == reply.hash
        && truncated == reply.truncated && binary == reply.binary
        && (readonly <==> reply.readonly || reply.truncated)
        && lines == (if reply.binary then [] else Lines(reply.text)) && widestCols == Widest(width, lines)
    {
      hide Pieces, StripAll, Widest, ColsFrom;
      if reply.error != [] {
        state := Failed(reply.error);
        return;
      }
      path, size, truncated, binary := reply.path, reply.size, reply.truncated, reply.binary;
      readonly := reply.readonly || reply.truncated;
      hash := reply.hash;
      if reply.binary {
        lines := [];
      } else if reply.text == [] {
        lines := [];
      } else {
        lines := StripAll(Pieces(reply.text));
        if reply.text[|reply.text| - 1] == '\n' {
          lines := lines[..|lines| - 1];
        }
      }
      widestCols := Widest(width, lines);
      state := Ready;
    }
  }
}
